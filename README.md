# realm core, modelled in Dafny

This project models the core of the `realm` Rust crate, a server-side
rendering layer. A page can be served three ways: as a full HTML document,
as a JSON API payload, or as a JSON "layout" descriptor (`{id, config}`) for
a client-side renderer. The project has three modules, one per source file:

- `Errors` (`errors.dfy`, from `src/lib.rs`): the closed `Error` enum with
  seven variants and the display text of each. It also models
  `failure::Error`, the boxed error that every fallible call returns, as
  `Failure`. Then come the `error(key, message)` helper, the four `From`
  conversions and the `or_404` translation.
- `Pages` (`pages.dfy`, from `src/page.rs`): the default methods of the
  `Page` trait (`realm_config`, `realm_json`, `widget_spec`,
  `page_with_response`, `page`). A page type's own `realm_id` is a field of
  `PageImpl`, as are its overrides of `realm_config`, `realm_json` and
  `widget_spec`, the defaults that `page_with_response` calls. serde_json's operations
  (`Codec`) and the HTML capability are function-valued parameters, and each
  may fail. The rendering mode is an input.
- `Settings` (`settings.dfy`, from `src/config.rs`): the class `Config` and
  its fields. It covers the start-up defaults for `static_dir` and
  `site_icon`, `static_path` (Rust's `Path::join` on `/`-separated paths),
  `content` (read a file under the static directory and trim it), and
  `init_elm` (read `latest.txt`, then `deps/<latest>/deps.json`, then walk
  the directory `deps/<latest>/`). The filesystem is a value. Each file
  path maps to the file's text or to the I/O error its read raises. Each
  directory path maps to its list of entries (any of which may fail) or to
  the error listing it raises. Parsing the manifest is a parameter.

`init_elm` is a method that updates `latest_elm` and `deps` in place. It is
proved against `InitElmEffect`, a pure state transformer. The lemmas about
`InitElmEffect` say which fields have changed when each step fails. The
directory loop is the method `WalkEntries`. It is proved equal to
`EntriesOutcome`, whose contract says the loop fails exactly on the first
bad entry.

The model follows what the code does, also where it departs from the
crate's intended design:
- API mode serialises `realm_json()`, not `realm_config()`. The two agree
  only when `realm_json` is inherited (`ApiAndLayoutShareConfig`).
- No content type is set. Only the body of the response is replaced.
- Resolution failures are not a separate `NotFound`/`ParseError`/`IoError`
  family. A missing file is the message `File not found: <path>`, where
  `<path>` is the relative path that was asked for. Read errors and listing
  errors are I/O errors, and a bad manifest is a serde_json error.
- An empty `latest.txt` is accepted: the version becomes the empty string.
- The directory walk checks only that every entry can be read. It does not
  compare the entries with the manifest's file lists.

## Model

| member | source | states |
|---|---|---|
| `Errors.FromConversionsKeepCause` | src/lib.rs:113-135 | each `From` conversion puts its collaborator error, unchanged, as the cause of its own variant: diesel→`DieselError`, env→`VarError`, http→`HttpError`, request_config→`InputError` |
| `Errors.CauseOnlyFromConversions` | src/lib.rs:68-104 | exactly the four `#[cause]` variants wrap a collaborator error, and each such error is the image of its conversion; `PageNotFound`, `FormError` and `CustomError` wrap none |
| `Errors.MakeError` | src/lib.rs:106-111 | `error(key, message)` always returns `Err(FormError)` whose map has exactly one key, `key`, mapped to `message` |
| `Errors.Or404` | src/lib.rs:137-150 | `Ok` passes through unchanged; any `Err(e)` becomes `PageNotFound` whose message is `e`'s display text, so its own display is "404 Page Not Found: " followed by that text |
| `Errors.Or404KeepsText` | src/lib.rs:143-147 | any text found in the original error's display (such as "missing widget") is also found in the translated message and in the translated error's display |
| `Errors.Or404NotIdempotent` | src/lib.rs:141-149 | translating an error twice nests the "404 Page Not Found: " prefix inside the message, so the result differs from translating once |
| `Errors.Or404OkIdempotent` | src/lib.rs:141-149 | on `Ok` the translation is the identity, however often it is applied |
| `Pages.DefaultConfigIsPageValue` | src/page.rs:5-10 | by default `realm_config()` is the serde value of the page itself and `realm_json()` equals `realm_config()` |
| `Pages.WidgetSpecOf` | src/page.rs:27-32 | `widget_spec()` has `id == realm_id()` and `config == realm_config()`, and fails exactly when `realm_config()` fails, with the same error |
| `Pages.PageWithResponse` | src/page.rs:11-23 | on success the returned response equals the supplied one except for its body; status and headers are unchanged |
| `Pages.ApiBody` | src/page.rs:18 | in API mode the body is exactly the serialisation of `realm_json()`; a failure of `realm_json` or of the serialisation is the result |
| `Pages.HtmlBody` | src/page.rs:19 | in HTML mode the body is whatever the HTML capability returns for `widget_spec()`, which by default is `{realm_id(), realm_config()}`; a spec or render failure is the result |
| `Pages.LayoutBody` | src/page.rs:20 | in Layout mode the body is the serialisation of `widget_spec()`, by default `{realm_id(), realm_config()}`, not of the bare config; every failure propagates |
| `Pages.ApiAndLayoutShareConfig` | src/page.rs:17-21 | with `realm_json` and `widget_spec` inherited, API serialises the same config value that Layout embeds next to the id |
| `Pages.OutcomeIndependentOfResponse` | src/page.rs:15-22 | success, body and error do not depend on the response passed in; only its body is replaced |
| `Pages.Page` | src/page.rs:24-26 | `page` returns, on success, a response with status 200 and no headers |
| `Pages.PageIsFreshResponse` | src/page.rs:24-26 | `page` succeeds exactly when `page_with_response` does, with the same body or error, and its response is a fresh one carrying that body |
| `Settings.OrDefault` | src/config.rs:36-41 | a non-empty setting is kept; an empty one takes the fallback |
| `Settings.DefaultsIdempotent` | src/config.rs:36-41 | after the defaults `static_dir` and `site_icon` are non-empty, and applying the defaults again changes nothing |
| `Settings.Config.ApplyDefaults` | src/config.rs:36-41 | an empty `static_dir` becomes "static" and an empty `site_icon` "/static/favicon.ico"; non-empty values are untouched and no other field changes |
| `Settings.Config.constructor` | src/config.rs:3-28 | `Config::default()` has every field empty |
| `Settings.JoinCases` | src/config.rs:49-51 | `Path::join`: an absolute `rest` replaces the base; otherwise the result is the base followed by `rest`, with one `/` in between when the base is non-empty and does not already end in `/`; the result always ends with `rest` |
| `Settings.StaticPath` | src/config.rs:49-51 | `static_path(rest)` ends with `rest` and, for a relative `rest`, starts with `static_dir` |
| `Settings.TrimStart` | src/config.rs:73 | the result is a suffix of the input that does not start with whitespace, and everything cut off is whitespace |
| `Settings.TrimEnd` | src/config.rs:73 | the result is a prefix of the input that does not end with whitespace, and everything cut off is whitespace |
| `Settings.Trim` | src/config.rs:73 | the result is a contiguous part of the input, neither end of it is whitespace, and everything cut off on either side is whitespace |
| `Settings.TrimUnique` | src/config.rs:73 | any way of cutting whitespace off both ends that leaves no whitespace at either end yields `trim()`'s result |
| `Settings.TrimIdempotent` | src/config.rs:73 | trimming a trimmed string changes nothing |
| `Settings.TrimVersionMarker` | src/config.rs:73 | "1.2.3\n" trims to "1.2.3" |
| `Settings.ContentCases` | src/config.rs:65-77 | `content(p)`: a missing file fails with "File not found: " + `p`; a read error is returned as it is; otherwise the result is the file's text trimmed |
| `Settings.Config.Content` | src/config.rs:65-77 | the method, which reads into a fresh buffer, returns what `ContentOf` specifies for the current `static_dir` |
| `Settings.ReadDir` | src/config.rs:58 | `read_dir` succeeds exactly on a listable directory, yielding its entries; otherwise it fails with an I/O error |
| `Settings.EntriesOutcome` | src/config.rs:58-61 | iterating the entries succeeds exactly when every entry is readable; otherwise it fails with the error of the first bad entry |
| `Settings.WalkEntries` | src/config.rs:58-61 | the loop over directory entries returns exactly `EntriesOutcome` and changes nothing |
| `Settings.InitElmLatestMissing` | src/config.rs:54 | a missing `latest.txt` fails with "File not found: latest.txt", and neither `latest_elm` nor `deps` changes |
| `Settings.InitElmManifestFails` | src/config.rs:55-56 | a missing or unparsable `deps/<latest>/deps.json` fails after `latest_elm` has been updated, with `deps` unchanged |
| `Settings.InitElmDirectoryFails` | src/config.rs:58 | an unlistable `deps/<latest>/` fails with an I/O error after both `latest_elm` and `deps` have been updated |
| `Settings.InitElmSucceeds` | src/config.rs:53-63 | when every read and the parse succeed, `latest_elm` is the trimmed `latest.txt`, `deps` is the parse of that version's manifest, and the result is that of walking the directory, whatever the fields held before |
| `Settings.InitElmOkOnlyIfEveryStepOk` | src/config.rs:53-63 | `init_elm` succeeds only if every step succeeds, every directory entry included, and then `latest_elm` and `deps` hold what was read |
| `Settings.Config.InitElm` | src/config.rs:53-63 | the method leaves `latest_elm`, `deps` and its result as `InitElmEffect` specifies for the old field values, and changes no other field |

## Left out

- `Mode::detect`: `src/mode.rs` is not part of this model, so the mode is an explicit input.
- The global `CONFIG`: loading `realm.json` from the current directory, and the panics of its `expect` calls, are process-wide I/O. Only the defaults step (`ApplyDefaults`) and `init_elm` are modelled.
- Overrides of `page_with_response` and `page`: the model gives their default bodies. A page that overrides one of them replaces that body entirely and is not represented.
- Real file I/O. `File::open`, `read_to_string` and `read_dir` act on an abstract filesystem. Paths are exact strings, and only `/`-separated relative and absolute paths are joined. There is no `.`/`..` normalisation and no Windows prefixes.
- Opening a directory as a file: Rust's `File::open` succeeds on a directory and the read then fails. In the model, a path that is only a directory counts as a missing file.
- serde_json parsing and serialisation, and askama rendering: these are foreign library calls. They appear as parameters that may fail. `Json` has integer numbers only.
- Payloads of the diesel, http, env and request_config errors: each is an opaque value known only by its display or debug text. The debug rendering of a `FormError` map is a parameter, because `HashMap` iteration order is unspecified.
- `src/response.rs` is not part of this model. The response is a status, a list of headers and a text body. `Response::new` gives status 200 and no headers. The conversion of the body `String` into bytes is not modelled.
- The `compile_error!` feature gate, crate and macro imports, module declarations and re-exports (src/lib.rs:1-60): these are build plumbing.
- The marker traits `Subject`, `Text`, `HTML` and `UserData`: they carry no behaviour.
- `Settings.ReadDir`: when the directory does not exist, the model's error text is Linux's "No such file or directory (os error 2)". It is not derived from the platform.
- The unused `entry.path()` inside the directory loop: it has no effect, so the loop body only checks each entry.
