/** The crate's configuration (src/config.rs): the start-up defaults, path
    resolution under the static directory, reading a trimmed file, and the
    resolution of the latest frontend asset version and its dependency
    manifest (`init_elm`).

    The filesystem is a value: files and directories keyed by exact path
    string. serde_json's parse of the manifest is a parameter that may fail. */
module Settings {
  import opened Errors

  /** What opening and reading a file yields: its text, or the I/O error of
      `read_to_string` (for instance, contents that are not UTF-8). */
  datatype FileContent = Text(text: string) | Unreadable(reason: string)

  /** One item produced by iterating `read_dir`. */
  datatype DirEntry = Entry(name: string) | BadEntry(reason: string)

  /** What `read_dir` yields for a directory path. */
  datatype Listing = Listed(entries: seq<DirEntry>) | Unlistable(reason: string)

  datatype FileSystem = FileSystem(files: map<string, FileContent>, dirs: map<string, Listing>)

  /** The manifest: bundle name to ordered file paths. */
  type Deps = map<string, seq<string>>

  /** `serde_json::from_str::<HashMap<String, Vec<String>>>`. */
  type DepsParser = string -> Result<Deps>

  const DefaultStaticDir: string := "static"
  const DefaultSiteIcon: string := "/static/favicon.ico"
  const LatestFile: string := "latest.txt"
  /** The I/O error text of `read_dir` on a path that does not exist. */
  const NoSuchDirectory: string := "No such file or directory (os error 2)"

  function DepsFile(version: string): string {
    "deps/" + version + "/deps.json"
  }

  function DepsDir(version: string): string {
    "deps/" + version + "/"
  }

  /** `Path::join` on `/`-separated paths: an absolute `rest` replaces the
      base; otherwise `rest` is appended, with a `/` in between unless the
      base is empty or already ends with one. */
  function Join(dir: string, rest: string): string {
    if rest != [] && rest[0] == '/' then rest
    else if dir == [] || dir[|dir| - 1] == '/' then dir + rest
    else dir + "/" + rest
  }

  /** The three cases of `Join`, and that the result always ends with
      `rest`. */
  lemma JoinCases(dir: string, rest: string)
    ensures var p := Join(dir, rest);
      && |rest| <= |p| && p[|p| - |rest|..] == rest
      && (rest != [] && rest[0] == '/' ==> p == rest)
      && ((rest == [] || rest[0] != '/') && (dir == [] || dir[|dir| - 1] == '/') ==> p == dir + rest)
      && ((rest == [] || rest[0] != '/') && dir != [] && dir[|dir| - 1] != '/' ==> p == dir + "/" + rest)
  {
  }

  /** `static_path`: `rest` resolved under the static directory. */
  function StaticPath(staticDir: string, rest: string): (p: string)
    ensures (rest == [] || rest[0] != '/') ==> |staticDir| <= |p| && p[..|staticDir|] == staticDir
    ensures |rest| <= |p| && p[|p| - |rest|..] == rest
  {
    JoinCases(staticDir, rest);
    Join(staticDir, rest)
  }

  /** Rust's `char::is_whitespace`: the Unicode White_Space property. */
  predicate IsWhitespace(c: char) {
    || c == ' '
    || ('\t' <= c <= '\r')
    || c == '\U{85}'
    || c == '\U{A0}'
    || c == '\U{1680}'
    || ('\U{2000}' <= c <= '\U{200A}')
    || c == '\U{2028}'
    || c == '\U{2029}'
    || c == '\U{202F}'
    || c == '\U{205F}'
    || c == '\U{3000}'
  }

  /** `str::trim_start`: the longest suffix not starting with whitespace. */
  function TrimStart(s: string): (r: string)
    ensures |r| <= |s| && r == s[|s| - |r|..]
    ensures r == [] || !IsWhitespace(r[0])
    ensures forall k :: 0 <= k < |s| - |r| ==> IsWhitespace(s[k])
  {
    if s != [] && IsWhitespace(s[0]) then TrimStart(s[1..]) else s
  }

  /** `str::trim_end`: the longest prefix not ending with whitespace. */
  function TrimEnd(s: string): (r: string)
    ensures |r| <= |s| && r == s[..|r|]
    ensures r == [] || !IsWhitespace(r[|r| - 1])
    ensures forall k :: |r| <= k < |s| ==> IsWhitespace(s[k])
  {
    if s != [] && IsWhitespace(s[|s| - 1]) then TrimEnd(s[..|s| - 1]) else s
  }

  /** `t` is `s` with `i` whitespace characters cut from the front and the
      rest of the cut, all whitespace, from the back. */
  predicate TrimmedAt(s: string, t: string, i: int) {
    && 0 <= i && i + |t| <= |s| && s[i..i + |t|] == t
    && (forall k :: 0 <= k < i ==> IsWhitespace(s[k]))
    && (forall k :: i + |t| <= k < |s| ==> IsWhitespace(s[k]))
  }

  /** `str::trim`: `s` with leading and trailing whitespace removed. */
  function Trim(s: string): (r: string)
    ensures r == [] || (!IsWhitespace(r[0]) && !IsWhitespace(r[|r| - 1]))
    ensures exists i :: TrimmedAt(s, r, i)
  {
    var front := TrimStart(s);
    var r := TrimEnd(front);
    assert TrimmedAt(s, r, |s| - |front|) by {
      assert s[|s| - |front|..][..|r|] == s[|s| - |front|..|s| - |front| + |r|];
    }
    r
  }

  /** The trimming is the only one possible: cutting whitespace off both
      ends of `s` so that neither end of what remains is whitespace always
      leaves `Trim(s)`. */
  lemma {:induction false} TrimUnique(s: string, t: string, i: int)
    requires TrimmedAt(s, t, i)
    requires t == [] || (!IsWhitespace(t[0]) && !IsWhitespace(t[|t| - 1]))
    ensures Trim(s) == t
  {
    var u := Trim(s);
    var j :| TrimmedAt(s, u, j);
    // The ends of t and u are not whitespace, so neither can lie in a part
    // the other trimming cut off.
    if t != [] {
      assert s[i] == t[0] && s[i + |t| - 1] == t[|t| - 1];
    }
    if u != [] {
      assert s[j] == u[0] && s[j + |u| - 1] == u[|u| - 1];
    }
    assert |t| == |u| && (t != [] ==> i == j);
    assert t == s[i..i + |t|] == u;
  }

  /** Trimming twice is trimming once. */
  lemma TrimIdempotent(s: string)
    ensures Trim(Trim(s)) == Trim(s)
  {
    var t := Trim(s);
    assert t[0..0 + |t|] == t;
    TrimUnique(t, t, 0);
  }

  /** The version marker "1.2.3\n" is read as "1.2.3". */
  lemma TrimVersionMarker()
    ensures Trim("1.2.3\n") == "1.2.3"
  {
    assert TrimmedAt("1.2.3\n", "1.2.3", 0);
    TrimUnique("1.2.3\n", "1.2.3", 0);
  }

  /** What `content(path)` returns. */
  function ContentOf(fs: FileSystem, staticDir: string, path: string): Result<string> {
    var full := StaticPath(staticDir, path);
    if full !in fs.files then Err(Message("File not found: " + path))
    else
      match fs.files[full]
      case Unreadable(reason) => Err(Io(reason))
      case Text(text) => Ok(Trim(text))
  }

  /** `read_dir(path)`: the entries of a listable directory. */
  function ReadDir(fs: FileSystem, path: string): (r: Result<seq<DirEntry>>)
    ensures r.Ok? <==> path in fs.dirs && fs.dirs[path].Listed?
    ensures r.Ok? ==> r.value == fs.dirs[path].entries
    ensures r.Err? ==> r.error.Io?
  {
    if path !in fs.dirs then Err(Io(NoSuchDirectory))
    else
      match fs.dirs[path]
      case Unlistable(reason) => Err(Io(reason))
      case Listed(entries) => Ok(entries)
  }

  /** `k` is the first entry that the iteration fails on. */
  predicate FirstBadEntry(entries: seq<DirEntry>, k: int) {
    0 <= k < |entries| && entries[k].BadEntry? && forall j :: 0 <= j < k ==> entries[j].Entry?
  }

  /** The outcome of iterating `entries` with `entry?`: the error of the
      first failing entry, if any. */
  function EntriesOutcome(entries: seq<DirEntry>): (r: Result<()>)
    ensures r.Ok? <==> forall k :: 0 <= k < |entries| ==> entries[k].Entry?
    ensures r.Err? ==> exists k :: FirstBadEntry(entries, k) && r.error == Io(entries[k].reason)
  {
    if entries == [] then Ok(())
    else
      match entries[0]
      case BadEntry(reason) =>
        assert FirstBadEntry(entries, 0);
        Err(Io(reason))
      case Entry(_) =>
        var r := EntriesOutcome(entries[1..]);
        assert forall k :: 0 < k < |entries| ==> entries[k] == entries[1..][k - 1];
        assert r.Err? ==> exists k :: FirstBadEntry(entries[1..], k) && r.error == Io(entries[1..][k].reason);
        if r.Err? then
          var k :| FirstBadEntry(entries[1..], k) && r.error == Io(entries[1..][k].reason);
          assert FirstBadEntry(entries, k + 1);
          r
        else r
  }

  /** The loop over the directory entries: it visits them in order, stops at
      the first failing one and changes nothing. */
  method WalkEntries(entries: seq<DirEntry>) returns (r: Result<()>)
    ensures r == EntriesOutcome(entries)
  {
    var i := 0;
    while i < |entries|
      invariant 0 <= i <= |entries|
      invariant forall k :: 0 <= k < i ==> entries[k].Entry?
      invariant EntriesOutcome(entries) == EntriesOutcome(entries[i..])
    {
      match entries[i]
      case BadEntry(reason) =>
        return Err(Io(reason));
      case Entry(_) =>
        assert entries[i..][1..] == entries[i + 1..];
        i := i + 1;
    }
    r := Ok(());
  }

  /** The fields `init_elm` may change, and its result. */
  datatype ElmState = ElmState(outcome: Result<()>, latestElm: string, deps: Deps)

  /** `init_elm` as a state transformer: each step that succeeds commits its
      field before the next step runs; the first failure is returned with
      whatever has been committed so far. */
  function InitElmEffect(fs: FileSystem, parse: DepsParser, staticDir: string, latestElm: string, deps: Deps): ElmState {
    match ContentOf(fs, staticDir, LatestFile)
    case Err(e) => ElmState(Err(e), latestElm, deps)
    case Ok(latest) =>
      match ContentOf(fs, staticDir, DepsFile(latest))
      case Err(e) => ElmState(Err(e), latest, deps)
      case Ok(text) =>
        match parse(text)
        case Err(e) => ElmState(Err(e), latest, deps)
        case Ok(parsed) =>
          match ReadDir(fs, StaticPath(staticDir, DepsDir(latest)))
          case Err(e) => ElmState(Err(e), latest, parsed)
          case Ok(entries) => ElmState(EntriesOutcome(entries), latest, parsed)
  }

  /** `content(path)`: a missing file is "File not found: <path>"; a read
      error is returned as is; otherwise the trimmed text. */
  lemma ContentCases(fs: FileSystem, staticDir: string, path: string)
    ensures var full := StaticPath(staticDir, path);
      && (full !in fs.files ==> ContentOf(fs, staticDir, path) == Err(Message("File not found: " + path)))
      && (full in fs.files && fs.files[full].Text? ==>
            ContentOf(fs, staticDir, path) == Ok(Trim(fs.files[full].text)))
      && (full in fs.files && fs.files[full].Unreadable? ==>
            ContentOf(fs, staticDir, path) == Err(Io(fs.files[full].reason)))
  {
  }

  /** A missing `latest.txt` fails `init_elm` and changes neither field. */
  lemma InitElmLatestMissing(fs: FileSystem, parse: DepsParser, staticDir: string, latestElm: string, deps: Deps)
    requires StaticPath(staticDir, LatestFile) !in fs.files
    ensures InitElmEffect(fs, parse, staticDir, latestElm, deps)
         == ElmState(Err(Message("File not found: latest.txt")), latestElm, deps)
  {
    assert "File not found: " + LatestFile == "File not found: latest.txt";
  }

  /** A missing or unparsable manifest fails `init_elm` after `latest_elm`
      has been updated and before `deps` is. */
  lemma InitElmManifestFails(fs: FileSystem, parse: DepsParser, staticDir: string, latestElm: string, deps: Deps,
                             latest: string)
    ensures ContentOf(fs, staticDir, LatestFile) == Ok(latest) ==>
      var text := ContentOf(fs, staticDir, DepsFile(latest));
      var e := InitElmEffect(fs, parse, staticDir, latestElm, deps);
      (text.Err? || parse(text.value).Err?) ==>
        e.outcome.Err? && e.latestElm == latest && e.deps == deps
  {
    if ContentOf(fs, staticDir, LatestFile) == Ok(latest) {
      var text := ContentOf(fs, staticDir, DepsFile(latest));
      if text.Ok? {
        assert parse(text.value).Err? ==> InitElmEffect(fs, parse, staticDir, latestElm, deps).outcome == Err(parse(text.value).error);
      }
    }
  }

  /** An unlistable version directory fails `init_elm` with an I/O error
      after both fields have been updated. */
  lemma InitElmDirectoryFails(fs: FileSystem, parse: DepsParser, staticDir: string, latestElm: string, deps: Deps,
                              latest: string, text: string, parsed: Deps)
    ensures
      && ContentOf(fs, staticDir, LatestFile) == Ok(latest)
      && ContentOf(fs, staticDir, DepsFile(latest)) == Ok(text)
      && parse(text) == Ok(parsed)
      && ReadDir(fs, StaticPath(staticDir, DepsDir(latest))).Err?
      ==>
      var e := InitElmEffect(fs, parse, staticDir, latestElm, deps);
      e.outcome.Err? && e.outcome.error.Io? && e.latestElm == latest && e.deps == parsed
  {
    var listing := ReadDir(fs, StaticPath(staticDir, DepsDir(latest)));
    if listing.Err? {
      assert listing.error.Io?;
    }
  }

  /** When every step succeeds, `latest_elm` is the trimmed `latest.txt`,
      `deps` the parse of that version's manifest, and the result is that of
      walking the version directory, whatever the fields held before. */
  lemma InitElmSucceeds(fs: FileSystem, parse: DepsParser, staticDir: string, latestElm: string, deps: Deps,
                        latest: string, text: string, parsed: Deps, entries: seq<DirEntry>)
    ensures
      && ContentOf(fs, staticDir, LatestFile) == Ok(latest)
      && ContentOf(fs, staticDir, DepsFile(latest)) == Ok(text)
      && parse(text) == Ok(parsed)
      && ReadDir(fs, StaticPath(staticDir, DepsDir(latest))) == Ok(entries)
      ==>
      InitElmEffect(fs, parse, staticDir, latestElm, deps) == ElmState(EntriesOutcome(entries), latest, parsed)
  {
  }

  /** Conversely, `init_elm` succeeds only when every step does, every
      directory entry included. */
  lemma InitElmOkOnlyIfEveryStepOk(fs: FileSystem, parse: DepsParser, staticDir: string, latestElm: string, deps: Deps)
    ensures var e := InitElmEffect(fs, parse, staticDir, latestElm, deps);
      var text := ContentOf(fs, staticDir, DepsFile(e.latestElm));
      var listing := ReadDir(fs, StaticPath(staticDir, DepsDir(e.latestElm)));
      e.outcome.Ok? ==>
        && ContentOf(fs, staticDir, LatestFile) == Ok(e.latestElm)
        && text.Ok? && parse(text.value) == Ok(e.deps)
        && listing.Ok? && forall k :: 0 <= k < |listing.value| ==> listing.value[k].Entry?
  {
    if InitElmEffect(fs, parse, staticDir, latestElm, deps).outcome.Ok? {
      var latest := ContentOf(fs, staticDir, LatestFile);
      assert latest.Ok?;
      var text := ContentOf(fs, staticDir, DepsFile(latest.value));
      assert text.Ok?;
      assert parse(text.value).Ok?;
      var listing := ReadDir(fs, StaticPath(staticDir, DepsDir(latest.value)));
      assert listing.Ok?;
      assert EntriesOutcome(listing.value).Ok?;
    }
  }

  /** The start-up default: an empty setting takes the fallback, any other
      value is kept. */
  function OrDefault(value: string, fallback: string): (r: string)
    ensures value != "" ==> r == value
    ensures value == "" ==> r == fallback
  {
    if value == "" then fallback else value
  }

  /** Applying the defaults once leaves non-empty settings, and applying
      them again changes nothing. */
  lemma DefaultsIdempotent(value: string)
    ensures OrDefault(value, DefaultStaticDir) != ""
    ensures OrDefault(OrDefault(value, DefaultStaticDir), DefaultStaticDir) == OrDefault(value, DefaultStaticDir)
    ensures OrDefault(value, DefaultSiteIcon) != ""
    ensures OrDefault(OrDefault(value, DefaultSiteIcon), DefaultSiteIcon) == OrDefault(value, DefaultSiteIcon)
  {
  }

  /** `crate::config::Config`. */
  class Config {
    var context: string
    var siteIcon: string
    var css: seq<string>
    var headExtra: string
    var bodyExtra: string
    var siteTitlePrefix: string
    var siteTitlePostfix: string
    var staticDir: string
    var latestElm: string
    var deps: Deps
    var jsCode: map<string, string>

    /** `Config::default()`: every field empty. */
    constructor ()
      ensures context == "" && siteIcon == "" && css == [] && headExtra == "" && bodyExtra == ""
      ensures siteTitlePrefix == "" && siteTitlePostfix == "" && staticDir == ""
      ensures latestElm == "" && deps == map[] && jsCode == map[]
    {
      context, siteIcon, css, headExtra, bodyExtra := "", "", [], "", "";
      siteTitlePrefix, siteTitlePostfix, staticDir := "", "", "";
      latestElm, deps, jsCode := "", map[], map[];
    }

    /** The start-up normalisation: an empty `static_dir` becomes "static"
        and an empty `site_icon` "/static/favicon.ico". */
    method ApplyDefaults()
      modifies this`staticDir, this`siteIcon
      ensures staticDir == OrDefault(old(staticDir), DefaultStaticDir)
      ensures siteIcon == OrDefault(old(siteIcon), DefaultSiteIcon)
    {
      if staticDir == "" {
        staticDir := DefaultStaticDir;
      }
      if siteIcon == "" {
        siteIcon := DefaultSiteIcon;
      }
    }

    /** `content(path)`: opens the file under the static directory, reads
        it into a fresh buffer and returns the buffer trimmed. */
    method Content(fs: FileSystem, path: string) returns (r: Result<string>)
      ensures r == ContentOf(fs, staticDir, path)
    {
      var full := StaticPath(staticDir, path);
      if full !in fs.files {
        return Err(Message("File not found: " + path));
      }
      match fs.files[full]
      case Unreadable(reason) =>
        r := Err(Io(reason));
      case Text(text) =>
        var buffer := "";
        buffer := buffer + text;
        assert buffer == text;
        r := Ok(Trim(buffer));
    }

    /** `init_elm`: reads `latest.txt` into `latest_elm`, then that
        version's manifest into `deps`, then walks the version directory.
        No other field changes. */
    method InitElm(fs: FileSystem, parse: DepsParser) returns (r: Result<()>)
      modifies this`latestElm, this`deps
      ensures ElmState(r, latestElm, deps) == InitElmEffect(fs, parse, staticDir, old(latestElm), old(deps))
    {
      var latest :- Content(fs, LatestFile);
      latestElm := latest;
      var text :- Content(fs, DepsFile(latestElm));
      var parsed :- parse(text);
      deps := parsed;
      var entries :- ReadDir(fs, StaticPath(staticDir, DepsDir(latestElm)));
      r := WalkEntries(entries);
    }
  }
}
