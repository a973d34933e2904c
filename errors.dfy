/** The error taxonomy of the realm crate (src/lib.rs): the closed `Error`
    enum, the `error` helper that builds a single-field form error, the
    `From` conversions from collaborator errors and the `or_404` translation.

    `failure::Error`, the boxed error every fallible operation of the crate
    returns, is modelled by `Failure`: either one of the crate's own `Error`
    values or a foreign error known only by its display text. */
module Errors {

  /** `crate::request_config::Error`: opaque, known by its `Debug` text. */
  datatype RequestConfigError = RequestConfigError(debug: string)

  /** `http::Error`: opaque, known by its `Display` text. */
  datatype HttpLibError = HttpLibError(text: string)

  /** `std::env::VarError`: opaque, known by its `Display` text. */
  datatype EnvVarError = EnvVarError(text: string)

  /** `diesel::result::Error`: opaque, known by its `Display` text. */
  datatype DieselResultError = DieselResultError(text: string)

  /** The seven kinds of `crate::Error`. */
  datatype Error =
    | PageNotFound(message: string)
    | InputError(inputError: RequestConfigError)
    | FormError(errors: map<string, string>)
    | CustomError(message: string)
    | HttpError(httpError: HttpLibError)
    | VarError(varError: EnvVarError)
    | DieselError(dieselError: DieselResultError)

  /** `failure::Error`: a crate error, an `err_msg` message, an I/O error or
      a serde_json error. The last three are represented by their text. */
  datatype Failure =
    | Realm(error: Error)
    | Message(text: string)
    | Io(text: string)
    | SerdeJson(text: string)

  /** `Result<T, failure::Error>`, usable with `:-`. */
  datatype Result<+T> = Ok(value: T) | Err(error: Failure) {
    predicate IsFailure() {
      Err?
    }

    function PropagateFailure<U>(): Result<U>
      requires Err?
    {
      Err(error)
    }

    function Extract(): T
      requires Ok?
    {
      value
    }
  }

  datatype Option<+T> = None | Some(value: T)

  /** The collaborator error a variant marked `#[cause]` wraps. */
  datatype Cause =
    | ConfigCause(requestConfig: RequestConfigError)
    | HttpCause(http: HttpLibError)
    | VarCause(env: EnvVarError)
    | DieselCause(diesel: DieselResultError)

  /** Renders a form-error map the way `HashMap`'s `Debug` does; its entry
      order is unspecified, so it is a parameter of every display. */
  type FormDebug = map<string, string> -> string

  const NotFoundPrefix: string := "404 Page Not Found: "

  /** The `#[fail(display = ...)]` text of each variant. */
  function ErrorText(e: Error, formDebug: FormDebug): string {
    match e
    case PageNotFound(message) => NotFoundPrefix + message
    case InputError(error) => "Input Error: " + error.debug
    case FormError(errors) => "Form Error: " + formDebug(errors)
    case CustomError(message) => "Internal Server Error: " + message
    case HttpError(error) => "HTTP Error: " + error.text
    case VarError(error) => "Env Var Error: " + error.text
    case DieselError(error) => "Diesel Error: " + error.text
  }

  /** `failure::Error`'s `Display`: that of the error it boxes. */
  function FailureText(f: Failure, formDebug: FormDebug): string {
    match f
    case Realm(e) => ErrorText(e, formDebug)
    case Message(text) => text
    case Io(text) => text
    case SerdeJson(text) => text
  }

  /** `Fail::cause` for the crate's error: the wrapped collaborator error. */
  function CauseOf(e: Error): Option<Cause> {
    match e
    case InputError(error) => Some(ConfigCause(error))
    case HttpError(error) => Some(HttpCause(error))
    case VarError(error) => Some(VarCause(error))
    case DieselError(error) => Some(DieselCause(error))
    case _ => None
  }

  /** `impl From<diesel::result::Error> for Error`. */
  function FromDiesel(error: DieselResultError): Error {
    DieselError(error)
  }

  /** `impl From<std::env::VarError> for Error`. */
  function FromVar(error: EnvVarError): Error {
    VarError(error)
  }

  /** `impl From<http::Error> for Error`. */
  function FromHttp(error: HttpLibError): Error {
    HttpError(error)
  }

  /** `impl From<crate::request_config::Error> for Error`. */
  function FromRequestConfig(error: RequestConfigError): Error {
    InputError(error)
  }

  /** The conversion that applies to a given collaborator error. */
  function FromCause(c: Cause): Error {
    match c
    case ConfigCause(error) => FromRequestConfig(error)
    case HttpCause(error) => FromHttp(error)
    case VarCause(error) => FromVar(error)
    case DieselCause(error) => FromDiesel(error)
  }

  /** Every conversion wraps its argument unchanged, as the cause of the
      one variant reserved for that collaborator. */
  lemma FromConversionsKeepCause(c: Cause)
    ensures CauseOf(FromCause(c)) == Some(c)
    ensures c.ConfigCause? <==> FromCause(c).InputError?
    ensures c.HttpCause? <==> FromCause(c).HttpError?
    ensures c.VarCause? <==> FromCause(c).VarError?
    ensures c.DieselCause? <==> FromCause(c).DieselError?
  {
  }

  /** Conversely, the errors that wrap a cause are exactly the images of the
      conversions; `PageNotFound`, `FormError` and `CustomError` wrap none. */
  lemma CauseOnlyFromConversions(e: Error)
    ensures CauseOf(e).None? <==> e.PageNotFound? || e.FormError? || e.CustomError?
    ensures CauseOf(e).Some? ==> FromCause(CauseOf(e).value) == e
  {
  }

  /** `error(key, message)`: an `Err` holding a `FormError` whose map is
      built empty and then given the single entry `key ↦ message`. */
  method MakeError<T>(key: string, message: string) returns (r: Result<T>)
    ensures r.Err? && r.error.Realm? && r.error.error.FormError?
    ensures r.error.error.errors.Keys == {key}
    ensures r.error.error.errors[key] == message
  {
    var errors: map<string, string> := map[];
    errors := errors[key := message];
    r := Err(Realm(FormError(errors)));
  }

  /** `or_404`: `Ok` is left alone; any error becomes `PageNotFound` whose
      message is the display text of the original. */
  function Or404<T>(r: Result<T>, formDebug: FormDebug): (t: Result<T>)
    ensures r.Ok? ==> t == r
    ensures r.Err? ==> t.Err? && t.error.Realm? && t.error.error.PageNotFound?
    ensures r.Err? ==> t.error.error.message == FailureText(r.error, formDebug)
    ensures r.Err? ==> FailureText(t.error, formDebug) == NotFoundPrefix + FailureText(r.error, formDebug)
  {
    match r
    case Ok(_) => r
    case Err(e) => Err(Realm(PageNotFound(FailureText(e, formDebug))))
  }

  /** `sub` occurs in `s` starting at index `i`. */
  predicate OccursAt(s: string, sub: string, i: int) {
    0 <= i && i + |sub| <= |s| && s[i..i + |sub|] == sub
  }

  predicate Contains(s: string, sub: string) {
    exists i | 0 <= i <= |s| - |sub| :: OccursAt(s, sub, i)
  }

  lemma ContainsAfterPrefix(prefix: string, s: string, sub: string)
    requires Contains(s, sub)
    ensures Contains(prefix + s, sub)
  {
    var i :| 0 <= i <= |s| - |sub| && OccursAt(s, sub, i);
    assert (prefix + s)[|prefix| + i..|prefix| + i + |sub|] == s[i..i + |sub|];
    assert OccursAt(prefix + s, sub, |prefix| + i);
  }

  /** Any text found in the original error (such as "missing widget") is
      still found, both in the `PageNotFound` message and in its display. */
  lemma Or404KeepsText<T>(r: Result<T>, formDebug: FormDebug, sub: string)
    requires r.Err? && Contains(FailureText(r.error, formDebug), sub)
    ensures Contains(Or404(r, formDebug).error.error.message, sub)
    ensures Contains(FailureText(Or404(r, formDebug).error, formDebug), sub)
  {
    ContainsAfterPrefix(NotFoundPrefix, FailureText(r.error, formDebug), sub);
  }

  /** `or_404` is not idempotent on errors: translating twice nests the
      "404 Page Not Found: " prefix inside the message. */
  lemma Or404NotIdempotent<T>(r: Result<T>, formDebug: FormDebug)
    requires r.Err?
    ensures Or404(Or404(r, formDebug), formDebug).error.error.message
         == NotFoundPrefix + FailureText(r.error, formDebug)
    ensures Or404(Or404(r, formDebug), formDebug) != Or404(r, formDebug)
  {
    var once := Or404(r, formDebug);
    var twice := Or404(once, formDebug);
    assert |twice.error.error.message| == |NotFoundPrefix| + |once.error.error.message|;
  }

  /** On `Ok` the translation is the identity, however often it is applied. */
  lemma Or404OkIdempotent<T>(r: Result<T>, formDebug: FormDebug)
    requires r.Ok?
    ensures Or404(Or404(r, formDebug), formDebug) == r
  {
  }
}
