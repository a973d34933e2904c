/** The page rendering protocol of the realm crate (src/page.rs): the default
    methods of the `Page` trait and the choice of response body by rendering
    mode.

    What the trait leans on is passed in explicitly: the page value, the
    page's own `realm_id` and any overrides of `realm_config`, `realm_json`
    and `widget_spec` (`PageImpl`), the serde_json operations (`Codec`) and the HTML rendering
    capability. The mode is an input, since detecting it is not part of this
    model. */
module Pages {
  import opened Errors

  /** `crate::Mode`. */
  datatype Mode = API | HTML | Layout

  /** `serde_json::Value` (numbers restricted to integers). */
  datatype Json =
    | Null
    | Bool(b: bool)
    | Number(n: int)
    | Str(s: string)
    | Array(items: seq<Json>)
    | Object(fields: map<string, Json>)

  /** `crate::WidgetSpec`: the `{id, config}` descriptor of a page. */
  datatype WidgetSpec = WidgetSpec(id: string, config: Json)

  /** `crate::Response`: status, headers and body text. */
  datatype Response = Response(status: nat, headers: seq<(string, string)>, body: string)

  const StatusOk: nat := 200

  /** `Response::new(body)`: status 200 and no headers. */
  function NewResponse(body: string): Response {
    Response(StatusOk, [], body)
  }

  /** The serde_json operations the trait uses, each of which may fail:
      `to_value` of the page, `to_string` of a value, `to_string` of a
      widget spec. */
  datatype Codec<-P> = Codec(
    toValue: P -> Result<Json>,
    valueToString: Json -> Result<string>,
    specToString: WidgetSpec -> Result<string>)

  /** A trait method that an implementation either inherits or overrides. */
  datatype Override<+F> = Inherited | Overridden(f: F)

  /** What a page type implements: the required `realm_id` and, optionally,
      its own `realm_config`, `realm_json` and `widget_spec`. */
  datatype PageImpl<-P> = PageImpl(
    realmId: P -> string,
    realmConfig: Override<P -> Result<Json>>,
    realmJson: Override<P -> Result<Json>>,
    widgetSpec: Override<P -> Result<WidgetSpec>>)

  /** The HTML capability: renders a widget spec to a document, or fails. */
  type Html = WidgetSpec -> Result<string>

  /** `realm_config`: by default the serde serialisation of the page itself. */
  function RealmConfig<P>(impl: PageImpl<P>, codec: Codec<P>, page: P): Result<Json> {
    match impl.realmConfig
    case Inherited => codec.toValue(page)
    case Overridden(f) => f(page)
  }

  /** `realm_json`: by default `realm_config`. */
  function RealmJson<P>(impl: PageImpl<P>, codec: Codec<P>, page: P): Result<Json> {
    match impl.realmJson
    case Inherited => RealmConfig(impl, codec, page)
    case Overridden(f) => f(page)
  }

  /** The default `widget_spec`: the page's id and config; fails exactly
      when the config fails, with the same error. */
  function WidgetSpecOf<P>(impl: PageImpl<P>, codec: Codec<P>, page: P): (r: Result<WidgetSpec>)
    ensures r.Ok? <==> RealmConfig(impl, codec, page).Ok?
    ensures r.Ok? ==> r.value.id == impl.realmId(page) && r.value.config == RealmConfig(impl, codec, page).value
    ensures r.Err? ==> r.error == RealmConfig(impl, codec, page).error
  {
    var config :- RealmConfig(impl, codec, page);
    Ok(WidgetSpec(impl.realmId(page), config))
  }

  /** `self.widget_spec()`: the page's own `widget_spec`, or the default. */
  function WidgetSpecFor<P>(impl: PageImpl<P>, codec: Codec<P>, page: P): Result<WidgetSpec> {
    match impl.widgetSpec
    case Inherited => WidgetSpecOf(impl, codec, page)
    case Overridden(f) => f(page)
  }

  /** The body `page_with_response` writes for the given mode. */
  function BodyFor<P>(impl: PageImpl<P>, codec: Codec<P>, page: P, mode: Mode, html: Html): Result<string> {
    match mode
    case API =>
      var json :- RealmJson(impl, codec, page);
      codec.valueToString(json)
    case HTML =>
      var spec :- WidgetSpecFor(impl, codec, page);
      html(spec)
    case Layout =>
      var spec :- WidgetSpecFor(impl, codec, page);
      codec.specToString(spec)
  }

  /** `page_with_response`: the supplied response with its body replaced by
      the one the mode selects; any failure is returned instead. */
  function PageWithResponse<P>(impl: PageImpl<P>, codec: Codec<P>, page: P, mode: Mode, html: Html, resp: Response)
    : (r: Result<Response>)
    ensures r.Ok? ==> r.value.status == resp.status && r.value.headers == resp.headers
    ensures r.Ok? ==> r.value == resp.(body := r.value.body)
  {
    var body :- BodyFor(impl, codec, page, mode, html);
    Ok(resp.(body := body))
  }

  /** `page`: `page_with_response` on a new response with an empty body. */
  function Page<P>(impl: PageImpl<P>, codec: Codec<P>, page: P, mode: Mode, html: Html): (r: Result<Response>)
    ensures r.Ok? ==> r.value.status == StatusOk && r.value.headers == []
  {
    PageWithResponse(impl, codec, page, mode, html, NewResponse(""))
  }

  /** By default `realm_config` is the serialisation of the page value and
      `realm_json` is `realm_config`. */
  lemma DefaultConfigIsPageValue<P>(impl: PageImpl<P>, codec: Codec<P>, page: P)
    requires impl.realmConfig.Inherited?
    ensures RealmConfig(impl, codec, page) == codec.toValue(page)
    ensures impl.realmJson.Inherited? ==> RealmJson(impl, codec, page) == codec.toValue(page)
  {
  }

  /** API mode: the body is the serialisation of `realm_json()`; a failure of
      either step is the result. */
  lemma ApiBody<P>(impl: PageImpl<P>, codec: Codec<P>, page: P, html: Html, resp: Response)
    ensures var r := PageWithResponse(impl, codec, page, API, html, resp);
      match RealmJson(impl, codec, page)
      case Err(e) => r == Err(e)
      case Ok(json) =>
        match codec.valueToString(json)
        case Err(e) => r == Err(e)
        case Ok(text) => r == Ok(resp.(body := text))
  {
  }

  /** HTML mode: the body is whatever the capability returns for
      `widget_spec()`, which by default is `{realm_id(), realm_config()}`. */
  lemma HtmlBody<P>(impl: PageImpl<P>, codec: Codec<P>, page: P, html: Html, resp: Response)
    ensures var r := PageWithResponse(impl, codec, page, HTML, html, resp);
      match WidgetSpecFor(impl, codec, page)
      case Err(e) => r == Err(e)
      case Ok(spec) =>
        match html(spec)
        case Err(e) => r == Err(e)
        case Ok(doc) => r == Ok(resp.(body := doc))
    ensures var r := PageWithResponse(impl, codec, page, HTML, html, resp);
      impl.widgetSpec.Inherited? ==>
      match RealmConfig(impl, codec, page)
      case Err(e) => r == Err(e)
      case Ok(config) =>
        match html(WidgetSpec(impl.realmId(page), config))
        case Err(e) => r == Err(e)
        case Ok(doc) => r == Ok(resp.(body := doc))
  {
  }

  /** Layout mode: the body is the serialisation of `widget_spec()`, by
      default `{realm_id(), realm_config()}`, not of the bare config. */
  lemma LayoutBody<P>(impl: PageImpl<P>, codec: Codec<P>, page: P, html: Html, resp: Response)
    ensures var r := PageWithResponse(impl, codec, page, Layout, html, resp);
      match WidgetSpecFor(impl, codec, page)
      case Err(e) => r == Err(e)
      case Ok(spec) =>
        match codec.specToString(spec)
        case Err(e) => r == Err(e)
        case Ok(text) => r == Ok(resp.(body := text))
    ensures var r := PageWithResponse(impl, codec, page, Layout, html, resp);
      impl.widgetSpec.Inherited? ==>
      match RealmConfig(impl, codec, page)
      case Err(e) => r == Err(e)
      case Ok(config) =>
        match codec.specToString(WidgetSpec(impl.realmId(page), config))
        case Err(e) => r == Err(e)
        case Ok(text) => r == Ok(resp.(body := text))
  {
  }

  /** When `realm_json` and `widget_spec` are inherited, API and Layout
      serialise the same config: API the bare value, Layout the value
      wrapped with the id. */
  lemma ApiAndLayoutShareConfig<P>(impl: PageImpl<P>, codec: Codec<P>, page: P, html: Html, resp: Response)
    requires impl.realmJson.Inherited? && impl.widgetSpec.Inherited?
    requires RealmConfig(impl, codec, page).Ok?
    ensures var config := RealmConfig(impl, codec, page).value;
      && BodyFor(impl, codec, page, API, html) == codec.valueToString(config)
      && BodyFor(impl, codec, page, Layout, html) == codec.specToString(WidgetSpec(impl.realmId(page), config))
  {
  }

  /** Whether rendering succeeds, and with which body or error, does not
      depend on the response supplied; only its body is replaced. */
  lemma OutcomeIndependentOfResponse<P>(impl: PageImpl<P>, codec: Codec<P>, page: P, mode: Mode, html: Html,
                                        resp1: Response, resp2: Response)
    ensures var r1 := PageWithResponse(impl, codec, page, mode, html, resp1);
            var r2 := PageWithResponse(impl, codec, page, mode, html, resp2);
      && (r1.Ok? <==> r2.Ok?)
      && (r1.Ok? ==> r1.value.body == r2.value.body)
      && (r1.Err? ==> r1.error == r2.error)
  {
  }

  /** `page` is `page_with_response` on a fresh, empty response: it fails
      exactly when `page_with_response` fails on any response. */
  lemma PageIsFreshResponse<P>(impl: PageImpl<P>, codec: Codec<P>, page: P, mode: Mode, html: Html, resp: Response)
    ensures var r := Page(impl, codec, page, mode, html);
            var s := PageWithResponse(impl, codec, page, mode, html, resp);
      && (r.Ok? <==> s.Ok?)
      && (r.Ok? ==> r.value == NewResponse(s.value.body))
      && (r.Err? ==> r.error == s.error)
  {
    OutcomeIndependentOfResponse(impl, codec, page, mode, html, NewResponse(""), resp);
  }
}
