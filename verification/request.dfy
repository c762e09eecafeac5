/**
 * The request builder of request.go: `BaseRequest`, a mutable record of the
 * method, the URL split into scheme, domain and path, three string maps
 * (query parameters, form parameters, headers) and the ordered multipart
 * parts; its setters, validation, URL composition, content-type tests, and
 * `GetBody`, which picks the body from the exact Content-Type header value.
 */
module Request {
  import opened Common
  import opened Text
  import opened FormEncoding

  const POST := "POST"
  const GET := "GET"
  const HTTP := "http"
  const HTTPS := "https"
  const DefaultPath := "/"

  const ContentTypeHeader := "Content-Type"
  const FormContentType := "application/x-www-form-urlencoded"
  const JsonContentType := "application/json"
  const MultipartContentType := "multipart/form-data"

  /** A multipart part: field name, file name ("" for a plain field), and the bytes its reader yields. */
  datatype Part = Part(fieldName: string, fileName: string, value: seq<byte>)

  /** The first required field `CheckValid` finds empty. */
  datatype Missing = NoMethod | NoScheme | NoDomain | NoPath

  /** The name of the field `m` reports missing. */
  function FieldName(m: Missing): string
  {
    match m
    case NoMethod => "method"
    case NoScheme => "scheme"
    case NoDomain => "domain"
    case NoPath => "path"
  }

  /** The text of the error `CheckValid` returns: "invalid request, no ", the missing field's name, " set". */
  function Message(m: Missing): (s: string)
    ensures |s| > 24 && s[..20] == "invalid request, no " && s[|s| - 4..] == " set"
    ensures s[20..|s| - 4] == FieldName(m)
  {
    match m
    case NoMethod => "invalid request, no method set"
    case NoScheme => "invalid request, no scheme set"
    case NoDomain => "invalid request, no domain set"
    case NoPath => "invalid request, no path set"
  }

  /** Different missing fields give different messages. */
  lemma MessageInjective(a: Missing, b: Missing)
    requires Message(a) == Message(b)
    ensures a == b
  {
    assert FieldName(a) == Message(a)[20..|Message(a)| - 4];
  }

  /** The three parts of a parsed URL that `SetUrl` keeps. */
  datatype ParsedUrl = ParsedUrl(scheme: string, host: string, path: string)

  /** Every field of a `BaseRequest`, as one value, to say what a setter leaves alone. */
  datatype Snapshot = Snapshot(
    httpMethod: string, scheme: string, domain: string, path: string,
    params: map<string, string>, formParams: map<string, string>,
    headers: map<string, string>, multipart: seq<Part>)

  // ---------------------------------------------------------------------------
  // Normalisation done by SetScheme and SetMethod

  /** `s` spells "http" in any mix of cases. */
  predicate IsHttpAnyCase(s: string)
  {
    |s| == 4 && forall i :: 0 <= i < 4 ==> s[i] == "http"[i] || s[i] == "HTTP"[i]
  }

  /** `s` spells "POST" in any mix of cases; Go also upper-cases U+017F (long s) to 'S'. */
  predicate IsPostAnyCase(s: string)
  {
    |s| == 4 && forall i :: 0 <= i < 4 ==> s[i] == "POST"[i] || s[i] == "post"[i] || (i == 2 && s[i] == '\U{017F}')
  }

  /** `strings.ToLower(s) == "http"` holds exactly for the case variants of "http". */
  lemma LowerIsHttp(s: string)
    ensures ToLower(s) == HTTP <==> IsHttpAnyCase(s)
  {
    if IsHttpAnyCase(s) {
      assert ToLower(s)[0] == 'h' && ToLower(s)[1] == 't' && ToLower(s)[2] == 't' && ToLower(s)[3] == 'p';
    }
    if ToLower(s) == HTTP {
      assert LowerChar(s[0]) == 'h' && LowerChar(s[1]) == 't' && LowerChar(s[2]) == 't' && LowerChar(s[3]) == 'p';
    }
  }

  /** `strings.ToUpper(s) == "POST"` holds exactly for the case variants of "POST". */
  lemma UpperIsPost(s: string)
    ensures ToUpper(s) == POST <==> IsPostAnyCase(s)
  {
    if IsPostAnyCase(s) {
      assert ToUpper(s)[0] == 'P' && ToUpper(s)[1] == 'O' && ToUpper(s)[2] == 'S' && ToUpper(s)[3] == 'T';
    }
    if ToUpper(s) == POST {
      assert UpperChar(s[0]) == 'P' && UpperChar(s[1]) == 'O' && UpperChar(s[2]) == 'S' && UpperChar(s[3]) == 'T';
    }
  }

  // ---------------------------------------------------------------------------
  // Map merge: the `for k, v := range m { r.m[k] = v }` loops of the setters

  /** `into` overridden by every entry of `from`; nothing is removed. */
  method Merge(into: map<string, string>, from: map<string, string>) returns (r: map<string, string>)
    ensures r.Keys == into.Keys + from.Keys
    ensures forall k :: k in from ==> r[k] == from[k]
    ensures forall k :: k in into && k !in from ==> r[k] == into[k]
  {
    r := into;
    var todo := from.Keys;
    while todo != {}
      invariant todo <= from.Keys
      invariant r.Keys == into.Keys + (from.Keys - todo)
      invariant forall k :: k in from && k !in todo ==> r[k] == from[k]
      invariant forall k :: k in into && k !in from ==> r[k] == into[k]
      decreases todo
    {
      var k :| k in todo;
      r := r[k := from[k]];
      todo := todo - {k};
    }
  }

  /** The three facts `Merge` ensures are the map override `into + from`. */
  lemma MergeIsOverride(into: map<string, string>, from: map<string, string>, r: map<string, string>)
    requires r.Keys == into.Keys + from.Keys
    requires forall k :: k in from ==> r[k] == from[k]
    requires forall k :: k in into && k !in from ==> r[k] == into[k]
    ensures r == into + from
  {
  }

  // ---------------------------------------------------------------------------
  // The request

  class BaseRequest {
    var httpMethod: string
    var scheme: string
    var domain: string
    var path: string
    var params: map<string, string>
    var formParams: map<string, string>
    var headers: map<string, string>
    var multipart: seq<Part>

    /** All fields at once. */
    function State(): Snapshot
      reads this
    {
      Snapshot(httpMethod, scheme, domain, path, params, formParams, headers, multipart)
    }

    /** `NewBaseRequest`: path "/", everything else empty. */
    constructor ()
      ensures State() == Snapshot("", "", "", DefaultPath, map[], map[], map[], [])
    {
      httpMethod, scheme, domain, path := "", "", "", DefaultPath;
      params, formParams, headers := map[], map[], map[];
      multipart := [];
    }

    /**
     * No error exactly when method, scheme, domain and path are all set;
     * otherwise the first empty one in that order.
     */
    function CheckValid(): (e: Option<Missing>)
      reads this
      ensures e == None <==> httpMethod != "" && scheme != "" && domain != "" && path != ""
      ensures e == Some(NoMethod) <==> httpMethod == ""
      ensures e == Some(NoScheme) <==> httpMethod != "" && scheme == ""
      ensures e == Some(NoDomain) <==> httpMethod != "" && scheme != "" && domain == ""
      ensures e == Some(NoPath) <==> httpMethod != "" && scheme != "" && domain != "" && path == ""
    {
      if httpMethod == "" then Some(NoMethod)
      else if scheme == "" then Some(NoScheme)
      else if domain == "" then Some(NoDomain)
      else if path == "" then Some(NoPath)
      else None
    }

    /** scheme "://" domain path, the target without the query. */
    function Origin(): string
      reads this
    {
      scheme + "://" + domain + path
    }

    /** `GetUrl`: the origin, then '?' and the encoded parameters when the parameter map is not empty. */
    function GetUrl(): (u: string)
      reads this
      ensures |u| >= |Origin()| && u[..|Origin()|] == Origin()
      ensures u == Origin() <==> |params| == 0
      ensures |params| > 0 ==> u[|Origin()|] == '?' && '?' !in u[|Origin()| + 1..] && '#' !in u[|Origin()| + 1..]
    {
      if |params| > 0 then
        QueryAfterMark(Origin(), GetUrlQueriesEncoded(params));
        Origin() + "?" + GetUrlQueriesEncoded(params)
      else Origin()
    }

    /** `GetHeader`: the header's value, or "" when it is absent. */
    function GetHeader(name: string): (v: string)
      reads this
      ensures name in headers ==> v == headers[name]
      ensures name !in headers ==> v == ""
    {
      if name in headers then headers[name] else ""
    }

    /**
     * `HasHeader`: whether the header is set at all. Unlike `GetHeader`, it
     * tells a header set to "" from an absent one.
     */
    function HasHeader(name: string): (h: bool)
      reads this
      ensures h <==> name in headers
      ensures !h ==> GetHeader(name) == ""
    {
      name in headers
    }

    /**
     * The content-type tests compare `GetHeader` with a non-empty constant, so
     * each holds exactly when the header is present with that value.
     */
    function IsContentTypeForm(): (b: bool)
      reads this
      ensures b <==> HasHeader(ContentTypeHeader) && headers[ContentTypeHeader] == FormContentType
    {
      GetHeader(ContentTypeHeader) == FormContentType
    }

    function IsContentTypeJSON(): (b: bool)
      reads this
      ensures b <==> HasHeader(ContentTypeHeader) && headers[ContentTypeHeader] == JsonContentType
    {
      GetHeader(ContentTypeHeader) == JsonContentType
    }

    function IsContentTypeMultipart(): (b: bool)
      reads this
      ensures b <==> HasHeader(ContentTypeHeader) && headers[ContentTypeHeader] == MultipartContentType
    {
      GetHeader(ContentTypeHeader) == MultipartContentType
    }

    /** `SetUrl`: on a parse error nothing changes; otherwise scheme, domain and path are replaced, the scheme as parsed. */
    method SetUrl(parsed: Option<ParsedUrl>)
      modifies this
      ensures parsed.None? ==> State() == old(State())
      ensures parsed.Some? ==>
        State() == old(State()).(scheme := parsed.value.scheme, domain := parsed.value.host, path := parsed.value.path)
    {
      if parsed.None? {
        return;
      }
      scheme := parsed.value.scheme;
      domain := parsed.value.host;
      path := parsed.value.path;
    }

    method SetDomain(d: string)
      modifies this
      ensures State() == old(State()).(domain := d)
    {
      domain := d;
    }

    method SetPath(p: string)
      modifies this
      ensures State() == old(State()).(path := p)
    {
      path := p;
    }

    /** `SetScheme`: "http" for any case of "http", "https" for everything else. */
    method SetScheme(s: string)
      modifies this
      ensures scheme == (if IsHttpAnyCase(s) then HTTP else HTTPS)
      ensures State() == old(State()).(scheme := scheme)
    {
      LowerIsHttp(s);
      if ToLower(s) == HTTP {
        scheme := HTTP;
      } else {
        scheme := HTTPS;
      }
    }

    /** `SetMethod`: "POST" for any case of "POST", "GET" for everything else. */
    method SetMethod(m: string)
      modifies this
      ensures httpMethod == (if IsPostAnyCase(m) then POST else GET)
      ensures State() == old(State()).(httpMethod := httpMethod)
    {
      UpperIsPost(m);
      var upper := ToUpper(m);
      if upper == POST {
        httpMethod := POST;
      } else if upper == GET {
        httpMethod := GET;
      } else {
        httpMethod := GET;
      }
    }

    /** `SetParams`: the argument's entries override, all other entries stay. */
    method SetParams(ps: map<string, string>)
      modifies this
      ensures State() == old(State()).(params := old(params) + ps)
    {
      var merged := Merge(params, ps);
      MergeIsOverride(params, ps, merged);
      params := merged;
    }

    /** `SetFormParams`: as `SetParams`, on the form parameters. */
    method SetFormParams(ps: map<string, string>)
      modifies this
      ensures State() == old(State()).(formParams := old(formParams) + ps)
    {
      var merged := Merge(formParams, ps);
      MergeIsOverride(formParams, ps, merged);
      formParams := merged;
    }

    /** `SetHeaders`: as `SetParams`, on the headers. */
    method SetHeaders(hs: map<string, string>)
      modifies this
      ensures State() == old(State()).(headers := old(headers) + hs)
    {
      var merged := Merge(headers, hs);
      MergeIsOverride(headers, hs, merged);
      headers := merged;
    }

    /** `AddMultipart`: one part at the end; the earlier parts keep their order. */
    method AddMultipart(fieldName: string, fileName: string, value: seq<byte>)
      modifies this
      ensures multipart == old(multipart) + [Part(fieldName, fileName, value)]
      ensures State() == old(State()).(multipart := multipart)
    {
      multipart := multipart + [Part(fieldName, fileName, value)];
    }
  }

  // ---------------------------------------------------------------------------
  // Facts about a request

  /** The three content-type tests compare one header with three different values: at most one holds. */
  lemma ContentTypesExclusive(r: BaseRequest)
    ensures !(r.IsContentTypeForm() && r.IsContentTypeMultipart())
    ensures !(r.IsContentTypeForm() && r.IsContentTypeJSON())
    ensures !(r.IsContentTypeJSON() && r.IsContentTypeMultipart())
  {
  }

  /** A request just made by `NewBaseRequest` fails validation on its method. */
  method NewRequestIsInvalid() returns (e: Option<Missing>)
    ensures e == Some(NoMethod)
  {
    var r := new BaseRequest();
    e := r.CheckValid();
  }

  /**
   * Setting method, scheme and a non-empty domain on a new request makes it
   * valid: the setters of method and scheme never store an empty value.
   */
  method ConfiguredRequestIsValid(m: string, s: string, d: string) returns (e: Option<Missing>)
    requires d != ""
    ensures e == None
  {
    var r := new BaseRequest();
    r.SetMethod(m);
    r.SetScheme(s);
    r.SetDomain(d);
    e := r.CheckValid();
  }

  /**
   * The URL is the origin, then, exactly when the parameter map is not empty,
   * a '?' and a query that reads back as the entries with a non-empty value.
   */
  lemma GetUrlQuery(r: BaseRequest)
    ensures var u, o := r.GetUrl(), r.Origin();
      && |u| >= |o| && u[..|o|] == o
      && (|r.params| == 0 <==> u == o)
      && (|r.params| > 0 ==>
            u[|o|] == '?'
            && ParsePairs(u[|o| + 1..]) == Some(PairsOf(EncodedKeys(r.params), NonEmpty(r.params))))
  {
    var o, ps := r.Origin(), r.params;
    if |ps| > 0 {
      var q := GetUrlQueriesEncoded(ps);
      QueryAfterMark(o, q);
      ParseGetUrlQueries(ps);
    }
  }

  /** The pieces of origin + "?" + query. */
  lemma QueryAfterMark(o: string, q: string)
    ensures var u := o + "?" + q;
      |u| > |o| && u[..|o|] == o && u[|o|] == '?' && u[|o| + 1..] == q && u != o
  {
  }

  /** When every parameter value is empty but there is a parameter, the URL ends in a bare '?'. */
  lemma GetUrlBareQuestionMark(r: BaseRequest)
    requires |r.params| > 0
    requires forall k :: k in r.params ==> r.params[k] == ""
    ensures r.GetUrl() == r.Origin() + "?"
  {
    QueryPieces(r.params);
  }

  // ---------------------------------------------------------------------------
  // GetBody

  /** How a part is announced in the multipart body. */
  datatype PartHeader = FileField(fieldName: string, fileName: string) | FormField(fieldName: string)

  /** One section of the multipart body: its header and the part's bytes. */
  datatype Section = Section(header: PartHeader, content: seq<byte>)

  /** The body `GetBody` returns. The multipart wire bytes, boundary lines included, are not modelled. */
  datatype Body = FormBody(text: string) | MultipartBody(sections: seq<Section>) | JsonBody(bytes: seq<byte>)

  /** A failure to create the writer of the part at `index`, or a JSON marshalling failure. */
  datatype BodyError = PartError(index: nat) | MarshalError(message: string)

  /** The section for a part: a file field exactly when the file name is not empty. */
  function SectionOf(p: Part): (s: Section)
    ensures s.header.FileField? <==> p.fileName != ""
    ensures s.header.fieldName == p.fieldName && s.content == p.value
    ensures s.header.FileField? ==> s.header.fileName == p.fileName
  {
    if p.fileName != "" then Section(FileField(p.fieldName, p.fileName), p.value)
    else Section(FormField(p.fieldName), p.value)
  }

  /** The sections for the parts, in insertion order. */
  function Sections(parts: seq<Part>): (ss: seq<Section>)
    ensures |ss| == |parts|
    ensures forall i :: 0 <= i < |parts| ==> ss[i] == SectionOf(parts[i])
  {
    seq(|parts|, i requires 0 <= i < |parts| => SectionOf(parts[i]))
  }

  /** The parts after the readers of the first `n` have been copied out, and so are empty. */
  function DrainFirst(parts: seq<Part>, n: nat): (r: seq<Part>)
    requires n <= |parts|
    ensures |r| == |parts|
    ensures forall i :: 0 <= i < |parts| ==> r[i] == if i < n then parts[i].(value := []) else parts[i]
  {
    seq(|parts|, i requires 0 <= i < |parts| => if i < n then parts[i].(value := []) else parts[i])
  }

  /** A boundary as `mime/multipart` draws it: 30 random bytes in lower-case hex. */
  predicate IsRandomBoundary(b: string)
  {
    |b| == 60 && forall i :: 0 <= i < |b| ==> ('0' <= b[i] <= '9' || 'a' <= b[i] <= 'f')
  }

  /** `Writer.FormDataContentType`; a hex boundary needs no quoting. */
  function FormDataContentType(boundary: string): (v: string)
    ensures v != MultipartContentType && v != FormContentType
  {
    assert (MultipartContentType + "; boundary=" + boundary)[19] == ';';
    MultipartContentType + "; boundary=" + boundary
  }

  /**
   * `GetBody`. The random boundary, the index at which creating a part's writer
   * fails (if any) and the outcome of `json.Marshal` are parameters.
   * - form content type: the encoded form parameters; nothing changes;
   * - multipart content type: the sections in part order, the Content-Type
   *   header overwritten and every part's reader drained by the copy; if
   *   creating a part fails, the error comes back, the readers of the parts
   *   before it are drained and nothing else changes;
   * - otherwise the JSON bytes or the marshalling error; nothing changes.
   */
  method GetBody(r: BaseRequest, boundary: string, failAt: Option<nat>, marshalled: Result<seq<byte>, string>)
    returns (res: Result<Body, BodyError>)
    requires IsRandomBoundary(boundary)
    modifies r
    ensures old(r.IsContentTypeForm()) ==>
      res == Ok(FormBody(GetUrlQueriesEncoded(old(r.formParams)))) && r.State() == old(r.State())
    ensures old(r.IsContentTypeMultipart()) && failAt.Some? && failAt.value < old(|r.multipart|) ==>
      && res == Err(PartError(failAt.value))
      && r.State() == old(r.State()).(multipart := DrainFirst(old(r.multipart), failAt.value))
    ensures old(r.IsContentTypeMultipart()) && !(failAt.Some? && failAt.value < old(|r.multipart|)) ==>
      && res == Ok(MultipartBody(Sections(old(r.multipart))))
      && r.State() == old(r.State()).(headers := old(r.headers)[ContentTypeHeader := FormDataContentType(boundary)],
                                      multipart := DrainFirst(old(r.multipart), |old(r.multipart)|))
      && !r.IsContentTypeMultipart()
    ensures !old(r.IsContentTypeForm()) && !old(r.IsContentTypeMultipart()) ==>
      && res == (match marshalled
                 case Ok(bytes) => Ok(JsonBody(bytes))
                 case Err(cause) => Err(MarshalError("marshal request failed, " + cause)))
      && r.State() == old(r.State())
  {
    if r.IsContentTypeForm() {
      return Ok(FormBody(GetUrlQueriesEncoded(r.formParams)));
    }

    if r.IsContentTypeMultipart() {
      var parts := r.multipart;
      var sections: seq<Section> := [];
      var i := 0;
      while i < |parts|
        invariant 0 <= i <= |parts|
        invariant sections == Sections(parts[..i])
        invariant !(failAt.Some? && failAt.value < i)
        invariant r.State() == old(r.State()).(multipart := DrainFirst(parts, i))
      {
        if failAt == Some(i) {
          return Err(PartError(i));
        }
        sections := sections + [SectionOf(parts[i])];
        r.multipart := r.multipart[i := parts[i].(value := [])];
        i := i + 1;
      }
      assert parts[..i] == parts;
      r.SetHeaders(map[ContentTypeHeader := FormDataContentType(boundary)]);
      return Ok(MultipartBody(sections));
    }

    match marshalled
    case Ok(bytes) =>
      return Ok(JsonBody(bytes));
    case Err(cause) =>
      return Err(MarshalError("marshal request failed, " + cause));
  }
}
