/**
 * The response side: `BaseResponse`, which keeps the metadata of a received
 * `net/http` response and its raw body, and `ParseHttpResponse`, which fills
 * it. Reading the body and decoding JSON are done by the standard library;
 * their outcomes are parameters here.
 */
module Response {
  import opened Common
  import Utf8

  /** The fields of a received `*http.Response` that the base response looks at. */
  datatype HttpResponse = HttpResponse(
    status: string,
    statusCode: int,
    proto: string,
    protoMajor: int,
    protoMinor: int,
    contentLength: int,
    header: map<string, seq<string>>,
    body: seq<byte>)

  /** Everything a base response holds, for saying what a call leaves alone. */
  datatype ResponseState = ResponseState(
    status: string,
    statusCode: int,
    proto: string,
    protoMajor: int,
    protoMinor: int,
    contentLength: int,
    header: map<string, seq<string>>,
    raw: seq<byte>)

  /** The state after `Fill`: the metadata of `hr`, with the raw body of `s` kept. */
  function Filled(s: ResponseState, hr: HttpResponse): (t: ResponseState)
    ensures t.raw == s.raw
  {
    ResponseState(hr.status, hr.statusCode, hr.proto, hr.protoMajor, hr.protoMinor,
                  hr.contentLength, hr.header, s.raw)
  }

  /** Filling twice from the same response is filling once. */
  lemma FillIdempotent(s: ResponseState, hr: HttpResponse)
    ensures Filled(Filled(s, hr), hr) == Filled(s, hr)
  {
  }

  /** `Fill` never looks at the body: responses differing only in their body fill alike. */
  lemma FillIgnoresBody(s: ResponseState, hr: HttpResponse, body: seq<byte>)
    ensures Filled(s, hr.(body := body)) == Filled(s, hr)
  {
  }

  /** What `Fill` leaves behind depends only on the response, not on the metadata held before. */
  lemma FillOverwritesMetadata(s: ResponseState, t: ResponseState, hr: HttpResponse)
    requires s.raw == t.raw
    ensures Filled(s, hr) == Filled(t, hr)
  {
  }

  class BaseResponse {
    var status: string
    var statusCode: int
    var proto: string
    var protoMajor: int
    var protoMinor: int
    var contentLength: int
    var header: map<string, seq<string>>
    var raw: seq<byte>

    function State(): ResponseState
      reads this
    {
      ResponseState(status, statusCode, proto, protoMajor, protoMinor, contentLength, header, raw)
    }

    /** `NewBaseResponse`: an empty raw body, an empty header map, zero metadata. */
    constructor ()
      ensures State() == ResponseState("", 0, "", 0, 0, 0, map[], [])
    {
      status, statusCode, proto, protoMajor, protoMinor, contentLength := "", 0, "", 0, 0, 0;
      header := map[];
      raw := [];
    }

    /** Keeps `body` as the raw body; the metadata stays. */
    method SetRaw(body: seq<byte>)
      modifies this
      ensures GetRaw() == body
      ensures State() == old(State()).(raw := body)
    {
      raw := body;
    }

    /** The raw body kept by the last `SetRaw`. */
    function GetRaw(): (b: seq<byte>)
      reads this
      ensures b == State().raw
    {
      raw
    }

    /** Copies the metadata of `hr` and leaves the raw body alone. */
    method Fill(hr: HttpResponse)
      modifies this
      ensures State() == Filled(old(State()), hr)
      ensures GetRaw() == old(GetRaw())
    {
      status := hr.status;
      statusCode := hr.statusCode;
      proto := hr.proto;
      protoMajor := hr.protoMajor;
      protoMinor := hr.protoMinor;
      contentLength := hr.contentLength;
      header := hr.header;
    }
  }

  /** Filling a fresh response, setting its raw body and filling it again leaves exactly `hr`'s metadata and that body. */
  method RefillKeepsRaw(hr: HttpResponse, body: seq<byte>) returns (s: ResponseState)
    ensures s == ResponseState(hr.status, hr.statusCode, hr.proto, hr.protoMajor, hr.protoMinor,
                               hr.contentLength, hr.header, body)
  {
    var r := new BaseResponse();
    r.Fill(hr);
    r.SetRaw(body);
    r.Fill(hr);
    s := r.State();
  }

  /** Why parsing a response failed. */
  datatype ParseError =
    | ReadFailed(cause: string)
    | JsonFailed(body: seq<byte>, cause: string)

  /** The fixed text each error opens with. */
  function LeadIn(e: ParseError): string
  {
    match e
    case ReadFailed(_) => "Fail to read response body because "
    case JsonFailed(_, _) => "Fail to parse json content: "
  }

  /** What stands between the body and the cause: nothing for a read error. */
  function Separator(e: ParseError): string
  {
    match e
    case ReadFailed(_) => ""
    case JsonFailed(_, _) => ", because: "
  }

  /** The bytes shown before the separator: the body read, for a decoding error. */
  function Shown(e: ParseError): seq<byte>
  {
    match e
    case ReadFailed(_) => []
    case JsonFailed(body, _) => body
  }

  /**
   * The error text, as the bytes of the Go string: the lead-in, then for a
   * decoding failure the body bytes verbatim and ", because: ", and last the
   * cause. `%s` of a string or error writes its bytes unchanged.
   */
  function ErrorText(e: ParseError): (t: seq<byte>)
    ensures Utf8.Encode(LeadIn(e)) + Shown(e) <= t
    ensures var tail := Utf8.Encode(Separator(e)) + Utf8.Encode(e.cause);
      |t| == |Utf8.Encode(LeadIn(e)) + Shown(e)| + |tail| && t[|t| - |tail|..] == tail
  {
    var head := Utf8.Encode(LeadIn(e)) + Shown(e);
    var tail := Utf8.Encode(Separator(e)) + Utf8.Encode(e.cause);
    assert (head + tail)[|head|..] == tail;
    head + tail
  }

  /**
   * What `json.Unmarshal` makes of the body read: a JSON value it stores (or
   * ignores) without error, the literal `null`, or an error.
   */
  datatype JsonOutcome =
    | Decoded
    | DecodedNull
    | DecodeError(cause: string)

  /** How `ParseHttpResponse` ends: with no error, with an error, or in a panic. */
  datatype ParseOutcome =
    | Parsed
    | Failed(error: ParseError)
    | Panicked

  /**
   * `ParseHttpResponse` as written: read the whole body, decode it as JSON
   * through `&response`, then `Fill` and `SetRaw`. `readError` is what reading
   * the body reports and `json` what the decoder makes of the bytes read.
   * Decoding through a pointer to the interface variable means that the JSON
   * literal `null` sets that variable to nil, without an error; the call to
   * `Fill` on the nil interface then panics. On an error or the panic the base
   * response is left as it was.
   */
  method ParseHttpResponse(hr: HttpResponse, r: BaseResponse, readError: Option<string>, json: JsonOutcome)
    returns (out: ParseOutcome)
    modifies r
    ensures readError.Some? ==> out == Failed(ReadFailed(readError.value)) && r.State() == old(r.State())
    ensures readError.None? && json.DecodeError? ==>
      out == Failed(JsonFailed(hr.body, json.cause)) && r.State() == old(r.State())
    ensures readError.None? && json.DecodedNull? ==> out == Panicked && r.State() == old(r.State())
    ensures readError.None? && json.Decoded? ==>
      out == Parsed && r.State() == Filled(old(r.State()), hr).(raw := hr.body)
  {
    if readError.Some? {
      return Failed(ReadFailed(readError.value));
    }
    var body := hr.body;
    if json.DecodeError? {
      return Failed(JsonFailed(body, json.cause));
    }
    if json.DecodedNull? {
      // the interface variable is nil now: calling Fill on it panics
      return Panicked;
    }
    r.Fill(hr);
    r.SetRaw(body);
    return Parsed;
  }

  /**
   * `ParseHttpResponse` decoding into `response` itself, the pointer the
   * interface holds. `null` on a pointer to a struct is then ignored, so it
   * goes on to `Fill` and `SetRaw` like any other value: the function never
   * panics.
   */
  method ParseHttpResponseIntended(hr: HttpResponse, r: BaseResponse, readError: Option<string>, json: JsonOutcome)
    returns (out: ParseOutcome)
    modifies r
    ensures out != Panicked
    ensures readError.Some? ==> out == Failed(ReadFailed(readError.value)) && r.State() == old(r.State())
    ensures readError.None? && json.DecodeError? ==>
      out == Failed(JsonFailed(hr.body, json.cause)) && r.State() == old(r.State())
    ensures readError.None? && !json.DecodeError? ==>
      out == Parsed && r.State() == Filled(old(r.State()), hr).(raw := hr.body)
  {
    if readError.Some? {
      return Failed(ReadFailed(readError.value));
    }
    var body := hr.body;
    if json.DecodeError? {
      return Failed(JsonFailed(body, json.cause));
    }
    r.Fill(hr);
    r.SetRaw(body);
    return Parsed;
  }

  /**
   * The body `null` read without error: as written the parse panics and the
   * response stays empty; decoding into the pointer fills it and keeps the body.
   */
  method NullBodyPanics(hr: HttpResponse) returns (asWritten: ParseOutcome, intended: ParseOutcome, filled: ResponseState)
    ensures asWritten == Panicked
    ensures intended == Parsed
    ensures filled.raw == hr.body && filled.statusCode == hr.statusCode && filled.header == hr.header
  {
    var r1 := new BaseResponse();
    asWritten := ParseHttpResponse(hr, r1, None, DecodedNull);
    var r2 := new BaseResponse();
    intended := ParseHttpResponseIntended(hr, r2, None, DecodedNull);
    filled := r2.State();
  }
}
