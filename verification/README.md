# sendhttp request and response core, in Dafny

sendhttp is a small Go library that describes an HTTP call as a `Request`
value and decodes the answer into a `Response` value. The client back-ends
(`net/http`, fasthttp, resty) only move bytes. This project models the logic
those back-ends rely on:

- **`BaseRequest`** (`request.dfy`, module `Request`). It is a mutable record of
  the method, the URL split into scheme, domain and path, three string maps
  (query parameters, form parameters, headers) and the ordered multipart parts.
  The model includes its constructor, validation (`CheckValid`), URL composition
  (`GetUrl`), the header lookups and content-type tests, and every setter.
  Each setter states its whole new state through a `Snapshot` of all fields.
- **`GetBody`** (`request.dfy`). It picks the body from the exact Content-Type
  header value:
  - the form encoding of the form parameters;
  - the multipart sections, in part order, with the header rewritten to carry
    the boundary;
  - otherwise the JSON bytes.
- **`GetUrlQueriesEncoded`** (`formencoding.dfy`, module `FormEncoding`). It
  models Go's `url.Values.Encode`: entries with an empty value are dropped,
  keys are sorted, and key and value are escaped as in `url.QueryEscape`.
  A reader of that format, `ParsePairs`, serves as the reference: the encoding
  is proved to read back to exactly the non-empty entries, in ascending key
  order. The escaping works on UTF-8 bytes (`utf8.dfy`); string helpers are in
  `text.dfy`.
- **`flatStructure`** (`flatten.dfy`, module `Flatten`). It turns the tagged
  fields of a struct into dotted parameter keys. Go reflection is replaced by
  an explicit `Value` tree. The walk is specified by the sequence of map
  writes it performs (`StructWrites`). The imperative `FlatStructure` method
  is proved to apply exactly those writes to the request's parameters and to
  change nothing else.
- **`BaseResponse`** and **`ParseHttpResponse`** (`response.dfy`, module
  `Response`). `BaseResponse` holds the copied metadata and the raw body.
  `ParseHttpResponse` reads the body, decodes the JSON, then fills the
  response and stores the raw body. Decoding the body `null` makes it panic
  (see Findings).

Go's field `method` is called `httpMethod` in the model, because `method` is
a Dafny keyword. Go's getters (`GetMethod`, `GetScheme`, `GetDomain`,
`GetPath`, `GetParams`, `GetFormParams`, `GetHeaders`, `GetMultipart`,
request.go:153-201) are reads of the class fields.

`GetUrl` adds the `?` whenever the parameter map is not empty
(request.go:159). It does not check whether any entry survives the encoding,
which drops empty values. One might expect no `?` when there is no query, but
a map whose values are all `""` produces a URL ending in a bare `?`.
`Request.GetUrlBareQuestionMark` states this, and `Request.GetUrlQuery` states
both directions.

## Model

| member | source | states |
|---|---|---|
| Request.BaseRequest.constructor | request.go:121-131 | a new request has path "/", empty method, scheme and domain, empty parameter, form and header maps and no parts |
| Request.BaseRequest.CheckValid | request.go:133-151 | no error exactly when method, scheme, domain and path are all non-empty; otherwise the error names the first empty one in that order (each iff) |
| Request.NewRequestIsInvalid | request.go:121-137 | a request fresh from the constructor fails validation with "no method set" |
| Request.ConfiguredRequestIsValid | request.go:223-248 | after SetMethod, SetScheme and a non-empty SetDomain on a new request, validation passes: the two setters never store an empty value |
| Request.Message | request.go:133-151 | each validation error reads "invalid request, no ", then the name of the missing field (method, scheme, domain or path), then " set" |
| Request.MessageInjective | request.go:133-151 | different missing fields give different error texts |
| Request.BaseRequest.GetUrl | request.go:157-163 | the URL starts with scheme://domain+path and equals it exactly when the parameter map is empty; otherwise a '?' follows, and the text after it holds no further '?' or '#' |
| Request.BaseRequest.GetHeader | request.go:194-197 | the stored value when the header is present, "" when it is absent |
| Request.BaseRequest.HasHeader | request.go:189-192 | true exactly when the header is present, even with the value ""; when false, GetHeader gives "" |
| Request.BaseRequest.IsContentTypeForm | request.go:277-279 | true exactly when the Content-Type header is present with the form content type |
| Request.BaseRequest.IsContentTypeJSON | request.go:281-283 | true exactly when the Content-Type header is present with "application/json" |
| Request.BaseRequest.IsContentTypeMultipart | request.go:285-287 | true exactly when the Content-Type header is present with "multipart/form-data" |
| Request.ContentTypesExclusive | request.go:277-287 | the three content-type tests compare one header with three distinct strings, so at most one holds |
| Request.BaseRequest.SetUrl | request.go:203-213 | on a parse error nothing changes; otherwise scheme, domain and path become the parsed scheme, host and path and nothing else changes |
| Request.BaseRequest.SetDomain | request.go:215-217 | only the domain changes, to the argument |
| Request.BaseRequest.SetPath | request.go:219-221 | only the path changes, to the argument |
| Request.LowerIsHttp | request.go:224-226 | lower-casing gives "http" exactly for the case variants of "http" |
| Request.BaseRequest.SetScheme | request.go:223-231 | the scheme becomes "http" for any case variant of "http" and "https" for every other input; nothing else changes |
| Request.UpperIsPost | request.go:234-235 | upper-casing gives "POST" exactly for the case variants of "POST", including the long s (U+017F) that Go upper-cases to 'S' |
| Request.BaseRequest.SetMethod | request.go:233-248 | the method becomes "POST" for the case variants of "POST" and "GET" for every other input; nothing else changes |
| Request.Merge | request.go:250-254 | the key loop leaves every key of both maps, the argument's values where it has the key, and the old values elsewhere |
| Request.MergeIsOverride | request.go:250-254 | those three facts are exactly the map override old + argument |
| Request.BaseRequest.SetParams | request.go:250-254 | the parameters become old parameters overridden by the argument; nothing is removed and nothing else changes |
| Request.BaseRequest.SetFormParams | request.go:256-260 | the form parameters become the old ones overridden by the argument; nothing else changes |
| Request.BaseRequest.SetHeaders | request.go:262-266 | the headers become the old ones overridden by the argument; nothing else changes |
| Request.BaseRequest.AddMultipart | request.go:268-275 | exactly one part is appended at the end, earlier parts keep their order, and nothing else changes |
| Request.GetUrlQuery | request.go:157-163 | the URL starts with scheme://domain+path; it equals that exactly when the parameter map is empty; otherwise a '?' follows and the rest reads back as the non-empty entries in key order |
| Request.GetUrlBareQuestionMark | request.go:157-163 | a non-empty map whose values are all "" yields the origin followed by a bare '?' |
| Request.SectionOf | request.go:71-75 | a part becomes a file field exactly when its file name is non-empty, keeping its field name, file name and bytes |
| Request.Sections | request.go:68-80 | one section per part, in insertion order |
| Request.FormDataContentType | request.go:82-84 | the boundary-carrying value differs from both "multipart/form-data" and the form content type |
| Request.GetBody | request.go:60-95 | see the list below this table |
| FormEncoding.QueryEscape | request.go:365-374 | escaped keys and values use only unreserved characters, '+' and '%', so they never hold '&' or '=' |
| FormEncoding.QueryEscapeRoundTrip | request.go:365-374 | unescaping an escaped string gives it back |
| FormEncoding.NonEmpty | request.go:367-372 | the entries added to the value set are exactly those whose value is not "" |
| FormEncoding.EncodedKeys | request.go:365-374 | the keys written are exactly those with a non-empty value, in strictly ascending order |
| FormEncoding.EncodePair | request.go:365-374 | a key=value piece contains '=' and no '&', '?' or '#' |
| FormEncoding.GetUrlQueriesEncoded | request.go:365-374 | the encoding holds no '?' or '#', so after a '?' it is all of a URL's query |
| FormEncoding.QueryPieces | request.go:365-374 | the encoding is empty exactly when every value is ""; otherwise its '&'-separated pieces are the key=value pairs in key order, with no leading or trailing '&' |
| FormEncoding.ParseGetUrlQueries | request.go:365-374 | the encoding reads back to the (key, value) pairs of the non-empty entries in encoding order |
| FormEncoding.FormRoundTrip | request.go:365-374 | reading the encoding back succeeds; a pair is in the result exactly when the map maps its key to that non-empty value; keys are strictly ascending |
| Flatten.FlatStructure | request.go:296-363 | the parameters afterwards are the old ones with the walk's writes applied in order; nothing else in the request changes |
| Flatten.FlatField | request.go:299-360 | one field's writes are applied to the parameters; nothing else changes |
| Flatten.FlatSlice | request.go:327-355 | the elements' writes are applied in index order; nothing else changes |
| Flatten.FlatElem | request.go:329-353 | one element's writes are applied; nothing else changes |
| Flatten.ConstructParams | request.go:290-294 | the walk over the request's own fields with an empty prefix |
| Flatten.StructWrites | request.go:296-363 | a struct's walk panics exactly when the walk of one of its fields does |
| Flatten.FieldWrites | request.go:299-360 | an untagged field or a nil pointer writes nothing; only a tagged field whose value, behind at most one pointer, is not a scalar can panic |
| Flatten.ElemWrites | request.go:327-355 | a slice's walk panics exactly when the walk of one of its elements does |
| Flatten.ElemWrite | request.go:329-353 | a nil element writes nothing; a scalar element, "" included, is exactly one write under its key; only an element that is neither a scalar nor a non-panicking struct panics |
| Flatten.ElemKeysDistinct | request.go:331 | distinct indices give distinct element keys, so no element of a slice overwrites another |
| Flatten.ApplyKeys | request.go:296-363 | parameter entries are only added: the keys afterwards are the old keys plus the written ones |
| Flatten.ApplyUntouched | request.go:296-363 | a key the walk never writes keeps its old value |
| Flatten.ApplyLastWrite | request.go:296-363 | a written key holds the value of its last write |
| Flatten.ApplyConcat | request.go:298-361 | applying two runs of writes in turn is applying their concatenation |
| Flatten.StructKeysUnderPrefix | request.go:313 | every key written for a struct starts with its prefix |
| Flatten.FieldKeys | request.go:312-359 | an untagged field writes nothing; a tagged field `name` writes prefix+name itself or keys starting with prefix+name+"." |
| Flatten.ElemKeysUnderKey | request.go:327-354 | every key written for a slice starts with its key followed by "." |
| Flatten.ElemKeys | request.go:331-352 | element j writes the key prefix+name+"."+j itself or keys below it |
| Flatten.UntaggedAndNilAddNothing | request.go:299-308 | dropping untagged fields and nil pointers leaves the writes unchanged |
| Flatten.ScalarField | request.go:309-324 | a tagged scalar (or pointer to one) other than "" is stored as exactly one write, under prefix+name, with Go's formatting |
| Flatten.ScalarSlice | request.go:327-347 | a slice of scalars stores element j under prefix+name+"."+j, in index order, empty strings included |
| Flatten.EmptyStringHandling | request.go:314-340 | an empty string field writes nothing, while an empty string slice element is stored |
| Flatten.PointerFieldTransparent | request.go:306-309 | in the corrected walk, replacing a field's value by a pointer to it leaves the writes unchanged |
| Flatten.PointerToSliceAsWritten | request.go:327-328 | as written, a tagged pointer-to-slice field panics while the same slice held directly is flattened |
| Flatten.StructFixAgrees | request.go:296-363 | wherever the walk as written does not panic, the corrected walk performs the same writes |
| Flatten.FieldFixAgrees | request.go:299-360 | the same, for one field |
| Flatten.ElemsFixAgree | request.go:327-355 | the same, for the elements of a slice |
| Flatten.StructPrefixSome | request.go:298-361 | a walk that does not panic does not panic on any leading run of the fields |
| Response.BaseResponse.constructor | response.go:24-29 | a new response has an empty raw body, an empty header map and zero metadata |
| Response.BaseResponse.GetRaw | response.go:35-37 | returns the raw body the response holds |
| Response.BaseResponse.SetRaw | response.go:31-37 | GetRaw afterwards returns exactly the bytes passed; all metadata is unchanged |
| Response.BaseResponse.Fill | response.go:39-48 | status, status code, protocol and versions, content length and header become those of the HTTP response; the raw body is unchanged |
| Response.Filled | response.go:40-48 | the state after Fill keeps the raw body |
| Response.FillIdempotent | response.go:40-48 | filling twice from the same response equals filling once |
| Response.FillIgnoresBody | response.go:39-48 | responses that differ only in their body fill alike |
| Response.FillOverwritesMetadata | response.go:40-47 | the state after Fill does not depend on the metadata held before |
| Response.RefillKeepsRaw | response.go:31-48 | fill, set the raw body, fill again: the metadata of the HTTP response and exactly that body |
| Response.ErrorText | client.go:24-31 | a read error is "Fail to read response body because " followed by the cause; a decoding error is "Fail to parse json content: ", the body bytes verbatim, ", because: " and the cause, as UTF-8 bytes |
| Response.ParseHttpResponse | client.go:20-38 | a read error returns first, then a JSON error carrying the body; either leaves the response unchanged; a decoded `null` panics with the response unchanged; any other decoded value fills the response and then gives it the body read |
| Response.ParseHttpResponseIntended | client.go:20-38 | decoding into the response pointer: the same errors, never a panic, and `null` fills the response and keeps the body like any other value |
| Response.NullBodyPanics | client.go:28-34 | for the body `null` read without error, the code as written panics while the corrected call fills the response and keeps the body |

`Request.GetBody` ensures, for each branch:

- **Form Content-Type:** the body is the form encoding of the form
  parameters, and nothing changes.
- **Multipart Content-Type:**
  - On success, the body is the sections of the parts in insertion order.
  - On success, only the Content-Type header changes, to the boundary-carrying
    value. The request is then no longer multipart by that test.
  - If creating the writer for part i fails, the error names i and the
    headers are unchanged.
  - In both cases, the readers of the parts already copied are drained.
- **Any other Content-Type:** the body is the marshalled bytes, or the error
  "marshal request failed, " followed by the cause; nothing changes.

## Left out

- Network I/O and the client back-ends (httpclient.go, fastclient.go, restyclient.go) are not part of this model.
- Request.BaseRequest.SetUrl: `url.Parse` is not modelled. Its outcome (an error, or scheme, host and path) is the argument.
- Request.GetBody: the random boundary, the part whose writer creation fails, and the outcome of `json.Marshal` are parameters.
- Request.GetBody: the multipart wire bytes are not modelled; the result is the list of sections. The boundary and part header lines are `mime/multipart`'s format. The code never calls `w.Close()` (request.go:66-85), so the closing boundary line is never written and the body is not a complete multipart message. This looks like a defect, but without wire bytes the model cannot exhibit it, so it is not listed under Findings.
- Request.GetBody: Go keeps the caller's `io.Reader` by reference (request.go:268-274), and `io.Copy` drains it (request.go:79). A reader shared by two parts yields its bytes only to the first, and a reader the caller reads before `GetBody` yields only what is left. Each modelled part holds its own copy of the bytes, so this aliasing is not captured: the model gives both parts the full bytes.
- Request.GetBody: errors from `io.Copy` are ignored by the code and are not modelled. A part's reader is modelled as the bytes it yields, and a drained reader as no bytes.
- Request.GetBody: what `json.Marshal` produces for a concrete request type is not modelled. For `BaseRequest` alone it is `{}`, because all its fields are unexported.
- Request.UpperIsPost and Text.ToUpper map only ASCII letters, U+017F and U+0131. Go's full Unicode case mapping matters only for characters that map to ASCII letters, and those two are the only ones.
- Request.BaseRequest.SetScheme: Text.ToLower maps only ASCII letters. Go lower-cases only two non-ASCII characters to ASCII: the Kelvin sign to 'k' and U+0130 to 'i'. Neither is a letter of "http", so the outcome is the same.
- FormEncoding.QueryEscape works on Dafny characters, which cannot hold the invalid UTF-8 a Go string may contain.
- Text.Less orders by code point. This equals Go's byte order on valid UTF-8.
- Go maps are references: a map obtained from a getter and written by the caller changes the request. The model has no getter returning a map, so this aliasing is not captured. A nil map (a `BaseRequest` not made by the constructor) is not modelled.
- Flatten: Go reflection, float fields (`strconv.FormatFloat`), interface-typed fields, and fields that are not exported are not modelled. `field.Interface()` on an unexported struct field panics in Go.
- Flatten: the integer kinds other than `int`, `int64`, `uint` and `uint64` are the `Unhandled` kind, on which the walk panics.
- Flatten.FlatStructure requires a walk that does not panic. The Go code panics midway, leaving the writes made so far; the model does not follow a panicking walk.
- Flatten.FlatStructure models the corrected walk (see Findings). For every input on which the code as written does not panic, the two walks perform the same writes (Flatten.StructFixAgrees).
- Response.ParseHttpResponse: reading the body and `json.Unmarshal` are not modelled. The read error and the decoder's outcome (a value, the literal `null`, or an error) are parameters. What the decoder stores in the fields of the concrete response type is not captured. The error text is `Response.ErrorText`.
- Response.ParseHttpResponse: a panic is a result value (`Panicked`). In Go it unwinds to the caller after the deferred close of the body.
- Response.BaseResponse.Fill: Go stores the `http.Response`'s header map by reference (response.go:47), so later changes to either map show in the other. The model copies values, so this aliasing is not captured.
- Response.BaseResponse.SetRaw: Go keeps the caller's byte slice itself (response.go:32), so later writes to that slice change the raw body. The model stores a value, so this aliasing is not captured.

## Findings

| source | as written | input that shows it | evidently intended | confidence | as-written member | corrected member |
|---|---|---|---|---|---|---|
| client.go:28 | the body is decoded through `&response`, a pointer to the interface variable; the literal `null` sets that variable to nil without an error, and `response.Fill(hr)` on line 34 then panics on the nil interface | a response whose body is `null` | decode into `response` itself (`json.Unmarshal(body, response)`): `null` on a pointer to a struct is ignored, and the response is filled and keeps the body | not executed; high, from `encoding/json`'s documented handling of `null` for interfaces and pointers | Response.ParseHttpResponse | Response.ParseHttpResponseIntended |
| request.go:327-328 | the slice branch takes the length of `value.Field(i)`, the undereferenced field, so a non-nil pointer-to-slice field reaches `Len` on a pointer and panics | a struct with one field tagged `name:"ids"` of type `*[]uint` pointing at `[7]` | flatten the slice behind the pointer like every other pointed-to kind: `ids.0=7` | not executed; high, from reflect's documented panic for Len on a pointer | Flatten.PointerToSliceAsWritten | Flatten.PointerFieldTransparent |
