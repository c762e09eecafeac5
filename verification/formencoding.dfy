/**
 * `application/x-www-form-urlencoded` text, as `GetUrlQueriesEncoded`
 * produces it through Go's `url.Values.Encode`: the entries with a non-empty
 * value, in ascending key order, each as escaped key, '=', escaped value,
 * joined by '&'. Escaping keeps the unreserved characters of section 2.3 of
 * RFC 3986, turns a space into '+', and writes every other byte of the UTF-8
 * form as '%' and two upper-case hex digits (section 2.1 of RFC 3986).
 *
 * `ParsePairs` reads such text back; it is the reference the encoder is
 * proved against.
 */
module FormEncoding {
  import opened Common
  import opened Text
  import Utf8

  // ---------------------------------------------------------------------------
  // Escaping one string

  /** Section 2.3 of RFC 3986: ALPHA, DIGIT, '-', '.', '_' and '~' are never escaped. */
  predicate Unreserved(c: char)
  {
    ('A' <= c <= 'Z') || ('a' <= c <= 'z') || ('0' <= c <= '9')
    || c == '-' || c == '.' || c == '_' || c == '~'
  }

  /** The characters escaped text is made of. */
  predicate EscapedAlphabet(c: char)
  {
    Unreserved(c) || c == '+' || c == '%'
  }

  /** The upper-case hex digit for `n`. */
  function HexDigit(n: nat): (c: char)
    requires n < 16
    ensures Unreserved(c)
  {
    if n < 10 then ('0' as int + n) as char else ('A' as int + n - 10) as char
  }

  /** The value of a hex digit of either case. */
  function HexValue(c: char): (r: Option<nat>)
    ensures r.Some? ==> r.value < 16
  {
    if '0' <= c <= '9' then Some(c as int - '0' as int)
    else if 'A' <= c <= 'F' then Some(c as int - 'A' as int + 10)
    else if 'a' <= c <= 'f' then Some(c as int - 'a' as int + 10)
    else None
  }

  /** `%XX` for each byte. */
  function PercentBytes(bs: seq<byte>): (r: string)
    ensures |r| == 3 * |bs|
    ensures forall i :: 0 <= i < |r| ==> EscapedAlphabet(r[i])
  {
    if bs == [] then ""
    else ['%', HexDigit(bs[0] as nat / 16), HexDigit(bs[0] as nat % 16)] + PercentBytes(bs[1..])
  }

  /** The escaped form of one character. */
  function EscapeChar(c: char): (r: string)
    ensures |r| >= 1
    ensures forall i :: 0 <= i < |r| ==> EscapedAlphabet(r[i])
  {
    if Unreserved(c) then [c]
    else if c == ' ' then "+"
    else PercentBytes(Utf8.EncodeChar(c))
  }

  /** Go's `url.QueryEscape`. The result never holds '&' or '=', so it can sit inside a pair. */
  function QueryEscape(s: string): (r: string)
    ensures |r| >= |s|
    ensures forall i :: 0 <= i < |r| ==> EscapedAlphabet(r[i])
  {
    if s == [] then "" else EscapeChar(s[0]) + QueryEscape(s[1..])
  }

  // ---------------------------------------------------------------------------
  // Unescaping one string

  /** `bs` in front of the decoded rest, if the rest decoded. */
  function Prepend(bs: seq<byte>, rest: Option<seq<byte>>): Option<seq<byte>>
  {
    match rest
    case Some(r) => Some(bs + r)
    case None => None
  }

  /** The bytes escaped text stands for: '+' is a space, `%XX` is one byte, any other character its UTF-8. */
  function PercentDecode(s: string): Option<seq<byte>>
    decreases |s|
  {
    if s == [] then Some([])
    else if s[0] == '%' then
      if |s| < 3 then None
      else match (HexValue(s[1]), HexValue(s[2]))
        case (Some(hi), Some(lo)) => Prepend([(hi * 16 + lo) as byte], PercentDecode(s[3..]))
        case _ => None
    else if s[0] == '+' then Prepend([32 as byte], PercentDecode(s[1..]))
    else Prepend(Utf8.EncodeChar(s[0]), PercentDecode(s[1..]))
  }

  /** Go's `url.QueryUnescape`, with the bytes read back as UTF-8. */
  function QueryUnescape(s: string): Option<string>
  {
    match PercentDecode(s)
    case Some(bs) => Utf8.Decode(bs)
    case None => None
  }

  /** One `%XX` group decodes to its byte. */
  lemma PercentDecodeOne(b: byte, t: string)
    ensures PercentDecode(['%', HexDigit(b as nat / 16), HexDigit(b as nat % 16)] + t) == Prepend([b], PercentDecode(t))
  {
    var n := b as nat;
    var s := ['%', HexDigit(n / 16), HexDigit(n % 16)] + t;
    assert HexValue(HexDigit(n / 16)) == Some(n / 16);
    assert HexValue(HexDigit(n % 16)) == Some(n % 16);
    assert s[3..] == t;
    assert ((n / 16) * 16 + n % 16) as byte == b;
  }

  lemma {:induction false} PercentDecodeBytes(bs: seq<byte>, t: string)
    ensures PercentDecode(PercentBytes(bs) + t) == Prepend(bs, PercentDecode(t))
  {
    if bs != [] {
      var b := bs[0] as nat;
      var rest := PercentBytes(bs[1..]) + t;
      assert PercentBytes(bs) + t == ['%', HexDigit(b / 16), HexDigit(b % 16)] + rest;
      PercentDecodeOne(bs[0], rest);
      PercentDecodeBytes(bs[1..], t);
      PrependPrepend([bs[0]], bs[1..], PercentDecode(t));
      assert [bs[0]] + bs[1..] == bs;
    } else {
      assert PercentBytes(bs) + t == t;
      if PercentDecode(t).Some? {
        assert bs + PercentDecode(t).value == PercentDecode(t).value;
      }
    }
  }

  lemma PrependPrepend(a: seq<byte>, b: seq<byte>, x: Option<seq<byte>>)
    ensures Prepend(a, Prepend(b, x)) == Prepend(a + b, x)
  {
    if x.Some? {
      assert a + (b + x.value) == (a + b) + x.value;
    }
  }

  lemma PercentDecodeEscapeChar(c: char, t: string)
    ensures PercentDecode(EscapeChar(c) + t) == Prepend(Utf8.EncodeChar(c), PercentDecode(t))
  {
    if Unreserved(c) || c == ' ' {
      assert (EscapeChar(c) + t)[1..] == t;
    } else {
      PercentDecodeBytes(Utf8.EncodeChar(c), t);
    }
  }

  /** Escaped text decodes to the UTF-8 bytes of the original string. */
  lemma {:induction false} PercentDecodeQueryEscape(s: string)
    ensures PercentDecode(QueryEscape(s)) == Some(Utf8.Encode(s))
  {
    if s != [] {
      PercentDecodeQueryEscape(s[1..]);
      PercentDecodeEscapeChar(s[0], QueryEscape(s[1..]));
    }
  }

  /** Unescaping inverts escaping. */
  lemma QueryEscapeRoundTrip(s: string)
    ensures QueryUnescape(QueryEscape(s)) == Some(s)
  {
    PercentDecodeQueryEscape(s);
    Utf8.DecodeEncode(s);
  }

  // ---------------------------------------------------------------------------
  // Encoding a map

  /** The entries `GetUrlQueriesEncoded` adds to its `url.Values`: those whose value is not "". */
  function NonEmpty(params: map<string, string>): (m: map<string, string>)
    ensures forall k :: k in m <==> k in params && params[k] != ""
    ensures forall k :: k in m ==> m[k] == params[k]
  {
    map k | k in params && params[k] != "" :: params[k]
  }

  /** One `key=value` piece; it holds no '&', and no '?' or '#' that would end a URL's query. */
  function EncodePair(key: string, value: string): (r: string)
    ensures '&' !in r && '=' in r
    ensures '?' !in r && '#' !in r
  {
    var ek, ev := QueryEscape(key), QueryEscape(value);
    assert '&' !in ek && '=' !in ek && '&' !in ev && '=' !in ev;
    assert '?' !in ek && '#' !in ek && '?' !in ev && '#' !in ev;
    assert (ek + "=" + ev)[|ek|] == '=';
    ek + "=" + ev
  }

  /** The pieces for `keys`, in that order. */
  function EncodePairs(keys: seq<string>, m: map<string, string>): (r: seq<string>)
    requires forall k :: k in keys ==> k in m
    ensures |r| == |keys|
    ensures forall i :: 0 <= i < |keys| ==> r[i] == EncodePair(keys[i], m[keys[i]])
  {
    if keys == [] then [] else [EncodePair(keys[0], m[keys[0]])] + EncodePairs(keys[1..], m)
  }

  /** The keys the encoder walks, in the order it walks them. */
  function EncodedKeys(params: map<string, string>): (keys: seq<string>)
    ensures forall k :: k in keys <==> k in params && params[k] != ""
    ensures forall i, j :: 0 <= i < j < |keys| ==> Less(keys[i], keys[j])
  {
    SortedKeys(NonEmpty(params).Keys)
  }

  /**
   * Go's `GetUrlQueriesEncoded` (request.go), `url.Values.Encode` included.
   * The text holds no '?' or '#', so after a '?' it is all of a URL's query.
   */
  function GetUrlQueriesEncoded(params: map<string, string>): (r: string)
    ensures '?' !in r && '#' !in r
  {
    var pieces := EncodePairs(EncodedKeys(params), NonEmpty(params));
    JoinAvoids(pieces, '&', '?');
    JoinAvoids(pieces, '&', '#');
    Join(pieces, '&')
  }

  // ---------------------------------------------------------------------------
  // Reading a query back

  /** One non-empty piece cut at its first '=', both halves unescaped. */
  function ParsePiece(piece: string): Option<(string, string)>
  {
    var kv := Cut(piece, '=');
    match (QueryUnescape(kv.0), QueryUnescape(kv.1))
    case (Some(k), Some(v)) => Some((k, v))
    case _ => None
  }

  /** The key-value pairs of `pieces`: empty pieces skipped, each other piece cut at its first '='. */
  function ParsePieces(pieces: seq<string>): Option<seq<(string, string)>>
  {
    if pieces == [] then Some([])
    else match ParsePieces(pieces[1..])
      case None => None
      case Some(rest) =>
        if pieces[0] == "" then Some(rest)
        else match ParsePiece(pieces[0])
          case Some(kv) => Some([kv] + rest)
          case None => None
  }

  /** The pairs of a query string, in order (Go's `url.ParseQuery`, keeping the order). */
  function ParsePairs(s: string): Option<seq<(string, string)>>
  {
    ParsePieces(Split(s, '&'))
  }

  /** The pairs for `keys`, in that order. */
  function PairsOf(keys: seq<string>, m: map<string, string>): (r: seq<(string, string)>)
    requires forall k :: k in keys ==> k in m
    ensures |r| == |keys|
    ensures forall i :: 0 <= i < |keys| ==> r[i] == (keys[i], m[keys[i]])
  {
    if keys == [] then [] else [(keys[0], m[keys[0]])] + PairsOf(keys[1..], m)
  }

  /** One `key=value` piece parses back to its key and value. */
  lemma PieceParses(k: string, v: string)
    ensures EncodePair(k, v) != ""
    ensures ParsePiece(EncodePair(k, v)) == Some((k, v))
  {
    assert '=' !in QueryEscape(k);
    CutGlued(QueryEscape(k), QueryEscape(v), '=');
    QueryEscapeRoundTrip(k);
    QueryEscapeRoundTrip(v);
  }

  /** Each encoded piece parses back to its key and value. */
  lemma {:induction false} ParseEncodedPairs(keys: seq<string>, m: map<string, string>)
    requires forall k :: k in keys ==> k in m
    ensures ParsePieces(EncodePairs(keys, m)) == Some(PairsOf(keys, m))
  {
    if keys != [] {
      var pieces := EncodePairs(keys, m);
      var k, v := keys[0], m[keys[0]];
      assert pieces[1..] == EncodePairs(keys[1..], m);
      ParseEncodedPairs(keys[1..], m);
      PieceParses(k, v);
    }
  }

  /**
   * The encoding is empty exactly when no value is, and otherwise its '&'-separated
   * pieces are the non-empty `key=value` pairs in ascending key order: so no empty
   * piece, and no leading or trailing '&'.
   */
  lemma QueryPieces(params: map<string, string>)
    ensures var r := GetUrlQueriesEncoded(params);
      (r == "" <==> forall k :: k in params ==> params[k] == "")
      && (r != "" ==> Split(r, '&') == EncodePairs(EncodedKeys(params), NonEmpty(params)))
      && (r != "" ==> r[0] != '&' && r[|r| - 1] != '&')
  {
    var keys := EncodedKeys(params);
    var m := NonEmpty(params);
    var pieces := EncodePairs(keys, m);
    var r := GetUrlQueriesEncoded(params);
    assert r == Join(pieces, '&');
    if keys == [] {
      assert forall k :: k in params ==> params[k] == "";
    } else {
      assert params[keys[0]] != "";
      forall i | 0 <= i < |pieces|
        ensures pieces[i] != "" && '&' !in pieces[i]
      {
        assert '=' in EncodePair(keys[i], m[keys[i]]);
      }
      SplitJoin(pieces, '&');
      JoinEnds(pieces, '&');
    }
  }

  /** A join of non-empty pieces without the separator neither starts nor ends with it. */
  lemma {:induction false} JoinEnds(parts: seq<string>, sep: char)
    requires |parts| >= 1
    requires forall i :: 0 <= i < |parts| ==> parts[i] != "" && sep !in parts[i]
    ensures var r := Join(parts, sep); |r| > 0 && r[0] != sep && r[|r| - 1] != sep
  {
    if |parts| > 1 {
      JoinEnds(parts[1..], sep);
      var tail := Join(parts[1..], sep);
      assert parts[0][0] in parts[0];
      assert tail[|tail| - 1] in tail;
    } else {
      assert parts[0][0] in parts[0];
      assert parts[0][|parts[0]| - 1] in parts[0];
    }
  }

  /** The encoding parses back to the pairs of the non-empty entries, in encoding order. */
  lemma ParseGetUrlQueries(params: map<string, string>)
    ensures ParsePairs(GetUrlQueriesEncoded(params))
         == Some(PairsOf(EncodedKeys(params), NonEmpty(params)))
  {
    var keys := EncodedKeys(params);
    var m := NonEmpty(params);
    var pieces := EncodePairs(keys, m);
    var s := GetUrlQueriesEncoded(params);
    QueryPieces(params);
    ParseEncodedPairs(keys, m);
    if keys == [] {
      assert s == "";
      assert Split(s, '&') == [""];
      assert ParsePieces([""]) == Some([]);
    } else {
      assert params[keys[0]] != "";
      assert Split(s, '&') == pieces;
    }
  }

  /**
   * Round trip: reading the encoding back yields exactly the entries whose value
   * is not empty, one pair per key, in ascending key order.
   */
  lemma FormRoundTrip(params: map<string, string>)
    ensures var r := ParsePairs(GetUrlQueriesEncoded(params));
      && r.Some?
      && (forall k, v :: (k, v) in r.value <==> k in params && params[k] == v && v != "")
      && (forall i, j :: 0 <= i < j < |r.value| ==> Less(r.value[i].0, r.value[j].0))
  {
    ParseGetUrlQueries(params);
    PairsOfMembers(EncodedKeys(params), NonEmpty(params));
  }

  /** A pair is among the pairs for `keys` exactly when its key is one of them with that value. */
  lemma PairsOfMembers(keys: seq<string>, m: map<string, string>)
    requires forall k :: k in keys ==> k in m
    ensures forall k, v :: (k, v) in PairsOf(keys, m) <==> k in keys && m[k] == v
  {
    var pairs := PairsOf(keys, m);
    forall k, v | k in keys && m[k] == v
      ensures (k, v) in pairs
    {
      var i :| 0 <= i < |keys| && keys[i] == k;
      assert pairs[i] == (k, v);
    }
  }
}
