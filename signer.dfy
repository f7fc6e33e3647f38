/** Request signing (`buildHeaders`, `signMessage`): the canonical message
    `method + path + timestamp [+ body]`, its HMAC-SHA512 signature in Base64,
    and the six request headers. The cryptographic and encoding primitives are
    passed in, so every property below holds whatever they compute. */
module Signer {
  import opened Json
  import opened Text

  /** The foreign primitives: HMAC-SHA512 (RFC 2104 over FIPS 180-4 SHA-512)
      keyed by the decoded private key, Base64 encoding (section 4 of RFC 4648),
      and UTF-8 encoding and decoding. */
  datatype Crypto = Crypto(
    hmacSha512: (seq<byte>, seq<byte>) -> seq<byte>,
    base64Encode: seq<byte> -> seq<byte>,
    utf8Encode: string -> seq<byte>,
    utf8Decode: seq<byte> -> string)

  const HeaderNames: seq<string> :=
    ["Accept", "Accept-Charset", "Content-Type", "BM-AUTH-APIKEY", "BM-AUTH-TIMESTAMP", "BM-AUTH-SIGNATURE"]

  /** The exact byte sequence that is signed: the body is appended verbatim, and
      only when there is one. */
  function CanonicalMessage(httpMethod: string, path: string, timestamp: string, body: Option<string>): string
  {
    httpMethod + path + timestamp + (if body.Some? then body.value else "")
  }

  /** `signMessage`: Base64 of the HMAC-SHA512 digest of the UTF-8 message. */
  function SignMessage(crypto: Crypto, privateKey: seq<byte>, message: string): string
  {
    crypto.utf8Decode(crypto.base64Encode(crypto.hmacSha512(privateKey, crypto.utf8Encode(message))))
  }

  /** What `buildHeaders` promises of a header map: exactly the six header
      names, in this order, the three fixed content-negotiation values, the API
      key, the timestamp and the signature. */
  predicate SignedHeaders(headers: seq<(string, string)>, apiKey: string, timestamp: string, signature: string)
  {
    && Keys(headers) == HeaderNames
    && Lookup(headers, "Accept") == Some("application/json")
    && Lookup(headers, "Accept-Charset") == Some("UTF-8")
    && Lookup(headers, "Content-Type") == Some("application/json")
    && Lookup(headers, "BM-AUTH-APIKEY") == Some(apiKey)
    && Lookup(headers, "BM-AUTH-TIMESTAMP") == Some(timestamp)
    && Lookup(headers, "BM-AUTH-SIGNATURE") == Some(signature)
  }

  /** `buildHeaders`, with the clock reading `nowMillis` (milliseconds since the
      epoch) passed in. One timestamp string is both signed and sent. */
  method BuildHeaders(httpMethod: string, apiKey: string, privateKey: seq<byte>, path: string,
                      data: Option<string>, nowMillis: nat, crypto: Crypto)
    returns (headers: seq<(string, string)>)
    ensures SignedHeaders(headers, apiKey, DecimalString(nowMillis),
                          SignMessage(crypto, privateKey, CanonicalMessage(httpMethod, path, DecimalString(nowMillis), data)))
  {
    var now := DecimalString(nowMillis);
    var message := httpMethod + path + now;
    if data.Some? {
      message := message + data.value;
    }
    assert message == CanonicalMessage(httpMethod, path, now, data);
    var signature := SignMessage(crypto, privateKey, message);
    headers := [
      ("Accept", "application/json"),
      ("Accept-Charset", "UTF-8"),
      ("Content-Type", "application/json"),
      ("BM-AUTH-APIKEY", apiKey),
      ("BM-AUTH-TIMESTAMP", now),
      ("BM-AUTH-SIGNATURE", signature)
    ];
    HeaderListSigned(headers, apiKey, now, signature);
  }

  lemma HeaderNamesDistinct()
    ensures NoDuplicates(HeaderNames)
  {
    assert HeaderNames[1][0] != HeaderNames[3][0];
    assert HeaderNames[4][8] != HeaderNames[5][8];
  }

  lemma HeaderListSigned(headers: seq<(string, string)>, apiKey: string, timestamp: string, signature: string)
    requires headers == [
      ("Accept", "application/json"),
      ("Accept-Charset", "UTF-8"),
      ("Content-Type", "application/json"),
      ("BM-AUTH-APIKEY", apiKey),
      ("BM-AUTH-TIMESTAMP", timestamp),
      ("BM-AUTH-SIGNATURE", signature)]
    ensures SignedHeaders(headers, apiKey, timestamp, signature)
  {
    assert Keys(headers) == HeaderNames;
    HeaderNamesDistinct();
    LookupAt(headers, 2);
    LookupAt(headers, 3);
    LookupAt(headers, 4);
    LookupAt(headers, 5);
  }

  /** The header set is exact: a map meeting `SignedHeaders` is this one list. */
  lemma SignedHeadersExact(headers: seq<(string, string)>, apiKey: string, timestamp: string, signature: string)
    requires SignedHeaders(headers, apiKey, timestamp, signature)
    ensures headers == [
      ("Accept", "application/json"),
      ("Accept-Charset", "UTF-8"),
      ("Content-Type", "application/json"),
      ("BM-AUTH-APIKEY", apiKey),
      ("BM-AUTH-TIMESTAMP", timestamp),
      ("BM-AUTH-SIGNATURE", signature)]
  {
    assert |headers| == 6;
    HeaderNamesDistinct();
    forall i | 0 <= i < 6 ensures headers[i].1 == Lookup(headers, HeaderNames[i]).value {
      assert headers[i].0 == HeaderNames[i];
      LookupAt(headers, i);
    }
  }

  /** The message starts with the method, then the path, then the timestamp;
      whatever follows is the body, present exactly when there is one. */
  lemma MessageLayout(httpMethod: string, path: string, timestamp: string, body: Option<string>)
    ensures var m := CanonicalMessage(httpMethod, path, timestamp, body);
            var a, b, c := |httpMethod|, |httpMethod| + |path|, |httpMethod| + |path| + |timestamp|;
            && m[..a] == httpMethod
            && m[a..b] == path
            && m[b..c] == timestamp
            && (body.None? ==> |m| == c)
            && (body.Some? ==> m[c..] == body.value)
  {
  }

  /** `x + m + y` determines `m` once `x` and `y` are fixed. */
  lemma {:induction false} MiddleCancels(x: string, m1: string, m2: string, y: string)
    requires x + m1 + y == x + m2 + y
    ensures m1 == m2
  {
    var s1, s2 := x + m1 + y, x + m2 + y;
    assert |m1| == |m2|;
    assert m1 == s1[|x|..|x| + |m1|];
    assert m2 == s2[|x|..|x| + |m2|];
  }

  /** Changing any one of method, path, timestamp or a present body while the
      others stay fixed changes the signed message. */
  lemma MessageDeterminesFields(m1: string, p1: string, t1: string, m2: string, p2: string, t2: string,
                                body1: Option<string>, body2: Option<string>)
    requires CanonicalMessage(m1, p1, t1, body1) == CanonicalMessage(m2, p2, t2, body2)
    ensures p1 == p2 && t1 == t2 && body1 == body2 ==> m1 == m2
    ensures m1 == m2 && t1 == t2 && body1 == body2 ==> p1 == p2
    ensures m1 == m2 && p1 == p2 && body1 == body2 ==> t1 == t2
    ensures m1 == m2 && p1 == p2 && t1 == t2 && body1.Some? && body2.Some? ==> body1 == body2
  {
    var b1 := if body1.Some? then body1.value else "";
    var b2 := if body2.Some? then body2.value else "";
    assert CanonicalMessage(m1, p1, t1, body1) == "" + m1 + (p1 + t1 + b1) == m1 + p1 + (t1 + b1);
    assert CanonicalMessage(m2, p2, t2, body2) == "" + m2 + (p2 + t2 + b2) == m2 + p2 + (t2 + b2);
    if p1 == p2 && t1 == t2 && body1 == body2 {
      MiddleCancels("", m1, m2, p1 + t1 + b1);
    }
    if m1 == m2 && t1 == t2 && body1 == body2 {
      MiddleCancels(m1, p1, p2, t1 + b1);
    }
    if m1 == m2 && p1 == p2 && body1 == body2 {
      MiddleCancels(m1 + p1, t1, t2, b1);
    }
    if m1 == m2 && p1 == p2 && t1 == t2 {
      MiddleCancels(m1 + p1 + t1, b1, b2, "");
    }
  }

  /** The one collision in the message layout: no body and an empty body sign
      the same bytes. A serialised JSON body is never empty, so a real request
      cannot hit it. */
  lemma EmptyBodySignsLikeNoBody(httpMethod: string, path: string, timestamp: string)
    ensures CanonicalMessage(httpMethod, path, timestamp, None) == CanonicalMessage(httpMethod, path, timestamp, Some(""))
  {
  }

  ghost predicate Injective<A(!new), B>(f: A -> B)
  {
    forall x, y :: f(x) == f(y) ==> x == y
  }

  /** If every primitive in the signing chain is injective (for the given key),
      two messages that sign alike are the same message. The real HMAC-SHA512
      maps messages of any length to 64 bytes and so is not injective: the
      requirement idealises its collision resistance. */
  lemma SignatureDeterminesMessage(crypto: Crypto, privateKey: seq<byte>, msg1: string, msg2: string)
    requires Injective(crypto.utf8Encode)
    requires Injective((m: seq<byte>) => crypto.hmacSha512(privateKey, m))
    requires Injective(crypto.base64Encode)
    requires Injective(crypto.utf8Decode)
    requires SignMessage(crypto, privateKey, msg1) == SignMessage(crypto, privateKey, msg2)
    ensures msg1 == msg2
  {
    var d1 := crypto.hmacSha512(privateKey, crypto.utf8Encode(msg1));
    var d2 := crypto.hmacSha512(privateKey, crypto.utf8Encode(msg2));
    assert crypto.base64Encode(d1) == crypto.base64Encode(d2);
    assert d1 == d2;
    assert ((m: seq<byte>) => crypto.hmacSha512(privateKey, m))(crypto.utf8Encode(msg1))
        == ((m: seq<byte>) => crypto.hmacSha512(privateKey, m))(crypto.utf8Encode(msg2));
  }
}
