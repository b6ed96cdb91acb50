/**
 * Signed continuation tokens: a stamped payload, serialized, base64url-encoded, and followed by
 * the encoding of its tag.  The tag function and the JSON codec are parameters.
 */
module Cursor {
  import opened Base64Url
  import opened Options

  const CLOCK_SLACK_SECONDS: real := 60.0

  /** What the JSON reader makes of a body: an envelope with an integer stamp and a payload, or not. */
  datatype Json<P> = Envelope(payload: P, issued: int) | Unusable

  /** One service's codec: its tag under the secret, its JSON writer and reader, and its TTL. */
  datatype Codec<!P> = Codec(
    tag: seq<Byte> -> seq<Byte>,
    dumps: (P, int) -> seq<Byte>,
    loads: seq<Byte> -> Json<P>,
    ttl: Option<int>)

  /** `int(x)`: truncation toward zero. */
  function Truncate(x: real): int {
    if x >= 0.0 then x.Floor else -((-x).Floor)
  }

  function Encode<P>(c: Codec<P>, payload: P, now: real): string {
    var body := c.dumps(payload, Truncate(now));
    B64(body) + "." + B64(c.tag(body))
  }

  /** `token.partition(".")`, without the separator. */
  function Partition(token: string): (string, string) {
    if token == "" then ("", "")
    else if token[0] == '.' then ("", token[1..])
    else
      var (head, tail) := Partition(token[1..]);
      ([token[0]] + head, tail)
  }

  /** The stamp is neither too old nor too far in the future. */
  predicate InTime(ttl: Option<int>, issued: int, now: real) {
    ttl.None? || (now - issued as real <= ttl.value as real && now - issued as real >= -CLOCK_SLACK_SECONDS)
  }

  /** `decode`; `None` is the one error that every failure answers with. */
  function Decode<P>(c: Codec<P>, token: string, now: real): Option<P> {
    var (bodyRaw, tagRaw) := Partition(token);
    if bodyRaw == "" || tagRaw == "" then None
    else
      var body, tag := Unb64(bodyRaw), Unb64(tagRaw);
      if body.None? || tag.None? then None
      else if tag.value != c.tag(body.value) then None
      else match c.loads(body.value)
        case Unusable => None
        case Envelope(payload, issued) => if InTime(c.ttl, issued, now) then Some(payload) else None
  }

  /** What the parameters are trusted for: JSON reads back what it wrote, and nothing is empty. */
  ghost predicate Lawful<P(!new)>(c: Codec<P>) {
    && (forall p, t :: c.loads(c.dumps(p, t)) == Envelope(p, t))
    && (forall p, t :: c.dumps(p, t) != [])
    && (forall body :: c.tag(body) != [])
  }

  lemma {:induction false} PartitionAtDot(head: string, tail: string)
    requires '.' !in head
    ensures Partition(head + "." + tail) == (head, tail)
  {
    var token := head + "." + tail;
    if head == "" {
      assert token == "." + tail;
      assert token[1..] == tail;
    } else {
      PartitionAtDot(head[1..], tail);
      assert token[1..] == head[1..] + "." + tail;
      assert head == [head[0]] + head[1..];
    }
  }

  /** A token of ours carries its body and the tag of its body. */
  lemma TokenParts<P>(c: Codec<P>, payload: P, now: real)
    ensures var body := c.dumps(payload, Truncate(now));
            Partition(Encode(c, payload, now)) == (B64(body), B64(c.tag(body)))
  {
    var body := c.dumps(payload, Truncate(now));
    EncodingHasNoDot(body);
    PartitionAtDot(B64(body), B64(c.tag(body)));
  }

  /** `stamp` is `x` with its fraction cut off. */
  ghost predicate IsWholePart(stamp: int, x: real) {
    && (x >= 0.0 ==> 0.0 <= stamp as real <= x < stamp as real + 1.0)
    && (x < 0.0 ==> x <= stamp as real <= 0.0 && stamp as real - 1.0 < x)
  }

  lemma TruncateIsWholePart(x: real, stamp: int)
    ensures IsWholePart(Truncate(x), x)
    ensures IsWholePart(stamp, x) ==> stamp == Truncate(x)
  {
  }

  /**
   * Decoding at `t1` a cursor encoded at `t0` returns the payload exactly when no TTL is set, or
   * the whole-second stamp is at most the TTL old and at most 60 seconds ahead; else it is refused.
   */
  lemma DecodeInvertsEncodeInTime<P(!new)>(c: Codec<P>, payload: P, t0: real, t1: real, stamp: int)
    requires Lawful(c) && IsWholePart(stamp, t0)
    ensures var inTime := c.ttl.None? || -60.0 <= t1 - stamp as real <= c.ttl.value as real;
            Decode(c, Encode(c, payload, t0), t1) == if inTime then Some(payload) else None
  {
    TruncateIsWholePart(t0, stamp);
    var body := c.dumps(payload, Truncate(t0));
    TokenParts(c, payload, t0);
    EncodingHasNoDot(body);
    EncodingHasNoDot(c.tag(body));
    Base64Url.DecodeInvertsEncode(body);
    Base64Url.DecodeInvertsEncode(c.tag(body));
  }

  // --- What acceptance means ---------------------------------------------------

  /** A string with something after its first dot is its two halves around that dot. */
  lemma {:induction false} PartitionRejoins(token: string)
    requires Partition(token).1 != ""
    ensures token == Partition(token).0 + "." + Partition(token).1
  {
    if token[0] != '.' {
      PartitionRejoins(token[1..]);
      assert token == [token[0]] + token[1..];
    }
  }

  /**
   * The tag vouches for the body and not for the spelling.  Of the tokens whose first half reads as
   * the body of a cursor in time, exactly those are accepted whose second half reads as its tag; and
   * of these exactly the one with both halves canonical is the token that was minted.
   */
  lemma AcceptsEverySpellingOfTheTag<P(!new)>(c: Codec<P>, payload: P, t0: real, t1: real, token: string)
    requires Lawful(c) && InTime(c.ttl, Truncate(t0), t1)
    requires Unb64(Partition(token).0) == Some(c.dumps(payload, Truncate(t0)))
    ensures var (b, g) := Partition(token);
            var tagged := Unb64(g) == Some(c.tag(c.dumps(payload, Truncate(t0))));
            && (Decode(c, token, t1) == Some(payload) <==> tagged)
            && (!tagged ==> Decode(c, token, t1) == None)
            && (tagged ==> (token == Encode(c, payload, t0) <==> Canonical(b) && Canonical(g)))
  {
    var (b, g) := Partition(token);
    var body := c.dumps(payload, Truncate(t0));
    assert Unb64("") == Some([]);
    if Unb64(g) == Some(c.tag(body)) {
      PartitionRejoins(token);
      TokenParts(c, payload, t0);
      EncodeInvertsDecodeExactly(b);
      EncodeInvertsDecodeExactly(g);
    }
  }

  lemma {:induction false} NoDotNoTail(token: string)
    requires '.' !in token
    ensures Partition(token) == (token, "")
  {
    if token != "" {
      NoDotNoTail(token[1..]);
      assert token == [token[0]] + token[1..];
    }
  }

  /** A token without a dot, or with nothing before or after its first dot, is refused. */
  lemma HalfTokensAreRefused<P>(c: Codec<P>, half: string, now: real)
    requires '.' !in half
    ensures Decode(c, half, now) == None && Decode(c, half + ".", now) == None
    ensures Decode(c, "." + half, now) == None
  {
    NoDotNoTail(half);
    PartitionAtDot(half, "");
    assert half + "." == half + "." + "";
    PartitionAtDot("", half);
    assert "." + half == "" + "." + half;
  }

  /** So a cursor has more than one accepted token: this one is not the minted one. */
  lemma AnotherTokenIsAccepted<P(!new)>(c: Codec<P>, payload: P, t0: real, t1: real)
    requires Lawful(c) && InTime(c.ttl, Truncate(t0), t1)
    ensures var token := "!!!!" + Encode(c, payload, t0);
            token != Encode(c, payload, t0) && Decode(c, token, t1) == Some(payload)
  {
    var body := c.dumps(payload, Truncate(t0));
    var b, g := "!!!!" + B64(body), B64(c.tag(body));
    var token := "!!!!" + Encode(c, payload, t0);
    assert token == b + "." + g;
    EncodingHasNoDot(body);
    PartitionAtDot(b, g);
    UnknownCharactersAreSkipped(B64(body));
    Base64Url.DecodeInvertsEncode(body);
    Base64Url.DecodeInvertsEncode(c.tag(body));
    AcceptsEverySpellingOfTheTag(c, payload, t0, t1, token);
  }
}
