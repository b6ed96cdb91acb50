/**
 * Unpadded base64url (sections 5 and 3.2 of RFC 4648) as the pagination codec uses it: Python's
 * encoder with the padding stripped, and Python's lenient decoder with the padding put back.
 */
module Base64Url {
  import opened Arith
  import opened Options

  type Byte = x: int | 0 <= x < 256

  // --- The alphabet ------------------------------------------------------------

  function CharOf(v: nat): (c: char)
    requires v < 64
    ensures ValueOf(c) == Some(v) && c != '=' && c != '.' && IsAscii(c)
  {
    if v < 26 then 'A' + v as char
    else if v < 52 then 'a' + (v - 26) as char
    else if v < 62 then '0' + (v - 52) as char
    else if v == 62 then '-' else '_'
  }

  /** The decoder's table after `-_` have been translated to `+/`; both spellings are read. */
  function ValueOf(c: char): Option<nat> {
    if 'A' <= c <= 'Z' then Some((c - 'A') as nat)
    else if 'a' <= c <= 'z' then Some((c - 'a') as nat + 26)
    else if '0' <= c <= '9' then Some((c - '0') as nat + 52)
    else if c == '-' || c == '+' then Some(62)
    else if c == '_' || c == '/' then Some(63)
    else None
  }

  predicate IsAscii(c: char) {
    c as int < 128
  }

  const UPPER: string := "ABCDEFGHIJKLMNOPQRSTUVWXYZ"
  const LOWER: string := "abcdefghijklmnopqrstuvwxyz"
  const DIGITS: string := "0123456789"

  /** The alphabet of section 5 of RFC 4648. */
  const ALPHABET: string := UPPER + LOWER + DIGITS + "-_"

  /** Every six-bit value is written as the character at its position in the alphabet. */
  lemma AlphabetAt(v: nat)
    requires v < 64
    ensures |ALPHABET| == 64 && ALPHABET[v] == CharOf(v)
  {
    if v < 26 {
      assert ALPHABET[v] == UPPER[v];
      UpperAt(v);
    } else if v < 52 {
      assert ALPHABET[v] == LOWER[v - 26];
      LowerAt(v - 26);
    } else if v < 62 {
      assert ALPHABET[v] == DIGITS[v - 52];
      DigitAt(v - 52);
    } else {
      assert ALPHABET[v] == "-_"[v - 62];
    }
  }

  lemma UpperAt(v: nat)
    requires v < 26
    ensures UPPER[v] == CharOf(v)
  {
  }

  lemma LowerAt(v: nat)
    requires v < 26
    ensures LOWER[v] == CharOf(v + 26)
  {
  }

  lemma DigitAt(v: nat)
    requires v < 10
    ensures DIGITS[v] == CharOf(v + 52)
  {
  }

  // --- Encoding ----------------------------------------------------------------

  type Sextet = x: int | 0 <= x < 64

  /** A byte string in groups of three, the last one possibly short. */
  datatype Groups = Nil | One(a: Byte) | Two(a: Byte, b: Byte) | Three(a: Byte, b: Byte, c: Byte, rest: Groups)

  function Grouped(raw: seq<Byte>): Groups {
    if |raw| == 0 then Nil
    else if |raw| == 1 then One(raw[0])
    else if |raw| == 2 then Two(raw[0], raw[1])
    else Three(raw[0], raw[1], raw[2], Grouped(raw[3..]))
  }

  function Bytes(g: Groups): seq<Byte> {
    match g
    case Nil => []
    case One(a) => [a]
    case Two(a, b) => [a, b]
    case Three(a, b, c, rest) => [a] + ([b] + ([c] + Bytes(rest)))
  }

  function Four(v0: Sextet, v1: Sextet, v2: Sextet, v3: Sextet): string {
    [CharOf(v0)] + ([CharOf(v1)] + ([CharOf(v2)] + [CharOf(v3)]))
  }

  /** Each three bytes cut into four six-bit values; a short group is filled up with zero bits. */
  function Digits(g: Groups): string {
    match g
    case Nil => ""
    case One(a) => [CharOf(a / 4)] + [CharOf(a % 4 * 16)]
    case Two(a, b) => [CharOf(a / 4)] + ([CharOf(a % 4 * 16 + b / 16)] + [CharOf(b % 16 * 4)])
    case Three(a, b, c, rest) => Four(a / 4, a % 4 * 16 + b / 16, b % 16 * 4 + c / 64, c % 64) + Digits(rest)
  }

  function Padding(g: Groups): string {
    match g
    case Nil => ""
    case One(_) => "=="
    case Two(_, _) => "="
    case Three(_, _, _, rest) => Padding(rest)
  }

  /** The standard form: padded to a whole number of groups. */
  function Padded(raw: seq<Byte>): string {
    Digits(Grouped(raw)) + Padding(Grouped(raw))
  }

  /** `s.rstrip("=")`. */
  function StripPad(s: string): string {
    if s != "" && s[|s| - 1] == '=' then StripPad(s[..|s| - 1]) else s
  }

  function B64(raw: seq<Byte>): string {
    StripPad(Padded(raw))
  }

  // --- Decoding ----------------------------------------------------------------

  /**
   * Python's decoder, from a position in a group of four: other characters are skipped, padding
   * that completes a group ends the input, and an input that stops inside a group is an error.
   */
  function Scan(s: string, quad: nat, left: nat, pads: nat): Option<seq<Byte>>
    requires quad < 4 && left < 64 && (quad == 2 ==> left < 16) && (quad == 3 ==> left < 4)
    decreases |s|
  {
    if s == "" then (if quad == 0 then Some([]) else None)
    else if s[0] == '=' then
      if quad >= 2 && quad + pads + 1 >= 4 then Some([])
      else Scan(s[1..], quad, left, if quad >= 2 then pads + 1 else pads)
    else match ValueOf(s[0])
      case None => Scan(s[1..], quad, left, pads)
      case Some(v) =>
        if quad == 0 then Scan(s[1..], 1, v, 0)
        else if quad == 1 then Emit(left * 4 + v / 16, Scan(s[1..], 2, v % 16, 0))
        else if quad == 2 then Emit(left * 16 + v / 4, Scan(s[1..], 3, v % 4, 0))
        else Emit(left * 64 + v, Scan(s[1..], 0, 0, 0))
  }

  function Emit(b: int, rest: Option<seq<Byte>>): Option<seq<Byte>> {
    if rest.None? || !(0 <= b < 256) then None else Some([b] + rest.value)
  }

  function Pads(n: nat): string {
    if n == 0 then "" else "=" + Pads(n - 1)
  }

  /** `_unb64`; `None` is the `ValueError`. */
  function Unb64(value: string): Option<seq<Byte>> {
    if forall i | 0 <= i < |value| :: IsAscii(value[i])
    then Scan(value + Pads(Missing(|value|)), 0, 0, 0)
    else None
  }

  // --- The round trip ----------------------------------------------------------

  lemma {:induction false} BytesOfGrouped(raw: seq<Byte>)
    ensures Bytes(Grouped(raw)) == raw
    ensures raw != [] ==> !Grouped(raw).Nil?
    decreases |raw|
  {
    if |raw| >= 3 {
      BytesOfGrouped(raw[3..]);
      assert raw == [raw[0]] + ([raw[1]] + ([raw[2]] + raw[3..]));
    }
  }

  /** A character the encoder writes. */
  predicate Written(c: char) {
    ValueOf(c).Some? && c != '=' && c != '.' && IsAscii(c)
  }

  predicate AllWritten(s: string) {
    forall i | 0 <= i < |s| :: Written(s[i])
  }

  lemma FourIsWritten(v0: Sextet, v1: Sextet, v2: Sextet, v3: Sextet)
    ensures AllWritten(Four(v0, v1, v2, v3)) && |Four(v0, v1, v2, v3)| == 4
  {
  }

  lemma {:induction false} DigitsAreWritten(g: Groups)
    ensures AllWritten(Digits(g)) && (!g.Nil? ==> Digits(g) != "")
    decreases g
  {
    if g.Three? {
      DigitsAreWritten(g.rest);
      FourIsWritten(g.a / 4, g.a % 4 * 16 + g.b / 16, g.b % 16 * 4 + g.c / 64, g.c % 64);
    }
  }

  function DigitCount(g: Groups): nat {
    match g
    case Nil => 0
    case One(_) => 2
    case Two(_, _) => 3
    case Three(_, _, _, rest) => 4 + DigitCount(rest)
  }

  lemma {:induction false} DigitsHaveCount(g: Groups)
    ensures |Digits(g)| == DigitCount(g)
    decreases g
  {
    if g.Three? {
      DigitsHaveCount(g.rest);
      FourIsWritten(g.a / 4, g.a % 4 * 16 + g.b / 16, g.b % 16 * 4 + g.c / 64, g.c % 64);
    }
  }

  /** How many characters `-len % 4` asks for. */
  function Missing(n: nat): nat {
    (4 - n % 4) % 4
  }

  lemma MissingAfterFour(n: nat)
    ensures Missing(4 + n) == Missing(n)
  {
  }

  /** The padding is what is missing to a whole number of groups of four. */
  lemma {:induction false} PaddingFills(g: Groups)
    ensures Pads(Missing(DigitCount(g))) == Padding(g)
    decreases g
  {
    match g
    case Nil => assert Missing(0) == 0;
    case One(_) => assert Missing(2) == 2 && Pads(2) == "=" + Pads(1) && Pads(1) == "=" + Pads(0);
    case Two(_, _) => assert Missing(3) == 1 && Pads(1) == "=" + Pads(0);
    case Three(_, _, _, rest) =>
      PaddingFills(rest);
      MissingAfterFour(DigitCount(rest));
  }

  lemma StripOnce(s: string)
    ensures StripPad(s + "=") == StripPad(s)
  {
    assert (s + "=")[..|s|] == s;
  }

  lemma {:induction false} PaddingIsShort(g: Groups)
    ensures Padding(g) == "" || Padding(g) == "=" || Padding(g) == "=="
    decreases g
  {
    if g.Three? {
      PaddingIsShort(g.rest);
    }
  }

  lemma StripTakesThePadding(bare: string, pad: string)
    requires AllWritten(bare) && (pad == "" || pad == "=" || pad == "==")
    ensures StripPad(bare + pad) == bare
  {
    StripOnce(bare);
    StripOnce(bare + "=");
    assert bare + "==" == (bare + "=") + "=";
    assert bare + "" == bare;
  }

  /** Stripping takes off the padding and nothing else. */
  lemma B64IsDigits(raw: seq<Byte>)
    ensures B64(raw) == Digits(Grouped(raw))
  {
    DigitsAreWritten(Grouped(raw));
    PaddingIsShort(Grouped(raw));
    StripTakesThePadding(Digits(Grouped(raw)), Padding(Grouped(raw)));
  }

  /** One more character of a group. */
  lemma ScanChar(v: Sextet, rest: string, quad: nat, left: nat)
    requires quad < 4 && left < 64 && (quad == 2 ==> left < 16) && (quad == 3 ==> left < 4)
    ensures Scan([CharOf(v)] + rest, quad, left, 0) ==
              if quad == 0 then Scan(rest, 1, v, 0)
              else if quad == 1 then Emit(left * 4 + v / 16, Scan(rest, 2, v % 16, 0))
              else if quad == 2 then Emit(left * 16 + v / 4, Scan(rest, 3, v % 4, 0))
              else Emit(left * 64 + v, Scan(rest, 0, 0, 0))
  {
    assert ([CharOf(v)] + rest)[1..] == rest;
  }

  /** The first two characters of a group give its first byte. */
  lemma ScanFirst(v0: Sextet, v1: Sextet, rest: string)
    ensures Scan([CharOf(v0)] + ([CharOf(v1)] + rest), 0, 0, 0) == Emit(v0 * 4 + v1 / 16, Scan(rest, 2, v1 % 16, 0))
  {
    ScanChar(v0, [CharOf(v1)] + rest, 0, 0);
    ScanChar(v1, rest, 1, v0);
  }

  /** Four characters spell three bytes. */
  lemma ScanFour(v0: Sextet, v1: Sextet, v2: Sextet, v3: Sextet, rest: string)
    ensures Scan(Four(v0, v1, v2, v3) + rest, 0, 0, 0) ==
              Emit(v0 * 4 + v1 / 16, Emit(v1 % 16 * 16 + v2 / 4, Emit(v2 % 4 * 64 + v3, Scan(rest, 0, 0, 0))))
  {
    var tail := [CharOf(v2)] + ([CharOf(v3)] + rest);
    assert Four(v0, v1, v2, v3) + rest == [CharOf(v0)] + ([CharOf(v1)] + tail);
    ScanFirst(v0, v1, tail);
    ScanChar(v2, [CharOf(v3)] + rest, 2, v1 % 16);
    ScanChar(v3, rest, 3, v2 % 4);
  }

  /** Cutting three bytes into four six-bit values loses nothing. */
  lemma CutAndJoin(a: Byte, b: Byte, c: Byte)
    ensures a / 4 * 4 + (a % 4 * 16 + b / 16) / 16 == a
    ensures (a % 4 * 16 + b / 16) % 16 * 16 + (b % 16 * 4 + c / 64) / 4 == b
    ensures (b % 16 * 4 + c / 64) % 4 * 64 + c % 64 == c
  {
  }

  lemma ScanGroup(a: Byte, b: Byte, c: Byte, rest: string)
    ensures Scan(Four(a / 4, a % 4 * 16 + b / 16, b % 16 * 4 + c / 64, c % 64) + rest, 0, 0, 0)
            == Emit(a, Emit(b, Emit(c, Scan(rest, 0, 0, 0))))
  {
    ScanFour(a / 4, a % 4 * 16 + b / 16, b % 16 * 4 + c / 64, c % 64, rest);
    CutAndJoin(a, b, c);
  }

  lemma ScanOne(v0: Sextet, v1: Sextet)
    ensures Scan([CharOf(v0)] + ([CharOf(v1)] + "=="), 0, 0, 0) == Some([v0 * 4 + v1 / 16])
  {
    ScanFirst(v0, v1, "==");
    assert "=="[1..] == "=";
    assert Scan("=", 2, v1 % 16, 1) == Some([]);
    assert Scan("==", 2, v1 % 16, 0) == Some([]);
    assert [v0 * 4 + v1 / 16] + [] == [v0 * 4 + v1 / 16];
  }

  lemma ScanTwo(v0: Sextet, v1: Sextet, v2: Sextet)
    ensures Scan([CharOf(v0)] + ([CharOf(v1)] + ([CharOf(v2)] + "=")), 0, 0, 0)
            == Emit(v0 * 4 + v1 / 16, Emit(v1 % 16 * 16 + v2 / 4, Some([])))
  {
    ScanFirst(v0, v1, [CharOf(v2)] + "=");
    ScanChar(v2, "=", 2, v1 % 16);
    assert Scan("=", 3, v2 % 4, 0) == Some([]);
  }

  lemma ScanLastByte(a: Byte)
    ensures Scan(Digits(One(a)) + "==", 0, 0, 0) == Some([a])
  {
    ScanOne(a / 4, a % 4 * 16);
    assert Digits(One(a)) + "==" == [CharOf(a / 4)] + ([CharOf(a % 4 * 16)] + "==");
    assert a / 4 * 4 + (a % 4 * 16) / 16 == a;
  }

  lemma CutTwo(a: Byte, b: Byte)
    ensures a / 4 * 4 + (a % 4 * 16 + b / 16) / 16 == a
    ensures (a % 4 * 16 + b / 16) % 16 * 16 + (b % 16 * 4) / 4 == b
  {
  }

  lemma ScanLastTwoBytes(a: Byte, b: Byte)
    ensures Scan(Digits(Two(a, b)) + "=", 0, 0, 0) == Some([a, b])
  {
    var v0: Sextet, v1: Sextet, v2: Sextet := a / 4, a % 4 * 16 + b / 16, b % 16 * 4;
    ScanTwo(v0, v1, v2);
    assert Digits(Two(a, b)) + "=" == [CharOf(v0)] + ([CharOf(v1)] + ([CharOf(v2)] + "="));
    CutTwo(a, b);
    assert [b] + [] == [b] && [a] + [b] == [a, b];
  }

  /** Reading an encoding with its padding gives the bytes. */
  lemma {:induction false} ScanDigits(g: Groups)
    ensures Scan(Digits(g) + Padding(g), 0, 0, 0) == Some(Bytes(g))
    decreases g
  {
    match g
    case Nil =>
    case One(a) => ScanLastByte(a);
    case Two(a, b) => ScanLastTwoBytes(a, b);
    case Three(a, b, c, rest) =>
      ScanDigits(rest);
      ScanThree(a, b, c, Digits(rest), Padding(rest), Bytes(rest));
  }

  lemma ScanThree(a: Byte, b: Byte, c: Byte, digits: string, pad: string, bytes: seq<Byte>)
    requires Scan(digits + pad, 0, 0, 0) == Some(bytes)
    ensures Scan(Four(a / 4, a % 4 * 16 + b / 16, b % 16 * 4 + c / 64, c % 64) + digits + pad, 0, 0, 0)
            == Some([a] + ([b] + ([c] + bytes)))
  {
    var four := Four(a / 4, a % 4 * 16 + b / 16, b % 16 * 4 + c / 64, c % 64);
    assert (four + digits) + pad == four + (digits + pad);
    ScanGroup(a, b, c, digits + pad);
  }

  /** The encoding uses no dot, so a dot can separate two encodings. */
  lemma EncodingHasNoDot(raw: seq<Byte>)
    ensures '.' !in B64(raw)
    ensures raw != [] ==> B64(raw) != ""
  {
    B64IsDigits(raw);
    DigitsAreWritten(Grouped(raw));
    BytesOfGrouped(raw);
  }

  /** Decoding inverts encoding, for every byte string. */
  lemma DecodeInvertsEncode(raw: seq<Byte>)
    ensures Unb64(B64(raw)) == Some(raw)
  {
    B64IsDigits(raw);
    DigitsAreWritten(Grouped(raw));
    DigitsHaveCount(Grouped(raw));
    PaddingFills(Grouped(raw));
    ScanDigits(Grouped(raw));
    BytesOfGrouped(raw);
  }

  // --- Which strings the encoder writes ----------------------------------------

  /** A character of the url-safe alphabet; the decoder also reads `+` and `/`. */
  predicate UrlSafe(c: char) {
    ValueOf(c).Some? && c != '+' && c != '/'
  }

  predicate AllUrlSafe(s: string) {
    forall i | 0 <= i < |s| :: UrlSafe(s[i])
  }

  /** The bits of the last character that carry no data are zero, and no character stands alone. */
  predicate EndsClean(s: string)
    requires AllUrlSafe(s)
  {
    match |s| % 4
    case 0 => true
    case 1 => false
    case 2 => ValueOf(s[|s| - 1]).value % 16 == 0
    case _ => ValueOf(s[|s| - 1]).value % 4 == 0
  }

  predicate Canonical(s: string) {
    AllUrlSafe(s) && EndsClean(s)
  }

  function SextetOf(c: char): (v: Sextet)
    requires UrlSafe(c)
    ensures CharOf(v) == c && ValueOf(c) == Some(v)
  {
    ValueOf(c).value
  }

  lemma CharsAreUrlSafe(v: Sextet)
    ensures UrlSafe(CharOf(v))
  {
  }

  lemma CleanAfterFour(four: string, rest: string)
    requires |four| == 4 && AllUrlSafe(four)
    ensures Canonical(four + rest) <==> Canonical(rest)
  {
    var s := four + rest;
    assert forall i | 0 <= i < |rest| :: rest[i] == s[i + 4];
    assert |s| % 4 == |rest| % 4;
    if |rest| % 4 != 0 {
      assert s[|s| - 1] == rest[|rest| - 1];
    }
  }

  lemma FourIsUrlSafe(v0: Sextet, v1: Sextet, v2: Sextet, v3: Sextet)
    ensures AllUrlSafe(Four(v0, v1, v2, v3)) && |Four(v0, v1, v2, v3)| == 4
  {
    CharsAreUrlSafe(v0);
    CharsAreUrlSafe(v1);
    CharsAreUrlSafe(v2);
    CharsAreUrlSafe(v3);
  }

  lemma TwoAreCanonical(v0: Sextet, v1: Sextet)
    requires v1 % 16 == 0
    ensures Canonical([CharOf(v0)] + [CharOf(v1)])
  {
    CharsAreUrlSafe(v0);
    CharsAreUrlSafe(v1);
  }

  lemma ThreeAreCanonical(v0: Sextet, v1: Sextet, v2: Sextet)
    requires v2 % 4 == 0
    ensures Canonical([CharOf(v0)] + ([CharOf(v1)] + [CharOf(v2)]))
  {
    CharsAreUrlSafe(v0);
    CharsAreUrlSafe(v1);
    CharsAreUrlSafe(v2);
  }

  lemma {:induction false} DigitsAreCanonical(g: Groups)
    ensures Canonical(Digits(g))
    decreases g
  {
    match g
    case Nil =>
    case One(a) => TwoAreCanonical(a / 4, a % 4 * 16);
    case Two(a, b) => ThreeAreCanonical(a / 4, a % 4 * 16 + b / 16, b % 16 * 4);
    case Three(a, b, c, rest) =>
      DigitsAreCanonical(rest);
      FourIsUrlSafe(a / 4, a % 4 * 16 + b / 16, b % 16 * 4 + c / 64, c % 64);
      CleanAfterFour(Four(a / 4, a % 4 * 16 + b / 16, b % 16 * 4 + c / 64, c % 64), Digits(rest));
  }

  /** Joining four six-bit values into three bytes loses nothing. */
  lemma JoinAndCut(v0: int, v1: int, v2: int, v3: int) returns (a: Byte, b: Byte, c: Byte)
    requires 0 <= v0 < 64 && 0 <= v1 < 64 && 0 <= v2 < 64 && 0 <= v3 < 64
    ensures a / 4 == v0 && a % 4 * 16 + b / 16 == v1 && b % 16 * 4 + c / 64 == v2 && c % 64 == v3
  {
    a, b, c := v0 * 4 + v1 / 16, v1 % 16 * 16 + v2 / 4, v2 % 4 * 64 + v3;
  }

  lemma ReadTwo(v0: Sextet, v1: Sextet) returns (g: Groups)
    requires v1 % 16 == 0
    ensures Digits(g) == [CharOf(v0)] + [CharOf(v1)]
  {
    var a, b, c := JoinAndCut(v0, v1, 0, 0);
    assert b < 16;
    g := One(a);
  }

  lemma ReadThree(v0: Sextet, v1: Sextet, v2: Sextet) returns (g: Groups)
    requires v2 % 4 == 0
    ensures Digits(g) == [CharOf(v0)] + ([CharOf(v1)] + [CharOf(v2)])
  {
    var a, b, c := JoinAndCut(v0, v1, v2, 0);
    assert c < 64;
    g := Two(a, b);
  }

  lemma ReadFour(v0: Sextet, v1: Sextet, v2: Sextet, v3: Sextet, rest: Groups) returns (g: Groups)
    ensures Digits(g) == Four(v0, v1, v2, v3) + Digits(rest)
  {
    var a, b, c := JoinAndCut(v0, v1, v2, v3);
    g := Three(a, b, c, rest);
  }

  /** Every canonical string is the encoding of some bytes. */
  lemma {:induction false} CanonicalIsDigits(s: string) returns (g: Groups)
    requires Canonical(s)
    ensures Digits(g) == s
    decreases |s|
  {
    if s == "" {
      g := Nil;
    } else if |s| == 2 {
      g := ReadTwo(SextetOf(s[0]), SextetOf(s[1]));
    } else if |s| == 3 {
      g := ReadThree(SextetOf(s[0]), SextetOf(s[1]), SextetOf(s[2]));
    } else {
      var four := Four(SextetOf(s[0]), SextetOf(s[1]), SextetOf(s[2]), SextetOf(s[3]));
      assert s == four + s[4..];
      CleanAfterFour(four, s[4..]);
      var rest := CanonicalIsDigits(s[4..]);
      g := ReadFour(SextetOf(s[0]), SextetOf(s[1]), SextetOf(s[2]), SextetOf(s[3]), rest);
    }
  }

  lemma {:induction false} GroupedOfBytes(g: Groups)
    ensures Grouped(Bytes(g)) == g
    decreases g
  {
    if g.Three? {
      GroupedOfBytes(g.rest);
      assert Bytes(g)[3..] == Bytes(g.rest);
    }
  }

  /**
   * A string is the encoding of what it decodes to if and only if it is written in the url-safe
   * alphabet, leaves no character alone, and has zeros in the bits that carry no data.
   */
  lemma EncodeInvertsDecodeExactly(s: string)
    ensures Unb64(s).Some? && B64(Unb64(s).value) == s <==> Canonical(s)
  {
    if Unb64(s).Some? && B64(Unb64(s).value) == s {
      B64IsDigits(Unb64(s).value);
      DigitsAreCanonical(Grouped(Unb64(s).value));
    }
    if Canonical(s) {
      var g := CanonicalIsDigits(s);
      GroupedOfBytes(g);
      B64IsDigits(Bytes(g));
      DecodeInvertsEncode(Bytes(g));
    }
  }

  /** A character that the decoder does not know is read past. */
  lemma SkipOne(rest: string)
    ensures Scan("!" + rest, 0, 0, 0) == Scan(rest, 0, 0, 0)
  {
    assert ("!" + rest)[1..] == rest;
  }

  lemma SkipFour(rest: string)
    ensures Scan("!!!!" + rest, 0, 0, 0) == Scan(rest, 0, 0, 0)
  {
    var one := "!" + rest;
    var two := "!" + one;
    var three := "!" + two;
    SkipOne(rest);
    SkipOne(one);
    SkipOne(two);
    SkipOne(three);
    assert "!!!!" + rest == "!" + three;
  }

  /** Four such characters in front leave the padding, and the bytes, as they were. */
  lemma UnknownCharactersAreSkipped(value: string)
    ensures Unb64("!!!!" + value) == Unb64(value)
  {
    var s, pads := "!!!!" + value, Pads(Missing(|value|));
    MissingAfterFour(|value|);
    SkipFour(value + pads);
    assert s + pads == "!!!!" + (value + pads);
    AsciiBehindFour(value);
  }

  lemma AsciiBehindFour(value: string)
    ensures (forall i | 0 <= i < |"!!!!" + value| :: IsAscii(("!!!!" + value)[i])) <==>
            (forall i | 0 <= i < |value| :: IsAscii(value[i]))
  {
    assert forall i | 0 <= i < |value| :: value[i] == ("!!!!" + value)[i + 4];
  }

  // --- The bits come in order --------------------------------------------------

  /** The 24 bits of three bytes, six at a time. */
  lemma SixBitsAtATime(a: int, b: int, c: int, n: int)
    requires 0 <= a < 256 && 0 <= b < 256 && 0 <= c < 256 && n == a * 65536 + b * 256 + c
    ensures n / 262144 == a / 4 && n / 4096 % 64 == a % 4 * 16 + b / 16
    ensures n / 64 % 64 == b % 16 * 4 + c / 64 && n % 64 == c % 64
  {
    DivUnique(n, 262144, a / 4, a % 4 * 65536 + b * 256 + c);
    DivUnique(n, 4096, a * 16 + b / 16, b % 16 * 256 + c);
    DivUnique(a * 16 + b / 16, 64, a / 4, a % 4 * 16 + b / 16);
    DivUnique(n, 64, a * 1024 + b * 4 + c / 64, c % 64);
    DivUnique(a * 1024 + b * 4 + c / 64, 64, a * 16 + b / 16, b % 16 * 4 + c / 64);
  }

  lemma GroupThenRest(a: Byte, b: Byte, c: Byte, rest: seq<Byte>)
    ensures B64([a, b, c] + rest) == Four(a / 4, a % 4 * 16 + b / 16, b % 16 * 4 + c / 64, c % 64) + B64(rest)
  {
    var raw := [a, b, c] + rest;
    assert raw[3..] == rest;
    B64IsDigits(raw);
    B64IsDigits(rest);
  }

  /** Three bytes are written as the four six-bit digits of their 24-bit number, and then the rest follows. */
  lemma ThreeBytesAreFourDigits(a: Byte, b: Byte, c: Byte, rest: seq<Byte>, n: nat)
    requires n == a * 65536 + b * 256 + c
    ensures 0 <= n / 262144 < 64
    ensures B64([a, b, c] + rest) == Four(n / 262144, n / 4096 % 64, n / 64 % 64, n % 64) + B64(rest)
  {
    SixBitsAtATime(a, b, c, n);
    GroupThenRest(a, b, c, rest);
  }

  /** A last byte is written as two digits, with zeros for the missing bits. */
  lemma LastByteIsTwoDigits(a: Byte, n: nat)
    requires n == a * 65536
    ensures 0 <= n / 262144 < 64 && B64([a]) == [CharOf(n / 262144)] + [CharOf(n / 4096 % 64)]
  {
    SixBitsAtATime(a, 0, 0, n);
    B64IsDigits([a]);
  }

  /** Two last bytes are written as three digits. */
  lemma LastBytesAreThreeDigits(a: Byte, b: Byte, n: nat)
    requires n == a * 65536 + b * 256
    ensures 0 <= n / 262144 < 64
    ensures B64([a, b]) == [CharOf(n / 262144)] + ([CharOf(n / 4096 % 64)] + [CharOf(n / 64 % 64)])
  {
    SixBitsAtATime(a, b, 0, n);
    B64IsDigits([a, b]);
  }

  // --- What the decoder takes --------------------------------------------------

  /** The other spelling of the last two digits, which the standard alphabet has. */
  function Standard(s: string): string {
    seq(|s|, i requires 0 <= i < |s| => if s[i] == '-' then '+' else if s[i] == '_' then '/' else s[i])
  }

  lemma {:induction false} ScanStandard(s: string, quad: nat, left: nat, pads: nat)
    requires quad < 4 && left < 64 && (quad == 2 ==> left < 16) && (quad == 3 ==> left < 4)
    ensures Scan(Standard(s), quad, left, pads) == Scan(s, quad, left, pads)
    decreases |s|
  {
    if s != "" {
      var c, rest := s[0], s[1..];
      assert Standard(s)[1..] == Standard(rest);
      assert ValueOf(Standard(s)[0]) == ValueOf(c);
      if c == '=' {
        if !(quad >= 2 && quad + pads + 1 >= 4) {
          ScanStandard(rest, quad, left, if quad >= 2 then pads + 1 else pads);
        }
      } else if ValueOf(c).None? {
        ScanStandard(rest, quad, left, pads);
      } else {
        var v := ValueOf(c).value;
        if quad == 0 {
          ScanStandard(rest, 1, v, 0);
        } else if quad == 1 {
          ScanStandard(rest, 2, v % 16, 0);
        } else if quad == 2 {
          ScanStandard(rest, 3, v % 4, 0);
        } else {
          ScanStandard(rest, 0, 0, 0);
        }
      }
    }
  }

  lemma {:induction false} PadsStandard(s: string, n: nat)
    ensures Standard(s + Pads(n)) == Standard(s) + Pads(n)
    decreases n
  {
    var pads := Pads(n);
    PadsArePads(n);
    assert forall i | 0 <= i < |pads| :: pads[i] == '=';
  }

  lemma {:induction false} PadsArePads(n: nat)
    ensures forall i | 0 <= i < |Pads(n)| :: Pads(n)[i] == '='
  {
    if n > 0 {
      PadsArePads(n - 1);
    }
  }

  /** Both spellings of the last two digits are read alike. */
  lemma BothSpellingsAreRead(s: string)
    ensures Unb64(Standard(s)) == Unb64(s)
  {
    var n := Missing(|s|);
    PadsStandard(s, n);
    ScanStandard(s + Pads(n), 0, 0, 0);
    assert forall i | 0 <= i < |s| :: IsAscii(Standard(s)[i]) <==> IsAscii(s[i]);
  }

  /** A whole group never spoils what follows it. */
  lemma GroupsAreBytes(v0: int, v1: int, v2: int, v3: int, rest: Option<seq<Byte>>)
    requires 0 <= v0 < 64 && 0 <= v1 < 64 && 0 <= v2 < 64 && 0 <= v3 < 64
    ensures Emit(v0 * 4 + v1 / 16, Emit(v1 % 16 * 16 + v2 / 4, Emit(v2 % 4 * 64 + v3, rest))).Some? <==> rest.Some?
  {
  }

  lemma {:induction false} SafeScan(s: string)
    requires AllUrlSafe(s)
    ensures Scan(s + Pads(Missing(|s|)), 0, 0, 0).Some? <==> |s| % 4 != 1
    decreases |s|
  {
    var pad := Pads(Missing(|s|));
    if |s| >= 4 {
      SafeScan(s[4..]);
      MissingAfterFour(|s| - 4);
      SafeGroup(s, pad, SextetOf(s[0]), SextetOf(s[1]), SextetOf(s[2]), SextetOf(s[3]));
    } else if |s| == 3 {
      ThreeAreRead(s, pad);
    } else if |s| == 2 {
      TwoAreRead(s, pad);
    } else if |s| == 1 {
      OneIsRefused(s, pad);
    }
  }

  lemma SafeGroup(s: string, pad: string, v0: Sextet, v1: Sextet, v2: Sextet, v3: Sextet)
    requires |s| >= 4 && s[..4] == Four(v0, v1, v2, v3)
    ensures Scan(s + pad, 0, 0, 0).Some? <==> Scan(s[4..] + pad, 0, 0, 0).Some?
  {
    assert s + pad == Four(v0, v1, v2, v3) + (s[4..] + pad);
    ScanFour(v0, v1, v2, v3, s[4..] + pad);
    GroupsAreBytes(v0, v1, v2, v3, Scan(s[4..] + pad, 0, 0, 0));
  }

  lemma SomePads()
    ensures Pads(0) == "" && Pads(1) == "=" && Pads(2) == "==" && Pads(3) == "==="
  {
    assert Pads(1) == "=" + Pads(0);
    assert Pads(2) == "=" + Pads(1);
    assert Pads(3) == "=" + Pads(2);
  }

  lemma SafeTwo(v0: Sextet, v1: Sextet, s: string, pad: string)
    requires s == [CharOf(v0)] + [CharOf(v1)] && pad == "=="
    ensures Scan(s + pad, 0, 0, 0).Some?
  {
    ScanOne(v0, v1);
    assert s + pad == [CharOf(v0)] + ([CharOf(v1)] + "==");
  }

  lemma SafeThree(v0: Sextet, v1: Sextet, v2: Sextet, s: string, pad: string)
    requires s == [CharOf(v0)] + ([CharOf(v1)] + [CharOf(v2)]) && pad == "="
    ensures Scan(s + pad, 0, 0, 0).Some?
  {
    ScanTwo(v0, v1, v2);
    assert s + pad == [CharOf(v0)] + ([CharOf(v1)] + ([CharOf(v2)] + "="));
    assert 0 <= v0 * 4 + v1 / 16 < 256 && 0 <= v1 % 16 * 16 + v2 / 4 < 256;
  }

  /** The padding that is put back after one, two or three characters. */
  lemma PadsAfter(n: nat)
    ensures n == 1 ==> Pads(Missing(n)) == "==="
    ensures n == 2 ==> Pads(Missing(n)) == "=="
    ensures n == 3 ==> Pads(Missing(n)) == "="
  {
    SomePads();
  }

  lemma OneIsRefused(s: string, pad: string)
    requires AllUrlSafe(s) && |s| == 1 && pad == Pads(Missing(1))
    ensures Scan(s + pad, 0, 0, 0).None?
  {
    PadsAfter(1);
    LoneScan(SextetOf(s[0]), s, pad);
  }

  lemma TwoAreRead(s: string, pad: string)
    requires AllUrlSafe(s) && |s| == 2 && pad == Pads(Missing(2))
    ensures Scan(s + pad, 0, 0, 0).Some?
  {
    PadsAfter(2);
    SafeTwo(SextetOf(s[0]), SextetOf(s[1]), s, pad);
  }

  lemma ThreeAreRead(s: string, pad: string)
    requires AllUrlSafe(s) && |s| == 3 && pad == Pads(Missing(3))
    ensures Scan(s + pad, 0, 0, 0).Some?
  {
    PadsAfter(3);
    SafeThree(SextetOf(s[0]), SextetOf(s[1]), SextetOf(s[2]), s, pad);
  }

  lemma LoneScan(v: Sextet, s: string, pad: string)
    requires s == [CharOf(v)] && pad == "==="
    ensures Scan(s + pad, 0, 0, 0).None?
  {
    ScanChar(v, pad, 0, 0);
    assert pad[1..] == "==" && "=="[1..] == "=" && "="[1..] == "";
    assert Scan("", 1, v, 0).None?;
    assert Scan("=", 1, v, 0).None?;
    assert Scan("==", 1, v, 0).None?;
  }

  /** Of the strings in the url-safe alphabet exactly those are refused that leave one character alone. */
  lemma UrlSafeIsReadUnlessOneIsLeft(s: string)
    requires AllUrlSafe(s)
    ensures Unb64(s).None? <==> |s| % 4 == 1
  {
    SafeScan(s);
    forall i | 0 <= i < |s|
      ensures IsAscii(s[i])
    {
      assert UrlSafe(s[i]);
    }
  }
}
