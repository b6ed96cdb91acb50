/** Base62 slugs: the printer and parser that turn an id into a short code and back. */
module Base62 {
  import opened Arith
  import opened Options

  const DIGITS: string := "0123456789"
  const UPPER: string := "ABCDEFGHIJKLMNOPQRSTUVWXYZ"
  const LOWER: string := "abcdefghijklmnopqrstuvwxyz"
  const BASE62_ALPHABET: string := DIGITS + UPPER + LOWER

  /** The value of a character, or `None` outside the alphabet. */
  function DigitOf(c: char): Option<nat> {
    if '0' <= c <= '9' then Some((c - '0') as nat)
    else if 'A' <= c <= 'Z' then Some((c - 'A') as nat + 10)
    else if 'a' <= c <= 'z' then Some((c - 'a') as nat + 36)
    else None
  }

  function CharOf(d: nat): (c: char)
    requires d < 62
    ensures DigitOf(c) == Some(d)
  {
    if d < 10 then '0' + d as char
    else if d < 36 then 'A' + (d - 10) as char
    else 'a' + (d - 36) as char
  }

  lemma CharOfDigit(c: char)
    requires DigitOf(c).Some?
    ensures DigitOf(c).value < 62 && CharOf(DigitOf(c).value) == c
  {
  }

  /** Every letter of the alphabet stands at the position that is its value. */
  lemma AlphabetAt(d: nat)
    requires d < 62
    ensures |BASE62_ALPHABET| == 62 && BASE62_ALPHABET[d] == CharOf(d)
  {
    if d < 10 {
      assert BASE62_ALPHABET[d] == DIGITS[d];
      DigitsAt(d);
    } else if d < 36 {
      assert BASE62_ALPHABET[d] == UPPER[d - 10];
      UpperAt(d - 10);
    } else {
      assert BASE62_ALPHABET[d] == LOWER[d - 36];
      LowerAt(d - 36);
    }
  }

  lemma DigitsAt(d: nat)
    requires d < 10
    ensures DIGITS[d] == CharOf(d)
  {
  }

  lemma UpperAt(d: nat)
    requires d < 26
    ensures UPPER[d] == CharOf(d + 10)
  {
  }

  lemma LowerAt(d: nat)
    requires d < 26
    ensures LOWER[d] == CharOf(d + 36)
  {
  }

  // --- The printer and the parser ----------------------------------------------

  /** The digits of a positive number, none of a leading zero. */
  function Digits(n: nat): string {
    if n == 0 then "" else Digits(n / 62) + [CharOf(n % 62)]
  }

  function Encode(n: nat): string {
    if n == 0 then "0" else Digits(n)
  }

  function Decode(slug: string): Option<nat> {
    if slug == "" then Some(0) else
      var high := Decode(slug[..|slug| - 1]);
      var low := DigitOf(slug[|slug| - 1]);
      if high.None? || low.None? then None else Some(high.value * 62 + low.value)
  }

  /** `base62_encode`; `None` is the `ValueError` on a negative number. */
  method Base62Encode(value: int) returns (slug: Option<string>)
    ensures slug == if value < 0 then None else Some(Encode(value))
  {
    if value < 0 {
      return None;
    }
    if value == 0 {
      return Some("0");
    }
    var rest: nat := value;
    var text := "";  // the digits list, already in reversed (reading) order
    while rest > 0
      invariant Digits(value) == Digits(rest) + text
    {
      AlphabetAt(rest % 62);
      var c := BASE62_ALPHABET[rest % 62];
      assert (Digits(rest / 62) + [c]) + text == Digits(rest / 62) + ([c] + text);
      text, rest := [c] + text, rest / 62;
    }
    assert "" + text == text;
    slug := Some(text);
  }

  /** `base62_decode`; `None` is the `ValueError` on a character outside the alphabet. */
  method Base62Decode(slug: string) returns (result: Option<nat>)
    ensures result == Decode(slug)
  {
    var value: nat := 0;
    for i := 0 to |slug|
      invariant Decode(slug[..i]) == Some(value)
    {
      assert slug[..i + 1][..i] == slug[..i];
      var digit := DigitOf(slug[i]);
      if digit.None? {
        DecodePrefix(slug, i + 1);
        return None;
      }
      value := value * 62 + digit.value;
    }
    assert slug[..|slug|] == slug;
    result := Some(value);
  }

  lemma {:induction false} DecodePrefix(slug: string, n: nat)
    requires n <= |slug| && Decode(slug[..n]).None?
    ensures Decode(slug).None?
    decreases |slug|
  {
    if n < |slug| {
      assert slug[..|slug| - 1][..n] == slug[..n];
      DecodePrefix(slug[..|slug| - 1], n);
    } else {
      assert slug[..n] == slug;
    }
  }

  // --- Round trips -------------------------------------------------------------

  lemma {:induction false} DecodeDigits(n: nat)
    ensures Decode(Digits(n)) == Some(n)
  {
    if n > 0 {
      DecodeDigits(n / 62);
      assert Digits(n)[..|Digits(n)| - 1] == Digits(n / 62);
    }
  }

  /** Decoding inverts encoding, for every natural number. */
  lemma DecodeInvertsEncode(n: nat)
    ensures Decode(Encode(n)) == Some(n)
  {
    DecodeDigits(n);
    assert "0"[..0] == "";
  }

  /** A slug the printer could have produced, as far as its first character tells. */
  predicate Canonical(slug: string) {
    slug == "0" || (slug != "" && slug[0] != '0')
  }

  lemma {:induction false} DigitsOfDecode(slug: string)
    requires Decode(slug).Some? && (slug == "" || slug[0] != '0')
    ensures Digits(Decode(slug).value) == slug
    ensures slug != "" ==> Decode(slug).value > 0
    decreases |slug|
  {
    if slug != "" {
      var high, last := slug[..|slug| - 1], slug[|slug| - 1];
      DigitsOfDecode(high);
      var n, d := Decode(high).value, DigitOf(last).value;
      CharOfDigit(last);
      DivUnique(n * 62 + d, 62, n, d);
      assert slug == high + [last];
      if high == "" {
        assert DigitOf('0') == Some(0);
      }
    }
  }

  lemma {:induction false} DigitsHaveNoLeadingZero(n: nat)
    ensures n > 0 ==> Digits(n) != "" && Digits(n)[0] != '0'
  {
    if n >= 62 {
      DigitsHaveNoLeadingZero(n / 62);
    }
  }

  /** Encoding inverts decoding exactly on "0" and on slugs without a leading zero. */
  lemma EncodeInvertsDecodeExactly(slug: string)
    requires Decode(slug).Some?
    ensures Encode(Decode(slug).value) == slug <==> Canonical(slug)
  {
    var n := Decode(slug).value;
    DigitsHaveNoLeadingZero(n);
    if slug == "0" {
      assert slug[..0] == "";
    } else if Canonical(slug) {
      DigitsOfDecode(slug);
    }
  }

  lemma {:induction false} DecodeReadsEveryCharacter(slug: string)
    ensures Decode(slug).Some? <==> forall i | 0 <= i < |slug| :: DigitOf(slug[i]).Some?
    decreases |slug|
  {
    if slug != "" {
      var n := |slug| - 1;
      DecodeReadsEveryCharacter(slug[..n]);
      assert forall i | 0 <= i < n :: slug[..n][i] == slug[i];
    }
  }

  /** The parser accepts exactly the strings over the alphabet. */
  lemma DecodeAcceptsExactly(slug: string)
    ensures Decode(slug).Some? <==> forall c | c in slug :: InAlphabet(c)
  {
    DecodeReadsEveryCharacter(slug);
    forall c | c in slug
      ensures InAlphabet(c) <==> DigitOf(c).Some?
    {
      AlphabetHasDigits(c);
    }
  }

  predicate InAlphabet(c: char) {
    c in BASE62_ALPHABET
  }

  lemma AlphabetHasDigits(c: char)
    ensures InAlphabet(c) <==> DigitOf(c).Some?
  {
    if DigitOf(c).Some? {
      CharOfDigit(c);
      AlphabetAt(DigitOf(c).value);
    }
    if c in BASE62_ALPHABET {
      var d: nat :| d < |BASE62_ALPHABET| && BASE62_ALPHABET[d] == c;
      AlphabetAt(d);
    }
  }

  // --- Length and order --------------------------------------------------------

  function Pow62(k: nat): nat {
    if k == 0 then 1 else 62 * Pow62(k - 1)
  }

  lemma {:induction false} LengthOfDigits(n: nat, k: nat)
    ensures |Digits(n)| <= k <==> n < Pow62(k)
    decreases k
  {
    if k > 0 && n > 0 {
      LengthOfDigits(n / 62, k - 1);
      DivIsFloor(n, 62, Pow62(k - 1));
    } else {
      PowPositive(k);
    }
  }

  lemma {:induction false} PowPositive(k: nat)
    ensures Pow62(k) >= 1
  {
    if k > 0 {
      PowPositive(k - 1);
    }
  }

  /** A slug fits in `k` characters exactly when the number is below the k-th power of 62. */
  lemma LengthOfSlug(n: nat, k: nat)
    requires k >= 1
    ensures |Encode(n)| <= k <==> n < Pow62(k)
  {
    LengthOfDigits(n, k);
    PowPositive(k);
  }

  /** Eleven characters carry every 63-bit id, and ten do not. */
  lemma ElevenCharactersSuffice(id: nat)
    ensures id < 0x8000_0000_0000_0000 ==> |Encode(id)| <= 11
    ensures |Encode(0x7FFF_FFFF_FFFF_FFFF)| == 11
  {
    assert Pow62(5) == 916132832;
    assert Pow62(10) == 839299365868340224 by {
      assert Pow62(6) == 56800235584;
      assert Pow62(8) == 218340105584896;
    }
    assert Pow62(11) == 52036560683837093888;
    LengthOfSlug(id, 11);
    LengthOfSlug(0x7FFF_FFFF_FFFF_FFFF, 11);
    LengthOfSlug(0x7FFF_FFFF_FFFF_FFFF, 10);
  }

  /** The two strings agree up to a position at which the first has the smaller character. */
  ghost predicate LexBefore(a: string, b: string)
    requires |a| == |b|
  {
    exists k :: 0 <= k < |a| && a[..k] == b[..k] && a[k] < b[k]
  }

  ghost predicate Shortlex(a: string, b: string) {
    |a| < |b| || (|a| == |b| && LexBefore(a, b))
  }

  lemma LexSnoc(a: string, x: char, b: string, y: char)
    requires |a| == |b|
    ensures LexBefore(a + [x], b + [y]) <==> LexBefore(a, b) || (a == b && x < y)
  {
    var u, v := a + [x], b + [y];
    if LexBefore(a, b) {
      var k :| 0 <= k < |a| && a[..k] == b[..k] && a[k] < b[k];
      assert u[..k] == a[..k] && v[..k] == b[..k];
      assert u[k] < v[k];
    }
    if a == b && x < y {
      assert u[..|a|] == a && v[..|a|] == b;
      assert u[|a|] < v[|a|];
    }
    if LexBefore(u, v) {
      var k :| 0 <= k < |u| && u[..k] == v[..k] && u[k] < v[k];
      if k < |a| {
        assert u[..k] == a[..k] && v[..k] == b[..k];
      } else {
        assert u[..k] == a && v[..k] == b;
      }
    }
  }

  lemma CharsAreOrdered(d: nat, e: nat)
    requires d < 62 && e < 62
    ensures CharOf(d) < CharOf(e) <==> d < e
  {
  }

  lemma {:induction false} DigitsOrder(n: nat, m: nat)
    requires |Digits(n)| == |Digits(m)|
    ensures n < m <==> LexBefore(Digits(n), Digits(m))
    ensures n == m <==> Digits(n) == Digits(m)
  {
    DecodeDigits(n);
    DecodeDigits(m);
    if n > 0 && m > 0 {
      DigitsOrder(n / 62, m / 62);
      LexSnoc(Digits(n / 62), CharOf(n % 62), Digits(m / 62), CharOf(m % 62));
      CharsAreOrdered(n % 62, m % 62);
      CharsAreOrdered(m % 62, n % 62);
    }
  }

  /** Number order is shortlex order of the slugs. */
  lemma SlugsAreOrdered(n: nat, m: nat)
    ensures n < m <==> Shortlex(Encode(n), Encode(m))
  {
    LengthOfSlug(n, |Encode(m)|);
    LengthOfSlug(m, |Encode(m)|);
    LengthOfSlug(m, |Encode(n)|);
    LengthOfSlug(n, |Encode(n)|);
    if |Encode(n)| == |Encode(m)| {
      if n > 0 && m > 0 {
        DigitsOrder(n, m);
      } else {
        ZeroIsFirst(if n > 0 then n else m);
      }
    }
  }

  /** Among one-character slugs, that of zero comes first. */
  lemma ZeroIsFirst(n: nat)
    requires |Encode(n)| == 1
    ensures n > 0 ==> LexBefore(Encode(0), Encode(n)) && !LexBefore(Encode(n), Encode(0))
    ensures !LexBefore(Encode(0), Encode(0))
  {
    assert CharOf(0) == '0';
    if n > 0 {
      LengthOfSlug(n, 1);
      assert Pow62(1) == 62;
      assert Digits(n) == Digits(0) + [CharOf(n)];
      CharsAreOrdered(0, n);
      assert Encode(0)[..0] == Encode(n)[..0];
    }
  }
}
