/** Parameter names and list indices as text: splitting on dots, and decimal numbers. */
module QueryText {
  import opened Options

  /** `key.split(".")`: always at least one piece. */
  function Split(key: string): (pieces: seq<string>)
    ensures pieces != []
  {
    if key == "" then [""]
    else if key[0] == '.' then [""] + Split(key[1..])
    else [[key[0]] + Split(key[1..])[0]] + Split(key[1..])[1..]
  }

  /** `".".join(pieces)`. */
  function Join(pieces: seq<string>): string
    requires pieces != []
  {
    if |pieces| == 1 then pieces[0] else pieces[0] + "." + Join(pieces[1..])
  }

  predicate DotFree(s: string) {
    '.' !in s
  }

  lemma {:induction false} SplitDotFree(s: string)
    requires DotFree(s)
    ensures Split(s) == [s]
  {
    if s != "" {
      SplitDotFree(s[1..]);
      assert [s[0]] + s[1..] == s;
    }
  }

  lemma {:induction false} SplitAtDot(s: string, rest: string)
    requires DotFree(s)
    ensures Split(s + "." + rest) == [s] + Split(rest)
  {
    var key := s + "." + rest;
    if s == "" {
      assert key == "." + rest;
      assert key[1..] == rest;
    } else {
      SplitAtDot(s[1..], rest);
      assert key[1..] == s[1..] + "." + rest;
      assert [s[0]] + s[1..] == s;
    }
  }

  /** Splitting undoes joining. */
  lemma {:induction false} SplitJoin(pieces: seq<string>)
    requires pieces != [] && forall i | 0 <= i < |pieces| :: DotFree(pieces[i])
    ensures Split(Join(pieces)) == pieces
    decreases |pieces|
  {
    if |pieces| == 1 {
      SplitDotFree(pieces[0]);
    } else {
      SplitJoin(pieces[1..]);
      SplitAtDot(pieces[0], Join(pieces[1..]));
    }
  }

  lemma {:induction false} SplitIsDotFree(key: string)
    ensures forall i | 0 <= i < |Split(key)| :: DotFree(Split(key)[i])
  {
    if key != "" {
      SplitIsDotFree(key[1..]);
    }
  }

  // --- Decimal numbers ---------------------------------------------------------

  predicate IsDigit(c: char) {
    '0' <= c <= '9'
  }

  /** A plain decimal numeral: ASCII digits, at least one. */
  predicate IsDigits(s: string) {
    s != "" && forall i | 0 <= i < |s| :: IsDigit(s[i])
  }

  function DigitValue(c: char): nat {
    if IsDigit(c) then (c - '0') as nat else 0
  }

  function DigitText(d: nat): (c: char)
    requires d < 10
    ensures IsDigit(c) && DigitValue(c) == d
  {
    '0' + d as char
  }

  /** The value of a plain decimal numeral. */
  function ToInt(s: string): nat {
    if s == "" then 0 else 10 * ToInt(s[..|s| - 1]) + DigitValue(s[|s| - 1])
  }

  /** `str(n)`. */
  function NatText(n: nat): string {
    if n < 10 then [DigitText(n)] else NatText(n / 10) + [DigitText(n % 10)]
  }

  lemma SnocDigit(s: string, c: char)
    ensures ToInt(s + [c]) == 10 * ToInt(s) + DigitValue(c)
    ensures IsDigits(s) && IsDigit(c) ==> IsDigits(s + [c])
  {
    assert (s + [c])[..|s|] == s;
  }

  /** Reading a printed number gives it back. */
  lemma {:induction false} ToIntNatText(n: nat)
    ensures IsDigits(NatText(n)) && ToInt(NatText(n)) == n
  {
    if n < 10 {
      SnocDigit("", DigitText(n));
      assert "" + [DigitText(n)] == NatText(n);
    } else {
      ToIntNatText(n / 10);
      SnocDigit(NatText(n / 10), DigitText(n % 10));
    }
  }

  /**
   * `str.isdigit` and `int`, which go beyond ASCII: some characters are digits to the first that the
   * second refuses.  `None` is the `ValueError` of `int`, which also refuses overlong text.
   */
  datatype Numerals = Numerals(isDigits: string -> bool, toInt: string -> Option<nat>)

  /** What is relied on: plain numerals are digits, and read as their value if they are read at all. */
  ghost predicate Lawful(n: Numerals) {
    && !n.isDigits("")
    && (forall s | IsDigits(s) :: n.isDigits(s))
    && (forall s | IsDigits(s) && n.toInt(s).Some? :: n.toInt(s).value == ToInt(s))
  }
}
