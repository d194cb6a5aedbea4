/** Python string operations the webhook scraper relies on: str.strip() and int(). */
module PyText {
  import opened Wrappers

  /** The characters Python's str.isspace() accepts, which str.strip() removes. */
  predicate IsSpace(c: char) {
    var n := c as int;
    || (0x09 <= n <= 0x0d) || (0x1c <= n <= 0x20)
    || n == 0x85 || n == 0xa0 || n == 0x1680
    || (0x2000 <= n <= 0x200a) || n == 0x2028 || n == 0x2029
    || n == 0x202f || n == 0x205f || n == 0x3000
  }

  predicate IsDigit(c: char) {
    '0' <= c <= '9'
  }

  function DigitValue(c: char): (d: nat)
    requires IsDigit(c)
    ensures d < 10
  {
    c as int - '0' as int
  }

  /** `s` without its leading whitespace. */
  function StripLeading(s: string): string {
    if s != [] && IsSpace(s[0]) then StripLeading(s[1..]) else s
  }

  /** `s` without its trailing whitespace. */
  function StripTrailing(s: string): string {
    if s != [] && IsSpace(s[|s| - 1]) then StripTrailing(s[..|s| - 1]) else s
  }

  /** str.strip(): `s` without its leading and trailing whitespace. Its meaning is stated by
      StripMeaning rather than as postconditions, which every use of Strip would otherwise
      carry into its proof. */
  function Strip(s: string): string {
    StripTrailing(StripLeading(s))
  }

  /** StripLeading drops a run of whitespace from the front, and all of it. */
  lemma {:induction false} StripLeadingMeaning(s: string)
    ensures |StripLeading(s)| <= |s|
    ensures StripLeading(s) == s[|s| - |StripLeading(s)|..]
    ensures forall k :: 0 <= k < |s| - |StripLeading(s)| ==> IsSpace(s[k])
    ensures StripLeading(s) == [] || !IsSpace(StripLeading(s)[0])
  {
    if s != [] && IsSpace(s[0]) {
      var tail := s[1..];
      StripLeadingMeaning(tail);
      var r := StripLeading(tail);
      assert tail[|tail| - |r|..] == s[|s| - |r|..];
      forall k | 1 <= k < |s| - |r|
        ensures IsSpace(s[k])
      {
        assert s[k] == tail[k - 1];
      }
    }
  }

  /** StripTrailing drops a run of whitespace from the back, and all of it. */
  lemma {:induction false} StripTrailingMeaning(s: string)
    ensures |StripTrailing(s)| <= |s|
    ensures StripTrailing(s) == s[..|StripTrailing(s)|]
    ensures forall k :: |StripTrailing(s)| <= k < |s| ==> IsSpace(s[k])
    ensures StripTrailing(s) == [] || !IsSpace(StripTrailing(s)[|StripTrailing(s)| - 1])
  {
    if s != [] && IsSpace(s[|s| - 1]) {
      var init := s[..|s| - 1];
      StripTrailingMeaning(init);
      var r := StripTrailing(init);
      assert init[..|r|] == s[..|r|];
      forall k | |r| <= k < |s| - 1
        ensures IsSpace(s[k])
      {
        assert s[k] == init[k];
      }
    }
  }

  /** str.strip() keeps the slice of `s` between a whitespace prefix and a whitespace suffix,
      and that slice neither starts nor ends with whitespace, so both runs are removed whole. */
  lemma StripMeaning(s: string)
    ensures |StripLeading(s)| <= |s|
    ensures var front := |s| - |StripLeading(s)|;
      && front + |Strip(s)| <= |s|
      && Strip(s) == s[front..front + |Strip(s)|]
      && (forall k :: 0 <= k < front ==> IsSpace(s[k]))
      && (forall k :: front + |Strip(s)| <= k < |s| ==> IsSpace(s[k]))
      && (Strip(s) == [] || (!IsSpace(Strip(s)[0]) && !IsSpace(Strip(s)[|Strip(s)| - 1])))
  {
    var rest := StripLeading(s);
    StripLeadingMeaning(s);
    StripTrailingMeaning(rest);
    var front := |s| - |rest|;
    var r := Strip(s);
    assert r == rest[..|r|];
    forall k | front + |r| <= k < |s|
      ensures IsSpace(s[k])
    {
      assert s[k] == rest[k - front];
    }
  }

  /** A string that neither starts nor ends with whitespace is left unchanged. */
  lemma StripKeeps(s: string)
    requires s == [] || (!IsSpace(s[0]) && !IsSpace(s[|s| - 1]))
    ensures Strip(s) == s
  {
  }

  /** Stripping twice removes nothing more than stripping once. */
  lemma StripIdempotent(s: string)
    ensures Strip(Strip(s)) == Strip(s)
  {
    StripMeaning(s);
    StripKeeps(Strip(s));
  }

  /** Worked case: a failure count padded with a space and a newline reads as its number. */
  lemma StripThenParseExample()
    ensures ParseInt(Strip(" 12\n")) == Some(12)
  {
    assert " 12\n"[1..] == "12\n" && "12\n"[..2] == "12";
    assert StripLeading(" 12\n") == "12\n";
    assert StripTrailing("12\n") == "12";
    assert "12"[..1] == "1" && "1"[..0] == "";
  }

  /** The value of a string of decimal digits, underscores skipped. */
  function DigitsValue(s: string): nat
    requires forall k :: 0 <= k < |s| ==> IsDigit(s[k]) || s[k] == '_'
  {
    if s == [] then 0
    else if s[|s| - 1] == '_' then DigitsValue(s[..|s| - 1])
    else DigitsValue(s[..|s| - 1]) * 10 + DigitValue(s[|s| - 1])
  }

  /** The digit part int() accepts: digits, with single underscores only between two digits. */
  predicate DecimalLiteral(s: string) {
    && s != []
    && IsDigit(s[0])
    && IsDigit(s[|s| - 1])
    && (forall k :: 0 <= k < |s| ==> IsDigit(s[k]) || s[k] == '_')
    && (forall k :: 0 <= k < |s| - 1 && s[k] == '_' ==> s[k + 1] != '_')
  }

  /** Python's int() on an already stripped str: an optional sign, then a decimal literal.
      None stands for the ValueError it raises on anything else. */
  function ParseInt(s: string): Option<int> {
    if s != [] && (s[0] == '+' || s[0] == '-') then
      var tail := s[1..];
      if DecimalLiteral(tail) then
        Some(if s[0] == '-' then -(DigitsValue(tail) as int) else DigitsValue(tail) as int)
      else None
    else if DecimalLiteral(s) then Some(DigitsValue(s))
    else None
  }

  /** str(n) for a natural number: its decimal digits, most significant first. */
  function Decimal(n: nat): (s: string)
    ensures s != []
    ensures forall k :: 0 <= k < |s| ==> IsDigit(s[k])
  {
    var last := ['0' + (n % 10) as char];
    if n < 10 then last else Decimal(n / 10) + last
  }

  lemma {:induction false} DecimalValue(n: nat)
    ensures DigitsValue(Decimal(n)) == n
  {
    var s := Decimal(n);
    if n >= 10 {
      DecimalValue(n / 10);
      assert s[..|s| - 1] == Decimal(n / 10);
    }
  }

  /** int() reads back what str() writes, for every integer. */
  lemma ParseIntOfDecimal(n: int)
    ensures n >= 0 ==> ParseInt(Decimal(n)) == Some(n)
    ensures n < 0 ==> ParseInt("-" + Decimal(-n)) == Some(n)
  {
    if n >= 0 {
      DecimalValue(n);
    } else {
      DecimalValue(-n);
      assert ("-" + Decimal(-n))[1..] == Decimal(-n);
    }
  }
}
