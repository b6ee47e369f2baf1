/** The text operations the relay's configuration and enrollment files rely on. */
module Texts {
  import opened Basics

  /** Text as the sequence of its Unicode scalar values. */
  type Text = string

  /** Bytes of a character in UTF-8. */
  function Width(c: char): nat {
    if c as int < 0x80 then 1 else if c as int < 0x800 then 2 else if c as int < 0x1_0000 then 3 else 4
  }

  /** Length in bytes, which is what the source's length limits count. */
  function Size(s: Text): nat {
    if s == "" then 0 else Size(s[..|s| - 1]) + Width(s[|s| - 1])
  }

  predicate IsAscii(s: Text) {
    forall i :: 0 <= i < |s| ==> s[i] as int < 0x80
  }

  lemma {:induction false} AsciiSize(s: Text)
    ensures Size(s) >= |s|
    ensures IsAscii(s) ==> Size(s) == |s|
    decreases |s|
  {
    if s != "" {
      AsciiSize(s[..|s| - 1]);
    }
  }

  lemma {:induction false} SizeAppend(s: Text, c: char)
    ensures Size(s + [c]) == Size(s) + Width(c)
  {
    assert (s + [c])[..|s|] == s;
  }

  function LowerCase(c: char): char {
    if 'A' <= c <= 'Z' then (c as int + 32) as char else c
  }

  predicate EqIgnoreCase(a: Text, b: Text) {
    |a| == |b| && forall i :: 0 <= i < |a| ==> LowerCase(a[i]) == LowerCase(b[i])
  }

  /** The Unicode property White_Space. */
  predicate IsSpace(c: char) {
    var n := c as int;
    || c == ' ' || '\t' <= c <= '\r' || n == 0x85 || n == 0xA0 || n == 0x1680 || 0x2000 <= n <= 0x200A
    || n == 0x2028 || n == 0x2029 || n == 0x202F || n == 0x205F || n == 0x3000
  }

  /** The Unicode category Cc. */
  predicate IsControl(c: char) {
    c < ' ' || 0x7F <= c as int <= 0x9F
  }

  function TrimLeft(s: Text): Text {
    if s != "" && IsSpace(s[0]) then TrimLeft(s[1..]) else s
  }

  function TrimRight(s: Text): Text {
    if s != "" && IsSpace(s[|s| - 1]) then TrimRight(s[..|s| - 1]) else s
  }

  function Trim(s: Text): Text {
    TrimLeft(TrimRight(s))
  }

  /** No whitespace at either end. */
  predicate Tidy(s: Text) {
    s == "" || (!IsSpace(s[0]) && !IsSpace(s[|s| - 1]))
  }

  lemma {:induction false} TrimLeftTidy(s: Text)
    ensures TrimLeft(s) == "" || !IsSpace(TrimLeft(s)[0])
    ensures |TrimLeft(s)| <= |s| && TrimLeft(s) == s[|s| - |TrimLeft(s)|..]
    decreases |s|
  {
    if s != "" && IsSpace(s[0]) {
      TrimLeftTidy(s[1..]);
    }
  }

  lemma {:induction false} TrimRightTidy(s: Text)
    ensures TrimRight(s) == "" || !IsSpace(TrimRight(s)[|TrimRight(s)| - 1])
    ensures |TrimRight(s)| <= |s| && TrimRight(s) == s[..|TrimRight(s)|]
    decreases |s|
  {
    if s != "" && IsSpace(s[|s| - 1]) {
      TrimRightTidy(s[..|s| - 1]);
    }
  }

  ghost predicate Blank(s: Text) {
    forall i :: 0 <= i < |s| ==> IsSpace(s[i])
  }

  lemma {:induction false} TrimLeftBlanks(s: Text) returns (front: Text)
    ensures s == front + TrimLeft(s) && Blank(front)
    decreases |s|
  {
    front := "";
    if s != "" && IsSpace(s[0]) {
      var rest := TrimLeftBlanks(s[1..]);
      front := [s[0]] + rest;
      assert s == [s[0]] + s[1..];
    }
  }

  lemma {:induction false} TrimRightBlanks(s: Text) returns (back: Text)
    ensures s == TrimRight(s) + back && Blank(back)
    decreases |s|
  {
    back := "";
    if s != "" && IsSpace(s[|s| - 1]) {
      var rest := TrimRightBlanks(s[..|s| - 1]);
      back := rest + [s[|s| - 1]];
      assert s == s[..|s| - 1] + [s[|s| - 1]];
    }
  }

  /** Trimming takes blanks off both ends, and all that are there. */
  lemma {:induction false} TrimExactly(s: Text) returns (front: Text, back: Text)
    ensures s == front + Trim(s) + back && Blank(front) && Blank(back)
    ensures Trim(s) == "" || (!IsSpace(Trim(s)[0]) && !IsSpace(Trim(s)[|Trim(s)| - 1]))
  {
    var right := TrimRight(s);
    back := TrimRightBlanks(s);
    front := TrimLeftBlanks(right);
    TrimRightTidy(s);
    TrimLeftTidy(right);
    if Trim(s) != "" { assert Trim(s)[|Trim(s)| - 1] == right[|right| - 1]; }
  }

  /** Trimming a text with a newline added gives the text back exactly when it was tidy. */
  lemma {:induction false} TrimLine(s: Text)
    ensures Trim(s + "\n") == s <==> Tidy(s)
    ensures Trim(s) == s <==> Tidy(s)
  {
    assert (s + "\n")[..|s|] == s;
    assert TrimRight(s + "\n") == TrimRight(s);
    TrimRightTidy(s);
    TrimLeftTidy(TrimRight(s));
  }

  // Decimal numbers.

  function Digit(d: nat): char
    requires d < 10
  {
    '0' + d as char
  }

  function Decimal(n: nat): Text {
    if n < 10 then [Digit(n)] else Decimal(n / 10) + [Digit(n % 10)]
  }

  predicate IsDigit(c: char) {
    '0' <= c <= '9'
  }

  function ParseDigits(s: Text): Option<nat>
    decreases |s|
  {
    if s == "" then Some(0)
    else
      var high := ParseDigits(s[..|s| - 1]);
      var last := s[|s| - 1];
      if high.None? || !IsDigit(last) then None else Some(high.value * 10 + (last as int - '0' as int))
  }

  /** `str::parse` for an unsigned integer of at most `limit`, with its optional plus sign. */
  function ParseDecimal(s: Text, limit: nat): Option<nat> {
    var digits := if s != "" && s[0] == '+' then s[1..] else s;
    if digits == "" then None
    else
      var n := ParseDigits(digits);
      if n.Some? && n.value <= limit then n else None
  }

  lemma {:induction false} DecimalDigits(n: nat)
    ensures |Decimal(n)| > 0 && forall i :: 0 <= i < |Decimal(n)| ==> IsDigit(Decimal(n)[i])
    ensures ParseDigits(Decimal(n)) == Some(n)
  {
    if n >= 10 {
      DecimalDigits(n / 10);
      assert Decimal(n)[..|Decimal(n)| - 1] == Decimal(n / 10);
    } else {
      assert Decimal(n)[..0] == "";
    }
  }

  lemma {:induction false} ParseDecimalOf(n: nat, limit: nat)
    requires n <= limit
    ensures ParseDecimal(Decimal(n), limit) == Some(n)
  {
    DecimalDigits(n);
  }

  /** Does `needle` occur in `s`? */
  predicate Contains(s: Text, needle: Text) {
    exists i :: 0 <= i <= |s| && OccursAt(s, needle, i)
  }

  predicate OccursAt(s: Text, needle: Text, i: nat) {
    i + |needle| <= |s| && s[i..i + |needle|] == needle
  }
}
