/** The string operations the configuration code relies on: trimming, ASCII case, splitting and decimal numbers. */
module Text {
  import opened Collections
  import opened Words

  /** The characters of the Unicode White_Space property. */
  predicate IsWhitespace(c: char) {
    || '\U{9}' <= c <= '\U{D}'
    || c == ' '
    || c == '\U{85}'
    || c == '\U{A0}'
    || c == '\U{1680}'
    || '\U{2000}' <= c <= '\U{200A}'
    || c == '\U{2028}'
    || c == '\U{2029}'
    || c == '\U{202F}'
    || c == '\U{205F}'
    || c == '\U{3000}'
  }

  function TrimStart(s: string): string {
    if s != "" && IsWhitespace(s[0]) then TrimStart(s[1..]) else s
  }

  function TrimEnd(s: string): string {
    if s != "" && IsWhitespace(s[|s| - 1]) then TrimEnd(s[..|s| - 1]) else s
  }

  function Trim(s: string): string {
    TrimEnd(TrimStart(s))
  }

  lemma TrimKeeps(s: string)
    requires s != "" ==> !IsWhitespace(s[0]) && !IsWhitespace(s[|s| - 1])
    ensures Trim(s) == s
  {}

  /** The White_Space characters, one by one. */
  lemma WhitespaceIs(c: char)
    ensures IsWhitespace(c) <==>
              c in "\U{9}\U{A}\U{B}\U{C}\U{D} \U{85}\U{A0}\U{1680}\U{2000}\U{2001}\U{2002}\U{2003}\U{2004}\U{2005}\U{2006}\U{2007}\U{2008}\U{2009}\U{200A}\U{2028}\U{2029}\U{202F}\U{205F}\U{3000}"
  {}

  predicate AllWhitespace(s: string) {
    forall i :: 0 <= i < |s| ==> IsWhitespace(s[i])
  }

  lemma {:induction false} TrimStartPadded(before: string, s: string)
    requires AllWhitespace(before)
    ensures TrimStart(before + s) == TrimStart(s)
  {
    if before == "" {
      assert before + s == s;
    } else {
      assert (before + s)[1..] == before[1..] + s;
      TrimStartPadded(before[1..], s);
    }
  }

  lemma {:induction false} TrimEndPadded(s: string, after: string)
    requires AllWhitespace(after)
    ensures TrimEnd(s + after) == TrimEnd(s)
    decreases |after|
  {
    if after == "" {
      assert s + after == s;
    } else {
      var front := after[..|after| - 1];
      assert (s + after)[..|s + after| - 1] == s + front;
      TrimEndPadded(s, front);
    }
  }

  lemma {:induction false} TrimStartKeepsEnd(s: string, after: string)
    requires AllWhitespace(after)
    ensures TrimEnd(TrimStart(s + after)) == TrimEnd(TrimStart(s))
    decreases |s|
  {
    if s == "" {
      assert s + after == after + "";
      TrimStartPadded(after, "");
    } else if IsWhitespace(s[0]) {
      assert (s + after)[1..] == s[1..] + after;
      TrimStartKeepsEnd(s[1..], after);
    } else {
      TrimEndPadded(s, after);
    }
  }

  /** White space around a text does not survive trimming, however much there is. */
  lemma TrimIgnoresPadding(before: string, s: string, after: string)
    requires AllWhitespace(before) && AllWhitespace(after)
    ensures Trim(before + s + after) == Trim(s)
  {
    assert before + s + after == before + (s + after);
    TrimStartPadded(before, s + after);
    TrimStartKeepsEnd(s, after);
  }

  function LowerChar(c: char): char {
    if 'A' <= c <= 'Z' then c + 32 as char else c
  }

  function Lower(s: string): (r: string)
    ensures |r| == |s|
    ensures forall i :: 0 <= i < |s| ==> r[i] == LowerChar(s[i])
  {
    seq(|s|, i requires 0 <= i < |s| => LowerChar(s[i]))
  }

  /** Only the ASCII capitals change, each to its small letter. */
  lemma LowerIs(c: char)
    ensures c !in "ABCDEFGHIJKLMNOPQRSTUVWXYZ" ==> LowerChar(c) == c
    ensures forall i :: 0 <= i < 26 ==> LowerChar("ABCDEFGHIJKLMNOPQRSTUVWXYZ"[i]) == "abcdefghijklmnopqrstuvwxyz"[i]
  {
    forall i | 0 <= i < 26
      ensures "ABCDEFGHIJKLMNOPQRSTUVWXYZ"[i] == 'A' + i as char && "abcdefghijklmnopqrstuvwxyz"[i] == 'a' + i as char {
    }
    if 'A' <= c <= 'Z' {
      assert c == "ABCDEFGHIJKLMNOPQRSTUVWXYZ"[(c - 'A') as int];
    }
  }

  // ---------------------------------------------------------------- splitting

  /** The fields between separators; there is always at least one. */
  function Split(s: string, separator: char): (fields: seq<string>)
    ensures fields != []
  {
    if s == "" then [""]
    else if s[0] == separator then [""] + Split(s[1..], separator)
    else
      var rest := Split(s[1..], separator);
      [[s[0]] + rest[0]] + rest[1..]
  }

  lemma {:induction false} SplitWhole(s: string, separator: char)
    requires separator !in s
    ensures Split(s, separator) == [s]
  {
    if s != "" {
      assert s == [s[0]] + s[1..];
      SplitWhole(s[1..], separator);
    }
  }

  /** A separator-free field is split off whole. */
  lemma {:induction false} SplitField(field: string, rest: string, separator: char)
    requires separator !in field
    ensures Split(field + [separator] + rest, separator) == [field] + Split(rest, separator)
    decreases |field|
  {
    var s := field + [separator] + rest;
    if field == "" {
      assert s[1..] == rest;
    } else {
      assert field == [field[0]] + field[1..];
      assert s[1..] == field[1..] + [separator] + rest;
      SplitField(field[1..], rest, separator);
    }
  }

  // ---------------------------------------------------------------- decimal numbers

  predicate IsDigit(c: char) {
    '0' <= c <= '9'
  }

  function DigitValue(c: char): (d: nat)
    requires IsDigit(c)
    ensures d < 10
  {
    (c - '0') as nat
  }

  predicate AllDigits(s: string) {
    forall i :: 0 <= i < |s| ==> IsDigit(s[i])
  }

  function Value(s: string): nat
    requires AllDigits(s)
  {
    if s == "" then 0 else 10 * Value(s[..|s| - 1]) + DigitValue(s[|s| - 1])
  }

  /** A number without its optional plus sign. */
  function Unsigned(s: string): string {
    if s != "" && s[0] == '+' then s[1..] else s
  }

  /** An unsigned 32-bit number: an optional plus sign, then at least one digit, and no overflow. */
  function ParseU32(s: string): Option<u32> {
    var digits := Unsigned(s);
    if digits != "" && AllDigits(digits) && Value(digits) < 0x1_0000_0000 then Some(Value(digits)) else None
  }

  function DigitChar(d: nat): (c: char)
    requires d < 10
    ensures IsDigit(c) && DigitValue(c) == d
  {
    '0' + d as char
  }

  lemma DigitIs(c: char, d: nat)
    requires d < 10
    ensures c == "0123456789"[d] ==> c != '+' && IsDigit(c) && DigitValue(c) == d
    ensures IsDigit(c) <==> c in "0123456789"
  {
    assert forall k :: 0 <= k < 10 ==> "0123456789"[k] == '0' + k as char;
    if IsDigit(c) {
      assert c == "0123456789"[DigitValue(c)];
    }
  }

  /** What fixes the reading of numbers: one digit, and one digit more, as long as 32 bits hold it. */
  lemma DigitAppended(s: string, d: nat)
    requires d < 10
    ensures ParseU32(["0123456789"[d]]) == Some(d)
    ensures ParseU32(s).Some? ==>
              ParseU32(s + ["0123456789"[d]])
              == if 10 * ParseU32(s).value + d < 0x1_0000_0000 then Some(10 * ParseU32(s).value + d) else None
  {
    var c := "0123456789"[d];
    hide Value, AllDigits, Unsigned, IsDigit, DigitValue;
    DigitIs(c, d);
    ValueAppended("", c, d);
    assert "" + [c] == [c];
    UnsignedAppended("", c);
    if ParseU32(s).Some? {
      UnsignedAppended(s, c);
      ValueAppended(Unsigned(s), c, d);
    }
  }

  lemma UnsignedAppended(s: string, c: char)
    requires c != '+'
    ensures Unsigned(s + [c]) == Unsigned(s) + [c]
    ensures Unsigned("") == ""
  {
    if s != "" {
      assert (s + [c])[1..] == s[1..] + [c];
    }
  }

  lemma ValueAppended(digits: string, c: char, d: nat)
    requires AllDigits(digits) && IsDigit(c) && DigitValue(c) == d
    ensures AllDigits(digits + [c]) && Value(digits + [c]) == 10 * Value(digits) + d
    ensures AllDigits("") && Value("") == 0
  {
    assert (digits + [c])[..|digits|] == digits;
  }

  /** Nothing else is a number: after at most one plus sign only digits may follow, and at least one. */
  lemma NotANumber(s: string, i: nat)
    requires i < |s| && s[i] !in "0123456789" && (i == 0 ==> s[0] != '+')
    ensures ParseU32(s) == None && ParseU32("") == None && ParseU32("+") == None
  {
    DigitIs(s[i], 0);
    var digits := Unsigned(s);
    if s[0] == '+' {
      assert digits[i - 1] == s[i];
    } else {
      assert digits[i] == s[i];
    }
  }
}
