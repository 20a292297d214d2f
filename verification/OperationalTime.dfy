/** Times of day: built from hours, minutes and seconds, printed as `HH:MM:SS`, and parsed back. */
module OperationalTime {
  import opened Collections
  import opened Text
  import opened Words

  const SECS_PER_DAY := 86_400

  /** Whole seconds since midnight. */
  type TimeOfDay = secs: int | 0 <= secs < SECS_PER_DAY

  function FromHms(hour: u32, minute: u32, second: u32): Option<TimeOfDay> {
    if hour > 23 || minute > 59 || second > 59 then None else Some(hour * 3_600 + minute * 60 + second)
  }

  function Hour(t: TimeOfDay): u32 { t / 3_600 }

  function Minute(t: TimeOfDay): u32 { t % 3_600 / 60 }

  function Second(t: TimeOfDay): u32 { t % 60 }

  /** Building from hours, minutes and seconds is a bijection from the valid triples onto the 86400 times of day. */
  lemma FromHmsIff(hour: u32, minute: u32, second: u32, t: TimeOfDay)
    ensures FromHms(hour, minute, second) == Some(t) <==> hour == t / 3_600 && minute == t % 3_600 / 60 && second == t % 60
  {
    Recompose(t);
    if hour <= 23 && minute <= 59 && second <= 59 {
      Decompose(hour, minute, second);
    }
  }

  lemma Recompose(t: TimeOfDay)
    ensures Hour(t) <= 23 && Minute(t) <= 59 && Second(t) <= 59
    ensures Hour(t) * 3_600 + Minute(t) * 60 + Second(t) == t
  {
    var hour, rest := t / 3_600, t % 3_600;
    assert t == 60 * (60 * hour) + rest;
    SameRemainder(60 * hour, rest);
  }

  lemma SameRemainder(k: nat, rest: nat)
    ensures (60 * k + rest) % 60 == rest % 60
  {}

  lemma Decompose(hour: u32, minute: u32, second: u32)
    requires hour <= 23 && minute <= 59 && second <= 59
    ensures var t := hour * 3_600 + minute * 60 + second;
            Hour(t) == hour && Minute(t) == minute && Second(t) == second
  {
    var t := hour * 3_600 + minute * 60 + second;
    assert t / 3_600 == hour && t % 3_600 == minute * 60 + second;
    assert (minute * 60 + second) / 60 == minute;
  }

  function Parse(raw: string): Option<TimeOfDay> {
    var parts := Split(Trim(raw), ':');
    if |parts| != 3 then None
    else
      var hour, minute, second := ParseU32(parts[0]), ParseU32(parts[1]), ParseU32(parts[2]);
      if hour.None? || minute.None? || second.None? then None
      else FromHms(hour.value, minute.value, second.value)
  }

  /** A number below 100, padded to two digits. */
  function TwoDigits(n: nat): string
    requires n < 100
  {
    [DigitChar(n / 10), DigitChar(n % 10)]
  }

  function Display(t: TimeOfDay): string {
    Recompose(t);
    TwoDigits(Hour(t)) + ":" + TwoDigits(Minute(t)) + ":" + TwoDigits(Second(t))
  }

  lemma TwoDigitsParse(n: nat)
    requires n < 100
    ensures ParseU32(TwoDigits(n)) == Some(n)
    ensures ':' !in TwoDigits(n)
  {
    var s := TwoDigits(n);
    assert Value(s[..1]) == n / 10 by {
      assert s[..1][..0] == "";
    }
    assert Value(s) == 10 * (n / 10) + n % 10;
  }

  lemma SplitThree(a: string, b: string, c: string)
    requires ':' !in a && ':' !in b && ':' !in c
    ensures Split(a + ":" + b + ":" + c, ':') == [a, b, c]
  {
    assert a + ":" + b + ":" + c == a + [':'] + (b + [':'] + c);
    SplitField(a, b + [':'] + c, ':');
    SplitField(b, c, ':');
    SplitWhole(c, ':');
  }

  lemma DisplayTrimmed(t: TimeOfDay)
    ensures Trim(Display(t)) == Display(t)
  {
    Recompose(t);
    var s := Display(t);
    assert IsDigit(s[0]) && IsDigit(s[|s| - 1]);
    TrimKeeps(s);
  }

  /** Parsing what was printed gives the time back, for all 86400 times of day. */
  lemma ParseAfterDisplay(t: TimeOfDay)
    ensures Parse(Display(t)) == Some(t)
  {
    DisplayTrimmed(t);
    Recompose(t);
    TwoDigitsParse(Hour(t));
    TwoDigitsParse(Minute(t));
    TwoDigitsParse(Second(t));
    hide ParseU32, TwoDigits, Trim;
    SplitThree(TwoDigits(Hour(t)), TwoDigits(Minute(t)), TwoDigits(Second(t)));
    FromHmsIff(Hour(t), Minute(t), Second(t), t);
  }

  /** The printed form, digit by digit: hours, minutes and seconds, each in two places. */
  lemma DisplayDigits(t: TimeOfDay)
    ensures Display(t) ==
              ["0123456789"[t / 36_000], "0123456789"[t / 3_600 % 10], ':',
               "0123456789"[t % 3_600 / 600], "0123456789"[t % 3_600 / 60 % 10], ':',
               "0123456789"[t % 60 / 10], "0123456789"[t % 10]]
  {
    Recompose(t);
    TensAndOnes(t);
    DigitShown(Hour(t));
    DigitShown(Minute(t));
    DigitShown(Second(t));
    hide TwoDigits;
  }

  lemma TensAndOnes(t: TimeOfDay)
    ensures t / 36_000 == Hour(t) / 10 && t % 3_600 / 600 == Minute(t) / 10 && t % 10 == Second(t) % 10
  {
    TensOfHours(t);
    TensOfMinutes(t % 3_600);
    OnesOfSeconds(t);
  }

  lemma TensOfHours(n: nat)
    ensures n / 36_000 == n / 3_600 / 10
  {
    var tens, rest := n / 36_000, n % 36_000;
    assert n == 3_600 * (10 * tens) + rest;
    assert n / 3_600 == 10 * tens + rest / 3_600;
  }

  lemma TensOfMinutes(n: nat)
    ensures n / 600 == n / 60 / 10
  {
    var tens, rest := n / 600, n % 600;
    assert n == 60 * (10 * tens) + rest;
    assert n / 60 == 10 * tens + rest / 60;
  }

  lemma OnesOfSeconds(n: nat)
    ensures n % 10 == n % 60 % 10
  {
    var minutes, rest := n / 60, n % 60;
    assert n == 10 * (6 * minutes) + rest;
    assert n / 10 == 6 * minutes + rest / 10;
  }

  lemma DigitShown(n: nat)
    requires n < 100
    ensures TwoDigits(n) == ["0123456789"[n / 10], "0123456789"[n % 10]]
  {
    assert forall k :: 0 <= k < 10 ==> "0123456789"[k] == '0' + k as char;
  }

  function Zeros(n: nat): string { seq(n, _ => '0') }

  lemma {:induction false} LeadingZeros(digits: string, n: nat)
    requires AllDigits(digits)
    ensures AllDigits(Zeros(n) + digits) && Value(Zeros(n) + digits) == Value(digits)
    decreases n + |digits|
  {
    var s := Zeros(n) + digits;
    if digits != "" {
      assert s[..|s| - 1] == Zeros(n) + digits[..|digits| - 1];
      LeadingZeros(digits[..|digits| - 1], n);
    } else if n > 0 {
      assert s[..|s| - 1] == Zeros(n - 1) + "";
      LeadingZeros("", n - 1);
    }
  }

  /** A field may carry leading zeros and, beyond the documented shape, a plus sign: neither changes its number. */
  lemma SpellingIgnored(digits: string, n: nat)
    requires digits != "" && AllDigits(digits)
    ensures ParseU32(Zeros(n) + digits) == ParseU32(digits)
    ensures ParseU32("+" + digits) == ParseU32(digits)
  {
    LeadingZeros(digits, n);
    assert digits[0] != '+' && (Zeros(n) + digits)[0] != '+';
    assert ("+" + digits)[1..] == digits;
  }

  /**
   The spellings of a time: three colon-separated fields whose numbers are its hour,
   minute and second.
   */
  lemma ParsesIff(raw: string, t: TimeOfDay)
    ensures var parts := Split(Trim(raw), ':');
            Parse(raw) == Some(t) <==>
              |parts| == 3 && ParseU32(parts[0]) == Some(t / 3_600) && ParseU32(parts[1]) == Some(t % 3_600 / 60)
                           && ParseU32(parts[2]) == Some(t % 60)
  {
    var parts := Split(Trim(raw), ':');
    hide ParseU32, Trim, Split;
    if |parts| == 3 {
      var hour, minute, second := ParseU32(parts[0]), ParseU32(parts[1]), ParseU32(parts[2]);
      if hour.Some? && minute.Some? && second.Some? {
        FromHmsIff(hour.value, minute.value, second.value, t);
      }
    }
  }

  /** White space around a time of day does not change what it parses to. */
  lemma TimePaddingIgnored(before: string, raw: string, after: string)
    requires AllWhitespace(before) && AllWhitespace(after)
    ensures Parse(before + raw + after) == Parse(raw)
  {
    TrimIgnoresPadding(before, raw, after);
    hide Trim, ParseU32;
  }
}
