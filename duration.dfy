/**
 * The delivery-duration label of the conversion page: a short label built
 * from the hour and minute designators of an ISO 8601 duration written in
 * the "format with designators" (ISO 8601:2004 section 4.4.3.2), such as
 * "PT20H8M16.305111S".
 *
 * The label is computed by matching the unanchored pattern
 *   PT(?:(\d+)H)?(?:(\d+)M)?(?:(\d+(?:\.\d+)?)S)?
 * and then choosing between a day, an hour and a minute rendering.
 */
module Duration {
  import opened Wrappers

  const Unknown := "Unknown"

  predicate IsDigit(c: char) { '0' <= c <= '9' }

  predicate AllDigits(s: string) { forall k :: 0 <= k < |s| ==> IsDigit(s[k]) }

  function DigitChar(d: nat): (c: char)
    requires d < 10
    ensures IsDigit(c) && c as int - '0' as int == d
  {
    ('0' as int + d) as char
  }

  function Pow10(n: nat): (r: nat)
    ensures r >= 1
  {
    if n == 0 then 1 else 10 * Pow10(n - 1)
  }

  /** `parseInt` of a non-empty run of decimal digits; the value is unbounded. */
  function DigitsValue(ds: string): nat
    requires AllDigits(ds)
  {
    if ds == [] then 0
    else 10 * DigitsValue(ds[..|ds| - 1]) + (ds[|ds| - 1] as int - '0' as int)
  }

  /** A run of n digits reads as less than 10^n. */
  lemma {:induction false} DigitsValueBound(ds: string)
    requires AllDigits(ds)
    ensures DigitsValue(ds) < Pow10(|ds|)
  {
    if ds != [] {
      var init := ds[..|ds| - 1];
      DigitsValueBound(init);
      assert DigitsValue(init) <= Pow10(|init|) - 1;
    }
  }

  lemma {:induction false} Pow10Monotone(a: nat, b: nat)
    requires a <= b
    ensures Pow10(a) <= Pow10(b)
    decreases b
  {
    if a < b {
      Pow10Monotone(a, b - 1);
    }
  }

  /** 2^53: every integer below it is exactly representable as a JavaScript number. */
  const SafeBound := 0x20_0000_0000_0000

  /**
   * `parseInt` is exact on the captured counts this model reads: a run of at most 15
   * digits stays below 2^53, so the unbounded value is the number JavaScript computes.
   */
  lemma ParseIntExact(ds: string)
    requires AllDigits(ds) && |ds| <= 15
    ensures DigitsValue(ds) < SafeBound
  {
    DigitsValueBound(ds);
    Pow10Monotone(|ds|, 15);
    assert Pow10(15) == 1_000_000_000_000_000;
  }

  /** How a number is rendered inside a template literal. */
  function NatToString(n: nat): (r: string)
    ensures |r| > 0 && AllDigits(r)
    ensures DigitsValue(r) == n
    ensures r[0] == '0' ==> r == "0" && n == 0
  {
    if n < 10 then [DigitChar(n)]
    else
      var r := NatToString(n / 10) + [DigitChar(n % 10)];
      assert r[..|r| - 1] == NatToString(n / 10);
      r
  }

  /** Leading zeros do not change the value `parseInt` reads. */
  lemma {:induction false} LeadingZeroIgnored(ds: string)
    requires AllDigits(ds)
    ensures AllDigits("0" + ds) && DigitsValue("0" + ds) == DigitsValue(ds)
  {
    if ds != [] {
      var t := ds[..|ds| - 1];
      LeadingZeroIgnored(t);
      assert ("0" + ds)[..|"0" + ds| - 1] == "0" + t;
    }
  }

  /** The rendering of a number determines the number. */
  lemma NatToStringInjective(a: nat, b: nat)
    requires NatToString(a) == NatToString(b)
    ensures a == b
  {
    assert DigitsValue(NatToString(a)) == a;
  }

  // ---------------------------------------------------------------------
  // Matching the pattern

  /** "PT" starts at index i of s. */
  predicate PTAt(s: string, i: int) {
    0 <= i && i + 1 < |s| && s[i] == 'P' && s[i + 1] == 'T'
  }

  predicate ContainsPT(s: string) {
    exists i | 0 <= i < |s| :: PTAt(s, i)
  }

  /** The first index at or after i where "PT" starts. */
  function FindPTFrom(s: string, i: nat): (r: Option<nat>)
    requires i <= |s|
    ensures r.Some? ==> i <= r.value && PTAt(s, r.value)
    ensures r.Some? ==> forall k :: i <= k < r.value ==> !PTAt(s, k)
    ensures r.None? ==> forall k :: i <= k ==> !PTAt(s, k)
    decreases |s| - i
  {
    if i + 1 >= |s| then None
    else if s[i] == 'P' && s[i + 1] == 'T' then Some(i)
    else FindPTFrom(s, i + 1)
  }

  /** Where the unanchored pattern matches: the first "PT" of s, since everything after it is optional. */
  function FindPT(s: string): (r: Option<nat>)
    ensures r.Some? <==> ContainsPT(s)
    ensures r.Some? ==> PTAt(s, r.value) && forall k :: 0 <= k < r.value ==> !PTAt(s, k)
  {
    FindPTFrom(s, 0)
  }

  /** The length of the run of digits that starts at index i. */
  function DigitRun(s: string, i: nat): (n: nat)
    requires i <= |s|
    ensures i + n <= |s|
    ensures forall k :: i <= k < i + n ==> IsDigit(s[k])
    ensures i + n == |s| || !IsDigit(s[i + n])
    decreases |s| - i
  {
    if i < |s| && IsDigit(s[i]) then 1 + DigitRun(s, i + 1) else 0
  }

  /** `\d+` followed by the designator d matches s[i..j+1], with the designator at j. */
  predicate GroupMatchesAt(s: string, i: nat, j: int, d: char) {
    i < j < |s| && AllDigits(s[i..j]) && s[j] == d
  }

  /** The outcome of one optional group: the number it captured, and where matching goes on. */
  datatype Group = Group(value: Option<nat>, next: nat)

  /**
   * One optional group `(?:(\d+)d)?` tried at index i. The group is greedy, so it is
   * taken whenever `\d+d` matches at i, and `\d+` can only end where the digits end.
   */
  function ReadGroup(s: string, i: nat, d: char): (g: Group)
    requires i <= |s| && !IsDigit(d)
    ensures i <= g.next <= |s|
    ensures g.value.Some? ==>
      i < g.next && GroupMatchesAt(s, i, g.next - 1, d) && g.value.value == DigitsValue(s[i..g.next - 1])
    ensures g.value.None? ==> g.next == i
  {
    var n := DigitRun(s, i);
    assert AllDigits(s[i..i + n]);
    if n > 0 && i + n < |s| && s[i + n] == d then Group(Some(DigitsValue(s[i..i + n])), i + n + 1)
    else Group(None, i)
  }

  /** Wherever `\d+d` matches at i, that match is the group read: it is unique. */
  lemma {:induction false} ReadGroupAt(s: string, i: nat, j: nat, d: char)
    requires GroupMatchesAt(s, i, j, d) && !IsDigit(d)
    ensures ReadGroup(s, i, d) == Group(Some(DigitsValue(s[i..j])), j + 1)
  {
    var n := DigitRun(s, i);
    assert forall k :: i <= k < j ==> IsDigit(s[k]) by {
      forall k | i <= k < j ensures IsDigit(s[k]) {
        assert s[k] == s[i..j][k - i];
      }
    }
    assert i + n == j;
  }

  /** The hour and minute counts the label is built from. */
  datatype Parts = Parts(hours: nat, minutes: nat)

  /**
   * The match and its two captured counts (0 when a group is absent). The seconds
   * group can only extend the match and captures nothing that is used, so it is not read.
   */
  function ParseDuration(s: string): (r: Option<Parts>)
    ensures r.Some? <==> ContainsPT(s)
  {
    match FindPT(s)
    case None => None
    case Some(p) =>
      var h := ReadGroup(s, p + 2, 'H');
      var m := ReadGroup(s, h.next, 'M');
      Some(Parts(h.value.GetOr(0), m.value.GetOr(0)))
  }

  // ---------------------------------------------------------------------
  // The label

  /** Every label starts with the count it shows, and is at least that digit and one letter long. */
  function Label(p: Parts): (r: string)
    ensures |r| >= 2 && IsDigit(r[0])
  {
    if p.hours > 24 then
      var days := p.hours / 24;
      NatToString(days) + " day" + (if days > 1 then "s" else "")
    else if p.hours > 0 then
      NatToString(p.hours) + "h " + (if p.minutes > 0 then NatToString(p.minutes) + "m" else "")
    else
      NatToString(p.minutes) + "m"
  }

  /** The label of a delivery duration; None stands for null / undefined. */
  function FormatDuration(input: Option<string>): (r: string)
    ensures r == Unknown <==> input.None? || !ContainsPT(input.value)
  {
    if input.None? || input.value == "" then Unknown
    else
      match ParseDuration(input.value)
      case None => Unknown
      case Some(p) => LabelLastChar(p); Label(p)
  }

  function Last(s: string): char
    requires |s| > 0
  {
    s[|s| - 1]
  }

  /** Which branch produced a label can be read off its last character. */
  lemma LabelLastChar(p: Parts)
    ensures |Label(p)| > 0
    ensures p.hours >= 48 ==> Last(Label(p)) == 's'
    ensures 24 < p.hours < 48 ==> Last(Label(p)) == 'y'
    ensures 0 < p.hours <= 24 && p.minutes == 0 ==> Last(Label(p)) == ' '
    ensures (p.hours == 0 || (p.hours <= 24 && p.minutes > 0)) ==> Last(Label(p)) == 'm'
  {
  }

  // ---------------------------------------------------------------------
  // Properties of the label

  /** The day branch is taken exactly for more than 24 hours, and "1 day" covers 25 to 47 hours. */
  lemma {:induction false} OneDayIff(p: Parts)
    ensures Label(p) == "1 day" <==> 25 <= p.hours <= 47
  {
    LabelLastChar(p);
    if 25 <= p.hours <= 47 {
      assert p.hours / 24 == 1;
      assert NatToString(1) == "1";
    }
  }

  /** "s" is appended exactly when the day count exceeds one, that is from 48 hours on. */
  lemma {:induction false} PluralIff(p: Parts)
    ensures |Label(p)| > 0
    ensures Last(Label(p)) == 's' <==> p.hours >= 48
  {
    LabelLastChar(p);
  }

  /**
   * The hour branch keeps the space it writes after "h" when there are no minutes:
   * the label ends in a space exactly for 1 to 24 hours and 0 minutes.
   */
  lemma {:induction false} TrailingSpaceIff(p: Parts)
    ensures |Label(p)| > 0
    ensures Last(Label(p)) == ' ' <==> 0 < p.hours <= 24 && p.minutes == 0
  {
    LabelLastChar(p);
  }

  /** The hour branch of the definition read back: below 25 hours the hour count is written out, followed by the minutes only when there are some. */
  lemma {:induction false} HourBranch(h: nat, m: nat)
    requires 0 < h <= 24
    ensures m == 0 ==> Label(Parts(h, m)) == NatToString(h) + "h "
    ensures m > 0 ==> Label(Parts(h, m)) == NatToString(h) + "h " + NatToString(m) + "m"
  {
  }

  /** Above 24 hours the label counts whole days, rounding down, and the minutes are dropped. */
  lemma DayBranch(h: nat, m: nat)
    requires h > 24
    ensures Label(Parts(h, m)) == NatToString(h / 24) + " day" + (if h >= 48 then "s" else "")
  {
  }

  /** With no hours, the label is the minute count, including "0m". */
  lemma MinuteBranch(m: nat)
    ensures Label(Parts(0, m)) == NatToString(m) + "m"
  {
  }

  // ---------------------------------------------------------------------
  // Properties of the match

  /** Reading a designated number written out in decimal gives that number back. */
  lemma {:induction false} ReadWritten(pre: string, n: nat, d: char, post: string)
    requires !IsDigit(d)
    ensures ReadGroup(pre + NatToString(n) + [d] + post, |pre|, d)
         == Group(Some(n), |pre| + |NatToString(n)| + 1)
  {
    var w := NatToString(n);
    var s := pre + w + [d] + post;
    var j := |pre| + |w|;
    assert s[|pre|..j] == w;
    ReadGroupAt(s, |pre|, j, d);
  }

  /** No group is taken where the text goes on with something other than a digit. */
  lemma {:induction false} ReadNothing(s: string, i: nat, d: char)
    requires i <= |s| && !IsDigit(d)
    requires i == |s| || !IsDigit(s[i])
    ensures ReadGroup(s, i, d) == Group(None, i)
  {
  }

  /** A group with designator d is not taken where the digits are followed by another designator e. */
  lemma {:induction false} ReadOther(pre: string, n: nat, e: char, post: string, d: char)
    requires !IsDigit(d) && !IsDigit(e) && d != e
    ensures ReadGroup(pre + NatToString(n) + [e] + post, |pre|, d) == Group(None, |pre|)
  {
    var w := NatToString(n);
    var s := pre + w + [e] + post;
    assert s[|pre| + |w|] == e;
    assert s[|pre|..|pre| + |w|] == w;
  }

  /**
   * Hours and minutes written out in full are read back, whatever follows the minutes:
   * in particular the seconds never influence the result.
   */
  lemma {:induction false} ParseHoursMinutes(h: nat, m: nat, rest: string)
    ensures ParseDuration("PT" + NatToString(h) + "H" + NatToString(m) + "M" + rest) == Some(Parts(h, m))
  {
    var s := "PT" + NatToString(h) + "H" + NatToString(m) + "M" + rest;
    assert PTAt(s, 0);
    ReadWritten("PT", h, 'H', NatToString(m) + "M" + rest);
    assert "PT" + NatToString(h) + "H" + (NatToString(m) + "M" + rest) == s;
    var k := 2 + |NatToString(h)| + 1;
    ReadWritten(s[..k], m, 'M', rest);
    assert s[..k] + NatToString(m) + "M" + rest == s;
  }

  /** Hours alone, followed by anything that does not start with a digit. */
  lemma {:induction false} ParseHoursOnly(h: nat, rest: string)
    requires rest == [] || !IsDigit(rest[0])
    ensures ParseDuration("PT" + NatToString(h) + "H" + rest) == Some(Parts(h, 0))
  {
    var s := "PT" + NatToString(h) + "H" + rest;
    assert PTAt(s, 0);
    ReadWritten("PT", h, 'H', rest);
    var k := 2 + |NatToString(h)| + 1;
    assert k < |s| ==> s[k] == rest[0];
    ReadNothing(s, k, 'M');
  }

  /** Minutes alone: the digits are followed by M, so the hour group is skipped. */
  lemma {:induction false} ParseMinutesOnly(m: nat, rest: string)
    ensures ParseDuration("PT" + NatToString(m) + "M" + rest) == Some(Parts(0, m))
  {
    var s := "PT" + NatToString(m) + "M" + rest;
    assert PTAt(s, 0);
    ReadOther("PT", m, 'M', rest, 'H');
    ReadWritten("PT", m, 'M', rest);
  }

  /** "PT" with nothing matched after it counts as zero hours and zero minutes. */
  lemma {:induction false} ParseBare(rest: string)
    requires rest == [] || !IsDigit(rest[0])
    ensures ParseDuration("PT" + rest) == Some(Parts(0, 0))
  {
    var s := "PT" + rest;
    assert PTAt(s, 0);
    assert 2 < |s| ==> s[2] == rest[0];
    ReadNothing(s, 2, 'H');
    ReadNothing(s, 2, 'M');
  }

  /**
   * Seconds after the hours are not read: "PT{h}H{sec}" followed by anything but a digit or
   * 'M' (the 'S' of whole seconds, the '.' of fractional ones) parses to (h, 0).
   */
  lemma {:induction false} ParseHoursSeconds(h: nat, sec: nat, e: char, rest: string)
    requires !IsDigit(e) && e != 'M'
    ensures ParseDuration("PT" + NatToString(h) + "H" + NatToString(sec) + [e] + rest) == Some(Parts(h, 0))
  {
    var s := "PT" + NatToString(h) + "H" + NatToString(sec) + [e] + rest;
    assert PTAt(s, 0);
    ReadWritten("PT", h, 'H', NatToString(sec) + [e] + rest);
    assert "PT" + NatToString(h) + "H" + (NatToString(sec) + [e] + rest) == s;
    var k := 2 + |NatToString(h)| + 1;
    ReadOther(s[..k], sec, e, rest, 'M');
    assert s[..k] + NatToString(sec) + [e] + rest == s;
  }

  /** Seconds alone are not read either: "PT{sec}" followed by neither a digit, 'H' nor 'M' parses to (0, 0). */
  lemma {:induction false} ParseSecondsOnly(sec: nat, e: char, rest: string)
    requires !IsDigit(e) && e != 'H' && e != 'M'
    ensures ParseDuration("PT" + NatToString(sec) + [e] + rest) == Some(Parts(0, 0))
  {
    var s := "PT" + NatToString(sec) + [e] + rest;
    assert PTAt(s, 0);
    ReadOther("PT", sec, e, rest, 'H');
    ReadOther("PT", sec, e, rest, 'M');
  }

  /** A digit run does not depend on the text before it. */
  lemma {:induction false} DigitRunShift(s: string, k: nat, i: nat)
    requires k <= i <= |s|
    ensures DigitRun(s[k..], i - k) == DigitRun(s, i)
    decreases |s| - i
  {
    if i < |s| && IsDigit(s[i]) {
      DigitRunShift(s, k, i + 1);
    }
  }

  /** Neither does a group. */
  lemma {:induction false} ReadGroupShift(s: string, k: nat, i: nat, d: char)
    requires k <= i <= |s| && !IsDigit(d)
    ensures ReadGroup(s[k..], i - k, d).value == ReadGroup(s, i, d).value
    ensures ReadGroup(s[k..], i - k, d).next == ReadGroup(s, i, d).next - k
  {
    DigitRunShift(s, k, i);
    var n := DigitRun(s, i);
    assert s[k..][i - k..i - k + n] == s[i..i + n];
  }

  /** The parse read off the two groups that follow a match at p. */
  function PartsAt(s: string, p: nat): Parts
    requires p + 2 <= |s|
  {
    var h := ReadGroup(s, p + 2, 'H');
    Parts(h.value.GetOr(0), ReadGroup(s, h.next, 'M').value.GetOr(0))
  }

  lemma ParseIsPartsAt(s: string)
    requires ContainsPT(s)
    ensures FindPT(s).Some? && ParseDuration(s) == Some(PartsAt(s, FindPT(s).value))
  {
  }

  /** Reading the groups after a match at p does not depend on the text before p. */
  lemma {:induction false} PartsAtShift(s: string, p: nat)
    requires p + 2 <= |s|
    ensures PartsAt(s[p..], 0) == PartsAt(s, p)
  {
    var h := ReadGroup(s, p + 2, 'H');
    var m := ReadGroup(s, h.next, 'M');
    ReadGroupShift(s, p, p + 2, 'H');
    var ht := ReadGroup(s[p..], 2, 'H');
    assert ht.value == h.value && ht.next == h.next - p;
    ReadGroupShift(s, p, h.next, 'M');
    assert ReadGroup(s[p..], ht.next, 'M').value == m.value;
  }

  /** The pattern is unanchored: the parse is that of the text from the first "PT" on. */
  lemma {:induction false} ParseFromFirstPT(s: string)
    requires ContainsPT(s)
    ensures FindPT(s).Some? && ParseDuration(s) == ParseDuration(s[FindPT(s).value..])
  {
    var p := FindPT(s).value;
    var t := s[p..];
    assert PTAt(t, 0);
    assert FindPT(t) == Some(0);
    ParseIsPartsAt(s);
    ParseIsPartsAt(t);
    PartsAtShift(s, p);
  }

  /** Both groups captured at known positions: the parse is then determined by the two digit runs. */
  lemma {:induction false} ParseAt(s: string, p: nat, hEnd: nat, mEnd: nat)
    requires PTAt(s, p) && forall k :: 0 <= k < p ==> !PTAt(s, k)
    requires GroupMatchesAt(s, p + 2, hEnd, 'H') && GroupMatchesAt(s, hEnd + 1, mEnd, 'M')
    ensures ParseDuration(s) == Some(Parts(DigitsValue(s[p + 2..hEnd]), DigitsValue(s[hEnd + 1..mEnd])))
  {
    FirstPTAt(s, p);
    PartsAtGroups(s, p, hEnd, mEnd);
    ParseIsPartsAt(s);
  }

  lemma FirstPTAt(s: string, p: nat)
    requires PTAt(s, p) && forall k :: 0 <= k < p ==> !PTAt(s, k)
    ensures ContainsPT(s) && FindPT(s) == Some(p)
  {
  }

  lemma {:induction false} PartsAtGroups(s: string, p: nat, hEnd: nat, mEnd: nat)
    requires GroupMatchesAt(s, p + 2, hEnd, 'H') && GroupMatchesAt(s, hEnd + 1, mEnd, 'M')
    ensures PartsAt(s, p) == Parts(DigitsValue(s[p + 2..hEnd]), DigitsValue(s[hEnd + 1..mEnd]))
  {
    ReadGroupAt(s, p + 2, hEnd, 'H');
    ReadGroupAt(s, hEnd + 1, mEnd, 'M');
    PartsAtOf(s, p, Group(Some(DigitsValue(s[p + 2..hEnd])), hEnd + 1), Group(Some(DigitsValue(s[hEnd + 1..mEnd])), mEnd + 1));
  }

  lemma PartsAtOf(s: string, p: nat, h: Group, m: Group)
    requires p + 2 <= |s| && ReadGroup(s, p + 2, 'H') == h
    requires h.next <= |s| && ReadGroup(s, h.next, 'M') == m
    ensures PartsAt(s, p) == Parts(h.value.GetOr(0), m.value.GetOr(0))
  {
  }

  /** The rendering of a two-digit number. */
  lemma TwoDigits(n: nat)
    requires 10 <= n < 100
    ensures NatToString(n) == [DigitChar(n / 10), DigitChar(n % 10)]
  {
    assert NatToString(n / 10) == [DigitChar(n / 10)];
  }

  /** A parsed duration is shown as the label of its parts. */
  lemma FormatParsed(s: string, p: Parts)
    requires ParseDuration(s) == Some(p)
    ensures FormatDuration(Some(s)) == Label(p)
  {
  }
}
