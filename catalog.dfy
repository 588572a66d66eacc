/**
 * The currency catalog of the conversion page: the records of the currency-list
 * endpoint, decorated with a flag made of two Regional Indicator Symbols, the fixed
 * fallback list used when loading fails, and the lookups the selectors use.
 */
module Catalog {
  import opened Wrappers

  /** A record of the currency-list endpoint (only the fields that are read). */
  datatype RawCurrency = RawCurrency(code: string, name: string)

  /** A currency as the selectors show it; flag holds the Unicode code points of the flag text. */
  datatype Currency = Currency(code: string, name: string, flag: seq<int>)

  /** The currencies selected on the "from" and "to" side. */
  datatype Selection = Selection(from: string, to: string) {
    function Swapped(): Selection {
      Selection(to, from)
    }
  }

  // ---------------------------------------------------------------------
  // Flags

  /** The distance from 'A' to REGIONAL INDICATOR SYMBOL LETTER A (U+1F1E6). */
  const IndicatorOffset := 127397

  const FirstIndicator := 0x1F1E6
  const LastIndicator := 0x1F1FF

  predicate IsAsciiLetter(c: char) { 'a' <= c <= 'z' || 'A' <= c <= 'Z' }

  /** `toUpperCase`, on the ASCII range. */
  function Upper(c: char): (u: char)
    ensures 'a' <= c <= 'z' ==> 'A' <= u <= 'Z' && u as int == c as int - 32
    ensures !('a' <= c <= 'z') ==> u == c
  {
    if 'a' <= c <= 'z' then (c as int - 32) as char else c
  }

  /** The characters a `.` in a JavaScript regular expression does not match. */
  predicate IsLineTerminator(c: char) {
    c == '\n' || c == '\r' || c == '\U{2028}' || c == '\U{2029}'
  }

  /** One character of the upper-cased code, as `replace(/./g, ...)` rewrites it. */
  function FlagPoint(c: char): int {
    var u := Upper(c);
    if IsLineTerminator(u) then u as int else u as int + IndicatorOffset
  }

  /** The flag of a currency: its first two characters, upper-cased, shifted into the indicators. */
  function Flag(code: string): (f: seq<int>)
    ensures |f| == if |code| < 2 then |code| else 2
    ensures forall k :: 0 <= k < |f| ==> f[k] == FlagPoint(code[k])
  {
    var n := if |code| < 2 then |code| else 2;
    seq(n, k requires 0 <= k < n => FlagPoint(code[k]))
  }

  /** The letter a Regional Indicator Symbol stands for. */
  function IndicatorLetter(p: int): (c: char)
    requires FirstIndicator <= p <= LastIndicator
    ensures 'A' <= c <= 'Z'
  {
    (p - IndicatorOffset) as char
  }

  /**
   * A code that starts with two ASCII letters gets a flag of exactly two Regional
   * Indicator Symbols, and the flag gives back those two letters, upper-cased.
   */
  lemma {:induction false} FlagRoundTrip(code: string)
    requires |code| >= 2 && IsAsciiLetter(code[0]) && IsAsciiLetter(code[1])
    ensures |Flag(code)| == 2
    ensures forall k :: 0 <= k < 2 ==> FirstIndicator <= Flag(code)[k] <= LastIndicator
    ensures forall k :: 0 <= k < 2 ==> IndicatorLetter(Flag(code)[k]) == Upper(code[k])
  {
    forall k | 0 <= k < 2
      ensures FirstIndicator <= Flag(code)[k] <= LastIndicator
      ensures IndicatorLetter(Flag(code)[k]) == Upper(code[k])
    {
      var u := Upper(code[k]);
      assert 'A' <= u <= 'Z';
      assert !IsLineTerminator(u);
      assert Flag(code)[k] == u as int + IndicatorOffset;
    }
  }

  /** The case of the code does not change its flag, and neither does anything after its first two characters. */
  lemma FlagIgnoresCase(a: string, b: string)
    requires (if |a| < 2 then |a| else 2) == (if |b| < 2 then |b| else 2)
    requires forall k :: 0 <= k < |a| && k < 2 ==> Upper(a[k]) == Upper(b[k])
    ensures Flag(a) == Flag(b)
  {
  }

  lemma SampleFlag()
    ensures Flag("USD") == [127482, 127480]
  {
    assert Upper('U') == 'U' && Upper('S') == 'S';
  }

  // ---------------------------------------------------------------------
  // The catalog

  /** The endpoint's records mapped to currencies, in the order received. */
  function FormatCatalog(raw: seq<RawCurrency>): (cs: seq<Currency>)
    ensures |cs| == |raw|
    ensures forall i :: 0 <= i < |raw| ==>
      cs[i].code == raw[i].code && cs[i].name == raw[i].name && cs[i].flag == Flag(raw[i].code)
  {
    seq(|raw|, i requires 0 <= i < |raw| => Currency(raw[i].code, raw[i].name, Flag(raw[i].code)))
  }

  /**
   * The flag text of a fallback entry. The source holds these flags as the UTF-8 bytes of
   * two Regional Indicator Symbols read back as Windows-1252 text; x and y are the
   * characters the last byte of each indicator became.
   */
  function FallbackFlag(x: int, y: int): seq<int> {
    [0xF0, 0x178, 0x2021, x, 0xF0, 0x178, 0x2021, y]
  }

  /** The list used when the currency list cannot be loaded. */
  const Fallback: seq<Currency> := [
    Currency("USD", "US Dollar", FallbackFlag(0xBA, 0xB8)),
    Currency("EUR", "Euro", FallbackFlag(0xAA, 0xBA)),
    Currency("GBP", "British Pound", FallbackFlag(0xAC, 0xA7)),
    Currency("JPY", "Japanese Yen", FallbackFlag(0xAF, 0xB5)),
    Currency("CAD", "Canadian Dollar", FallbackFlag(0xA8, 0xA6)),
    Currency("AUD", "Australian Dollar", FallbackFlag(0xA6, 0xBA))
  ]

  function Codes(cs: seq<Currency>): (r: seq<string>)
    ensures |r| == |cs| && forall i :: 0 <= i < |cs| ==> r[i] == cs[i].code
  {
    seq(|cs|, i requires 0 <= i < |cs| => cs[i].code)
  }

  /**
   * The fallback offers these six codes in this order; both starting codes, "USD" and
   * "EUR", are on it, and no code appears twice.
   */
  lemma FallbackCodes()
    ensures Codes(Fallback) == ["USD", "EUR", "GBP", "JPY", "CAD", "AUD"]
    ensures HasCode(Fallback, "USD") && HasCode(Fallback, "EUR")
    ensures forall i, j :: 0 <= i < j < |Fallback| ==> Fallback[i].code != Fallback[j].code
  {
    assert Fallback[0].code == "USD" && Fallback[1].code == "EUR";
  }

  // ---------------------------------------------------------------------
  // Lookups

  /** `cs.some(c => c.code === code)` */
  predicate HasCode(cs: seq<Currency>, code: string) {
    exists i | 0 <= i < |cs| :: cs[i].code == code
  }

  /** The index `cs.find(c => c.code !== code)` stops at, searching from index i. */
  function FirstOtherFrom(cs: seq<Currency>, code: string, i: nat): (r: Option<nat>)
    requires i <= |cs|
    ensures r.Some? ==> i <= r.value < |cs| && cs[r.value].code != code
    ensures r.Some? ==> forall k :: i <= k < r.value ==> cs[k].code == code
    ensures r.None? ==> forall k :: i <= k < |cs| ==> cs[k].code == code
    decreases |cs| - i
  {
    if i == |cs| then None
    else if cs[i].code != code then Some(i)
    else FirstOtherFrom(cs, code, i + 1)
  }

  /** The first currency whose code differs from the given one, as an index into cs. */
  function FirstOther(cs: seq<Currency>, code: string): (r: Option<nat>)
    ensures r.Some? ==> r.value < |cs| && cs[r.value].code != code
    ensures r.Some? ==> forall k :: 0 <= k < r.value ==> cs[k].code == code
    ensures r.None? <==> forall k :: 0 <= k < |cs| ==> cs[k].code == code
  {
    FirstOtherFrom(cs, code, 0)
  }

  /** `cs.filter(c => c.code !== code)`: the options of a selector, given the other side's code. */
  function Without(cs: seq<Currency>, code: string): (r: seq<Currency>)
    ensures forall c :: c in r <==> c in cs && c.code != code
    ensures |r| <= |cs|
  {
    if cs == [] then []
    else (if cs[0].code != code then [cs[0]] else []) + Without(cs[1..], code)
  }

  /** Filtering keeps the order: it distributes over concatenation. */
  lemma {:induction false} WithoutAppend(a: seq<Currency>, b: seq<Currency>, code: string)
    ensures Without(a + b, code) == Without(a, code) + Without(b, code)
  {
    if a == [] {
      assert a + b == b;
    } else {
      assert (a + b)[1..] == a[1..] + b;
      WithoutAppend(a[1..], b, code);
    }
  }

  /** Nothing is dropped from a list that does not hold the code. */
  lemma {:induction false} WithoutAbsent(cs: seq<Currency>, code: string)
    requires !HasCode(cs, code)
    ensures Without(cs, code) == cs
  {
    if cs != [] {
      WithoutAbsent(cs[1..], code);
    }
  }

  /**
   * A selector lists its own side's currency exactly when that currency is in the
   * catalog and the other side holds a different one.
   */
  lemma {:induction false} OwnSideListed(cs: seq<Currency>, own: string, other: string)
    ensures (exists c :: c in Without(cs, other) && c.code == own) <==> HasCode(cs, own) && own != other
  {
    if HasCode(cs, own) && own != other {
      var i :| 0 <= i < |cs| && cs[i].code == own;
      assert cs[i] in Without(cs, other);
    }
  }
}
