/**
 * Sample delivery durations and the labels the conversion page shows for them.
 * Each sample is stated for a string s equal to it: with the literal itself in the
 * conclusion, the verifier unfolds the whole formatter on it.
 */
module DurationSamples {
  import opened Wrappers
  import opened Duration

  /** The absent input, the empty string and a string without "PT". */
  lemma SampleUnknown(s: string)
    requires s == "garbage"
    ensures FormatDuration(None) == Unknown
    ensures FormatDuration(Some("")) == Unknown
    ensures FormatDuration(Some(s)) == Unknown
  {
    assert FindPT(s) == None;
  }

  lemma SampleHoursAndMinutesParse(s: string)
    requires s == "PT20H8M16.305111S"
    ensures ParseDuration(s) == Some(Parts(20, 8))
  {
    assert s[2..4] == "20" && s[5..6] == "8";
    ParseAt(s, 0, 4, 6);
    TwoDigits(20);
    assert [DigitChar(2), DigitChar(0)] == "20";
    assert NatToString(8) == "8";
  }

  lemma SampleHoursAndMinutesLabel()
    ensures Label(Parts(20, 8)) == "20h 8m"
  {
    assert Label(Parts(20, 8)) == NatToString(20) + "h " + (NatToString(8) + "m");
    TwoDigits(20);
    assert [DigitChar(2), DigitChar(0)] == "20" && NatToString(8) == "8";
  }

  /** The example of the source comment: hours and minutes, the fractional seconds dropped. */
  lemma SampleHoursAndMinutes(s: string)
    requires s == "PT20H8M16.305111S"
    ensures FormatDuration(Some(s)) == "20h 8m"
  {
    SampleHoursAndMinutesParse(s);
    SampleHoursAndMinutesLabel();
    FormatParsed(s, Parts(20, 8));
  }

  lemma SampleOneDayParse(s: string)
    requires s == "PT25H0M0S"
    ensures ParseDuration(s) == Some(Parts(25, 0))
  {
    assert s[2..4] == "25" && s[5..6] == "0";
    ParseAt(s, 0, 4, 6);
    TwoDigits(25);
    assert [DigitChar(2), DigitChar(5)] == "25";
    assert NatToString(0) == "0";
  }

  lemma SampleOneDayLabel()
    ensures Label(Parts(25, 0)) == "1 day"
  {
    OneDayIff(Parts(25, 0));
  }

  /** 25 hours is the first count shown in days. */
  lemma SampleOneDay(s: string)
    requires s == "PT25H0M0S"
    ensures FormatDuration(Some(s)) == "1 day"
  {
    SampleOneDayParse(s);
    SampleOneDayLabel();
    FormatParsed(s, Parts(25, 0));
  }

  lemma SampleTwoDaysParse(s: string)
    requires s == "PT48H0M0S"
    ensures ParseDuration(s) == Some(Parts(48, 0))
  {
    assert s[2..4] == "48" && s[5..6] == "0";
    ParseAt(s, 0, 4, 6);
    TwoDigits(48);
    assert [DigitChar(4), DigitChar(8)] == "48";
    assert NatToString(0) == "0";
  }

  lemma SampleTwoDaysLabel()
    ensures Label(Parts(48, 0)) == "2 days"
  {
    assert 48 / 24 == 2;
    assert Label(Parts(48, 0)) == NatToString(2) + " day" + "s";
    assert NatToString(2) == "2";
  }

  lemma SampleTwoDays(s: string)
    requires s == "PT48H0M0S"
    ensures FormatDuration(Some(s)) == "2 days"
  {
    SampleTwoDaysParse(s);
    SampleTwoDaysLabel();
    FormatParsed(s, Parts(48, 0));
  }

  lemma SampleTwentyFourHoursParse(s: string)
    requires s == "PT24H0M0S"
    ensures ParseDuration(s) == Some(Parts(24, 0))
  {
    assert s[2..4] == "24" && s[5..6] == "0";
    ParseAt(s, 0, 4, 6);
    TwoDigits(24);
    assert [DigitChar(2), DigitChar(4)] == "24";
    assert NatToString(0) == "0";
  }

  lemma SampleTwentyFourHoursLabel()
    ensures Label(Parts(24, 0)) == "24h "
  {
    assert Label(Parts(24, 0)) == NatToString(24) + "h " + "";
    TwoDigits(24);
    assert [DigitChar(2), DigitChar(4)] == "24";
  }

  /** Exactly 24 hours stays in the hour branch, with its trailing space. */
  lemma SampleTwentyFourHours(s: string)
    requires s == "PT24H0M0S"
    ensures FormatDuration(Some(s)) == "24h "
  {
    SampleTwentyFourHoursParse(s);
    SampleTwentyFourHoursLabel();
    FormatParsed(s, Parts(24, 0));
  }

  lemma SampleMinutesParse(s: string)
    requires s == "PT0H45M0S"
    ensures ParseDuration(s) == Some(Parts(0, 45))
  {
    assert s[2..3] == "0" && s[4..6] == "45";
    ParseAt(s, 0, 3, 6);
    assert NatToString(0) == "0";
    TwoDigits(45);
    assert [DigitChar(4), DigitChar(5)] == "45";
  }

  lemma SampleMinutesLabel()
    ensures Label(Parts(0, 45)) == "45m"
  {
    assert Label(Parts(0, 45)) == NatToString(45) + "m";
    TwoDigits(45);
    assert [DigitChar(4), DigitChar(5)] == "45";
  }

  lemma SampleMinutes(s: string)
    requires s == "PT0H45M0S"
    ensures FormatDuration(Some(s)) == "45m"
  {
    SampleMinutesParse(s);
    SampleMinutesLabel();
    FormatParsed(s, Parts(0, 45));
  }

  lemma SampleSecondsOnlyParse(s: string)
    requires s == "PT0H0M30S"
    ensures ParseDuration(s) == Some(Parts(0, 0))
  {
    assert s[2..3] == "0" && s[4..5] == "0";
    ParseAt(s, 0, 3, 5);
    assert NatToString(0) == "0";
  }

  lemma SampleSecondsOnlyLabel()
    ensures Label(Parts(0, 0)) == "0m"
  {
    assert NatToString(0) == "0";
  }

  /** Seconds alone give "0m". */
  lemma SampleSecondsOnly(s: string)
    requires s == "PT0H0M30S"
    ensures FormatDuration(Some(s)) == "0m"
  {
    SampleSecondsOnlyParse(s);
    SampleSecondsOnlyLabel();
    FormatParsed(s, Parts(0, 0));
  }

  /** A bare "PT" reads as zero minutes. */
  lemma SampleBare(s: string)
    requires s == "PT"
    ensures FormatDuration(Some(s)) == "0m"
  {
    ParseBare("");
    assert "PT" + "" == s;
    FormatParsed(s, Parts(0, 0));
    assert NatToString(0) == "0";
  }

  /** Leading zeros vanish: parseInt reads "007" as 7. */
  lemma SampleLeadingZerosParse(s: string)
    requires s == "PT007H"
    ensures ParseDuration(s) == Some(Parts(7, 0))
  {
    assert PTAt(s, 0);
    FirstPTAt(s, 0);
    assert s[2..5] == "0" + "07" && "07" == "0" + "7";
    LeadingZeroIgnored("07");
    LeadingZeroIgnored("7");
    assert DigitsValue("7") == 7;
    ReadGroupAt(s, 2, 5, 'H');
    ReadNothing(s, 6, 'M');
    ParseIsPartsAt(s);
    PartsAtOf(s, 0, Group(Some(7), 6), Group(None, 6));
  }

  lemma SampleLeadingZeros(s: string)
    requires s == "PT007H"
    ensures FormatDuration(Some(s)) == "7h "
  {
    SampleLeadingZerosParse(s);
    FormatParsed(s, Parts(7, 0));
    HourBranch(7, 0);
    assert NatToString(7) == "7";
  }

  /** The match is unanchored: it starts at the first "PT", wherever that is. */
  lemma SampleUnanchored(s: string)
    requires s == "xPT5H"
    ensures FormatDuration(Some(s)) == "5h "
  {
    assert !PTAt(s, 0) && PTAt(s, 1);
    assert GroupMatchesAt(s, 3, 4, 'H') by {
      assert s[3..4] == "5";
    }
    assert DigitsValue("5") == 5;
    assert ParseDuration(s) == Some(Parts(5, 0));
    FormatParsed(s, Parts(5, 0));
    assert NatToString(5) == "5";
  }
}
