/**
 The cron engine at two concrete specs and a concrete instant, with every number
 written out: what the restart scheduler would get to see.
 */
module CronWitness {
  import opened GoStrings
  import opened Calendar
  import opened CronNext
  import opened CronParse

  /** Midnight at the start of Monday, 1 January 2024 (UTC), in nanoseconds since 1 January of year 1. */
  const NEW_YEAR := 738885 * 86_400_000_000_000

  lemma Digits()
    ensures Atoi("0") == Some(0) && Atoi("1") == Some(1) && Atoi("3") == Some(3) && Atoi("13") == Some(13)
  {
    hide Atoi, Itoa;
    AtoiItoa(0);
    AtoiItoa(1);
    AtoiItoa(3);
    AtoiItoa(13);
    Numerals();
  }

  lemma Numerals()
    ensures Itoa(0) == "0" && Itoa(1) == "1" && Itoa(3) == "3" && Itoa(13) == "13"
  {
    assert Itoa(13) == Itoa(1) + ['3'] == "13";
  }

  lemma FiveWords(a: string, b: string, c: string, d: string, e: string)
    requires IsWord(a) && IsWord(b) && IsWord(c) && IsWord(d) && IsWord(e)
    ensures Fields(a + " " + b + " " + c + " " + d + " " + e) == [a, b, c, d, e]
  {
    hide Fields, IsWord, Join;
    FieldsOfWords([a, b, c, d, e]);
    JoinFive(a, b, c, d, e);
  }

  lemma JoinTwo(d: string, e: string)
    ensures Join([d, e], ' ') == d + " " + e
  {
    assert [d, e][1..] == [e];
  }

  lemma JoinCons(w: string, words: seq<string>)
    requires words != []
    ensures Join([w] + words, ' ') == w + " " + Join(words, ' ')
  {
    assert ([w] + words)[1..] == words;
  }

  lemma JoinFive(a: string, b: string, c: string, d: string, e: string)
    ensures Join([a, b, c, d, e], ' ') == a + " " + b + " " + c + " " + d + " " + e
  {
    hide Join;
    JoinTwo(d, e);
    JoinCons(c, [d, e]);
    JoinCons(b, [c, d, e]);
    JoinCons(a, [b, c, d, e]);
    assert [a] + [b, c, d, e] == [a, b, c, d, e] && [b] + [c, d, e] == [b, c, d, e] && [c] + [d, e] == [c, d, e];
  }

  lemma PlainWords()
    ensures IsWord("0") && IsWord("3") && IsWord("13") && IsWord("1") && IsWord("*")
  {
  }

  /** The masks of the words used below. */
  lemma Masks()
    ensures FieldMask("0", 0, 59) == Some({0}) && FieldMask("3", 0, 23) == Some({3}) && FieldMask("13", 1, 31) == Some({13})
    ensures FieldMask("*", 1, 31).Some? && forall v :: v in FieldMask("*", 1, 31).value <==> 1 <= v <= 31
    ensures FieldMask("*", 1, 12).Some? && forall v :: v in FieldMask("*", 1, 12).value <==> 1 <= v <= 12
    ensures DOWMask("1") == Some({1})
    ensures DOWMask("*").Some? && forall v :: v in DOWMask("*").value <==> 0 <= v <= 6
  {
    hide Atoi, PartMask, FieldMask, DOWMask, Split, NormalPart;
    Digits();
    OneWord("0", 0, 59);
    OneWord("3", 0, 23);
    OneWord("13", 1, 31);
    OneWord("*", 1, 31);
    OneWord("*", 1, 12);
    OneWord("1", 0, 6);
    OneWord("*", 0, 6);
    NumberSetsItself("0", 0, 0, 59);
    NumberSetsItself("3", 3, 0, 23);
    NumberSetsItself("13", 13, 1, 31);
    NumberSetsItself("1", 1, 0, 6);
    StarSetsAll(1, 31);
    StarSetsAll(1, 12);
    StarSetsAll(0, 6);
    OnePart("1");
    OnePart("*");
    OnlySevensChange("1");
    OnlySevensChange("*");
  }

  lemma MondaySpec()
    ensures var s := ParseSpec("0 3 * * 1");
            s.Some? && s.value.minute == {0} && s.value.hour == {3} && s.value.dow == {1}
            && s.value.wildcardDOM && !s.value.wildcardDOW && forall v :: v in s.value.month <==> 1 <= v <= 12
  {
    hide Fields, FieldMask, DOWMask, IsWord;
    PlainWords();
    FiveWords("0", "3", "*", "*", "1");
    assert "0" + " " + "3" + " " + "*" + " " + "*" + " " + "1" == "0 3 * * 1";
    Masks();
  }

  lemma ThirteenthSpec()
    ensures var s := ParseSpec("0 3 13 * *");
            s.Some? && s.value.minute == {0} && s.value.hour == {3} && s.value.dom == {13}
            && !s.value.wildcardDOM && s.value.wildcardDOW && forall v :: v in s.value.month <==> 1 <= v <= 12
  {
    hide Fields, FieldMask, DOWMask, IsWord;
    PlainWords();
    FiveWords("0", "3", "13", "*", "*");
    assert "0" + " " + "3" + " " + "13" + " " + "*" + " " + "*" == "0 3 13 * *";
    Masks();
  }

  /** Such a schedule fires at three o'clock sharp only, on the days that fire. */
  lemma ThreeSharp(s: Schedule, t: int)
    requires s.minute == {0} && s.hour == {3}
    ensures Matches(s, t) <==> DayFires(s, t / 1440) && t % 1440 == 180
  {
    hide DayFires;
    assert HourOf(t) == t % 1440 / 60 && MinuteOf(t) == t % 1440 % 60;
  }

  /** Asked at midnight of that Monday, the Monday schedule fires at three the same night. */
  method NextMonday() returns (r: int)
    ensures r == 738885 * 1440 + 180
  {
    hide DayFires, Matches, Civil, DayNumber, Weekday, Fields, ParseSpec, Readable, ReadsAs, Parsed, ZeroHidesMatch, Fires;
    MondaySpec();
    var s := Parse("0 3 * * 1");
    r := Next(s.value, NEW_YEAR, 0);
    ZeroHidesNothingLater(s.value, NEW_YEAR, 0);
    MondayFires(s.value);
    var three := 738885 * 1440 + 180;
    ThreeSharp(s.value, three);
    ThreeSharp(s.value, r);
    FiresByMatch(s.value, three);
  }

  lemma FiresByMatch(s: Schedule, t: int)
    requires Matches(s, t)
    ensures Fires(s)
  {
    hide Matches;
  }

  lemma MondayFires(s: Schedule)
    requires s.dow == {1} && s.wildcardDOM && !s.wildcardDOW && forall v :: v in s.month <==> 1 <= v <= 12
    ensures DayFires(s, 738885)
  {
    hide Civil, DayNumber;
    KnownMonday();
    CivilOfDayNumber(Date(2024, 1, 1));
  }

  /** Asked at the same instant, the schedule of the thirteenth fires twelve days later. */
  method NextThirteenth() returns (r: int)
    ensures r == (738885 + 12) * 1440 + 180
  {
    hide DayFires, Matches, Civil, DayNumber, Weekday, Fields, ParseSpec, Readable, ReadsAs, Parsed, ZeroHidesMatch, Fires;
    ThirteenthSpec();
    var s := Parse("0 3 13 * *");
    r := Next(s.value, NEW_YEAR, 0);
    ZeroHidesNothingLater(s.value, NEW_YEAR, 0);
    var three := (738885 + 12) * 1440 + 180;
    ThirteenthFires(s.value, 12);
    ThreeSharp(s.value, three);
    ThreeSharp(s.value, r);
    FiresByMatch(s.value, three);
    if 738885 <= r / 1440 <= 738885 + 12 {
      ThirteenthFires(s.value, r / 1440 - 738885);
    }
  }

  lemma ThirteenthFires(s: Schedule, k: int)
    requires s.dom == {13} && !s.wildcardDOM && s.wildcardDOW && (forall v :: v in s.month <==> 1 <= v <= 12)
    requires 0 <= k <= 12
    ensures DayFires(s, 738885 + k) <==> k == 12
  {
    hide Civil, Weekday, DaysBeforeYear, DaysBeforeMonth, IsLeap;
    KnownMonday();
    CivilOfDayNumber(Date(2024, 1, 1 + k));
  }
}
