/** Concrete cases of the helpers, the index and the report, worked out on
    literal inputs. Each case is split into small facts about single fields
    and then assembled over abstract records, which keeps every proof short. */
module Scenarios {
  import opened Wrappers
  import opened Text
  import opened Values
  import opened Clock
  import opened Calendar
  import opened Records
  import opened ShiftIndex
  import opened ShiftReport

  // ---------------------------------------------------------------------
  // normalize_value

  lemma NormalizeNone()
    ensures NormalizeValue(None) == ""
  {
  }

  lemma NormalizeDash()
    ensures NormalizeValue(Some("-")) == ""
  {
    TrimOfTrimmed("-");
  }

  lemma NormalizeNotAvailable()
    ensures NormalizeValue(Some("N/A")) == ""
  {
    TrimOfTrimmed("N/A");
  }

  lemma TrimPadded()
    ensures Trim(" 3,5 ") == "3,5"
  {
    assert " 3,5 "[1..] == "3,5 ";
    assert !IsSpace('3') && IsSpace(' ') && !IsSpace('5');
    assert TrimStart("3,5 ") == "3,5 ";
    assert TrimStart(" 3,5 ") == "3,5 ";
    assert "3,5 "[..3] == "3,5";
    assert TrimEnd("3,5") == "3,5";
    assert TrimEnd("3,5 ") == "3,5";
  }

  /** A decimal comma surrounded by blanks becomes a decimal point. */
  lemma NormalizeDecimalComma()
    ensures NormalizeValue(Some(" 3,5 ")) == "3.5"
  {
    TrimPadded();
    assert ReplaceCommas("3,5") == "3.5" by {
      var r := ReplaceCommas("3,5");
      assert r[0] == '3' && r[1] == '.' && r[2] == '5';
    }
  }

  // ---------------------------------------------------------------------
  // parse_hhmm

  lemma ParseEmpty()
    ensures ParseHHMM("") == None
  {
    TrimOfTrimmed("");
  }

  lemma ParseLetters()
    ensures ParseHHMM("abc") == None
  {
    TrimOfTrimmed("abc");
  }

  lemma ParseOutOfRange()
    ensures ParseHHMM("25:99") == None
  {
    TrimOfTrimmed("25:99");
    assert "25:99"[..2] == "25" && "25:99"[3..] == "99";
  }

  lemma ParseHour24()
    ensures ParseHHMM("24:00") == None
  {
    TrimOfTrimmed("24:00");
    assert "24:00"[..2] == "24" && "24:00"[3..] == "00";
  }

  lemma ParseLastMinute()
    ensures ParseHHMM("23:59") == Some(TimeOfDay(23, 59))
  {
    TrimOfTrimmed("23:59");
    assert "23:59"[..2] == "23" && "23:59"[3..] == "59";
  }

  /** `%H` and `%M` also take a single digit. */
  lemma ParseOneDigitFields()
    ensures ParseHHMM("6:5") == Some(TimeOfDay(6, 5))
  {
    TrimOfTrimmed("6:5");
    assert "6:5"[..1] == "6" && "6:5"[2..] == "5";
  }

  /** Three minute digits leave unconverted data. */
  lemma ParseThreeMinuteDigits()
    ensures ParseHHMM("06:005") == None
  {
    TrimOfTrimmed("06:005");
    assert "06:005"[..2] == "06" && "06:005"[3..] == "005";
  }

  /** The times the cases below use, each in its canonical spelling. */
  lemma Parse0600()
    ensures ParseHHMM("06:00") == Some(TimeOfDay(6, 0))
  {
    TrimOfTrimmed("06:00");
    assert "06:00"[..2] == "06" && "06:00"[3..] == "00";
  }

  lemma Parse2200()
    ensures ParseHHMM("22:00") == Some(TimeOfDay(22, 0))
  {
    TrimOfTrimmed("22:00");
    assert "22:00"[..2] == "22" && "22:00"[3..] == "00";
  }

  lemma Parse2300()
    ensures ParseHHMM("23:00") == Some(TimeOfDay(23, 0))
  {
    TrimOfTrimmed("23:00");
    assert "23:00"[..2] == "23" && "23:00"[3..] == "00";
  }

  lemma Parse0100()
    ensures ParseHHMM("01:00") == Some(TimeOfDay(1, 0))
  {
    TrimOfTrimmed("01:00");
    assert "01:00"[..2] == "01" && "01:00"[3..] == "00";
  }

  lemma Parse0800()
    ensures ParseHHMM("08:00") == Some(TimeOfDay(8, 0))
  {
    TrimOfTrimmed("08:00");
    assert "08:00"[..2] == "08" && "08:00"[3..] == "00";
  }

  lemma Parse0930()
    ensures ParseHHMM("09:30") == Some(TimeOfDay(9, 30))
  {
    TrimOfTrimmed("09:30");
    assert "09:30"[..2] == "09" && "09:30"[3..] == "30";
  }

  lemma Parse0610()
    ensures ParseHHMM("06:10") == Some(TimeOfDay(6, 10))
  {
    TrimOfTrimmed("06:10");
    assert "06:10"[..2] == "06" && "06:10"[3..] == "10";
  }

  lemma Parse1400()
    ensures ParseHHMM("14:00") == Some(TimeOfDay(14, 0))
  {
    TrimOfTrimmed("14:00");
    assert "14:00"[..2] == "14" && "14:00"[3..] == "00";
  }

  lemma Parse1430()
    ensures ParseHHMM("14:30") == Some(TimeOfDay(14, 30))
  {
    TrimOfTrimmed("14:30");
    assert "14:30"[..2] == "14" && "14:30"[3..] == "30";
  }

  lemma Parse0605()
    ensures ParseHHMM("06:05") == Some(TimeOfDay(6, 5))
  {
    TrimOfTrimmed("06:05");
    assert "06:05"[..2] == "06" && "06:05"[3..] == "05";
  }

  lemma Parse0710()
    ensures ParseHHMM("07:10") == Some(TimeOfDay(7, 10))
  {
    TrimOfTrimmed("07:10");
    assert "07:10"[..2] == "07" && "07:10"[3..] == "10";
  }

  // ---------------------------------------------------------------------
  // The date of the index's sort key

  lemma ParseLeapDay()
    ensures ParseDate("2024-02-29") == Some(Date(2024, 2, 29))
  {
    assert "2024-02-29"[..4] == "2024" && "2024-02-29"[5..] == "02-29";
    assert "02-29"[..2] == "02" && "02-29"[3..] == "29";
  }

  lemma ParseNoLeapDay()
    ensures ParseDate("2023-02-29") == None
  {
    assert "2023-02-29"[..4] == "2023" && "2023-02-29"[5..] == "02-29";
    assert "02-29"[..2] == "02" && "02-29"[3..] == "29";
  }

  lemma ParseCenturyNoLeapDay()
    ensures ParseDate("1900-02-29") == None
  {
    assert "1900-02-29"[..4] == "1900" && "1900-02-29"[5..] == "02-29";
    assert "02-29"[..2] == "02" && "02-29"[3..] == "29";
  }

  lemma ParseShortFields()
    ensures ParseDate("2024-1-5") == Some(Date(2024, 1, 5))
  {
    assert "2024-1-5"[..4] == "2024" && "2024-1-5"[5..] == "1-5";
    assert "1-5"[..1] == "1" && "1-5"[2..] == "5";
  }

  lemma ParseYearZero()
    ensures ParseDate("0000-01-01") == None
  {
    assert "0000-01-01"[..4] == "0000" && "0000-01-01"[5..] == "01-01";
    assert "01-01"[..2] == "01" && "01-01"[3..] == "01";
  }

  lemma ParseTwoDigitYear()
    ensures ParseDate("24-01-01") == None
  {
  }

  // ---------------------------------------------------------------------
  // sort_donetime_list

  lemma StartOfA()
    ensures StartMinute("A", ShiftStart) == 360
  {
    assert ShiftStart["A"] == "06:00";
    Parse0600();
  }

  lemma StartOfNight()
    ensures StartMinute("Γ", ShiftStart) == 1320
  {
    assert ShiftStart["Γ"] == "22:00";
    Parse2200();
  }

  lemma StartOfB()
    ensures StartMinute("B", ShiftStart) == 840
  {
    assert ShiftStart["B"] == "14:00";
    Parse1400();
  }

  /** The whole `SHIFT_START` table in minutes of the day: 06:00, 14:00 and
      22:00; any other shift name starts at midnight. */
  lemma ShiftStartMinutes(other: string)
    requires other != "A" && other != "B" && other != "Γ"
    ensures StartMinute("A", ShiftStart) == 360
    ensures StartMinute("B", ShiftStart) == 840
    ensures StartMinute("Γ", ShiftStart) == 1320
    ensures StartMinute(other, ShiftStart) == 0
  {
    StartOfA();
    StartOfB();
    StartOfNight();
    assert other !in ShiftStart.Keys by {
      assert ShiftStart.Keys == {"A", "B", "Γ"};
    }
  }

  lemma MinuteOf(s: string, h: nat, m: nat)
    requires ParseHHMM(s) == Some(TimeOfDay(h, m))
    ensures Minutes(ParseOrMidnight(s)) == h * 60 + m
  {
  }

  /** The night shift Γ starts at 22:00: 23:00 is an hour in, 01:00 three
      hours and 06:00 eight. */
  lemma NightShiftKeys()
    ensures ShiftKey("Γ", ShiftStart, "23:00") == 60
    ensures ShiftKey("Γ", ShiftStart, "01:00") == 180
    ensures ShiftKey("Γ", ShiftStart, "06:00") == 480
  {
    StartOfNight();
    Parse2300();
    MinuteOf("23:00", 23, 0);
    Parse0100();
    MinuteOf("01:00", 1, 0);
    Parse0600();
    MinuteOf("06:00", 6, 0);
  }

  /** The night shift's donetimes in shift order: those after midnight come
      after those before it. */
  lemma NightShiftOrder()
    ensures SortDonetimes(["06:00", "23:00", "01:00"], "Γ", ShiftStart) == ["23:00", "01:00", "06:00"]
  {
    NightShiftKeys();
    var key := DonetimeKey("Γ", ShiftStart);
    assert key("06:00") == 480 && key("23:00") == 60 && key("01:00") == 180;
    Sorting.SortRotate("06:00", "23:00", "01:00", key);
  }

  // ---------------------------------------------------------------------
  // build_shift_index

  function Row(sd: string, sh: string, st: string, dt: string): Record {
    Record(Some(sd), Some(sh), Some(st), Some(dt), None, None, None, None, None)
  }

  lemma FieldOf(s: string)
    requires s == [] || (!IsSpace(s[0]) && !IsSpace(s[|s| - 1]))
    ensures Field(Some(s)) == s
  {
    TrimOfTrimmed(s);
  }

  lemma FieldNone()
    ensures Field(None) == ""
  {
    TrimOfTrimmed("");
  }

  /** The sighting of a record whose fields need no trimming. */
  lemma SightOfRow(sd: string, sh: string, st: string, dt: string, t: TimeOfDay)
    requires sd != "" && sh != "" && st != "" && dt != ""
    requires Field(Some(sd)) == sd && Field(Some(sh)) == sh && Field(Some(st)) == st && Field(Some(dt)) == dt
    requires ParseHHMM(dt) == Some(t)
    ensures Sight(Row(sd, sh, st, dt)) == Some(Sighting(GroupKey(sd, sh, st), Some(t)))
  {
  }

  const Day1 := "2024-01-01"
  const Day2 := "2024-01-02"

  lemma FieldDay1()
    ensures Field(Some(Day1)) == Day1
  {
    TrimOfTrimmed(Day1);
  }

  lemma FieldDay2()
    ensures Field(Some(Day2)) == Day2
  {
    TrimOfTrimmed(Day2);
  }

  lemma FieldA()
    ensures Field(Some("A")) == "A"
  {
    TrimOfTrimmed("A");
  }

  lemma FieldB()
    ensures Field(Some("B")) == "B"
  {
    TrimOfTrimmed("B");
  }

  lemma FieldLine1()
    ensures Field(Some("Line1")) == "Line1"
  {
    TrimOfTrimmed("Line1");
  }

  lemma FieldS1()
    ensures Field(Some("S1")) == "S1"
  {
    TrimOfTrimmed("S1");
  }

  const Line1 := GroupKey(Day1, "A", "Line1")

  lemma CollectTwoSightings()
    ensures CollectSightings([Some(Sighting(Line1, Some(TimeOfDay(8, 0)))),
                              Some(Sighting(Line1, Some(TimeOfDay(9, 30)))),
                              None])
      == [Group(Day1, "A", "Line1", Some(TimeOfDay(9, 30)))]
  {
    var s1, s2 := Some(Sighting(Line1, Some(TimeOfDay(8, 0)))), Some(Sighting(Line1, Some(TimeOfDay(9, 30))));
    assert [s1, s2, None][..2] == [s1, s2] && [s1][..0] == [] && [s1, s2][..1] == [s1];
    assert CollectSightings([s1]) == [Group(Day1, "A", "Line1", Some(TimeOfDay(8, 0)))];
    assert CollectSightings([s1, s2]) == [Group(Day1, "A", "Line1", Some(TimeOfDay(9, 30)))];
  }

  lemma IndexOfTwoSightings(r1: Record, r2: Record, r3: Record)
    requires Sight(r1) == Some(Sighting(Line1, Some(TimeOfDay(8, 0))))
    requires Sight(r2) == Some(Sighting(Line1, Some(TimeOfDay(9, 30))))
    requires Sight(r3) == None
    ensures BuildShiftIndex([r1, r2, r3]) == [Group(Day1, "A", "Line1", Some(TimeOfDay(9, 30)))]
  {
    var g := Group(Day1, "A", "Line1", Some(TimeOfDay(9, 30)));
    assert Collect([r1, r2, r3]) == [g] by {
      MapThree(Sight, r1, r2, r3);
      CollectTwoSightings();
    }
    assert [g][1..] == [];
  }

  /** Two records of one group: the later donetime is kept. A record without
      a station contributes nothing. */
  lemma IndexLatestTime()
    ensures BuildShiftIndex([Row(Day1, "A", "Line1", "08:00"),
                             Row(Day1, "A", "Line1", "09:30"),
                             Record(Some(Day1), Some("A"), None, Some("11:00"), None, None, None, None, None)])
      == [Group(Day1, "A", "Line1", Some(TimeOfDay(9, 30)))]
  {
    FieldDay1();
    FieldA();
    FieldLine1();
    FieldNone();
    FieldOf("08:00");
    FieldOf("09:30");
    Parse0800();
    Parse0930();
    SightOfRow(Day1, "A", "Line1", "08:00", TimeOfDay(8, 0));
    SightOfRow(Day1, "A", "Line1", "09:30", TimeOfDay(9, 30));
    IndexOfTwoSightings(Row(Day1, "A", "Line1", "08:00"), Row(Day1, "A", "Line1", "09:30"),
                        Record(Some(Day1), Some("A"), None, Some("11:00"), None, None, None, None, None));
  }

  lemma CollectThreeGroups(k1: GroupKey, k2: GroupKey, k3: GroupKey, t1: TimeOfDay, t2: TimeOfDay, t3: TimeOfDay)
    requires k1 != k2 && k1 != k3 && k2 != k3
    ensures CollectSightings([Some(Sighting(k1, Some(t1))), Some(Sighting(k2, Some(t2))), Some(Sighting(k3, Some(t3)))])
      == [Group(k1.shiftDate, k1.shift, k1.station, Some(t1)),
          Group(k2.shiftDate, k2.shift, k2.station, Some(t2)),
          Group(k3.shiftDate, k3.shift, k3.station, Some(t3))]
  {
    var s1, s2, s3 := Some(Sighting(k1, Some(t1))), Some(Sighting(k2, Some(t2))), Some(Sighting(k3, Some(t3)));
    var g1 := Group(k1.shiftDate, k1.shift, k1.station, Some(t1));
    var g2 := Group(k2.shiftDate, k2.shift, k2.station, Some(t2));
    assert [s1, s2, s3][..2] == [s1, s2] && [s1, s2][..1] == [s1] && [s1][..0] == [];
    assert CollectSightings([s1]) == [g1];
    assert CollectSightings([s1, s2]) == [g1, g2];
  }

  lemma Day1Date()
    ensures DateOrMin(Day1) == Date(2024, 1, 1)
  {
    assert Day1[..4] == "2024" && Day1[5..] == "01-01";
    assert "01-01"[..2] == "01" && "01-01"[3..] == "01";
  }

  lemma Day2Date()
    ensures DateOrMin(Day2) == Date(2024, 1, 2)
  {
    assert Day2[..4] == "2024" && Day2[5..] == "01-02";
    assert "01-02"[..2] == "01" && "01-02"[3..] == "02";
  }

  lemma ThreeSightings(r1: Record, r2: Record, r3: Record, s1: Sighting, s2: Sighting, s3: Sighting)
    requires Sight(r1) == Some(s1) && Sight(r2) == Some(s2) && Sight(r3) == Some(s3)
    ensures Sightings([r1, r2, r3]) == [Some(s1), Some(s2), Some(s3)]
  {
    MapThree(Sight, r1, r2, r3);
  }

  lemma MapThree<A, B>(f: A -> B, a: A, b: A, c: A)
    ensures Seqs.Map(f, [a, b, c]) == [f(a), f(b), f(c)]
  {
  }

  const Late1 := Group(Day1, "A", "Line1", Some(TimeOfDay(23, 0)))
  const Early2 := Group(Day2, "A", "Line1", Some(TimeOfDay(6, 10)))
  const Late2 := Group(Day2, "B", "Line1", Some(TimeOfDay(14, 30)))

  /** A later date outweighs any time of day. */
  lemma ThreeRecencies()
    ensures Recency(Late1) < Recency(Early2) < Recency(Late2)
  {
    var d1, d2 := DateRank(Date(2024, 1, 1)), DateRank(Date(2024, 1, 2));
    assert d1 == 842017 && d2 == 842018;
    assert DateOrMin(Day1) == Date(2024, 1, 1) by { Day1Date(); }
    assert DateOrMin(Day2) == Date(2024, 1, 2) by { Day2Date(); }
    assert Recency(Late1) == d1 * MinutesPerDay + 1380;
    assert Recency(Early2) == d2 * MinutesPerDay + 370;
    assert Recency(Late2) == d2 * MinutesPerDay + 870;
  }

  lemma NewestFirstOrder()
    ensures Sorting.SortBy([Late1, Early2, Late2], NewestFirst()) == [Late2, Early2, Late1]
  {
    var key := NewestFirst();
    assert key(Late2) < key(Early2) < key(Late1) by {
      ThreeRecencies();
    }
    Sorting.SortReverse(Late1, Early2, Late2, key);
  }

  lemma IndexOfThreeSightings(r1: Record, r2: Record, r3: Record)
    requires Sight(r1) == Some(Sighting(GroupKey(Day1, "A", "Line1"), Some(TimeOfDay(23, 0))))
    requires Sight(r2) == Some(Sighting(GroupKey(Day2, "A", "Line1"), Some(TimeOfDay(6, 10))))
    requires Sight(r3) == Some(Sighting(GroupKey(Day2, "B", "Line1"), Some(TimeOfDay(14, 30))))
    ensures BuildShiftIndex([r1, r2, r3]) == [Late2, Early2, Late1]
  {
    var k1, k2, k3 := GroupKey(Day1, "A", "Line1"), GroupKey(Day2, "A", "Line1"), GroupKey(Day2, "B", "Line1");
    var t1, t2, t3 := TimeOfDay(23, 0), TimeOfDay(6, 10), TimeOfDay(14, 30);
    ThreeSightings(r1, r2, r3, Sighting(k1, Some(t1)), Sighting(k2, Some(t2)), Sighting(k3, Some(t3)));
    CollectThreeGroups(k1, k2, k3, t1, t2, t3);
    assert Collect([r1, r2, r3]) == [Late1, Early2, Late2];
    NewestFirstOrder();
  }

  /** The groups of a later date come first whatever their times; within one
      date the later time comes first. */
  lemma IndexNewestFirstExample()
    ensures BuildShiftIndex([Row(Day1, "A", "Line1", "23:00"),
                             Row(Day2, "A", "Line1", "06:10"),
                             Row(Day2, "B", "Line1", "14:30")])
      == [Group(Day2, "B", "Line1", Some(TimeOfDay(14, 30))),
          Group(Day2, "A", "Line1", Some(TimeOfDay(6, 10))),
          Group(Day1, "A", "Line1", Some(TimeOfDay(23, 0)))]
  {
    FieldDay1();
    FieldDay2();
    FieldA();
    FieldB();
    FieldLine1();
    FieldOf("23:00");
    FieldOf("06:10");
    FieldOf("14:30");
    Parse2300();
    Parse0610();
    Parse1430();
    SightOfRow(Day1, "A", "Line1", "23:00", TimeOfDay(23, 0));
    SightOfRow(Day2, "A", "Line1", "06:10", TimeOfDay(6, 10));
    SightOfRow(Day2, "B", "Line1", "14:30", TimeOfDay(14, 30));
    IndexOfThreeSightings(Row(Day1, "A", "Line1", "23:00"), Row(Day2, "A", "Line1", "06:10"), Row(Day2, "B", "Line1", "14:30"));
  }

  // ---------------------------------------------------------------------
  // build_report

  const Laminator := "Θερμοκρασία λαμινατορίου (°C)"

  const John := Record(Some(Day1), Some("A"), Some("S1"), Some("06:05"), Some(Laminator), Some("72,5"),
                       Some("John"), Some("X"), Some("PO1"))

  const Dash := Record(Some(Day1), Some("A"), Some("S1"), Some("07:10"), Some(Laminator), Some("-"),
                       None, None, None)

  lemma LaminatorAllowed()
    ensures Field(Some(Laminator)) == Laminator
    ensures Laminator in AllowedItems(OrderedItems)
  {
    FieldOf(Laminator);
    assert OrderedItems[0] == Laminator;
  }

  lemma NormalizeDecimal()
    ensures NormalizeValue(Some("72,5")) == "72.5"
  {
    assert Trim("72,5") == "72,5" by {
      TrimOfTrimmed("72,5");
    }
    assert ReplaceCommas("72,5") == "72.5" by {
      var r := ReplaceCommas("72,5");
      assert r[0] == '7' && r[1] == '2' && r[2] == '.' && r[3] == '5';
    }
  }

  lemma HeaderOfJohn()
    ensures HeaderOf(John) == Header("John", "X", "PO1")
  {
    FieldOf("John");
    FieldOf("X");
    FieldOf("PO1");
  }

  lemma EntryOfJohn()
    ensures EntryOf(John, Day1, "A", "S1") == Some(Entry("06:05", Laminator, "72.5", Header("John", "X", "PO1")))
  {
    FieldDay1();
    FieldA();
    FieldS1();
    FieldOf("06:05");
    LaminatorAllowed();
    NormalizeDecimal();
    HeaderOfJohn();
  }

  lemma EntryOfDash()
    ensures EntryOf(Dash, Day1, "A", "S1") == Some(Entry("07:10", Laminator, "", EmptyHeader))
  {
    FieldDay1();
    FieldA();
    FieldS1();
    FieldOf("07:10");
    FieldNone();
    LaminatorAllowed();
    NormalizeDash();
  }

  /** Shift A starts at 06:00: 06:05 and 07:10 keep their order. */
  lemma MorningColumns()
    ensures SortDonetimes(["06:05", "07:10"], "A", ShiftStart) == ["06:05", "07:10"]
  {
    MorningKeys();
    var key := DonetimeKey("A", ShiftStart);
    assert key("06:05") == 5 && key("07:10") == 70;
    Sorting.SortInOrder("06:05", "07:10", key);
  }

  /** Shift A starts at 06:00: 06:05 is five minutes in, 07:10 seventy. */
  lemma MorningKeys()
    ensures ShiftKey("A", ShiftStart, "06:05") == 5
    ensures ShiftKey("A", ShiftStart, "07:10") == 70
  {
    StartOfA();
    Parse0605();
    MinuteOf("06:05", 6, 5);
    Parse0710();
    MinuteOf("07:10", 7, 10);
  }

  lemma TallyOfTwoEntries(e1: Entry, e2: Entry)
    requires e1.donetime != e2.donetime
    ensures var s := TallyOf([Some(e1), Some(e2)]);
      && s.order == [e1.donetime, e2.donetime]
      && s.cells == map[(e1.donetime, e1.item) := e1.value, (e2.donetime, e2.item) := e2.value]
      && s.meta == map[e1.donetime := e1.header, e2.donetime := e2.header]
  {
    assert [Some(e1), Some(e2)][..1] == [Some(e1)] && [Some(e1)][..0] == [];
    var s1 := Tally([e1.donetime], map[(e1.donetime, e1.item) := e1.value], map[e1.donetime := e1.header]);
    assert TallyOf([Some(e1)]) == Step(EmptyTally, Some(e1)) == s1;
    assert TallyOf([Some(e1), Some(e2)]) == Step(s1, Some(e2));
    assert e2.donetime !in s1.order && e2.donetime !in s1.meta;
  }

  const Morning := Tally(
    ["06:05", "07:10"],
    map[("06:05", Laminator) := "72.5", ("07:10", Laminator) := ""],
    map["06:05" := Header("John", "X", "PO1"), "07:10" := EmptyHeader])

  lemma TwoEntries(r1: Record, r2: Record, e1: Entry, e2: Entry)
    requires EntryOf(r1, Day1, "A", "S1") == Some(e1) && EntryOf(r2, Day1, "A", "S1") == Some(e2)
    ensures Entries([r1, r2], Day1, "A", "S1") == [Some(e1), Some(e2)]
  {
  }

  lemma MorningTallyOfEntries()
    ensures TallyOf([Some(Entry("06:05", Laminator, "72.5", Header("John", "X", "PO1"))),
                     Some(Entry("07:10", Laminator, "", EmptyHeader))]) == Morning
  {
    TallyOfTwoEntries(Entry("06:05", Laminator, "72.5", Header("John", "X", "PO1")), Entry("07:10", Laminator, "", EmptyHeader));
  }

  lemma MorningTally(r1: Record, r2: Record)
    requires EntryOf(r1, Day1, "A", "S1") == Some(Entry("06:05", Laminator, "72.5", Header("John", "X", "PO1")))
    requires EntryOf(r2, Day1, "A", "S1") == Some(Entry("07:10", Laminator, "", EmptyHeader))
    ensures FinalTally([r1, r2], Day1, "A", "S1") == Morning
  {
    TwoEntries(r1, r2, Entry("06:05", Laminator, "72.5", Header("John", "X", "PO1")), Entry("07:10", Laminator, "", EmptyHeader));
    MorningTallyOfEntries();
  }

  lemma MorningMatrix()
    ensures var m := Matrix(Morning, OrderedItems, ["06:05", "07:10"]);
      m[0].values == ["72.5", ""] && m[1].values == ["", ""]
  {
    var m := Matrix(Morning, OrderedItems, ["06:05", "07:10"]);
    assert OrderedItems[0] == Laminator && OrderedItems[1] != Laminator;
    assert m[0].values[0] == "72.5" && m[0].values[1] == "";
    assert m[1].values[0] == "" && m[1].values[1] == "";
  }

  lemma ReportOfTwoEntries(r1: Record, r2: Record)
    requires EntryOf(r1, Day1, "A", "S1") == Some(Entry("06:05", Laminator, "72.5", Header("John", "X", "PO1")))
    requires EntryOf(r2, Day1, "A", "S1") == Some(Entry("07:10", Laminator, "", EmptyHeader))
    ensures var rep := BuildReport([r1, r2], Day1, "A", "S1");
      && rep.columns == ["06:05", "07:10"]
      && rep.matrix[0].values == ["72.5", ""]
      && rep.matrix[1].values == ["", ""]
      && rep.header == EmptyHeader
  {
    MorningTally(r1, r2);
    MorningColumns();
    MorningMatrix();
    assert HeaderFor(Morning, ["06:05", "07:10"]) == EmptyHeader;
  }

  /** Two submissions of shift A: the dash reads as empty, and the header
      is that of the 07:10 submission, which names no operator. */
  lemma ReportExample()
    ensures var rep := BuildReport([John, Dash], Day1, "A", "S1");
      && rep.columns == ["06:05", "07:10"]
      && rep.matrix[0].values == ["72.5", ""]
      && rep.matrix[1].values == ["", ""]
      && rep.header == EmptyHeader
  {
    EntryOfJohn();
    EntryOfDash();
    ReportOfTwoEntries(John, Dash);
  }

  lemma ReportOfNothing(rows: seq<Record>, shiftDate: string, shiftName: string, station: string)
    requires forall k :: 0 <= k < |rows| ==> !Counted(rows[k], shiftDate, shiftName, station)
    ensures var rep := BuildReport(rows, shiftDate, shiftName, station);
      && rep.columns == []
      && (forall i :: 0 <= i < |rep.matrix| ==> rep.matrix[i].values == [])
      && rep.header == EmptyHeader
  {
    var rep := BuildReport(rows, shiftDate, shiftName, station);
    if rep.columns != [] {
      ReportColumns(rows, shiftDate, shiftName, station, rep.columns[0]);
      assert false;
    }
  }

  /** A selection no record matches gives no columns and empty rows. */
  lemma ReportNoData()
    ensures var rep := BuildReport([Row(Day1, "A", "S1", "06:05")], Day2, "A", "S1");
      && rep.columns == []
      && (forall i :: 0 <= i < |rep.matrix| ==> rep.matrix[i].values == [])
      && rep.header == EmptyHeader
  {
    FieldDay1();
    assert Day1 != Day2;
    ReportOfNothing([Row(Day1, "A", "S1", "06:05")], Day2, "A", "S1");
  }
}
