/**
 Statuses as the device reports them: the key table of internal/marstek/protocol.go
 as a writer, and the proof that ParseStatus reads it back.
 */
module Report {
  import opened GoStrings
  import opened Protocol

  /** What a key stands for: a number, or a time of a slot. */
  datatype Cell = Num(n: int) | Time(t: string)

  datatype Entry = Entry(key: string, cell: Cell)

  /** A decimal number with its sign. */
  function Number(n: int): string { if n < 0 then "-" + Itoa(-n) else Itoa(n) }

  lemma NumberReads(n: int)
    requires -MAX_INT64 - 1 <= n <= MAX_INT64
    ensures Atoi(Number(n)) == Some(n)
    ensures Clean(Number(n)) && Number(n) != ""
  {
    hide Itoa, IsSpace;
    var m := if n < 0 then -n else n;
    DigitsValueItoa(m);
    NumberIsClean(m);
    MinusIsPlain();
    if n < 0 {
      assert Number(n)[1..] == Itoa(m);
    }
  }

  lemma MinusIsPlain()
    ensures !IsSpace('-') && !IsDigit('-')
  {
  }

  /** The documented table, in the order of its keys. */
  function Table(s: Status): seq<Entry>
  {
    [Entry("cd", Num(s.dischargeSettingsCode)), Entry("cs", Num(s.chargingMode)),
     Entry("d1", Num(if s.slots[0].enabled then 1 else 0)),
     Entry("d2", Num(if s.slots[1].enabled then 1 else 0)),
     Entry("d3", Num(if s.slots[2].enabled then 1 else 0)),
     Entry("d4", Num(if s.slots[3].enabled then 1 else 0)),
     Entry("d5", Num(if s.slots[4].enabled then 1 else 0)), Entry("do", Num(s.dod)),
     Entry("e1", Time(s.slots[0].start)), Entry("e2", Time(s.slots[1].start)), Entry("e3", Time(s.slots[2].start)),
     Entry("e4", Time(s.slots[3].start)), Entry("e5", Time(s.slots[4].start)), Entry("f1", Time(s.slots[0].end)),
     Entry("f2", Time(s.slots[1].end)), Entry("f3", Time(s.slots[2].end)), Entry("f4", Time(s.slots[3].end)), Entry("f5", Time(s.slots[4].end)),
     Entry("g1", Num(s.output1Watts)), Entry("g2", Num(s.output2Watts)), Entry("h1", Num(s.slots[0].watts)),
     Entry("h2", Num(s.slots[1].watts)), Entry("h3", Num(s.slots[2].watts)),
     Entry("h4", Num(s.slots[3].watts)), Entry("h5", Num(s.slots[4].watts)), Entry("kn", Num(s.remainingWh)),
     Entry("lmo", Num(s.ratedOutputWatts)), Entry("lv", Num(s.outputThresholdWatts)),
     Entry("md", Num(s.adaptiveMode)), Entry("o1", Num(s.output1Enabled)), Entry("o2", Num(s.output2Enabled)),
     Entry("p1", Num(s.solar1Mode)), Entry("p2", Num(s.solar2Mode)), Entry("pe", Num(s.soc)),
     Entry("sv", Num(s.firmwareSub)), Entry("tc_dis", Num(if s.surplusFeedIn then 0 else 1)),
     Entry("th", Num(s.tempMaxC)), Entry("tl", Num(s.tempMinC)), Entry("uv", Num(s.bootloader)),
     Entry("vv", Num(s.firmwareMajor)), Entry("w1", Num(s.solar1Watts)), Entry("w2", Num(s.solar2Watts))]
  }

  predicate Fits(c: Cell)
  {
    match c
    case Num(n) => -MAX_INT64 - 1 <= n <= MAX_INT64
    case Time(t) => Clean(t) && t != ""
  }

  /** What a device can report: 64-bit numbers and clean times. */
  predicate Reportable(s: Status) { forall e :: e in Table(s) ==> Fits(e.cell) }

  function Text(c: Cell): string { if c.Num? then Number(c.n) else c.t }

  function Pairs(s: Status): (r: seq<Pair>)
    ensures |r| == |Table(s)|
    ensures forall k :: 0 <= k < |r| ==> r[k] == Pair(Table(s)[k].key, Text(Table(s)[k].cell))
  {
    hide Table, Text;
    seq(|Table(s)|, k requires 0 <= k < |Table(s)| => Pair(Table(s)[k].key, Text(Table(s)[k].cell)))
  }

  /** The status payload of a device. */
  function Report(s: Status): string { Encode(Pairs(s)) }

  // ---- the keys ----------------------------------------------------------------------------------

  /** Keys are told apart by their first two characters. */
  function Code(key: string): int
  {
    if |key| < 2 then 0 else key[0] as int * 0x10000 + key[1] as int
  }

  lemma TableSize(s: Status)
    ensures |Table(s)| == 42
  {
  }

  lemma CodeStep(s: Status, k: int)
    requires 0 <= k < 41
    ensures |Table(s)| == 42
    ensures Code(Table(s)[k].key) < Code(Table(s)[k + 1].key)
  {
    hide Code, Table;
    if k < 14 {
      CodeStepAtFirst(s, k);
    } else if k < 28 {
      CodeStepBetween(s, k);
    } else {
      CodeStepAtLast(s, k);
    }
  }

  lemma CodeStepAtFirst(s: Status, k: int)
    requires 0 <= k < 14
    ensures |Table(s)| == 42
    ensures Code(Table(s)[k].key) < Code(Table(s)[k + 1].key)
  {
  }

  lemma CodeStepBetween(s: Status, k: int)
    requires 14 <= k < 28
    ensures |Table(s)| == 42
    ensures Code(Table(s)[k].key) < Code(Table(s)[k + 1].key)
  {
  }

  lemma CodeStepAtLast(s: Status, k: int)
    requires 28 <= k < 41
    ensures |Table(s)| == 42
    ensures Code(Table(s)[k].key) < Code(Table(s)[k + 1].key)
  {
  }

  lemma {:induction false} CodesIncrease(s: Status, j: int, k: int)
    requires 0 <= j < k < 42
    ensures |Table(s)| == 42
    ensures Code(Table(s)[j].key) < Code(Table(s)[k].key)
    decreases k
  {
    hide Code, Table;
    TableSize(s);
    CodeStep(s, k - 1);
    if j < k - 1 {
      CodesIncrease(s, j, k - 1);
    }
  }

  lemma KeysDiffer(s: Status)
    ensures |Table(s)| == 42
    ensures forall j, k :: 0 <= j < k < |Table(s)| ==> Table(s)[j].key != Table(s)[k].key
  {
    hide Code, Table;
    TableSize(s);
    forall j, k | 0 <= j < k < |Table(s)|
      ensures Table(s)[j].key != Table(s)[k].key
    {
      CodesIncrease(s, j, k);
    }
  }

  predicate IsPlain(c: char) { 'a' <= c <= 'z' || IsDigit(c) || c == '_' }

  lemma PlainIsClean(key: string)
    requires key != "" && forall c :: c in key ==> IsPlain(c)
    ensures Clean(key) && '=' !in key
  {
    assert key[0] in key && key[|key| - 1] in key;
  }

  lemma KeyIsPlain(s: Status, k: int)
    requires 0 <= k < 42
    ensures |Table(s)| == 42 && Table(s)[k].key != ""
    ensures forall c :: c in Table(s)[k].key ==> IsPlain(c)
  {
    hide Table, IsPlain;
    if k < 14 {
      KeyIsPlainAtFirst(s, k);
    } else if k < 28 {
      KeyIsPlainBetween(s, k);
    } else {
      KeyIsPlainAtLast(s, k);
    }
  }

  lemma KeyIsPlainAtFirst(s: Status, k: int)
    requires 0 <= k < 14
    ensures |Table(s)| == 42 && Table(s)[k].key != ""
    ensures forall c :: c in Table(s)[k].key ==> IsPlain(c)
  {
  }

  lemma KeyIsPlainBetween(s: Status, k: int)
    requires 14 <= k < 28
    ensures |Table(s)| == 42 && Table(s)[k].key != ""
    ensures forall c :: c in Table(s)[k].key ==> IsPlain(c)
  {
  }

  lemma KeyIsPlainAtLast(s: Status, k: int)
    requires 28 <= k < 42
    ensures |Table(s)| == 42 && Table(s)[k].key != ""
    ensures forall c :: c in Table(s)[k].key ==> IsPlain(c)
  {
  }

  // ---- the round trip -----------------------------------------------------------------------------

  lemma PairSurvives(s: Status, k: int)
    requires Reportable(s) && 0 <= k < 42
    ensures |Pairs(s)| == 42 && CleanPair(Pairs(s)[k])
  {
    hide Table, Number, IsPlain, Clean;
    KeyIsPlain(s, k);
    PlainIsClean(Table(s)[k].key);
    var e := Table(s)[k];
    assert e in Table(s);
    if e.cell.Num? {
      NumberReads(e.cell.n);
    }
  }

  /** Every entry of the table is found under its key. */
  lemma EntryReadsBack(s: Status, k: int)
    requires Reportable(s) && 0 <= k < 42
    ensures |Table(s)| == 42
    ensures var e, m := Table(s)[k], KV(Report(s));
            e.key in m && m[e.key] == Text(e.cell)
  {
    hide Table, Text, KV, Encode, CleanPair, Reportable;
    KeysDiffer(s);
    forall p | p in Pairs(s)
      ensures CleanPair(p)
    {
      var i :| 0 <= i < |Pairs(s)| && p == Pairs(s)[i];
      PairSurvives(s, i);
    }
    EncodeRoundTrip(Pairs(s));
    ToMapLookup(Pairs(s), k);
  }

  lemma NumberField(s: Status, k: int, key: string, n: int)
    requires Reportable(s) && 0 <= k < |Table(s)| && Table(s)[k] == Entry(key, Num(n))
    ensures IntField(KV(Report(s)), key) == n
  {
    hide Table, KV, Report, Atoi, Number;
    TableSize(s);
    EntryReadsBack(s, k);
    assert Table(s)[k] in Table(s);
    NumberReads(n);
  }

  lemma TimeField(s: Status, k: int, key: string, t: string)
    requires Reportable(s) && 0 <= k < |Table(s)| && Table(s)[k] == Entry(key, Time(t))
    ensures TextField(KV(Report(s)), key) == t
  {
    hide Table, KV, Report, Reportable;
    TableSize(s);
    EntryReadsBack(s, k);
  }

  lemma FlagEntry(s: Status, i: int)
    requires 0 <= i < 5
    ensures |Table(s)| == 42 && Table(s)[2 + i] == Entry(Key('d', i), Num(if s.slots[i].enabled then 1 else 0))
  {
  }

  lemma StartEntry(s: Status, i: int)
    requires 0 <= i < 5
    ensures |Table(s)| == 42 && Table(s)[8 + i] == Entry(Key('e', i), Time(s.slots[i].start))
  {
  }

  lemma EndEntry(s: Status, i: int)
    requires 0 <= i < 5
    ensures |Table(s)| == 42 && Table(s)[13 + i] == Entry(Key('f', i), Time(s.slots[i].end))
  {
  }

  lemma WattsEntry(s: Status, i: int)
    requires 0 <= i < 5
    ensures |Table(s)| == 42 && Table(s)[20 + i] == Entry(Key('h', i), Num(s.slots[i].watts))
  {
  }

  lemma SlotReadsBack(s: Status, i: int)
    requires Reportable(s) && 0 <= i < 5
    ensures ParsedSlot(KV(Report(s)), i) == s.slots[i]
  {
    hide Table, KV, Report, IntField, TextField, Key, Reportable;
    FlagEntry(s, i);
    StartEntry(s, i);
    EndEntry(s, i);
    WattsEntry(s, i);
    NumberField(s, 2 + i, Key('d', i), if s.slots[i].enabled then 1 else 0);
    TimeField(s, 8 + i, Key('e', i), s.slots[i].start);
    TimeField(s, 13 + i, Key('f', i), s.slots[i].end);
    NumberField(s, 20 + i, Key('h', i), s.slots[i].watts);
  }

  /** ParseStatus reads every field of a report from its own key. */
  lemma ReportReadsBack(s: Status)
    requires Reportable(s)
    ensures ParseStatus(Report(s)) == s
  {
    hide KV, Report, IntField, TextField, Reportable, ParsedSlot;
    TableSize(s);
    NumberField(s, 33, "pe", s.soc);
    NumberField(s, 25, "kn", s.remainingWh);
    NumberField(s, 7, "do", s.dod);
    NumberField(s, 1, "cs", s.chargingMode);
    NumberField(s, 28, "md", s.adaptiveMode);
    NumberField(s, 29, "o1", s.output1Enabled);
    NumberField(s, 30, "o2", s.output2Enabled);
    NumberField(s, 18, "g1", s.output1Watts);
    NumberField(s, 19, "g2", s.output2Watts);
    NumberField(s, 27, "lv", s.outputThresholdWatts);
    NumberField(s, 40, "w1", s.solar1Watts);
    NumberField(s, 41, "w2", s.solar2Watts);
    NumberField(s, 31, "p1", s.solar1Mode);
    NumberField(s, 32, "p2", s.solar2Mode);
    NumberField(s, 39, "vv", s.firmwareMajor);
    NumberField(s, 34, "sv", s.firmwareSub);
    NumberField(s, 38, "uv", s.bootloader);
    NumberField(s, 26, "lmo", s.ratedOutputWatts);
    NumberField(s, 35, "tc_dis", if s.surplusFeedIn then 0 else 1);
    NumberField(s, 37, "tl", s.tempMinC);
    NumberField(s, 36, "th", s.tempMaxC);
    assert Table(s)[0] == Entry("cd", Num(s.dischargeSettingsCode));
    NumberField(s, 0, "cd", s.dischargeSettingsCode);
    forall i | 0 <= i < 5
      ensures ParsedSlot(KV(Report(s)), i) == s.slots[i]
    {
      SlotReadsBack(s, i);
    }
    assert ParseStatus(Report(s)).slots == s.slots;
  }
}
