/**
 The hame_energy payload codec (internal/marstek/protocol.go): the commands the
 controller publishes, their text, and the reading of status payloads.
 */
module Protocol {
  import opened GoStrings

  /** One timed-discharge period as written. */
  datatype Slot = Slot(enabled: bool, start: string, end: string, watts: int)

  /** One timed-discharge period as reported; times may be ragged, as in 0:0. */
  datatype ReadSlot = ReadSlot(enabled: bool, start: string, end: string, watts: int)

  type Slots = s: seq<Slot> | |s| == 5
    witness seq(5, _ => Slot(false, "", "", 0))

  type ReadSlots = s: seq<ReadSlot> | |s| == 5
    witness seq(5, _ => ReadSlot(false, "", "", 0))

  datatype Status = Status(
    soc: int, remainingWh: int, dod: int, chargingMode: int, adaptiveMode: int,
    output1Enabled: int, output2Enabled: int, output1Watts: int, output2Watts: int,
    slots: ReadSlots, outputThresholdWatts: int,
    solar1Watts: int, solar2Watts: int, solar1Mode: int, solar2Mode: int,
    firmwareMajor: int, firmwareSub: int, bootloader: int, ratedOutputWatts: int,
    surplusFeedIn: bool, tempMinC: int, tempMaxC: int, dischargeSettingsCode: int)
  {
    function OutputWatts(): int { output1Watts + output2Watts }

    function SolarWatts(): int { solar1Watts + solar2Watts }

    /** Bit 1 of either solar mode, in two's complement. */
    predicate PassThroughActive()
    {
      solar1Mode / 2 % 2 != 0 || solar2Mode / 2 % 2 != 0
    }
  }

  /** The zero value of Status; note that its SurplusFeedIn is false. */
  const NO_SLOT := ReadSlot(false, "", "", 0)
  const ZERO_STATUS := Status(0, 0, 0, 0, 0, 0, 0, 0, 0, [NO_SLOT, NO_SLOT, NO_SLOT, NO_SLOT, NO_SLOT], 0,
                              0, 0, 0, 0, 0, 0, 0, 0, false, 0, 0, 0)

  // ---- texts that survive the wire --------------------------------------------------

  /** Comma-free text without white space at its ends: what a parsed value looks like. */
  predicate Clean(s: string) { ',' !in s && Trimmed(s) }

  datatype Pair = Pair(key: string, value: string)

  /** A key that survives: clean, not empty and without an equals sign. */
  predicate CleanPair(p: Pair)
  {
    p.key != "" && Clean(p.key) && '=' !in p.key && p.value != "" && Clean(p.value)
  }

  function Token(p: Pair): string { p.key + ['='] + p.value }

  function Tokens(pairs: seq<Pair>): (r: seq<string>)
    ensures |r| == |pairs| && forall i :: 0 <= i < |pairs| ==> r[i] == Token(pairs[i])
  {
    seq(|pairs|, i requires 0 <= i < |pairs| => Token(pairs[i]))
  }

  /** k=v,k=v,... */
  function Encode(pairs: seq<Pair>): string { Join(Tokens(pairs), ',') }

  function ToMap(pairs: seq<Pair>): map<string, string>
  {
    if pairs == [] then map[]
    else
      var last := pairs[|pairs| - 1];
      ToMap(pairs[..|pairs| - 1])[last.key := last.value]
  }

  /** What one token does to the map that parseKV fills. */
  function AddToken(m: map<string, string>, token: string): map<string, string>
  {
    var t := TrimSpace(token);
    var i := Index(t, '=');
    if i < 0 then m else m[TrimSpace(t[..i]) := TrimSpace(t[i + 1..])]
  }

  function AddTokens(tokens: seq<string>): map<string, string>
  {
    if tokens == [] then map[] else AddToken(AddTokens(tokens[..|tokens| - 1]), tokens[|tokens| - 1])
  }

  function KV(payload: string): map<string, string> { AddTokens(Split(payload, ',')) }

  /** parseKV. */
  method ParseKV(payload: string) returns (m: map<string, string>)
    ensures m == KV(payload)
  {
    hide TrimSpace, Index, Split;
    m := map[];
    var tokens := Split(payload, ',');
    for i := 0 to |tokens|
      invariant m == AddTokens(tokens[..i])
    {
      assert tokens[..i + 1][..i] == tokens[..i];
      var token := TrimSpace(tokens[i]);
      if token == "" {
        continue;
      }
      var eq := Index(token, '=');
      if eq < 0 {
        continue;
      }
      m := m[TrimSpace(token[..eq]) := TrimSpace(token[eq + 1..])];
    }
    assert tokens[..|tokens|] == tokens;
  }

  lemma TokenSurvives(m: map<string, string>, p: Pair)
    requires CleanPair(p)
    ensures ',' !in Token(p)
    ensures AddToken(m, Token(p)) == m[p.key := p.value]
  {
    hide Index, TrimSpace, IsSpace;
    var t := Token(p);
    assert t[0] == p.key[0] && t[|t| - 1] == p.value[|p.value| - 1];
    IndexAt(p.key, '=', p.value);
  }

  /** White space around a key and its value does not matter. */
  lemma SpacedToken(m: map<string, string>, p: Pair, a: string, b: string, c: string, d: string)
    requires CleanPair(p) && AllSpace(a) && AllSpace(b) && AllSpace(c) && AllSpace(d)
    ensures AddToken(m, a + (p.key + b + "=" + c + p.value) + d) == m[p.key := p.value]
  {
    hide TrimSpace, IsSpace, Index, AllSpace;
    var inner := p.key + b + "=" + c + p.value;
    assert inner[0] == p.key[0] && inner[|inner| - 1] == p.value[|p.value| - 1];
    TrimSpaceExactly(a, inner, d);
    EqualsIsNoSpace(b);
    IndexAt(p.key + b, '=', c + p.value);
    assert inner == (p.key + b) + ['='] + (c + p.value);
    SpacedSides(p, b, c);
  }

  lemma SpacedSides(p: Pair, b: string, c: string)
    requires CleanPair(p) && AllSpace(b) && AllSpace(c)
    ensures TrimSpace(p.key + b) == p.key && TrimSpace(c + p.value) == p.value
  {
    hide TrimSpace, IsSpace;
    TrimSpaceExactly("", p.key, b);
    TrimSpaceExactly(c, p.value, "");
    assert "" + p.key + b == p.key + b && c + p.value + "" == c + p.value;
  }

  lemma EqualsIsNoSpace(s: string)
    requires AllSpace(s)
    ensures '=' !in s
  {
  }

  lemma {:induction false} TokensSurvive(pairs: seq<Pair>)
    requires forall p :: p in pairs ==> CleanPair(p)
    ensures AddTokens(Tokens(pairs)) == ToMap(pairs)
  {
    hide AddToken, Token, CleanPair;
    if pairs != [] {
      var init, last := pairs[..|pairs| - 1], pairs[|pairs| - 1];
      TokensSurvive(init);
      assert Tokens(pairs)[..|pairs| - 1] == Tokens(init);
      TokenSurvives(ToMap(init), last);
    }
  }

  /** Reading back an encoded list of clean pairs gives those pairs. */
  lemma EncodeRoundTrip(pairs: seq<Pair>)
    requires pairs != [] && forall p :: p in pairs ==> CleanPair(p)
    ensures KV(Encode(pairs)) == ToMap(pairs)
  {
    hide AddTokens, AddToken, Token, Split, Join, CleanPair;
    forall t | t in Tokens(pairs)
      ensures ',' !in t
    {
      var i :| 0 <= i < |pairs| && t == Token(pairs[i]);
      TokenSurvives(map[], pairs[i]);
    }
    SplitJoin(Tokens(pairs), ',');
    TokensSurvive(pairs);
  }

  /** With distinct keys the map holds exactly the pairs. */
  lemma {:induction false} ToMapLookup(pairs: seq<Pair>, i: int)
    requires forall j, k :: 0 <= j < k < |pairs| ==> pairs[j].key != pairs[k].key
    requires 0 <= i < |pairs|
    ensures pairs[i].key in ToMap(pairs) && ToMap(pairs)[pairs[i].key] == pairs[i].value
  {
    if i < |pairs| - 1 {
      ToMapLookup(pairs[..|pairs| - 1], i);
    }
  }

  /** A missing or malformed number reads as 0. */
  function IntField(m: map<string, string>, key: string): int
  {
    if key in m && Atoi(m[key]).Some? then Atoi(m[key]).value else 0
  }

  /** A missing text reads as the empty string. */
  function TextField(m: map<string, string>, key: string): string
  {
    if key in m then m[key] else ""
  }

  // ---- commands -------------------------------------------------------------------------

  /** What the controller can publish on the control topic. */
  datatype Command =
    | TimedDischarge(slots: Slots, flash: bool)
    | Restart
    | OutputEnable(mask: nat)
    | ChargingMode(mode: nat)
    | SurplusFeedIn(disabled: nat)

  const CD_VOLATILE := 20
  const CD_PERSIST := 7
  const CD_RESTART := 10
  const CD_SURPLUS_FEED_IN := 31
  const CD_CHARGING_MODE := 17
  const CD_OUTPUT_ENABLE := 18

  /** What BuildTimedDischargePayload puts on the wire for a slot. */
  function Canonical(s: Slot): (r: Slot)
    ensures 0 <= r.watts <= 800 && r.start != "" && r.end != ""
    ensures 0 <= s.watts <= 800 && s.start != "" && s.end != "" ==> r == s
  {
    Slot(s.enabled,
         if s.start == "" then "00:00" else s.start,
         if s.end == "" then "23:59" else s.end,
         if s.watts < 0 then 0 else if s.watts > 800 then 800 else s.watts)
  }

  function CanonicalSlots(slots: Slots): (r: Slots)
    ensures forall i :: 0 <= i < 5 ==> r[i] == Canonical(slots[i])
  {
    seq(5, i requires 0 <= i < 5 => Canonical(slots[i]))
  }

  predicate CleanSlot(s: Slot) { Clean(s.start) && Clean(s.end) }

  /** A command as it appears on the wire: its slots are canonical and its times clean. */
  predicate OnTheWire(c: Command)
  {
    && (c.TimedDischarge? ==> c.slots == CanonicalSlots(c.slots) && forall s :: s in c.slots ==> CleanSlot(s))
    && (c.OutputEnable? ==> c.mask <= 3)
    && (c.ChargingMode? ==> c.mode <= 1)
    && (c.SurplusFeedIn? ==> c.disabled <= 1)
  }

  function Key(letter: char, i: int): string
    requires 0 <= i < 5
  {
    [letter, ('1' as int + i) as char]
  }

  function SlotPairs(s: Slot, i: int): seq<Pair>
    requires 0 <= i < 5
  {
    var c := Canonical(s);
    [Pair(Key('a', i), Itoa(if c.enabled then 1 else 0)), Pair(Key('b', i), c.start),
     Pair(Key('e', i), c.end), Pair(Key('v', i), Itoa(c.watts))]
  }

  function TimedHead(flash: bool): seq<Pair>
  {
    [Pair("cd", Itoa(if flash then CD_PERSIST else CD_VOLATILE)), Pair("md", Itoa(0))]
  }

  /** The pairs of a timed-discharge payload up to slot n. */
  function TimedPairs(slots: Slots, flash: bool, n: int): (r: seq<Pair>)
    requires 0 <= n <= 5
    ensures |r| == 2 + 4 * n
  {
    if n == 0 then TimedHead(flash) else TimedPairs(slots, flash, n - 1) + SlotPairs(slots[n - 1], n - 1)
  }

  function Pairs(c: Command): seq<Pair>
  {
    match c
    case TimedDischarge(slots, flash) => TimedPairs(slots, flash, 5)
    case Restart => [Pair("cd", Itoa(CD_RESTART))]
    case OutputEnable(mask) => [Pair("cd", Itoa(CD_OUTPUT_ENABLE)), Pair("md", Itoa(mask))]
    case ChargingMode(mode) => [Pair("cd", Itoa(CD_CHARGING_MODE)), Pair("md", Itoa(mode))]
    case SurplusFeedIn(d) => [Pair("cd", Itoa(CD_SURPLUS_FEED_IN)), Pair("touchuan_disa", Itoa(d))]
  }

  function Payload(c: Command): string { Encode(Pairs(c)) }

  lemma EncodeSnoc(pairs: seq<Pair>, p: Pair)
    requires pairs != []
    ensures Encode(pairs + [p]) == Encode(pairs) + "," + Token(p)
  {
    hide Join, Token;
    assert Tokens(pairs + [p]) == Tokens(pairs) + [Token(p)];
    JoinSnoc(Tokens(pairs), Token(p), ',');
  }

  lemma EncodeFour(pairs: seq<Pair>, a: Pair, b: Pair, e: Pair, v: Pair)
    requires pairs != []
    ensures Encode(pairs + [a, b, e, v])
            == Encode(pairs) + "," + Token(a) + "," + Token(b) + "," + Token(e) + "," + Token(v)
  {
    hide Encode, Token;
    EncodeSnoc(pairs, a);
    EncodeSnoc(pairs + [a], b);
    EncodeSnoc(pairs + [a] + [b], e);
    EncodeSnoc(pairs + [a] + [b] + [e], v);
    assert pairs + [a, b, e, v] == pairs + [a] + [b] + [e] + [v];
  }

  // ---- the texts, letter by letter -----------------------------------------------------------

  /** What slot number n (a digit from 1 to 5) adds to a timed-discharge text: flag, start, end and watts under aN, bN, eN, vN. */
  function SlotText(n: string, s: Slot): string
  {
    (",a" + n + "=" + (if s.enabled then "1" else "0"))
    + (",b" + n + "=" + (if s.start == "" then "00:00" else s.start))
    + (",e" + n + "=" + (if s.end == "" then "23:59" else s.end))
    + (",v" + n + "=" + Itoa(if s.watts < 0 then 0 else if s.watts > 800 then 800 else s.watts))
  }

  /** A timed-discharge text: cd=7 writes to flash, cd=20 does not. */
  function TimedText(slots: Slots, flash: bool): string
  {
    (if flash then "cd=7,md=0" else "cd=20,md=0")
    + SlotText("1", slots[0]) + SlotText("2", slots[1]) + SlotText("3", slots[2])
    + SlotText("4", slots[3]) + SlotText("5", slots[4])
  }

  lemma SlotKeys(i: int)
    requires 0 <= i < 5
    ensures var n := ["1", "2", "3", "4", "5"][i];
            Key('a', i) == "a" + n && Key('b', i) == "b" + n && Key('e', i) == "e" + n && Key('v', i) == "v" + n
  {
  }

  lemma SmallNumerals()
    ensures Itoa(0) == "0" && Itoa(1) == "1" && Itoa(3) == "3" && Itoa(7) == "7"
    ensures Itoa(10) == "10" && Itoa(17) == "17" && Itoa(18) == "18" && Itoa(20) == "20" && Itoa(31) == "31"
  {
    assert Itoa(10) == Itoa(1) + ['0'] && Itoa(17) == Itoa(1) + ['7'] && Itoa(18) == Itoa(1) + ['8'];
    assert Itoa(20) == Itoa(2) + ['0'] && Itoa(31) == Itoa(3) + ['1'];
  }

  lemma TokenText(letter: char, i: int, value: string)
    requires letter in "abev" && 0 <= i < 5
    ensures "," + Token(Pair(Key(letter, i), value)) == "," + [letter] + ["1", "2", "3", "4", "5"][i] + "=" + value
  {
    assert Key(letter, i) == [letter] + ["1", "2", "3", "4", "5"][i];
  }

  lemma Regrouped(p: string, a: string, b: string, e: string, v: string)
    ensures p + "," + a + "," + b + "," + e + "," + v == p + (("," + a) + ("," + b) + ("," + e) + ("," + v))
  {
    var x := p + "," + a;
    assert x == p + ("," + a);
    var y := x + "," + b;
    assert y == x + ("," + b) == p + (("," + a) + ("," + b));
    var z := y + "," + e;
    assert z == y + ("," + e) == p + (("," + a) + ("," + b) + ("," + e));
    assert z + "," + v == z + ("," + v);
  }

  lemma SlotPairsText(pairs: seq<Pair>, s: Slot, i: int)
    requires pairs != [] && 0 <= i < 5
    ensures Encode(pairs + SlotPairs(s, i)) == Encode(pairs) + SlotText(["1", "2", "3", "4", "5"][i], s)
  {
    hide Encode, Itoa, Key, Token;
    SmallNumerals();
    var ps := SlotPairs(s, i);
    EncodeFour(pairs, ps[0], ps[1], ps[2], ps[3]);
    Regrouped(Encode(pairs), Token(ps[0]), Token(ps[1]), Token(ps[2]), Token(ps[3]));
    TokenText('a', i, ps[0].value);
    TokenText('b', i, ps[1].value);
    TokenText('e', i, ps[2].value);
    TokenText('v', i, ps[3].value);
    assert "," + ['a'] == ",a" && "," + ['b'] == ",b" && "," + ['e'] == ",e" && "," + ['v'] == ",v";
  }

  lemma HeadText(flash: bool)
    ensures Encode(TimedHead(flash)) == if flash then "cd=7,md=0" else "cd=20,md=0"
  {
    hide Encode, Itoa;
    SmallNumerals();
    var h := TimedHead(flash);
    EncodeHead(h[0], h[1]);
  }

  /** Every timed-discharge payload is that text. */
  lemma TimedPayloadText(slots: Slots, flash: bool)
    ensures Payload(TimedDischarge(slots, flash)) == TimedText(slots, flash)
  {
    hide Encode, SlotText, SlotPairs, TimedHead;
    HeadText(flash);
    SlotPairsText(TimedPairs(slots, flash, 0), slots[0], 0);
    SlotPairsText(TimedPairs(slots, flash, 1), slots[1], 1);
    SlotPairsText(TimedPairs(slots, flash, 2), slots[2], 2);
    SlotPairsText(TimedPairs(slots, flash, 3), slots[3], 3);
    SlotPairsText(TimedPairs(slots, flash, 4), slots[4], 4);
  }

  /** The other payloads the controller sends, in full. */
  lemma ShortPayloadTexts()
    ensures Payload(Restart) == "cd=10"
    ensures Payload(OutputEnable(3)) == "cd=18,md=3"
    ensures Payload(ChargingMode(0)) == "cd=17,md=0"
    ensures Payload(SurplusFeedIn(0)) == "cd=31,touchuan_disa=0"
  {
    hide Itoa, Encode, Token;
    SmallNumerals();
    EncodeOne(Pair("cd", "10"));
    EncodeHead(Pair("cd", "18"), Pair("md", "3"));
    EncodeHead(Pair("cd", "17"), Pair("md", "0"));
    EncodeHead(Pair("cd", "31"), Pair("touchuan_disa", "0"));
    RestartToken();
    EnableTokens();
    ChargingTokens();
    SurplusTokens();
  }

  lemma RestartToken()
    ensures Token(Pair("cd", "10")) == "cd=10"
  {
  }

  lemma EnableTokens()
    ensures Token(Pair("cd", "18")) + "," + Token(Pair("md", "3")) == "cd=18,md=3"
  {
  }

  lemma ChargingTokens()
    ensures Token(Pair("cd", "17")) + "," + Token(Pair("md", "0")) == "cd=17,md=0"
  {
  }

  lemma SurplusTokens()
    ensures Token(Pair("cd", "31")) + "," + Token(Pair("touchuan_disa", "0")) == "cd=31,touchuan_disa=0"
  {
  }

  lemma EncodeOne(a: Pair)
    ensures Encode([a]) == Token(a)
  {
    hide Token;
  }

  const EXAMPLE: Slots := [Slot(true, "08:00", "20:30", 250), Slot(false, "", "", 0), Slot(true, "00:00", "23:59", 900),
                           Slot(true, "1:5", "2:00", -3), Slot(false, "00:00", "23:59", 80)]

  /** One payload written out: missing times are filled in, watts kept between 0 and 800. */
  lemma TimedPayloadExample()
    ensures Payload(TimedDischarge(EXAMPLE, false))
            == "cd=20,md=0" + ",a1=1,b1=08:00,e1=20:30,v1=250" + ",a2=0,b2=00:00,e2=23:59,v2=0"
               + ",a3=1,b3=00:00,e3=23:59,v3=800" + ",a4=1,b4=1:5,e4=2:00,v4=0" + ",a5=0,b5=00:00,e5=23:59,v5=80"
  {
    hide Itoa, Payload, SlotText;
    TimedPayloadText(EXAMPLE, false);
    ExampleSlotOne();
    ExampleSlotTwo();
    ExampleSlotThree();
    ExampleSlotFour();
    ExampleSlotFive();
  }

  lemma ExampleSlotOne()
    ensures SlotText("1", EXAMPLE[0]) == ",a1=1,b1=08:00,e1=20:30,v1=250"
  {
    hide Itoa;
    ExampleNumerals();
  }

  lemma ExampleSlotTwo()
    ensures SlotText("2", EXAMPLE[1]) == ",a2=0,b2=00:00,e2=23:59,v2=0"
  {
    hide Itoa;
    SmallNumerals();
  }

  lemma ExampleSlotThree()
    ensures SlotText("3", EXAMPLE[2]) == ",a3=1,b3=00:00,e3=23:59,v3=800"
  {
    hide Itoa;
    ExampleNumerals();
  }

  lemma ExampleSlotFour()
    ensures SlotText("4", EXAMPLE[3]) == ",a4=1,b4=1:5,e4=2:00,v4=0"
  {
    hide Itoa;
    SmallNumerals();
  }

  lemma ExampleSlotFive()
    ensures SlotText("5", EXAMPLE[4]) == ",a5=0,b5=00:00,e5=23:59,v5=80"
  {
    hide Itoa;
    ExampleNumerals();
  }

  lemma ExampleNumerals()
    ensures Itoa(80) == "80" && Itoa(250) == "250" && Itoa(800) == "800"
  {
    assert Itoa(8) == "8" && Itoa(2) == "2";
    assert Itoa(80) == Itoa(8) + ['0'];
    assert Itoa(25) == Itoa(2) + ['5'];
    assert Itoa(250) == Itoa(25) + ['0'] && Itoa(800) == Itoa(80) + ['0'];
  }

  /** How a text begins tells the commands that wear out the device's flash, and which command it is. */
  lemma PayloadBeginnings(c: Command)
    requires c.OutputEnable? ==> c.mask == 3
    requires c.ChargingMode? ==> c.mode == 0
    requires c.SurplusFeedIn? ==> c.disabled == 0
    ensures "cd=7," <= Payload(c) <==> c.TimedDischarge? && c.flash
    ensures "cd=20," <= Payload(c) <==> c.TimedDischarge? && !c.flash
    ensures "cd=31," <= Payload(c) <==> c.SurplusFeedIn?
    ensures Payload(c) == "cd=10" <==> c.Restart?
    ensures Payload(c) == "cd=18,md=3" <==> c.OutputEnable?
    ensures Payload(c) == "cd=17,md=0" <==> c.ChargingMode?
  {
    hide Payload, SlotText, TimedText;
    ShortPayloadTexts();
    if c.TimedDischarge? {
      TimedPayloadText(c.slots, c.flash);
      TimedTextBegins(c.slots, c.flash);
      assert "cd=31,"[3] == '3' && "cd=20,"[3] == '2' && "cd=7,"[3] == '7';
    } else {
      assert "cd=31,touchuan_disa=0"[..6] == "cd=31,";
      assert "cd=31,"[3] == '3' && "cd=20,"[3] == '2' && "cd=7,"[3] == '7';
    }
  }

  lemma TimedTextBegins(slots: Slots, flash: bool)
    ensures var t := TimedText(slots, flash);
            && |t| > 10 && t[3] == (if flash then '7' else '2')
            && t[..5] == (if flash then "cd=7," else "cd=20") && (!flash ==> t[..6] == "cd=20,")
  {
    hide SlotText;
    var t, head := TimedText(slots, flash), if flash then "cd=7,md=0" else "cd=20,md=0";
    var rest := SlotText("1", slots[0]) + SlotText("2", slots[1]) + SlotText("3", slots[2])
      + SlotText("4", slots[3]) + SlotText("5", slots[4]);
    assert |SlotText("1", slots[0])| >= 4 by { SlotTextIsLong("1", slots[0]); }
    assert t == head + rest;
    assert t[..5] == head[..5] && t[..6] == head[..6] && t[3] == head[3];
  }

  lemma SlotTextIsLong(n: string, s: Slot)
    ensures |SlotText(n, s)| >= 4
  {
    hide Itoa;
  }

  /** BuildTimedDischargePayload: the loop over the string builder. */
  method BuildTimedDischargePayload(slots: Slots, flash: bool) returns (payload: string)
    ensures payload == TimedText(slots, flash)
    ensures payload == Payload(TimedDischarge(slots, flash))
  {
    hide Encode, Itoa, Key, Token, TimedText;
    var cd := if flash then CD_PERSIST else CD_VOLATILE;
    payload := Token(Pair("cd", Itoa(cd))) + "," + Token(Pair("md", Itoa(0)));
    EncodeHead(Pair("cd", Itoa(cd)), Pair("md", Itoa(0)));
    for i := 0 to 5
      invariant payload == Encode(TimedPairs(slots, flash, i))
    {
      var s := slots[i];
      var enabled := 0;
      if s.enabled {
        enabled := 1;
      }
      var watts := s.watts;
      if watts < 0 {
        watts := 0;
      }
      if watts > 800 {
        watts := 800;
      }
      var start := s.start;
      if start == "" {
        start := "00:00";
      }
      var end := s.end;
      if end == "" {
        end := "23:59";
      }
      var a, b := Pair(Key('a', i), Itoa(enabled)), Pair(Key('b', i), start);
      var e, v := Pair(Key('e', i), end), Pair(Key('v', i), Itoa(watts));
      EncodeFour(TimedPairs(slots, flash, i), a, b, e, v);
      payload := payload + "," + Token(a) + "," + Token(b) + "," + Token(e) + "," + Token(v);
    }
    TimedPayloadText(slots, flash);
  }

  lemma EncodeHead(a: Pair, b: Pair)
    ensures Encode([a, b]) == Token(a) + "," + Token(b)
  {
    hide Token;
    assert Tokens([a]) == [Token(a)];
    EncodeSnoc([a], b);
    assert [a, b] == [a] + [b];
  }

  // ---- reading a command back ---------------------------------------------------------------

  /** The slot a timed-discharge payload writes at index i. */
  function WrittenSlot(m: map<string, string>, i: int): Slot
    requires 0 <= i < 5
  {
    Slot(IntField(m, Key('a', i)) == 1, TextField(m, Key('b', i)), TextField(m, Key('e', i)), IntField(m, Key('v', i)))
  }

  function WrittenSlots(m: map<string, string>): Slots
  {
    seq(5, i requires 0 <= i < 5 => WrittenSlot(m, i))
  }

  /** The command a payload stands for. */
  function Decode(payload: string): Option<Command>
  {
    var m := KV(payload);
    var cd, md, disabled := IntField(m, "cd"), IntField(m, "md"), IntField(m, "touchuan_disa");
    if cd == CD_VOLATILE || cd == CD_PERSIST then Some(TimedDischarge(WrittenSlots(m), cd == CD_PERSIST))
    else if cd == CD_RESTART then Some(Restart)
    else if cd == CD_OUTPUT_ENABLE && md >= 0 then Some(OutputEnable(md))
    else if cd == CD_CHARGING_MODE && md >= 0 then Some(ChargingMode(md))
    else if cd == CD_SURPLUS_FEED_IN && disabled >= 0 then Some(SurplusFeedIn(disabled))
    else None
  }

  /** The key of the k-th pair of a timed-discharge payload. */
  function KeyAt(k: int): string
    requires 0 <= k < 22
  {
    if k == 0 then "cd" else if k == 1 then "md" else Key("abev"[(k - 2) % 4], (k - 2) / 4)
  }

  lemma KeysDistinct(j: int, k: int)
    requires 0 <= j < k < 22
    ensures KeyAt(j) != KeyAt(k)
  {
    assert KeyAt(j)[0] != KeyAt(k)[0] || KeyAt(j)[1] != KeyAt(k)[1];
  }

  lemma NumberIsClean(n: nat)
    ensures Clean(Itoa(n)) && Itoa(n) != ""
  {
    hide Itoa, IsSpace;
    DigitsAreClean(Itoa(n));
  }

  lemma DigitsAreClean(s: string)
    requires AllDigits(s)
    ensures Clean(s)
  {
    assert s[0] in s && s[|s| - 1] in s;
  }

  lemma KeyIsClean(letter: char, i: int)
    requires letter in "abev" && 0 <= i < 5
    ensures Clean(Key(letter, i)) && '=' !in Key(letter, i) && Key(letter, i) != ""
  {
  }

  lemma SlotPairsAreClean(s: Slot, i: int)
    requires 0 <= i < 5 && CleanSlot(s)
    ensures forall p :: p in SlotPairs(s, i) ==> CleanPair(p)
  {
    hide Itoa, Key, IsSpace;
    var c := Canonical(s);
    KeyIsClean('a', i);
    KeyIsClean('b', i);
    KeyIsClean('e', i);
    KeyIsClean('v', i);
    NumberIsClean(if c.enabled then 1 else 0);
    NumberIsClean(c.watts);
    assert Clean("00:00") && Clean("23:59") by { DefaultsAreClean(); }
  }

  lemma DefaultsAreClean()
    ensures Clean("00:00") && Clean("23:59")
  {
  }

  lemma NamesAreClean()
    ensures forall k :: k in {"cd", "md", "touchuan_disa"} ==> k != "" && Clean(k) && '=' !in k
  {
  }

  lemma {:induction false} TimedPairsAreClean(slots: Slots, flash: bool, n: int)
    requires 0 <= n <= 5 && forall s :: s in slots ==> CleanSlot(s)
    ensures forall p :: p in TimedPairs(slots, flash, n) ==> CleanPair(p)
  {
    hide Itoa, Key, SlotPairs, IsSpace, CleanPair;
    if n == 0 {
      HeadIsClean(flash);
    } else {
      TimedPairsAreClean(slots, flash, n - 1);
      SlotPairsAreClean(slots[n - 1], n - 1);
    }
  }

  lemma HeadIsClean(flash: bool)
    ensures forall p :: p in TimedHead(flash) ==> CleanPair(p)
  {
    hide Itoa, Clean;
    NamesAreClean();
    NumberIsClean(CD_PERSIST);
    NumberIsClean(CD_VOLATILE);
    NumberIsClean(0);
  }

  /** Where each pair of a timed-discharge payload sits. */
  lemma {:induction false} TimedPairAt(slots: Slots, flash: bool, n: int, k: int)
    requires 0 <= n <= 5 && 0 <= k < 2 + 4 * n
    ensures TimedPairs(slots, flash, n)[k].key == KeyAt(k)
    ensures k < 2 ==> TimedPairs(slots, flash, n)[k] == TimedHead(flash)[k]
    ensures k >= 2 ==> TimedPairs(slots, flash, n)[k] == SlotPairs(slots[(k - 2) / 4], (k - 2) / 4)[(k - 2) % 4]
  {
    hide Itoa, Key, Canonical;
    if n > 0 {
      if k < 2 + 4 * (n - 1) {
        TimedPairAt(slots, flash, n - 1, k);
      } else {
        assert (k - 2) / 4 == n - 1;
      }
    }
  }

  /** Reading the numbers and texts of slot i out of a timed-discharge payload. */
  lemma TimedSlotReadsBack(slots: Slots, flash: bool, i: int)
    requires 0 <= i < 5 && forall s :: s in slots ==> CleanSlot(s)
    ensures WrittenSlot(KV(Payload(TimedDischarge(slots, flash))), i) == Canonical(slots[i])
  {
    hide Itoa, Atoi, Key, KV, Encode, ToMap, TimedPairs, KeyAt, CleanPair, CleanSlot, Canonical;
    var pairs := TimedPairs(slots, flash, 5);
    TimedPairsRoundTrip(slots, flash);
    var at := 2 + 4 * i;
    assert (at - 2) / 4 == i && (at - 2) % 4 == 0;
    assert (at - 1) / 4 == i && (at - 1) % 4 == 1;
    assert at / 4 == i && at % 4 == 2;
    assert (at + 1) / 4 == i && (at + 1) % 4 == 3;
    TimedLookup(slots, flash, at);
    TimedLookup(slots, flash, at + 1);
    TimedLookup(slots, flash, at + 2);
    TimedLookup(slots, flash, at + 3);
    AtoiItoa(0);
    AtoiItoa(1);
    AtoiItoa(Canonical(slots[i]).watts);
  }

  lemma TimedPairsRoundTrip(slots: Slots, flash: bool)
    requires forall s :: s in slots ==> CleanSlot(s)
    ensures KV(Payload(TimedDischarge(slots, flash))) == ToMap(TimedPairs(slots, flash, 5))
  {
    hide KV, Encode, ToMap, TimedPairs, CleanPair, CleanSlot;
    TimedPairsAreClean(slots, flash, 5);
    EncodeRoundTrip(TimedPairs(slots, flash, 5));
  }

  /** The k-th pair of a timed-discharge payload is found under its key. */
  lemma TimedLookup(slots: Slots, flash: bool, k: int)
    requires 0 <= k < 22
    ensures var m, pairs := ToMap(TimedPairs(slots, flash, 5)), TimedPairs(slots, flash, 5);
            && pairs[k].key in m && m[pairs[k].key] == pairs[k].value
            && (k < 2 ==> pairs[k] == TimedHead(flash)[k])
            && (k >= 2 ==> pairs[k] == SlotPairs(slots[(k - 2) / 4], (k - 2) / 4)[(k - 2) % 4])
  {
    hide ToMap, TimedPairs, KeyAt, SlotPairs, TimedHead;
    var pairs := TimedPairs(slots, flash, 5);
    forall i, j | 0 <= i < j < |pairs|
      ensures pairs[i].key != pairs[j].key
    {
      TimedPairAt(slots, flash, 5, i);
      TimedPairAt(slots, flash, 5, j);
      KeysDistinct(i, j);
    }
    TimedPairAt(slots, flash, 5, k);
    ToMapLookup(pairs, k);
  }

  lemma TimedHeadReadsBack(slots: Slots, flash: bool)
    requires forall s :: s in slots ==> CleanSlot(s)
    ensures IntField(KV(Payload(TimedDischarge(slots, flash))), "cd") == if flash then CD_PERSIST else CD_VOLATILE
  {
    hide Itoa, Atoi, KV, Encode, ToMap, TimedPairs, CleanSlot;
    TimedPairsRoundTrip(slots, flash);
    TimedLookup(slots, flash, 0);
    AtoiItoa(CD_PERSIST);
    AtoiItoa(CD_VOLATILE);
  }

  /** A timed-discharge payload reads back as exactly the slots written, for any clean times. */
  lemma TimedRoundTrip(slots: Slots, flash: bool)
    requires forall s :: s in slots ==> CleanSlot(s)
    ensures Decode(Payload(TimedDischarge(slots, flash))) == Some(TimedDischarge(CanonicalSlots(slots), flash))
  {
    hide KV, Payload, WrittenSlot, Canonical, CleanSlot;
    var m := KV(Payload(TimedDischarge(slots, flash)));
    TimedHeadReadsBack(slots, flash);
    forall i | 0 <= i < 5
      ensures WrittenSlots(m)[i] == CanonicalSlots(slots)[i]
    {
      TimedSlotReadsBack(slots, flash, i);
    }
    assert WrittenSlots(m) == CanonicalSlots(slots);
  }

  /** Payloads of one or two numbers. */
  lemma ShortRoundTrip(cd: nat, key: string, v: nat)
    requires cd <= 100 && v <= 100 && key in {"md", "touchuan_disa"}
    ensures IntField(KV(Encode([Pair("cd", Itoa(cd))])), "cd") == cd
    ensures IntField(KV(Encode([Pair("cd", Itoa(cd)), Pair(key, Itoa(v))])), "cd") == cd
    ensures IntField(KV(Encode([Pair("cd", Itoa(cd)), Pair(key, Itoa(v))])), key) == v
  {
    hide KV, Encode, Itoa, Atoi, Clean;
    NamesAreClean();
    NumberIsClean(cd);
    NumberIsClean(v);
    AtoiItoa(cd);
    AtoiItoa(v);
    var a, b := Pair("cd", Itoa(cd)), Pair(key, Itoa(v));
    EncodeRoundTrip([a]);
    EncodeRoundTrip([a, b]);
    assert [a, b][..1] == [a];
  }

  /** Every command the controller publishes reads back as itself. */
  lemma CommandRoundTrip(c: Command)
    requires OnTheWire(c)
    ensures Decode(Payload(c)) == Some(c)
  {
    hide KV, Encode, Itoa, TimedPairs, CanonicalSlots, CleanSlot, WrittenSlots;
    match c
    case TimedDischarge(slots, flash) => TimedRoundTrip(slots, flash);
    case Restart => ShortRoundTrip(CD_RESTART, "md", 0);
    case OutputEnable(mask) => ShortRoundTrip(CD_OUTPUT_ENABLE, "md", mask);
    case ChargingMode(mode) => ShortRoundTrip(CD_CHARGING_MODE, "md", mode);
    case SurplusFeedIn(d) => ShortRoundTrip(CD_SURPLUS_FEED_IN, "touchuan_disa", d);
  }

  /** The cd value of a payload as its reader finds it. */
  lemma CdRead(c: Command)
    requires OnTheWire(c)
    ensures IntField(KV(Payload(c)), "cd")
            == match c
               case TimedDischarge(_, flash) => (if flash then 7 else 20)
               case Restart => 10
               case OutputEnable(_) => 18
               case ChargingMode(_) => 17
               case SurplusFeedIn(_) => 31
  {
    hide KV, Encode, Itoa, TimedPairs, CanonicalSlots, CleanSlot, IntField;
    match c
    case TimedDischarge(slots, flash) => TimedHeadReadsBack(slots, flash);
    case Restart => ShortRoundTrip(CD_RESTART, "md", 0);
    case OutputEnable(mask) => ShortRoundTrip(CD_OUTPUT_ENABLE, "md", mask);
    case ChargingMode(mode) => ShortRoundTrip(CD_CHARGING_MODE, "md", mode);
    case SurplusFeedIn(d) => ShortRoundTrip(CD_SURPLUS_FEED_IN, "touchuan_disa", d);
  }

  /** Comparing payload texts is comparing commands: equal payloads mean equal writes. */
  lemma EqualPayloads(c: Command, d: Command)
    requires OnTheWire(c) && OnTheWire(d)
    ensures Payload(c) == Payload(d) <==> c == d
    ensures Payload(c) != ""
  {
    hide Decode, Payload, OnTheWire;
    CommandRoundTrip(c);
    CommandRoundTrip(d);
    EmptyIsNoCommand();
  }

  lemma EmptyIsNoCommand()
    ensures Decode("") == None
  {
    hide IsSpace, Atoi, WrittenSlots, Split;
    SplitNoSeparator("", ',');
    assert AddTokens([""]) == map[];
  }

  // ---- statuses --------------------------------------------------------------------------------

  /** normaliseTime: pads single-digit hours and minutes. */
  function NormaliseTime(t: string): string
  {
    if t == "" then "00:00"
    else
      var i := Index(t, ':');
      if i < 0 then t
      else Pad(t[..i]) + [':'] + Pad(t[i + 1..])
  }

  function Pad(s: string): string { if |s| == 1 then "0" + s else s }

  /** What normaliseTime makes of hours and minutes: a single character gets a 0 in front, anything else stays. */
  lemma NormaliseTimeIs(h: string, m: string)
    requires ':' !in h
    ensures NormaliseTime(h + ":" + m)
            == (if |h| == 1 then "0" + h else h) + ":" + (if |m| == 1 then "0" + m else m)
    ensures NormaliseTime(h) == if h == "" then "00:00" else h
  {
    IndexAt(h, ':', m);
    assert h + [':'] + m == h + ":" + m;
  }

  lemma PaddedTimes()
    ensures NormaliseTime("8:5") == "08:05"
    ensures NormaliseTime("12:5") == "12:05"
    ensures NormaliseTime("7:30") == "07:30"
  {
    hide NormaliseTime;
    NormaliseTimeIs("8", "5");
    NormaliseTimeIs("12", "5");
    NormaliseTimeIs("7", "30");
    assert "8" + ":" + "5" == "8:5" && "12" + ":" + "5" == "12:5" && "7" + ":" + "30" == "7:30";
    assert "08" + ":" + "05" == "08:05" && "12" + ":" + "05" == "12:05" && "07" + ":" + "30" == "07:30";
  }

  /** Padding never changes the number that a text reads as, nor whether it reads as one. */
  lemma PadKeepsValue(s: string)
    ensures Atoi(Pad(s)) == Atoi(s)
  {
    if |s| == 1 {
      ZeroInFront(s[0]);
      assert s == [s[0]] && Pad(s) == ['0', s[0]];
    }
  }

  lemma ZeroInFront(c: char)
    ensures Atoi(['0', c]) == Atoi([c])
  {
    var two, one := ['0', c], [c];
    assert two[..1] == ['0'] && ['0'][..0] == "" && one[..0] == "" && one[1..] == "" && two[1] in two;
    if IsDigit(c) {
      assert AllDigits(two) && AllDigits(one);
      assert DigitsValue(['0']) == 0;
      assert DigitsValue(two) == 10 * DigitsValue(two[..1]) + DigitValue(c);
    } else {
      assert !AllDigits(two) && !AllDigits(one);
    }
  }

  lemma NormaliseTimeKeepsClean(t: string)
    requires Clean(t)
    ensures Clean(NormaliseTime(t)) && NormaliseTime(t) != ""
  {
    hide IsSpace;
    DefaultsAreClean();
    assert !IsSpace('0') && !IsSpace(':') by { PaddingIsNotSpace(); }
    var i := Index(t, ':');
    if i >= 0 {
      assert t == t[..i] + [':'] + t[i + 1..];
    }
  }

  lemma PaddingIsNotSpace()
    ensures !IsSpace('0') && !IsSpace(':')
  {
  }

  /** Normalising twice is normalising once. */
  lemma NormaliseTimeIdempotent(t: string)
    ensures NormaliseTime(NormaliseTime(t)) == NormaliseTime(t)
  {
    var i := Index(t, ':');
    if t != "" && i >= 0 {
      IndexAt(Pad(t[..i]), ':', Pad(t[i + 1..]));
    } else if t == "" {
      IndexAt("00", ':', "00");
      assert "00:00" == "00" + [':'] + "00";
    }
  }

  /** A time that needs no padding: not empty, and no single-character hour or minute. */
  predicate Padded(t: string)
  {
    var i := Index(t, ':');
    t != "" && (i >= 0 ==> i != 1 && |t| - i != 2)
  }

  /** Padding leaves alone exactly the padded times. */
  lemma NormaliseTimeKeepsExactly(t: string)
    ensures NormaliseTime(t) == t <==> Padded(t)
  {
    hide Index;
    var i := Index(t, ':');
    if i >= 0 {
      assert t == t[..i] + [':'] + t[i + 1..];
      assert |NormaliseTime(t)| == |t| + (if i == 1 then 1 else 0) + (if |t| - i == 2 then 1 else 0);
    }
  }

  /** SlotsAsWriteSlots. */
  function SlotsAsWriteSlots(s: Status): (r: Slots)
    ensures forall i :: 0 <= i < 5 ==>
              r[i] == Slot(s.slots[i].enabled, NormaliseTime(s.slots[i].start), NormaliseTime(s.slots[i].end), s.slots[i].watts)
  {
    seq(5, i requires 0 <= i < 5 =>
      Slot(s.slots[i].enabled, NormaliseTime(s.slots[i].start), NormaliseTime(s.slots[i].end), s.slots[i].watts))
  }

  predicate CleanStatus(s: Status)
  {
    forall i :: 0 <= i < 5 ==> Clean(s.slots[i].start) && Clean(s.slots[i].end)
  }

  function ParsedSlot(m: map<string, string>, i: int): ReadSlot
    requires 0 <= i < 5
  {
    ReadSlot(IntField(m, Key('d', i)) == 1, TextField(m, Key('e', i)), TextField(m, Key('f', i)), IntField(m, Key('h', i)))
  }

  function StatusOf(m: map<string, string>): Status
  {
    Status(IntField(m, "pe"), IntField(m, "kn"), IntField(m, "do"), IntField(m, "cs"), IntField(m, "md"),
           IntField(m, "o1"), IntField(m, "o2"), IntField(m, "g1"), IntField(m, "g2"),
           seq(5, i requires 0 <= i < 5 => ParsedSlot(m, i)), IntField(m, "lv"),
           IntField(m, "w1"), IntField(m, "w2"), IntField(m, "p1"), IntField(m, "p2"),
           IntField(m, "vv"), IntField(m, "sv"), IntField(m, "uv"), IntField(m, "lmo"),
           IntField(m, "tc_dis") == 0, IntField(m, "tl"), IntField(m, "th"), IntField(m, "cd"))
  }

  /** ParseStatus. */
  function ParseStatus(payload: string): Status { StatusOf(KV(payload)) }

  /** The keys that ParseStatus reads. */
  predicate IsStatusKey(k: string)
  {
    || k in ["pe", "kn", "do", "cs", "md", "o1", "o2", "g1", "g2", "lv", "w1", "w2", "p1", "p2", "vv", "sv", "uv", "lmo",
             "tc_dis", "tl", "th", "cd"]
    || exists i :: 0 <= i < 5 && IsSlotKey(k, i)
  }

  predicate IsSlotKey(k: string, i: int)
    requires 0 <= i < 5
  {
    k in [Key('d', i), Key('e', i), Key('f', i), Key('h', i)]
  }

  /** A token that says nothing to ParseStatus: no equals sign, or a key it does not know. */
  predicate Unknown(token: string)
  {
    var t := TrimSpace(token);
    Index(t, '=') < 0 || !IsStatusKey(TrimSpace(t[..Index(t, '=')]))
  }

  lemma SplitSnoc(payload: string, token: string)
    requires ',' !in token
    ensures Split(payload + "," + token, ',') == Split(payload, ',') + [token]
  {
    hide Split, Join;
    var parts := Split(payload, ',');
    JoinSplit(payload, ',');
    JoinSnoc(parts, token, ',');
    assert [','] == ",";
    SplitJoin(parts + [token], ',');
  }

  /** Unknown keys and malformed tokens change nothing that is read. */
  lemma UnknownTokenIgnored(payload: string, token: string)
    requires ',' !in token && Unknown(token)
    ensures ParseStatus(payload + "," + token) == ParseStatus(payload)
  {
    hide Split, TrimSpace, Index, Atoi;
    SplitSnoc(payload, token);
    var tokens := Split(payload, ',');
    assert (tokens + [token])[..|tokens|] == tokens;
    var m, m' := KV(payload), KV(payload + "," + token);
    assert m' == AddToken(m, token);
    SameReading(m, m');
  }

  ghost predicate SameFields(m: map<string, string>, m': map<string, string>)
  {
    forall k :: IsStatusKey(k) ==> (k in m <==> k in m') && (k in m && k in m' ==> m[k] == m'[k])
  }

  lemma SameField(m: map<string, string>, m': map<string, string>, k: string)
    requires SameFields(m, m') && IsStatusKey(k)
    ensures IntField(m, k) == IntField(m', k) && TextField(m, k) == TextField(m', k)
  {
  }

  lemma StatusKeys()
    ensures IsStatusKey("pe") && IsStatusKey("kn") && IsStatusKey("do") && IsStatusKey("cs") && IsStatusKey("md")
    ensures IsStatusKey("o1") && IsStatusKey("o2") && IsStatusKey("g1") && IsStatusKey("g2") && IsStatusKey("lv")
    ensures IsStatusKey("w1") && IsStatusKey("w2") && IsStatusKey("p1") && IsStatusKey("p2") && IsStatusKey("vv")
    ensures IsStatusKey("sv") && IsStatusKey("uv") && IsStatusKey("lmo") && IsStatusKey("tc_dis") && IsStatusKey("tl")
    ensures IsStatusKey("th") && IsStatusKey("cd")
  {
  }

  lemma SameSlot(m: map<string, string>, m': map<string, string>, i: int)
    requires SameFields(m, m') && 0 <= i < 5
    ensures ParsedSlot(m, i) == ParsedSlot(m', i)
  {
    hide IntField, TextField, SameFields, Key;
    assert IsSlotKey(Key('d', i), i) && IsSlotKey(Key('e', i), i) && IsSlotKey(Key('f', i), i) && IsSlotKey(Key('h', i), i);
    SameField(m, m', Key('d', i));
    SameField(m, m', Key('e', i));
    SameField(m, m', Key('f', i));
    SameField(m, m', Key('h', i));
  }

  lemma SameReading(m: map<string, string>, m': map<string, string>)
    requires SameFields(m, m')
    ensures StatusOf(m) == StatusOf(m')
  {
    hide IntField, TextField, SameFields, IsStatusKey, ParsedSlot;
    StatusKeys();
    SameField(m, m', "pe");
    SameField(m, m', "kn");
    SameField(m, m', "do");
    SameField(m, m', "cs");
    SameField(m, m', "md");
    SameField(m, m', "o1");
    SameField(m, m', "o2");
    SameField(m, m', "g1");
    SameField(m, m', "g2");
    SameField(m, m', "lv");
    SameField(m, m', "w1");
    SameField(m, m', "w2");
    SameField(m, m', "p1");
    SameField(m, m', "p2");
    SameField(m, m', "vv");
    SameField(m, m', "sv");
    SameField(m, m', "uv");
    SameField(m, m', "lmo");
    SameField(m, m', "tc_dis");
    SameField(m, m', "tl");
    SameField(m, m', "th");
    SameField(m, m', "cd");
    forall i | 0 <= i < 5
      ensures ParsedSlot(m, i) == ParsedSlot(m', i)
    {
      SameSlot(m, m', i);
    }
    assert StatusOf(m).slots == StatusOf(m').slots;
  }

  lemma NoFields(k: string)
    ensures IntField(map[], k) == 0 && TextField(map[], k) == ""
  {
  }

  lemma NothingRead()
    ensures KV("") == map[]
  {
    hide IsSpace, Split;
    SplitNoSeparator("", ',');
    assert AddTokens([""]) == map[];
  }

  /** Surplus feed-in reads as enabled unless tc_dis is there, is a number and is not 0. */
  lemma SurplusFlagExactly(payload: string)
    ensures var m := KV(payload);
            ParseStatus(payload).surplusFeedIn
            <==> "tc_dis" !in m || Atoi(m["tc_dis"]) == None || Atoi(m["tc_dis"]) == Some(0)
  {
    hide KV, Atoi, ParsedSlot;
  }

  /** A status that says nothing reads as zeros, but with surplus feed-in on: its flag is inverted. */
  lemma EmptyStatusFeedsIn()
    ensures ParseStatus("") == ZERO_STATUS.(surplusFeedIn := true)
  {
    hide IntField, TextField, KV, Key;
    NothingRead();
    forall k: string
      ensures IntField(map[], k) == 0 && TextField(map[], k) == ""
    {
      NoFields(k);
    }
    assert ParseStatus("").slots == ZERO_STATUS.slots;
  }

  /** Every key and value parseKV stores is trimmed and comma-free. */
  lemma {:induction false} StoredTextIsClean(tokens: seq<string>)
    requires forall t :: t in tokens ==> ',' !in t
    ensures forall k :: k in AddTokens(tokens) ==> Clean(AddTokens(tokens)[k])
  {
    hide TrimSpace, IsSpace;
    if tokens != [] {
      StoredTextIsClean(tokens[..|tokens| - 1]);
      var t := TrimSpace(tokens[|tokens| - 1]);
      assert forall c :: c in t ==> c in tokens[|tokens| - 1];
      assert ',' !in t;
    }
  }

  /** Whatever arrives, the slot times of a parsed status are clean: the codec lemmas apply to every status. */
  lemma ParsedStatusIsClean(payload: string)
    ensures CleanStatus(ParseStatus(payload))
  {
    hide AddTokens, Split, Atoi, Key;
    StoredTextIsClean(Split(payload, ','));
    assert Clean("");
  }

  /** A reported slot, written as it stands. */
  function AsReported(r: ReadSlot): Slot { Slot(r.enabled, r.start, r.end, r.watts) }

  /** What the wire cannot change about a reported slot. */
  predicate SurvivesAsReported(r: ReadSlot)
  {
    Padded(r.start) && Padded(r.end) && 0 <= r.watts <= 800
  }

  /** A slot carried over from a status is written exactly as reported if and only if its times are padded and its watts in range. */
  lemma CarriedExactly(s: Status, k: int)
    requires 0 <= k < 5
    ensures Canonical(SlotsAsWriteSlots(s)[k]) == AsReported(s.slots[k]) <==> SurvivesAsReported(s.slots[k])
  {
    hide Padded, NormaliseTime;
    NormaliseTimeKeepsExactly(s.slots[k].start);
    NormaliseTimeKeepsExactly(s.slots[k].end);
    NeverEmpty(s.slots[k].start);
    NeverEmpty(s.slots[k].end);
  }

  lemma NeverEmpty(t: string)
    ensures NormaliseTime(t) != ""
  {
  }

  /** A slot reported as 0:0 to 23:59 at 900 W is written as 00:00 to 23:59 at 800 W. */
  lemma RaggedSlotIsChanged(s: Status, k: int)
    requires 0 <= k < 5 && s.slots[k] == ReadSlot(true, "0:0", "23:59", 900)
    ensures Canonical(SlotsAsWriteSlots(s)[k]) == Slot(true, "00:00", "23:59", 800)
    ensures !SurvivesAsReported(s.slots[k])
  {
    RaggedTimes();
  }

  lemma RaggedTimes()
    ensures NormaliseTime("0:0") == "00:00" && !Padded("0:0")
    ensures NormaliseTime("00:00") == "00:00" && Padded("00:00")
    ensures NormaliseTime("23:59") == "23:59" && Padded("23:59")
  {
    IndexAt("0", ':', "0");
    assert "0:0" == "0" + [':'] + "0";
    IndexAt("00", ':', "00");
    assert "00:00" == "00" + [':'] + "00";
    IndexAt("23", ':', "59");
    assert "23:59" == "23" + [':'] + "59";
  }

  /** Replacing one slot of a status and writing it changes that slot only. */
  lemma WriteChangesOneSlot(s: Status, idx: int, desired: Slot, flash: bool)
    requires CleanStatus(s) && 0 <= idx < 5 && CleanSlot(desired)
    ensures var slots := SlotsAsWriteSlots(s)[idx := desired];
            var written := Decode(Payload(TimedDischarge(slots, flash)));
            && written.Some? && written.value.TimedDischarge? && written.value.flash == flash
            && written.value.slots[idx] == Canonical(desired)
            && forall i :: 0 <= i < 5 && i != idx ==> written.value.slots[i] == Canonical(SlotsAsWriteSlots(s)[i])
  {
    hide Decode, Payload, Canonical, Clean, NormaliseTime;
    var slots := SlotsAsWriteSlots(s)[idx := desired];
    forall i | 0 <= i < 5
      ensures CleanSlot(slots[i])
    {
      NormaliseTimeKeepsClean(s.slots[i].start);
      NormaliseTimeKeepsClean(s.slots[i].end);
    }
    TimedRoundTrip(slots, flash);
  }
}
