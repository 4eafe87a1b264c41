/**
 The parser of 5-field cron specs (internal/schedule/schedule.go).

 A bit mask is the set of positions of its 1 bits. Go's int is 64 bits wide and
 wraps around, which the loop that sets the bits of a range can be made to do.
 */
module CronParse {
  import opened GoStrings
  import opened CronNext
  import Calendar

  const TWO_TO_64 := 0x1_0000_0000_0000_0000

  // ---- the grammar of one comma part ----------------------------------------------

  datatype Part = Part(start: int, end: int, step: int)

  /** The texts of a range: a star, one number, or two numbers around the first dash. */
  ghost predicate IsRange(r: string, lo: int, hi: int, start: int, end: int)
  {
    || (r == "*" && start == lo && end == hi)
    || (r != "*" && '-' !in r && Atoi(r) == Some(start) && end == start)
    || exists a, b :: IsDashed(r, a, b) && Atoi(a) == Some(start) && Atoi(b) == Some(end)
  }

  predicate IsDashed(r: string, a: string, b: string) { '-' !in a && r == a + ['-'] + b }

  predicate IsStepped(p: string, r: string, s: string) { '/' !in r && p == r + ['/'] + s }

  /** The texts of a part: a range, or a range, a slash and a positive step. */
  ghost predicate IsPart(p: string, lo: int, hi: int, part: Part)
  {
    || ('/' !in p && part.step == 1 && IsRange(p, lo, hi, part.start, part.end))
    || exists r, s :: IsStepped(p, r, s) && Atoi(s) == Some(part.step) && part.step > 0
                      && IsRange(r, lo, hi, part.start, part.end)
  }

  predicate InBounds(part: Part, lo: int, hi: int) { lo <= part.start <= part.end <= hi }

  /** How parsePart64 reads a range. */
  function ReadRange(r: string, lo: int, hi: int): Option<(int, int)>
  {
    if r == "*" then Some((lo, hi))
    else
      var i := Index(r, '-');
      if i >= 0 then
        var start, end := Atoi(r[..i]), Atoi(r[i + 1..]);
        if start.Some? && end.Some? then Some((start.value, end.value)) else None
      else
        var v := Atoi(r);
        if v.Some? then Some((v.value, v.value)) else None
  }

  /** How parsePart64 reads a part, up to the loop that sets the bits. */
  function ReadPart(p: string, lo: int, hi: int): (r: Option<Part>)
    ensures r.Some? ==> InBounds(r.value, lo, hi) && 0 < r.value.step <= MAX_INT64
  {
    var i := Index(p, '/');
    var step := if i >= 0 then Atoi(p[i + 1..]) else Some(1);
    var range := ReadRange(if i >= 0 then p[..i] else p, lo, hi);
    if step.None? || step.value <= 0 || range.None? then None
    else
      var part := Part(range.value.0, range.value.1, step.value);
      if InBounds(part, lo, hi) then Some(part) else None
  }

  lemma ReadRangeExact(r: string, lo: int, hi: int, start: int, end: int)
    ensures ReadRange(r, lo, hi) == Some((start, end)) <==> IsRange(r, lo, hi, start, end)
  {
    hide Atoi;
    var i := Index(r, '-');
    if i >= 0 {
      assert IsDashed(r, r[..i], r[i + 1..]);
    }
    forall a, b | IsDashed(r, a, b)
      ensures r[..i] == a && r[i + 1..] == b && i >= 0
    {
      IndexAt(a, '-', b);
    }
  }

  /** A part is accepted exactly when the grammar derives it within bounds, and then in one way. */
  lemma ReadPartExact(p: string, lo: int, hi: int, part: Part)
    ensures ReadPart(p, lo, hi) == Some(part) <==> IsPart(p, lo, hi, part) && InBounds(part, lo, hi)
  {
    hide Atoi, IsRange, ReadRange;
    var i := Index(p, '/');
    if i >= 0 {
      assert IsStepped(p, p[..i], p[i + 1..]);
    }
    forall r, s | IsStepped(p, r, s)
      ensures i >= 0 && p[..i] == r && p[i + 1..] == s
    {
      IndexAt(r, '/', s);
    }
    ReadRangeExact(if i >= 0 then p[..i] else p, lo, hi, part.start, part.end);
  }

  // ---- the bits of one part -----------------------------------------------------------

  /** v, v + step, v + 2 * step, ... as far as end. */
  function Up(v: int, end: int, step: int): set<int>
    requires step > 0
    decreases end - v
  {
    if v > end then {} else {v} + Up(v + step, end, step)
  }

  /** v, v - d, v - 2 * d, ... as far as 0. */
  function Down(v: int, d: int): set<int>
    requires d > 0
    decreases v
  {
    if v < 0 then {} else {v} + Down(v - d, d)
  }

  predicate IsTerm(v: int, step: int, j: nat, u: int) { u == v + j * step }

  /** u is v + j * step for some j >= 0, and at most end. */
  ghost predicate InProgression(v: int, end: int, step: int, u: int)
  {
    u <= end && exists j: nat :: IsTerm(v, step, j, u)
  }

  lemma ProgressionStep(v: int, end: int, step: int, u: int)
    requires step > 0 && v <= end
    ensures InProgression(v, end, step, u) <==> u == v || InProgression(v + step, end, step, u)
  {
    if u == v {
      assert IsTerm(v, step, 0, u);
    }
    if j: nat :| IsTerm(v, step, j, u) && u != v {
      assert j * step == step + (j - 1) * step;
      assert IsTerm(v + step, step, j - 1, u);
    }
    var w := v + step;
    if j: nat :| IsTerm(w, step, j, u) {
      assert (j + 1) * step == step + j * step;
      assert IsTerm(v, step, j + 1, u);
    }
  }

  lemma ProgressionOver(v: int, end: int, step: int, u: int)
    requires step > 0 && v > end
    ensures !InProgression(v, end, step, u)
  {
    forall j: nat | IsTerm(v, step, j, u)
      ensures u > end
    {
      assert j * step >= 0;
    }
  }

  lemma {:induction false} UpIsProgression(v: int, end: int, step: int, u: int)
    requires step > 0
    ensures u in Up(v, end, step) <==> InProgression(v, end, step, u)
    decreases end - v
  {
    hide InProgression;
    if v <= end {
      ProgressionStep(v, end, step, u);
      UpIsProgression(v + step, end, step, u);
    } else {
      ProgressionOver(v, end, step, u);
    }
  }

  /** Go's addition on int: wraps around at 64 bits. */
  function WrappingAdd(a: int, b: int): int
  {
    if a + b > MAX_INT64 then a + b - TWO_TO_64 else a + b
  }

  /**
   The bits the loop of parsePart64 sets. When start + step overflows, the loop
   does not end: it comes back below start and walks down in steps of
   2^64 - 2 * step.
   */
  function PartBits(part: Part): set<int>
    requires 0 < part.step <= MAX_INT64
  {
    if part.start + part.step <= MAX_INT64 then Up(part.start, part.end, part.step)
    else Down(part.start, TWO_TO_64 - 2 * part.step)
  }

  /** The bits are the arithmetic progression exactly when start + 2 * step fits in 64 bits unsigned. */
  lemma PartBitsExact(part: Part, lo: int, hi: int)
    requires 0 <= lo && hi <= 63 && InBounds(part, lo, hi) && 0 < part.step <= MAX_INT64
    ensures PartBits(part) == Up(part.start, part.end, part.step) <==> part.start + 2 * part.step < TWO_TO_64
    ensures part.start in PartBits(part)
  {
    var d := TWO_TO_64 - 2 * part.step;
    if part.start + part.step > MAX_INT64 {
      assert Up(part.start, part.end, part.step) == {part.start};
      assert Down(part.start, d) == {part.start} + Down(part.start - d, d);
      assert part.start - d >= 0 ==> part.start - d in Down(part.start - d, d);
    }
  }

  lemma {:induction false} DownWithin(v: int, d: int, u: int)
    requires d > 0 && u in Down(v, d)
    ensures 0 <= u <= v
    decreases v
  {
    if v >= 0 && u != v {
      DownWithin(v - d, d, u);
    }
  }

  lemma {:induction false} UpWithin(v: int, end: int, step: int, u: int)
    requires step > 0 && u in Up(v, end, step)
    ensures v <= u <= end
    decreases end - v
  {
    if v <= end && u != v {
      UpWithin(v + step, end, step, u);
    }
  }

  /** No bit lies above hi, and none below 0. */
  lemma PartBitsBelow(part: Part, lo: int, hi: int, u: int)
    requires 0 <= lo && hi <= 63 && InBounds(part, lo, hi) && 0 < part.step <= MAX_INT64
    requires u in PartBits(part)
    ensures 0 <= u <= hi
  {
    if part.start + part.step <= MAX_INT64 {
      UpWithin(part.start, part.end, part.step, u);
    } else {
      DownWithin(part.start, TWO_TO_64 - 2 * part.step, u);
    }
  }

  function PartMask(p: string, lo: int, hi: int): Option<set<int>>
  {
    var part := ReadPart(p, lo, hi);
    if part.None? then None else Some(PartBits(part.value))
  }

  /** 1 << uint(v) on a 64-bit word: a shift by 64 or more, or by a negative int, gives 0. */
  function BitAt(v: int): set<int>
  {
    if 0 <= v < 64 then {v} else {}
  }

  /** Where the bit loop stands when start + step overflows. */
  ghost predicate Wrapping(part: Part, v: int, mask: set<int>)
    requires 0 < part.step <= MAX_INT64
  {
    var d := TWO_TO_64 - 2 * part.step;
    || (0 <= v <= part.start && mask + Down(v, d) == Down(part.start, d))
    || (v < -1000 && 0 <= v - part.step + TWO_TO_64 <= part.start
        && mask + Down(v - part.step + TWO_TO_64 - d, d) == Down(part.start, d))
    || (-d <= v < 0 && d <= 200 && mask == Down(part.start, d))
    || (part.end < v && mask == Down(part.start, d))
  }

  function WrapRank(part: Part, v: int): int
  {
    if v > part.end then 0
    else if v >= 0 then 2 * v + 4
    else if v < -1000 then 2 * (v - part.step + TWO_TO_64) + 3
    else 1
  }

  lemma WrapStep(part: Part, v: int, mask: set<int>)
    requires 0 <= part.start <= part.end <= 63 && 0 < part.step <= MAX_INT64
    requires part.start + part.step > MAX_INT64
    requires Wrapping(part, v, mask) && v <= part.end
    ensures Wrapping(part, WrappingAdd(v, part.step), mask + BitAt(v))
    ensures 0 <= WrapRank(part, WrappingAdd(v, part.step)) < WrapRank(part, v)
  {
    var d := TWO_TO_64 - 2 * part.step;
    if v >= 0 {
      assert mask + BitAt(v) + Down(v - d, d) == Down(part.start, d);
    }
  }

  method ParsePart64(part: string, lo: int, hi: int) returns (r: Option<set<int>>)
    requires 0 <= lo <= hi <= 63
    ensures r == PartMask(part, lo, hi)
  {
    hide Atoi, Wrapping;
    var step := 1;
    var rest := part;
    var idx := Index(part, '/');
    if idx >= 0 {
      var s := Atoi(part[idx + 1..]);
      if s.None? || s.value <= 0 {
        return None;
      }
      step := s.value;
      rest := part[..idx];
    }

    var start, end := lo, hi;
    if rest != "*" {
      var dash := Index(rest, '-');
      if dash >= 0 {
        var first := Atoi(rest[..dash]);
        if first.None? {
          return None;
        }
        var last := Atoi(rest[dash + 1..]);
        if last.None? {
          return None;
        }
        start, end := first.value, last.value;
      } else {
        var v := Atoi(rest);
        if v.None? {
          return None;
        }
        start, end := v.value, v.value;
      }
    }

    if start < lo || end > hi || start > end {
      return None;
    }
    assert ReadPart(part, lo, hi) == Some(Part(start, end, step));
    var mask := SetBits(Part(start, end, step));
    return Some(mask);
  }

  /** The loop that closes parsePart64. */
  method SetBits(part: Part) returns (mask: set<int>)
    requires 0 <= part.start <= part.end <= 63 && 0 < part.step <= MAX_INT64
    ensures mask == PartBits(part)
  {
    hide Wrapping;
    mask := {};
    var v := part.start;
    ghost var wraps := part.start + part.step > MAX_INT64;
    assert wraps ==> Wrapping(part, v, mask) by { WrapBegins(part); }
    while v <= part.end
      invariant !wraps ==> 0 <= v && mask + Up(v, part.end, part.step) == Up(part.start, part.end, part.step)
      invariant wraps ==> Wrapping(part, v, mask)
      decreases if wraps then WrapRank(part, v) else part.end - v
    {
      if wraps {
        WrapStep(part, v, mask);
      }
      mask := mask + BitAt(v);
      v := WrappingAdd(v, part.step);
    }
    if wraps {
      WrapEnds(part, v, mask);
    }
  }

  lemma WrapBegins(part: Part)
    requires 0 <= part.start && 0 < part.step <= MAX_INT64
    ensures Wrapping(part, part.start, {})
  {
  }

  lemma WrapEnds(part: Part, v: int, mask: set<int>)
    requires 0 <= part.start <= part.end && 0 < part.step <= MAX_INT64
    requires Wrapping(part, v, mask) && v > part.end
    ensures mask == Down(part.start, TWO_TO_64 - 2 * part.step)
  {
  }

  // ---- one field ------------------------------------------------------------------------

  /** The union of the masks of the parts, unless one of them is rejected. */
  function UnionMask(parts: seq<string>, lo: int, hi: int): Option<set<int>>
  {
    if parts == [] then Some({})
    else
      var init, last := UnionMask(parts[..|parts| - 1], lo, hi), PartMask(parts[|parts| - 1], lo, hi);
      if init.Some? && last.Some? then Some(init.value + last.value) else None
  }

  function FieldMask(field: string, lo: int, hi: int): Option<set<int>>
  {
    UnionMask(Split(field, ','), lo, hi)
  }

  lemma UnionOfOne(p: string, lo: int, hi: int)
    ensures UnionMask([p], lo, hi) == PartMask(p, lo, hi)
  {
    hide PartMask;
    assert [p][..0] == [];
    assert UnionMask([p][..0], lo, hi) == Some({});
    if PartMask(p, lo, hi).Some? {
      assert {} + PartMask(p, lo, hi).value == PartMask(p, lo, hi).value;
    }
  }

  lemma {:induction false} UnionMaskExact(parts: seq<string>, lo: int, hi: int)
    ensures UnionMask(parts, lo, hi).Some? <==> forall p :: p in parts ==> PartMask(p, lo, hi).Some?
    ensures UnionMask(parts, lo, hi).Some? ==>
              forall v :: v in UnionMask(parts, lo, hi).value <==>
                          exists p :: p in parts && v in PartMask(p, lo, hi).value
  {
    hide PartMask;
    if parts != [] {
      var init, last := parts[..|parts| - 1], parts[|parts| - 1];
      UnionMaskExact(init, lo, hi);
      assert forall p :: p in parts <==> p in init || p == last;
    }
  }

  /** The bits a field may set: some part derived by the grammar sets them. */
  ghost predicate FieldSets(field: string, lo: int, hi: int, v: int)
  {
    exists p, part :: p in Split(field, ',') && IsPart(p, lo, hi, part) && SetsBit(part, lo, hi, v)
  }

  predicate SetsBit(part: Part, lo: int, hi: int, v: int)
  {
    InBounds(part, lo, hi) && 0 < part.step <= MAX_INT64 && v in PartBits(part)
  }

  ghost predicate Acceptable(p: string, lo: int, hi: int)
  {
    exists part :: IsPart(p, lo, hi, part) && InBounds(part, lo, hi)
  }

  lemma PartMaskExact(p: string, lo: int, hi: int)
    ensures PartMask(p, lo, hi).Some? <==> Acceptable(p, lo, hi)
    ensures forall part :: IsPart(p, lo, hi, part) && InBounds(part, lo, hi) ==>
                             0 < part.step <= MAX_INT64 && PartMask(p, lo, hi) == Some(PartBits(part))
  {
    hide IsPart, PartBits, InBounds;
    var r := ReadPart(p, lo, hi);
    if r.Some? {
      ReadPartExact(p, lo, hi, r.value);
    }
    forall part | IsPart(p, lo, hi, part) && InBounds(part, lo, hi)
      ensures r == Some(part)
    {
      ReadPartExact(p, lo, hi, part);
    }
  }

  /**
   A field is accepted exactly when every comma part is well-formed, in range
   and has a positive step; its bits are then those of its parts.
   */
  lemma FieldMaskExact(field: string, lo: int, hi: int)
    ensures FieldMask(field, lo, hi).Some? <==> forall p :: p in Split(field, ',') ==> Acceptable(p, lo, hi)
    ensures FieldMask(field, lo, hi).Some? ==>
              forall v :: v in FieldMask(field, lo, hi).value <==> FieldSets(field, lo, hi, v)
  {
    hide IsPart, PartBits, PartMask, Acceptable, InBounds;
    var parts := Split(field, ',');
    UnionMaskExact(parts, lo, hi);
    forall p | p in parts
      ensures PartMask(p, lo, hi).Some? <==> Acceptable(p, lo, hi)
    {
      PartMaskExact(p, lo, hi);
    }
    if FieldMask(field, lo, hi).Some? {
      forall v
        ensures v in FieldMask(field, lo, hi).value <==> FieldSets(field, lo, hi, v)
      {
        FieldBitExact(field, lo, hi, v);
      }
    }
  }

  lemma FieldBitExact(field: string, lo: int, hi: int, v: int)
    requires FieldMask(field, lo, hi).Some?
    ensures v in FieldMask(field, lo, hi).value <==> FieldSets(field, lo, hi, v)
  {
    hide IsPart, PartBits, PartMask, InBounds;
    var parts := Split(field, ',');
    UnionMaskExact(parts, lo, hi);
    if v in FieldMask(field, lo, hi).value {
      var p :| p in parts && v in PartMask(p, lo, hi).value;
      PartMaskExact(p, lo, hi);
      var part :| IsPart(p, lo, hi, part) && InBounds(part, lo, hi);
      assert SetsBit(part, lo, hi, v);
    }
    if FieldSets(field, lo, hi, v) {
      var p, part :| p in parts && IsPart(p, lo, hi, part) && SetsBit(part, lo, hi, v);
      PartMaskExact(p, lo, hi);
    }
  }

  /** An accepted field sets at least one bit from lo on, and only bits from 0 to hi. */
  lemma {:induction false} UnionMaskBounds(parts: seq<string>, lo: int, hi: int)
    requires 0 <= lo && hi <= 63 && parts != [] && UnionMask(parts, lo, hi).Some?
    ensures MaskWithin(UnionMask(parts, lo, hi).value, lo, hi)
  {
    hide PartMask, MaskWithin;
    var init, last := parts[..|parts| - 1], parts[|parts| - 1];
    PartMaskBounds(last, lo, hi);
    if init != [] {
      UnionMaskBounds(init, lo, hi);
      MaskUnion(UnionMask(init, lo, hi).value, PartMask(last, lo, hi).value, lo, hi);
    } else {
      assert UnionMask(parts, lo, hi).value == PartMask(last, lo, hi).value;
    }
  }

  lemma MaskUnion(a: set<int>, b: set<int>, lo: int, hi: int)
    requires MaskWithin(a, lo, hi) && MaskWithin(b, lo, hi)
    ensures MaskWithin(a + b, lo, hi)
  {
    var v :| v in a && lo <= v;
    assert v in a + b;
  }

  lemma PartMaskBounds(p: string, lo: int, hi: int)
    requires 0 <= lo && hi <= 63 && PartMask(p, lo, hi).Some?
    ensures MaskWithin(PartMask(p, lo, hi).value, lo, hi)
  {
    hide PartBits, ReadPart;
    var part := ReadPart(p, lo, hi).value;
    PartBitsExact(part, lo, hi);
    forall v | v in PartMask(p, lo, hi).value
      ensures 0 <= v <= hi
    {
      PartBitsBelow(part, lo, hi, v);
    }
  }

  /** parseField64. Its last check, for an empty mask, never fires. */
  method ParseField64(field: string, lo: int, hi: int) returns (r: Option<set<int>>)
    requires 0 <= lo <= hi <= 63
    ensures r == FieldMask(field, lo, hi)
    ensures r.Some? ==> MaskWithin(r.value, lo, hi)
  {
    hide PartMask;
    var mask: set<int> := {};
    var parts := Split(field, ',');
    for i := 0 to |parts|
      invariant UnionMask(parts[..i], lo, hi) == Some(mask)
    {
      var bits := ParsePart64(parts[i], lo, hi);
      assert parts[..i + 1][..i] == parts[..i];
      if bits.None? {
        UnionMaskExact(parts, lo, hi);
        return None;
      }
      mask := mask + bits.value;
    }
    assert parts[..|parts|] == parts;
    UnionMaskBounds(parts, lo, hi);
    if mask == {} {
      return None;
    }
    return Some(mask);
  }

  /** Converting a 64-bit mask to a narrower word keeps its low bits only. */
  function Narrow(mask: set<int>, width: int): set<int>
  {
    set v | v in mask && v < width
  }

  method ParseField(field: string, lo: int, hi: int, width: int) returns (r: Option<set<int>>)
    requires 0 <= lo <= hi < width <= 64
    ensures r == FieldMask(field, lo, hi)
    ensures r.Some? ==> MaskWithin(r.value, lo, hi)
  {
    var v64 := ParseField64(field, lo, hi);
    if v64.None? {
      return None;
    }
    assert Narrow(v64.value, width) == v64.value;
    return Some(Narrow(v64.value, width));
  }

  // ---- the day-of-week field ------------------------------------------------------------

  /** strings.HasSuffix(p, "-7"). */
  predicate EndsInSeven(p: string): (r: bool)
    ensures r ==> |p| >= 2
  {
    |p| >= 2 && p[|p| - 2..] == "-7"
  }

  function NormalRange(r: string): (n: string)
  {
    if r == "7" then "0"
    else if EndsInSeven(r) then r[..|r| - 1] + "6"
    else r
  }

  /** What normaliseDOW makes of one comma part. */
  function NormalPart(p: string): string
  {
    var i := Index(p, '/');
    if i >= 0 then NormalRange(p[..i]) + p[i..] else NormalRange(p)
  }

  function NormalParts(parts: seq<string>): (r: seq<string>)
    ensures |r| == |parts| && forall i :: 0 <= i < |parts| ==> r[i] == NormalPart(parts[i])
  {
    seq(|parts|, i requires 0 <= i < |parts| => NormalPart(parts[i]))
  }

  /** The three branches of the loop, for a part split at its first slash. */
  lemma RewrittenPart(part: string, p: string, step: string)
    requires var i := Index(part, '/'); if i >= 0 then p == part[..i] && step == part[i..] else p == part && step == ""
    ensures NormalPart(part)
            == if p == "7" then "0" + step
               else if EndsInSeven(p) then p[..|p| - 1] + "6" + step
               else p + step
  {
    hide EndsInSeven;
    assert NormalRange(p) + "" == NormalRange(p);
  }

  /** normaliseDOW: rewrites the comma parts in place. */
  method NormaliseDOW(field: string) returns (r: string)
    ensures r == Join(NormalParts(Split(field, ',')), ',')
  {
    hide Split, Join, Index, EndsInSeven, NormalParts, NormalPart, NormalRange;
    var fields := Split(field, ',');
    var parts := new string[|fields|](i requires 0 <= i < |fields| => fields[i]);
    for i := 0 to parts.Length
      invariant forall j :: 0 <= j < i ==> parts[j] == NormalPart(fields[j])
      invariant forall j :: i <= j < parts.Length ==> parts[j] == fields[j]
    {
      var p, step := parts[i], "";
      var idx := Index(p, '/');
      if idx >= 0 {
        step := p[idx..];
        p := p[..idx];
      }
      RewrittenPart(fields[i], p, step);
      if p == "7" {
        parts[i] := "0" + step;
      } else if EndsInSeven(p) {
        parts[i] := p[..|p| - 1] + "6" + step;
      } else {
        parts[i] := p + step;
      }
    }
    assert parts[..] == NormalParts(fields);
    r := Join(parts[..], ',');
  }

  function DOWMask(field: string): Option<set<int>>
  {
    UnionMask(NormalParts(Split(field, ',')), 0, 6)
  }

  method ParseDOW(field: string) returns (r: Option<set<int>>)
    ensures r == DOWMask(field)
    ensures r.Some? ==> MaskWithin(r.value, 0, 6)
  {
    var normalised := NormaliseDOW(field);
    NormalPartsStayApart(Split(field, ','));
    r := ParseField(normalised, 0, 6, 8);
  }

  lemma NormalPartHasNoComma(p: string)
    requires ',' !in p
    ensures ',' !in NormalPart(p)
  {
  }

  lemma NormalPartsStayApart(parts: seq<string>)
    requires parts != [] && forall p :: p in parts ==> ',' !in p
    ensures Split(Join(NormalParts(parts), ','), ',') == NormalParts(parts)
  {
    hide Split, Join, NormalPart;
    forall p | p in NormalParts(parts)
      ensures ',' !in p
    {
      var i :| 0 <= i < |parts| && p == NormalPart(parts[i]);
      NormalPartHasNoComma(parts[i]);
    }
    SplitJoin(NormalParts(parts), ',');
  }

  lemma ReadZero()
    ensures Atoi("0") == Some(0)
  {
    AtoiItoa(0);
    assert Itoa(0) == "0";
  }

  lemma ReadSix()
    ensures Atoi("6") == Some(6)
  {
    AtoiItoa(6);
    assert Itoa(6) == "6";
  }

  lemma SundayBit(step: int)
    requires 0 < step <= MAX_INT64
    ensures PartBits(Part(0, 0, step)) == {0}
  {
    assert Up(0, 0, step) == {0} + Up(step, 0, step);
  }

  /** A standalone 7, with or without a step, means Sunday. */
  lemma StandaloneSevenIsSunday(s: string)
    ensures PartMask(NormalPart("7"), 0, 6) == Some({0})
    ensures Atoi(s).Some? && Atoi(s).value > 0 ==> PartMask(NormalPart("7" + ['/'] + s), 0, 6) == Some({0})
  {
    hide Atoi, PartBits;
    ReadZero();
    assert Index("0", '-') == -1 && Index("0", '/') == -1 && Index("7", '/') == -1;
    SundayBit(1);
    assert ReadPart("0", 0, 6) == Some(Part(0, 0, 1));
    if Atoi(s).Some? && Atoi(s).value > 0 {
      IndexAt("7", '/', s);
      IndexAt("0", '/', s);
      assert ("7" + ['/'] + s)[1..] == ['/'] + s;
      assert NormalPart("7" + ['/'] + s) == "0" + ['/'] + s;
      SundayBit(Atoi(s).value);
      assert ReadPart("0" + ['/'] + s, 0, 6) == Some(Part(0, 0, Atoi(s).value));
    }
  }

  /** p is the range a-7, plain or with the step. */
  predicate IsRangeToSeven(p: string, a: string, step: int)
  {
    && '-' !in a && '/' !in a
    && (if p == a + "-7" then step == 1
        else step > 0 && |p| > |a| + 3 && p[..|a| + 3] == a + "-7/" && Atoi(p[|a| + 3..]) == Some(step))
  }

  /** What the range says with 7 read as Sunday: the progression to 7, with 7 folded onto 0. */
  function FoldedToSunday(d: int, step: int): set<int>
    requires step > 0
  {
    set u | u in Up(d, 7, step) :: u % 7
  }

  lemma RangeToSevenIsToSix(p: string, a: string, step: int)
    requires IsRangeToSeven(p, a, step)
    ensures NormalPart(p) == if p == a + "-7" then a + "-6" else a + "-6/" + p[|a| + 3..]
  {
    hide Atoi;
    var r := a + "-7";
    assert EndsInSeven(r) && r != "7" && '/' !in r;
    assert r[..|r| - 1] + "6" == a + "-6";
    if p != r {
      var t := p[|a| + 3..];
      assert p == r + ['/'] + t;
      IndexAt(r, '/', t);
      assert a + "-6" + p[|r|..] == a + "-6/" + t;
    }
  }

  lemma ToSixRead(a: string, d: int)
    requires '-' !in a && '/' !in a && Atoi(a) == Some(d)
    ensures ReadRange(a + "-6", 0, 6) == Some((d, 6)) && '/' !in a + "-6"
  {
    hide Atoi;
    ReadSix();
    assert a + "-6" == a + ['-'] + "6";
    IndexAt(a, '-', "6");
    assert |a + "-6"| >= 2;
  }

  lemma PlainPartRead(r: string, part: Part)
    requires '/' !in r && part.step == 1 && ReadRange(r, 0, 6) == Some((part.start, part.end))
    ensures ReadPart(r, 0, 6) == if InBounds(part, 0, 6) then Some(part) else None
  {
    hide Atoi, ReadRange;
  }

  lemma SteppedPartRead(r: string, t: string, part: Part)
    requires '/' !in r && Atoi(t) == Some(part.step) && part.step > 0 && ReadRange(r, 0, 6) == Some((part.start, part.end))
    ensures ReadPart(r + ['/'] + t, 0, 6) == if InBounds(part, 0, 6) then Some(part) else None
  {
    hide Atoi, ReadRange;
    IndexAt(r, '/', t);
  }

  /** A range from d to 7 is read as the range from d to 6, which is no range from 7 on. */
  lemma RangeToSevenRead(p: string, a: string, step: int, d: nat)
    requires IsRangeToSeven(p, a, step) && Atoi(a) == Some(d)
    ensures ReadPart(NormalPart(p), 0, 6) == if d <= 6 then Some(Part(d, 6, step)) else None
  {
    hide Atoi, ReadRange, ReadPart, NormalPart;
    RangeToSevenIsToSix(p, a, step);
    ToSixRead(a, d);
    if p == a + "-7" {
      PlainPartRead(a + "-6", Part(d, 6, step));
    } else {
      var t := p[|a| + 3..];
      assert a + "-6/" + t == a + "-6" + ['/'] + t;
      SteppedPartRead(a + "-6", t, Part(d, 6, step));
    }
  }

  lemma RemainderUnique(x: int, step: int, q: int, r: int)
    requires x == step * q + r && 0 <= r < step
    ensures x % step == r
  {
    var q', r' := x / step, x % step;
    assert step * (q - q') == r' - r;
    if q > q' {
      ProductAtLeast(q - q', step);
    } else if q < q' {
      assert step * (q' - q) == r - r';
      ProductAtLeast(q' - q, step);
    }
  }

  lemma ProductAtLeast(k: int, step: int)
    requires k >= 1 && step > 0
    ensures step * k >= step
  {
  }

  lemma RemainderOfNext(x: int, step: int)
    requires step > 0
    ensures (x - step) % step == x % step
  {
    var q, r := x / step, x % step;
    assert x - step == step * (q - 1) + r;
    RemainderUnique(x - step, step, q - 1, r);
  }

  lemma {:induction false} UpMembers(v: int, end: int, step: int, u: int)
    requires step > 0
    ensures u in Up(v, end, step) <==> v <= u <= end && (u - v) % step == 0
    decreases end - v
  {
    if v <= end {
      UpMembers(v + step, end, step, u);
      RemainderOfNext(u - v, step);
      RemainderUnique(0, step, 0, 0);
      if v < u < v + step {
        RemainderUnique(u - v, step, 0, u - v);
      }
    }
  }

  /** Folding loses nothing exactly when the range starts on Sunday or does not reach 7. */
  lemma FoldingLosesSunday(d: nat, step: int)
    requires d <= 6 && step > 0
    ensures Up(d, 6, step) == FoldedToSunday(d, step) <==> d == 0 || (7 - d) % step != 0
  {
    hide Up;
    forall u
      ensures u in Up(d, 7, step) <==> d <= u <= 7 && (u - d) % step == 0
      ensures u in Up(d, 6, step) <==> d <= u <= 6 && (u - d) % step == 0
    {
      UpMembers(d, 7, step, u);
      UpMembers(d, 6, step, u);
    }
    var folded := FoldedToSunday(d, step);
    if (7 - d) % step == 0 {
      assert 7 in Up(d, 7, step) && 7 % 7 in folded;
      if d == 0 {
        assert 0 in Up(d, 6, step);
      }
    }
    forall u | u in Up(d, 6, step)
      ensures u in folded
    {
      assert u in Up(d, 7, step) && u % 7 == u;
    }
    if d == 0 || (7 - d) % step != 0 {
      forall w | w in folded
        ensures w in Up(d, 6, step)
      {
        var u :| u in Up(d, 7, step) && w == u % 7;
      }
      assert Up(d, 6, step) == folded;
    }
  }

  /**
   7 means Sunday at the end of a range, plain or stepped, exactly when the range
   starts on Sunday or steps over 7 (and the step does not overflow the bit loop);
   a range that starts at 7 or later is rejected.
   */
  lemma RangeToSevenIsSundayExactly(p: string, a: string, step: int, d: nat)
    requires IsRangeToSeven(p, a, step) && Atoi(a) == Some(d)
    ensures PartMask(NormalPart(p), 0, 6).Some? <==> d <= 6
    ensures d <= 6 ==>
              (PartMask(NormalPart(p), 0, 6) == Some(FoldedToSunday(d, step))
               <==> d + 2 * step < TWO_TO_64 && (d == 0 || (7 - d) % step != 0))
  {
    hide Atoi, Up, PartBits, FoldedToSunday, NormalPart;
    RangeToSevenRead(p, a, step, d);
    if d <= 6 {
      assert 0 < step <= MAX_INT64 by { StepFits(p, a, step); }
      PartBitsExact(Part(d, 6, step), 0, 6);
      FoldingLosesSunday(d, step);
      if d + 2 * step >= TWO_TO_64 {
        OverflowIsNoFolding(d, step);
      }
    }
  }

  lemma StepFits(p: string, a: string, step: int)
    requires IsRangeToSeven(p, a, step)
    ensures 0 < step <= MAX_INT64
  {
    hide IsSpace;
  }

  /** A step that overflows leaves the start alone in both readings, but sets more bits. */
  lemma OverflowIsNoFolding(d: nat, step: int)
    requires d <= 6 && step <= MAX_INT64 && d + 2 * step >= TWO_TO_64
    ensures PartBits(Part(d, 6, step)) != FoldedToSunday(d, step)
  {
    PartBitsExact(Part(d, 6, step), 0, 6);
    assert Up(d, 7, step) == {d} && Up(d, 6, step) == {d};
    forall w | w in FoldedToSunday(d, step)
      ensures w == d
    {
      var u :| u in Up(d, 7, step) && w == u % 7;
    }
    assert d % 7 in FoldedToSunday(d, step);
    assert FoldedToSunday(d, step) == {d};
  }

  /** Monday to Sunday, written 1-7, leaves out Sunday; 7-7 is an error. */
  lemma MondayToSundayHasNoSunday()
    ensures DOWMask("1-7") == Some({1, 2, 3, 4, 5, 6})
    ensures FoldedToSunday(1, 1) == {0, 1, 2, 3, 4, 5, 6}
    ensures DOWMask("7-7") == None
  {
    hide Atoi, ReadPart, NormalPart;
    ReadDigits();
    assert IsRangeToSeven("1-7", "1", 1) && IsRangeToSeven("7-7", "7", 1);
    RangeToSevenRead("1-7", "1", 1, 1);
    RangeToSevenRead("7-7", "7", 1, 7);
    SplitNoSeparator("1-7", ',');
    SplitNoSeparator("7-7", ',');
    OnePart("1-7");
    OnePart("7-7");
    forall u
      ensures u in Up(1, 6, 1) <==> 1 <= u <= 6
      ensures u in Up(1, 7, 1) <==> 1 <= u <= 7
    {
      UpMembers(1, 6, 1, u);
      UpMembers(1, 7, 1, u);
    }
    assert PartBits(Part(1, 6, 1)) == {1, 2, 3, 4, 5, 6};
    EachDayFolds();
  }

  lemma EachDayFolds()
    ensures FoldedToSunday(1, 1) == {0, 1, 2, 3, 4, 5, 6}
  {
    hide Up;
    forall u
      ensures u in Up(1, 7, 1) <==> 1 <= u <= 7
    {
      UpMembers(1, 7, 1, u);
    }
    forall w | 0 <= w <= 6
      ensures w in FoldedToSunday(1, 1)
    {
      var u := if w == 0 then 7 else w;
      assert u in Up(1, 7, 1) && u % 7 == w;
    }
  }

  lemma ReadDigits()
    ensures Atoi("1") == Some(1) && Atoi("7") == Some(7)
  {
    AtoiItoa(1);
    AtoiItoa(7);
    assert Itoa(1) == "1" && Itoa(7) == "7";
  }

  /** A weekday field of one part. */
  lemma OnePart(p: string)
    requires Split(p, ',') == [p]
    ensures DOWMask(p) == PartMask(NormalPart(p), 0, 6)
  {
    hide Split, PartMask, NormalPart, UnionMask;
    assert NormalParts([p]) == [NormalPart(p)];
    UnionOfOne(NormalPart(p), 0, 6);
  }

  // ---- the whole spec -----------------------------------------------------------------------

  function ParseSpec(spec: string): Option<Schedule>
  {
    var f := Fields(spec);
    if |f| != 5 then None
    else
      var minute, hour, dom := FieldMask(f[0], 0, 59), FieldMask(f[1], 0, 23), FieldMask(f[2], 1, 31);
      var month, dow := FieldMask(f[3], 1, 12), DOWMask(f[4]);
      if minute.None? || hour.None? || dom.None? || month.None? || dow.None? then None
      else Some(Schedule(minute.value, hour.value, dom.value, month.value, dow.value, f[2] == "*", f[4] == "*"))
  }

  /** Weekday v is set by a part of the word, read with a standalone 7 as 0 and a range end 7 as 6. */
  ghost predicate WeekdaySets(word: string, v: int)
  {
    exists p, part :: p in Split(word, ',') && IsPart(NormalPart(p), 0, 6, part) && SetsBit(part, 0, 6, v)
  }

  ghost predicate FieldReadable(word: string, lo: int, hi: int)
  {
    forall p :: p in Split(word, ',') ==> Acceptable(p, lo, hi)
  }

  ghost predicate WeekdayReadable(word: string)
  {
    forall p :: p in Split(word, ',') ==> Acceptable(NormalPart(p), 0, 6)
  }

  /** Five words, each a readable field of its own range. */
  ghost predicate Readable(w: seq<string>)
  {
    && |w| == 5
    && FieldReadable(w[0], 0, 59) && FieldReadable(w[1], 0, 23) && FieldReadable(w[2], 1, 31) && FieldReadable(w[3], 1, 12)
    && WeekdayReadable(w[4])
  }

  /** Each mask has exactly the bits of its own word, and the wildcard flags say which day words are a star. */
  ghost predicate ReadsAs(w: seq<string>, s: Schedule)
    requires |w| == 5
  {
    && (forall v :: v in s.minute <==> FieldSets(w[0], 0, 59, v))
    && (forall v :: v in s.hour <==> FieldSets(w[1], 0, 23, v))
    && (forall v :: v in s.dom <==> FieldSets(w[2], 1, 31, v))
    && (forall v :: v in s.month <==> FieldSets(w[3], 1, 12, v))
    && (forall v :: v in s.dow <==> WeekdaySets(w[4], v))
    && (s.wildcardDOM <==> w[2] == "*") && (s.wildcardDOW <==> w[4] == "*")
  }

  lemma WeekdayMaskExact(word: string)
    ensures DOWMask(word).Some? <==> WeekdayReadable(word)
    ensures DOWMask(word).Some? ==> forall v :: v in DOWMask(word).value <==> WeekdaySets(word, v)
  {
    hide IsPart, PartBits, PartMask, Acceptable, InBounds, Split, NormalPart, UnionMask;
    var words := Split(word, ',');
    var parts := NormalParts(words);
    UnionMaskExact(parts, 0, 6);
    forall p
      ensures p in parts <==> exists q :: q in words && p == NormalPart(q)
    {
      PartOfWords(words, p);
    }
    forall p
      ensures PartMask(p, 0, 6).Some? <==> Acceptable(p, 0, 6)
    {
      PartMaskExact(p, 0, 6);
    }
    if DOWMask(word).Some? {
      forall v
        ensures v in DOWMask(word).value <==> WeekdaySets(word, v)
      {
        WeekdayBitExact(word, v);
      }
    }
  }

  lemma PartOfWords(words: seq<string>, p: string)
    ensures p in NormalParts(words) <==> exists q :: q in words && p == NormalPart(q)
  {
    hide NormalPart;
    if p in NormalParts(words) {
      var i :| 0 <= i < |words| && p == NormalParts(words)[i];
      assert words[i] in words;
    }
    if q :| q in words && p == NormalPart(q) {
      var i :| 0 <= i < |words| && q == words[i];
      assert NormalParts(words)[i] == p;
    }
  }

  lemma WeekdayBitExact(word: string, v: int)
    requires DOWMask(word).Some?
    ensures v in DOWMask(word).value <==> WeekdaySets(word, v)
  {
    hide IsPart, PartBits, PartMask, InBounds, Split, NormalPart;
    var words := Split(word, ',');
    var parts := NormalParts(words);
    UnionMaskExact(parts, 0, 6);
    if v in DOWMask(word).value {
      var p :| p in parts && v in PartMask(p, 0, 6).value;
      PartOfWords(words, p);
      var q :| q in words && p == NormalPart(q);
      PartMaskExact(p, 0, 6);
      var part :| IsPart(p, 0, 6, part) && InBounds(part, 0, 6);
      assert SetsBit(part, 0, 6, v);
    }
    if WeekdaySets(word, v) {
      var q, part :| q in words && IsPart(NormalPart(q), 0, 6, part) && SetsBit(part, 0, 6, v);
      PartOfWords(words, NormalPart(q));
      PartMaskExact(NormalPart(q), 0, 6);
    }
  }

  lemma SpecReads(spec: string)
    ensures ParseSpec(spec).Some? <==> Readable(Fields(spec))
    ensures ParseSpec(spec).Some? ==> ReadsAs(Fields(spec), ParseSpec(spec).value)
  {
    hide Fields, FieldMask, DOWMask, FieldSets, WeekdaySets, Acceptable, Split, NormalPart;
    var f := Fields(spec);
    if |f| == 5 {
      FieldMaskExact(f[0], 0, 59);
      FieldMaskExact(f[1], 0, 23);
      FieldMaskExact(f[2], 1, 31);
      FieldMaskExact(f[3], 1, 12);
      WeekdayMaskExact(f[4]);
    }
  }

  /** When a spec fires, said of its five words. */
  ghost predicate FiresAt(w: seq<string>, year: int, month: int, day: int, weekday: int, hour: int, minute: int)
    requires |w| == 5
  {
    && FieldSets(w[0], 0, 59, minute) && FieldSets(w[1], 0, 23, hour) && FieldSets(w[3], 1, 12, month)
    && (if w[2] != "*" && w[4] != "*" then FieldSets(w[2], 1, 31, day) || WeekdaySets(w[4], weekday)
        else (w[2] == "*" || FieldSets(w[2], 1, 31, day)) && (w[4] == "*" || WeekdaySets(w[4], weekday)))
  }

  /** A parsed schedule matches minute t of the calendar exactly when its five words ask for it. */
  lemma MatchesByWords(w: seq<string>, s: Schedule, t: int)
    requires |w| == 5 && ReadsAs(w, s)
    ensures var date := Calendar.Civil(t / 1440);
            Matches(s, t)
            <==> FiresAt(w, date.year, date.month, date.day, Calendar.Weekday(t / 1440), t % 1440 / 60, t % 60)
  {
    hide Calendar.Civil, Calendar.Weekday, FieldSets, WeekdaySets;
    assert MinuteOf(t) == t % 60;
  }

  /**
   Parse: a spec is accepted exactly when it is five readable words; each mask then
   has exactly the bits of its own word, and can be searched.
   */
  method Parse(spec: string) returns (r: Option<Schedule>)
    ensures r.Some? <==> Readable(Fields(spec))
    ensures r.Some? ==> ReadsAs(Fields(spec), r.value)
    ensures r.Some? ==> Parsed(r.value)
    ensures r == ParseSpec(spec)
  {
    hide FieldMask, DOWMask, MaskWithin, Readable, ReadsAs;
    SpecReads(spec);
    var fields := GoStrings.Fields(spec);
    if |fields| != 5 {
      return None;
    }
    var minute := ParseField64(fields[0], 0, 59);
    if minute.None? {
      return None;
    }
    var hour := ParseField(fields[1], 0, 23, 32);
    if hour.None? {
      return None;
    }
    var dom := ParseField(fields[2], 1, 31, 32);
    if dom.None? {
      return None;
    }
    var month := ParseField(fields[3], 1, 12, 16);
    if month.None? {
      return None;
    }
    var dow := ParseDOW(fields[4]);
    if dow.None? {
      return None;
    }
    return Some(Schedule(minute.value, hour.value, dom.value, month.value, dow.value, fields[2] == "*", fields[4] == "*"));
  }

  // ---- simple words -----------------------------------------------------------------------------

  /** A word that is one number sets that number. */
  lemma NumberSetsItself(w: string, v: int, lo: int, hi: int)
    requires Atoi(w) == Some(v) && '/' !in w && '-' !in w && w != "*" && 0 <= lo <= v <= hi <= 63
    ensures PartMask(w, lo, hi) == Some({v})
  {
    hide Atoi, ReadPart, PartMask;
    assert ReadPart(w, lo, hi) == Some(Part(v, v, 1)) by { NumberReadsItself(w, v, lo, hi); }
    MaskOf(w, Part(v, v, 1), lo, hi);
    assert Up(v + 1, v, 1) == {};
    assert Up(v, v, 1) == {v} + Up(v + 1, v, 1) == {v};
  }

  lemma NumberReadsItself(w: string, v: int, lo: int, hi: int)
    requires Atoi(w) == Some(v) && '/' !in w && '-' !in w && w != "*" && 0 <= lo <= v <= hi <= 63
    ensures ReadPart(w, lo, hi) == Some(Part(v, v, 1))
  {
    hide Atoi, ReadRange;
    NumberIsRange(w, v, lo, hi);
  }

  lemma NumberIsRange(w: string, v: int, lo: int, hi: int)
    requires Atoi(w) == Some(v) && '-' !in w && w != "*"
    ensures ReadRange(w, lo, hi) == Some((v, v))
  {
    hide Atoi;
  }

  lemma StarReadsAll(lo: int, hi: int)
    requires lo <= hi
    ensures ReadPart("*", lo, hi) == Some(Part(lo, hi, 1))
  {
    hide Atoi;
    assert Index("*", '/') == -1;
  }

  /** A star sets the whole range. */
  lemma StarSetsAll(lo: int, hi: int)
    requires 0 <= lo <= hi <= 63
    ensures PartMask("*", lo, hi).Some?
    ensures forall v :: v in PartMask("*", lo, hi).value <==> lo <= v <= hi
  {
    hide Up, ReadPart, PartMask;
    StarReadsAll(lo, hi);
    MaskOf("*", Part(lo, hi, 1), lo, hi);
    forall v
      ensures v in Up(lo, hi, 1) <==> lo <= v <= hi
    {
      UpMembers(lo, hi, 1, v);
    }
  }

  lemma OneWord(w: string, lo: int, hi: int)
    requires ',' !in w
    ensures FieldMask(w, lo, hi) == PartMask(w, lo, hi)
    ensures Split(w, ',') == [w]
  {
    hide Split, PartMask, UnionMask;
    SplitNoSeparator(w, ',');
    UnionOfOne(w, lo, hi);
  }

  /** The weekday reading leaves every part alone that is not 7 and does not end in -7 before its step. */
  lemma OnlySevensChange(p: string)
    requires var i := Index(p, '/'); var r := if i >= 0 then p[..i] else p; r != "7" && !EndsInSeven(r)
    ensures NormalPart(p) == p
  {
  }

  /** The overflow at work: a step of 2^63 - 1 on minute 59 also sets every other odd minute. */
  lemma HugeStepSetsExtraBits()
    ensures var part := Part(59, 59, MAX_INT64);
            InBounds(part, 0, 59) && 57 in PartBits(part) && 57 !in Up(59, 59, MAX_INT64)
  {
  }

  /** The same as the parser meets it: this minute field asks for minute 59 and gets minute 57 as well. */
  lemma HugeStepFiresEarly()
    ensures var field := FieldMask("59/9223372036854775807", 0, 59);
            field.Some? && 59 in field.value && 57 in field.value
  {
    hide Atoi, Split, PartBits, UnionMask, PartMask, ReadPart, Up;
    var p, part := "59/9223372036854775807", Part(59, 59, MAX_INT64);
    HugeStepRead();
    MaskOf(p, part, 0, 59);
    HugeStepSetsExtraBits();
    PartBitsExact(part, 0, 59);
    SplitNoSeparator(p, ',');
    UnionOfOne(p, 0, 59);
  }

  lemma HugeStepRead()
    ensures ReadPart("59/9223372036854775807", 0, 59) == Some(Part(59, 59, MAX_INT64))
  {
    hide Atoi;
    var p, t := "59/9223372036854775807", "9223372036854775807";
    assert p == "59" + ['/'] + t;
    IndexAt("59", '/', t);
    ReadHugeStep();
    assert '-' !in "59" && "59" != "*";
  }

  lemma MaskOf(p: string, part: Part, lo: int, hi: int)
    requires ReadPart(p, lo, hi) == Some(part)
    ensures PartMask(p, lo, hi) == Some(PartBits(part))
  {
    hide PartBits, ReadPart;
  }

  /** One more digit of a number read from the left. */
  lemma NextDigit(t: string, k: nat, n: nat)
    requires 0 < k < |t| && IsDigit(t[k]) && AllDigits(t[..k]) && DigitsValue(t[..k]) == n
    ensures AllDigits(t[..k + 1]) && DigitsValue(t[..k + 1]) == 10 * n + DigitValue(t[k])
  {
    assert t[..k + 1][..k] == t[..k];
  }

  lemma ReadHugeStep()
    ensures Atoi("9223372036854775807") == Some(MAX_INT64) && Atoi("59") == Some(59)
  {
    hide DigitsValue, AllDigits, IsSpace;
    var t := "9223372036854775807";
    FirstDigit("59");
    NextDigit("59", 1, 5);
    assert "59"[..2] == "59";
    FirstDigit(t);
    NextDigit(t, 1, 9);
    NextDigit(t, 2, 92);
    NextDigit(t, 3, 922);
    NextDigit(t, 4, 9223);
    NextDigit(t, 5, 92233);
    NextDigit(t, 6, 922337);
    NextDigit(t, 7, 9223372);
    NextDigit(t, 8, 92233720);
    NextDigit(t, 9, 922337203);
    NextDigit(t, 10, 9223372036);
    NextDigit(t, 11, 92233720368);
    NextDigit(t, 12, 922337203685);
    NextDigit(t, 13, 9223372036854);
    NextDigit(t, 14, 92233720368547);
    NextDigit(t, 15, 922337203685477);
    NextDigit(t, 16, 9223372036854775);
    NextDigit(t, 17, 92233720368547758);
    NextDigit(t, 18, 922337203685477580);
    assert t[..19] == t;
  }

  lemma FirstDigit(t: string)
    requires |t| >= 1 && IsDigit(t[0])
    ensures AllDigits(t[..1]) && DigitsValue(t[..1]) == DigitValue(t[0])
  {
    assert t[..1][..0] == "";
  }
}
