/** The alignment tracker of the streamer generator (process_base in
    streamer_generator.c): the byte width of a base-typed member, the padding
    instruction chosen for it from the tracker state, and how the tracker moves
    on. Beside it, the run-time meaning of the emitted code: where each member
    lands in the buffer, used to show where the emitted layout meets the
    natural-alignment rule of OMG CDR (section 15.3.1.1 of CORBA 3.0: a value
    of w bytes starts at an offset divisible by w) and where it does not. */
module Alignment {
  import opened Text

  datatype IntSize = Int8 | Int16 | Int32 | Int64
  datatype FloatKind = Float | Double | LongDouble

  /** The base types of IDL, as the node flags tell them apart. */
  datatype BaseType =
    | Integer(size: IntSize, unsigned: bool)
    | FloatingPoint(kind: FloatKind)
    | Char
    | WChar
    | Bool
    | Octet

  /** IDL_UNSIGNED, taken as bit 0 of the low nibble (the mask applied to it
      when integer kinds are printed). */
  const UnsignedBit: nat := 0x1

  /** `flags & 0xf` of a base-typed node: integers 0x2/0x4/0x6/0x8 (plus the
      unsigned bit), floating point 0x2/0x4/0x6, char/wchar/bool/octet 0x1..0x4. */
  function LowNibble(t: BaseType): (code: nat)
    ensures code < 16
  {
    match t
    case Integer(size, u) =>
      (match size case Int8 => 0x2 case Int16 => 0x4 case Int32 => 0x6 case Int64 => 0x8)
      + (if u then UnsignedBit else 0)
    case FloatingPoint(k) =>
      (match k case Float => 0x2 case Double => 0x4 case LongDouble => 0x6)
    case Char => 0x1
    case WChar => 0x2
    case Bool => 0x3
    case Octet => 0x4
  }

  /** `0x1 << n` */
  function ShiftOne(n: nat): nat
  {
    if n == 0 then 1 else 2 * ShiftOne(n - 1)
  }

  predicate IsWidth(w: int)
  {
    w == 1 || w == 2 || w == 4 || w == 8
  }

  /** The natural width of each base type: octet, char, wchar, bool and 8-bit
      integers 1; 16-bit integers 2; 32-bit integers and float 4; 64-bit
      integers, double and long double 8. */
  function NaturalWidth(t: BaseType): nat
  {
    match t
    case Integer(size, _) =>
      (match size case Int8 => 1 case Int16 => 2 case Int32 => 4 case Int64 => 8)
    case FloatingPoint(k) => if k == Float then 4 else 8
    case _ => 1
  }

  /** The byte width process_base computes from the flags: for integers
      `0x1 << (((flags & 0xf) >> 1) - 1)`, for floating point a switch on the
      low nibble, otherwise 1. It agrees with the natural width table, and the
      unsigned bit, which the shift drops, does not change it. */
  function ByteWidth(t: BaseType): (w: int)
    ensures IsWidth(w)
    ensures w == NaturalWidth(t)
  {
    var code := LowNibble(t);
    if t.Integer? then
      var shift := code / 2 - 1;
      assert shift == match t.size case Int8 => 0 case Int16 => 1 case Int32 => 2 case Int64 => 3;
      assert ShiftOne(3) == 8;
      ShiftOne(shift)
    else if t.FloatingPoint? then
      if code == 0x2 then 4 else if code == 0x4 || code == 0x6 then 8 else 1
    else 1
  }

  /** The tracker fields of a generation context: `currentalignment` (-1 when
      unknown), `accumulatedalignment` and `alignmentpresent`. */
  datatype Tracker = Tracker(current: int, accumulated: nat, declared: bool)

  /** What struct entry sets: width unknown, nothing accumulated, no
      `alignmentbytes` variable declared yet. */
  const StructStart: Tracker := Tracker(-1, 0, false)

  /** The padding instruction emitted before a member: a run-time alignment
      formula, a fixed number of padding bytes, or nothing. */
  datatype Padding = RunTime(alignTo: nat) | Static(bytes: nat) | NoPadding

  /** The padding bytes that complete `acc` to a multiple of `w`. */
  function Missing(acc: nat, w: nat): nat
    requires IsWidth(w)
  {
    (w - acc % w) % w
  }

  /** The choice process_base makes for a member of width `w`. */
  function Choose(t: Tracker, w: nat): Padding
    requires IsWidth(w)
  {
    if t.current != w then
      if t.current < 0 && w != 1 then RunTime(w)
      else if Missing(t.accumulated, w) != 0 then Static(Missing(t.accumulated, w))
      else NoPadding
    else NoPadding
  }

  /** The three outcomes of the choice: no padding whatever the count when
      the width is the tracked one; run-time alignment exactly when the
      tracked width is unknown and the member is wider than a byte; fixed
      padding of fewer than `w` bytes that completes the count otherwise. */
  lemma ChooseCases(t: Tracker, w: nat)
    requires IsWidth(w)
    ensures t.current == w ==> Choose(t, w) == NoPadding
    ensures Choose(t, w).RunTime? <==> t.current != w && t.current < 0 && w != 1
    ensures Choose(t, w).RunTime? ==> Choose(t, w).alignTo == w
    ensures Choose(t, w).Static? ==>
              0 < Choose(t, w).bytes < w && (t.accumulated + Choose(t, w).bytes) % w == 0
    ensures Choose(t, w).NoPadding? && t.current != w && !(t.current < 0 && w != 1) ==>
              t.accumulated % w == 0
  {
    MissingFacts(t.accumulated, w);
  }

  /** The padding bytes are fewer than a width, none exactly for a count
      that is already a multiple, and they complete the count. */
  lemma MissingFacts(a: nat, w: nat)
    requires IsWidth(w)
    ensures Missing(a, w) < w
    ensures Missing(a, w) == 0 <==> a % w == 0
    ensures (a + Missing(a, w)) % w == 0
  {
    if w == 2 {
      MissingFor2(a);
    } else if w == 4 {
      MissingFor4(a);
    } else if w == 8 {
      MissingFor8(a);
    }
  }

  lemma MissingFor2(a: nat)
    ensures Missing(a, 2) < 2
    ensures Missing(a, 2) == 0 <==> a % 2 == 0
    ensures (a + Missing(a, 2)) % 2 == 0
  {
    var r := a % 2;
    assert a == 2 * (a / 2) + r;
    if r != 0 {
      assert Missing(a, 2) == 2 - r;
      assert a + Missing(a, 2) == 2 * (a / 2 + 1);
    }
  }

  lemma MissingFor4(a: nat)
    ensures Missing(a, 4) < 4
    ensures Missing(a, 4) == 0 <==> a % 4 == 0
    ensures (a + Missing(a, 4)) % 4 == 0
  {
    var r := a % 4;
    assert a == 4 * (a / 4) + r;
    if r != 0 {
      assert Missing(a, 4) == 4 - r;
      assert a + Missing(a, 4) == 4 * (a / 4 + 1);
    }
  }

  lemma MissingFor8(a: nat)
    ensures Missing(a, 8) < 8
    ensures Missing(a, 8) == 0 <==> a % 8 == 0
    ensures (a + Missing(a, 8)) % 8 == 0
  {
    var r := a % 8;
    assert a == 8 * (a / 8) + r;
    if r != 0 {
      assert Missing(a, 8) == 8 - r;
      assert a + Missing(a, 8) == 8 * (a / 8 + 1);
    }
  }

  /** The tracker after the padding decision for a member of width `w`,
      before the member itself is counted: the run-time branch records the
      width and the declaration and restarts the count, fixed padding
      restarts the count, no padding keeps everything. */
  function AfterPadding(t: Tracker, w: nat): Tracker
    requires IsWidth(w)
  {
    match Choose(t, w)
    case RunTime(_) => Tracker(w, 0, true)
    case Static(_) => t.(accumulated := 0)
    case NoPadding => t
  }

  /** The tracker after a base member of width `w`: the member's bytes are
      added to the count left by the padding decision. */
  function Next(t: Tracker, w: nat): Tracker
    requires IsWidth(w)
  {
    match Choose(t, w)
    case RunTime(_) => Tracker(w, w, true)
    case Static(_) => Tracker(t.current, w, t.declared)
    case NoPadding => Tracker(t.current, t.accumulated + w, t.declared)
  }

  /** Next is the padding decision followed by counting the member. */
  lemma NextAfterPadding(t: Tracker, w: nat)
    requires IsWidth(w)
    ensures Next(t, w) == AfterPadding(t, w).(accumulated := AfterPadding(t, w).accumulated + w)
  {
  }

  /** The run-time branch records the width and the declaration; the other
      branches keep both; the member's width is always counted, on top of the
      old count only when no padding was emitted. */
  lemma NextCases(t: Tracker, w: nat)
    requires IsWidth(w)
    ensures Choose(t, w).RunTime? ==> Next(t, w).current == w && Next(t, w).declared
    ensures !Choose(t, w).RunTime? ==> Next(t, w).current == t.current && Next(t, w).declared == t.declared
    ensures Next(t, w).accumulated == w + (if Choose(t, w).NoPadding? then t.accumulated else 0)
  {
  }

  /** A nested-instance member: its length is unknown to the generator. */
  function AfterInstance(t: Tracker): (r: Tracker)
    ensures r.current == -1 && r.accumulated == 0 && r.declared == t.declared
  {
    Tracker(-1, 0, t.declared)
  }

  /** The run-time alignment text generatealignment produces for `alignTo`. */
  function GenerateAlignment(alignTo: nat): string
  {
    if alignTo < 2 then "0"
    else if alignTo == 2 then "position%2;"
    else
      var n := NatToString(alignTo);
      "(" + n + " - position%" + n + ")%" + n + ";"
  }

  /** The value the text of GenerateAlignment(alignTo) takes for a given
      `position` at run time. */
  function RunTimePad(position: nat, alignTo: nat): nat
  {
    if alignTo < 2 then 0
    else if alignTo == 2 then position % 2
    else (alignTo - position % alignTo) % alignTo
  }

  /** The `position%2` short form for width 2 is the general formula. */
  lemma EvenOddShortcut(position: nat)
    ensures RunTimePad(position, 2) == (2 - position % 2) % 2
  {
  }

  /** The run-time formula pads less than one width and lands on a multiple
      of the width. */
  lemma RunTimePadAligns(position: nat, w: nat)
    requires IsWidth(w)
    ensures RunTimePad(position, w) < w
    ensures (position + RunTimePad(position, w)) % w == 0
  {
  }

  /** The bytes a padding instruction skips when run at `position`. */
  function PadAt(position: nat, p: Padding): nat
  {
    match p
    case RunTime(w) => RunTimePad(position, w)
    case Static(n) => n
    case NoPadding => 0
  }

  /** One member of a struct as the tracker sees it: a base member of some
      width, a nested instance that consumes `length` bytes at run time, or a
      member for which nothing is emitted (template types). */
  datatype Item = Prim(width: nat) | Instance(length: nat) | Skipped

  predicate WellFormed(items: seq<Item>)
  {
    forall i :: 0 <= i < |items| && items[i].Prim? ==> IsWidth(items[i].width)
  }

  /** The tracker after a list of members. */
  function Track(t: Tracker, items: seq<Item>): Tracker
    requires WellFormed(items)
    decreases |items|
  {
    if items == [] then t
    else
      match items[0]
      case Prim(w) => Track(Next(t, w), items[1..])
      case Instance(_) => Track(AfterInstance(t), items[1..])
      case Skipped => Track(t, items[1..])
  }

  /** The widths of the base members, in order. */
  function PrimWidths(items: seq<Item>): (ws: seq<nat>)
    ensures |ws| <= |items|
    decreases |items|
  {
    if items == [] then []
    else (if items[0].Prim? then [items[0].width] else []) + PrimWidths(items[1..])
  }

  /** Where a base member starts in the buffer and how wide it is. */
  datatype Placement = Placement(offset: nat, width: nat)

  predicate Aligned(p: Placement)
    requires p.width > 0
  {
    p.offset % p.width == 0
  }

  /** The placements the emitted code produces when it starts at `position`. */
  function Layout(position: nat, t: Tracker, items: seq<Item>): (ps: seq<Placement>)
    requires WellFormed(items)
    ensures forall i :: 0 <= i < |ps| ==> IsWidth(ps[i].width)
    ensures |ps| == |PrimWidths(items)|
    decreases |items|
  {
    if items == [] then []
    else
      match items[0]
      case Prim(w) =>
        var start := position + PadAt(position, Choose(t, w));
        [Placement(start, w)] + Layout(start + w, Next(t, w), items[1..])
      case Instance(length) => Layout(position + length, AfterInstance(t), items[1..])
      case Skipped => Layout(position, t, items[1..])
  }

  predicate AllAligned(ps: seq<Placement>)
  {
    forall i :: 0 <= i < |ps| ==> ps[i].width > 0 && Aligned(ps[i])
  }

  /** The placements have the widths `ws`, in order, all start at or after
      `from`, and none overlaps the one before it. */
  predicate InOrder(ps: seq<Placement>, ws: seq<nat>, from: nat)
  {
    && |ps| == |ws|
    && (forall i :: 0 <= i < |ps| ==> ps[i].width == ws[i] && ps[i].offset >= from)
    && (forall i :: 0 < i < |ps| ==> ps[i - 1].offset + ps[i - 1].width <= ps[i].offset)
  }

  lemma InOrderCons(p: Placement, ps: seq<Placement>, ws: seq<nat>, from: nat)
    requires InOrder(ps, ws, p.offset + p.width) && p.offset >= from
    ensures InOrder([p] + ps, [p.width] + ws, from)
  {
    var qs := [p] + ps;
    forall i | 0 < i < |qs|
      ensures qs[i - 1].offset + qs[i - 1].width <= qs[i].offset
    {
      assert qs[i] == ps[i - 1];
      if i > 1 {
        assert qs[i - 1] == ps[i - 2];
      }
    }
  }

  lemma InOrderEarlier(ps: seq<Placement>, ws: seq<nat>, from: nat, earlier: nat)
    requires InOrder(ps, ws, from) && earlier <= from
    ensures InOrder(ps, ws, earlier)
  {
  }

  /** Each base member gets one placement, in member order, with its own
      width, at or after the start, and none overlaps the one before it:
      padding only ever moves a member forward. */
  lemma {:induction false} LayoutInOrder(position: nat, t: Tracker, items: seq<Item>)
    requires WellFormed(items)
    ensures InOrder(Layout(position, t, items), PrimWidths(items), position)
    decreases |items|
  {
    if items != [] {
      var rest := items[1..];
      WellFormedTail(items);
      match items[0]
      case Prim(w) =>
        var start := position + PadAt(position, Choose(t, w));
        var tail := Layout(start + w, Next(t, w), rest);
        assert Layout(position, t, items) == [Placement(start, w)] + tail;
        LayoutInOrder(start + w, Next(t, w), rest);
        InOrderCons(Placement(start, w), tail, PrimWidths(rest), position);
        assert PrimWidths(items) == [w] + PrimWidths(rest);
      case Instance(length) =>
        LayoutInOrder(position + length, AfterInstance(t), rest);
        assert Layout(position, t, items) == Layout(position + length, AfterInstance(t), rest);
        InOrderEarlier(Layout(position + length, AfterInstance(t), rest), PrimWidths(rest), position + length, position);
        assert PrimWidths(items) == PrimWidths(rest);
      case Skipped =>
        LayoutInOrder(position, t, rest);
        assert PrimWidths(items) == PrimWidths(rest);
    }
  }

  /** Widths that never grow between two nested instances (an instance starts
      a new run). */
  predicate Descending(items: seq<Item>, bound: nat)
  {
    items == [] ||
    match items[0]
    case Prim(w) => w <= bound && Descending(items[1..], w)
    case Instance(_) => Descending(items[1..], 8)
    case Skipped => Descending(items[1..], bound)
  }

  lemma DividesSmallerWidth(b: nat, w: nat, m: nat)
    requires IsWidth(w) && IsWidth(m) && w <= m && b % m == 0
    ensures b % w == 0
  {
    if w == 1 || w == m {
    } else if m == 8 {
      EightToFour(b);
      if w == 2 {
        FourToTwo(b);
      }
    } else {
      FourToTwo(b);
    }
  }

  // Divisibility by each width, one literal divisor at a time (a variable
  // divisor makes these facts nonlinear).

  lemma FourToTwo(a: nat)
    requires a % 4 == 0
    ensures a % 2 == 0
  {
    var p := a / 4;
    assert a == 4 * p;
    assert a == 2 * (2 * p);
    DoubleIsEven(2 * p);
  }

  lemma DoubleIsEven(k: nat)
    ensures (2 * k) % 2 == 0
  {
  }

  lemma EightToFour(a: nat)
    requires a % 8 == 0
    ensures a % 4 == 0
  {
    var p := a / 8;
    assert a == 8 * p;
    assert a == 4 * (2 * p);
  }

  lemma Sum2(a: nat, b: nat)
    requires a % 2 == 0 && b % 2 == 0
    ensures (a + b) % 2 == 0
  {
    var p, q := a / 2, b / 2;
    assert a == 2 * p && b == 2 * q;
    assert a + b == 2 * (p + q);
  }

  lemma Sum4(a: nat, b: nat)
    requires a % 4 == 0 && b % 4 == 0
    ensures (a + b) % 4 == 0
  {
    var p, q := a / 4, b / 4;
    assert a == 4 * p && b == 4 * q;
    assert a + b == 4 * (p + q);
  }

  lemma Sum8(a: nat, b: nat)
    requires a % 8 == 0 && b % 8 == 0
    ensures (a + b) % 8 == 0
  {
    var p, q := a / 8, b / 8;
    assert a == 8 * p && b == 8 * q;
    assert a + b == 8 * (p + q);
  }

  /** What holds between members of a descending run: the start of the
      current padding-free stretch (`position - accumulated`) is a multiple of
      the last width `m`, and when `m` is the tracked width the stretch itself
      is a whole number of widths. */
  predicate RunInvariant(position: nat, t: Tracker, m: nat)
  {
    && (t.current == -1 || IsWidth(t.current))
    && (t.current > 0 ==>
          && IsWidth(m) && m <= t.current
          && position >= t.accumulated
          && (position - t.accumulated) % m == 0
          && (m == t.current ==> t.accumulated % m == 0))
  }

  lemma SumOfMultiples(a: nat, b: nat, w: nat)
    requires IsWidth(w) && a % w == 0 && b % w == 0
    ensures (a + b) % w == 0
  {
    if w == 2 {
      Sum2(a, b);
    } else if w == 4 {
      Sum4(a, b);
    } else if w == 8 {
      Sum8(a, b);
    }
  }

  /** The tracked width is the member's width: no padding, and the member
      lands at the end of a whole number of widths. */
  lemma SameWidthStep(position: nat, t: Tracker, w: nat, m: nat)
    requires IsWidth(w) && w <= m && RunInvariant(position, t, m) && t.current == w
    ensures PadAt(position, Choose(t, w)) == 0 && position % w == 0
    ensures RunInvariant(position + w, Next(t, w), w)
  {
    assert m == w;
    SumOfMultiples(position - t.accumulated, t.accumulated, w);
    SumOfMultiples(t.accumulated, w, w);
  }

  /** A tracked width that differs from a known one: fixed padding computed
      from the accumulated count. */
  lemma StaticStep(position: nat, t: Tracker, w: nat, m: nat)
    requires IsWidth(w) && w <= m && RunInvariant(position, t, m)
    requires t.current > 0 && t.current != w
    ensures (position + PadAt(position, Choose(t, w))) % w == 0
    ensures RunInvariant(position + PadAt(position, Choose(t, w)) + w, Next(t, w), w)
  {
    var p := Choose(t, w);
    DividesSmallerWidth(position - t.accumulated, w, m);
    MissingFacts(t.accumulated, w);
    SumOfMultiples(position - t.accumulated, t.accumulated + PadAt(position, p), w);
    assert position + PadAt(position, p) == (position - t.accumulated) + (t.accumulated + PadAt(position, p));
  }

  /** One base member of a descending run lands aligned and keeps the run
      invariant, with its own width as the new bound. */
  lemma DescendingStep(position: nat, t: Tracker, w: nat, m: nat)
    requires IsWidth(w) && w <= m && RunInvariant(position, t, m)
    ensures (position + PadAt(position, Choose(t, w))) % w == 0
    ensures RunInvariant(position + PadAt(position, Choose(t, w)) + w, Next(t, w), w)
  {
    if t.current == w {
      SameWidthStep(position, t, w, m);
    } else if t.current < 0 {
      if w != 1 {
        RunTimePadAligns(position, w);
      }
    } else {
      StaticStep(position, t, w, m);
    }
  }

  /** Where the emitted layout meets the natural-alignment rule: when the
      widths never grow between nested instances, every base member is
      aligned, wherever the buffer position starts. */
  lemma {:induction false} DescendingRunsAligned(position: nat, t: Tracker, items: seq<Item>, m: nat)
    requires WellFormed(items) && Descending(items, m) && RunInvariant(position, t, m)
    ensures AllAligned(Layout(position, t, items))
    decreases |items|
  {
    if items != [] {
      var rest := items[1..];
      assert WellFormed(rest) by {
        forall i | 0 <= i < |rest| && rest[i].Prim? ensures IsWidth(rest[i].width) {
          assert rest[i] == items[i + 1];
        }
      }
      match items[0]
      case Prim(w) =>
        assert IsWidth(w) by { assert items[0].Prim?; }
        DescendingStep(position, t, w, m);
        var start := position + PadAt(position, Choose(t, w));
        DescendingRunsAligned(start + w, Next(t, w), rest, w);
      case Instance(length) =>
        DescendingRunsAligned(position + length, AfterInstance(t), rest, 8);
      case Skipped =>
        DescendingRunsAligned(position, t, rest, m);
    }
  }

  /** How many run-time alignments of a member list declare the
      `alignmentbytes` variable (the others only assign it). */
  function Declarations(t: Tracker, items: seq<Item>): nat
    requires WellFormed(items)
    decreases |items|
  {
    if items == [] then 0
    else
      match items[0]
      case Prim(w) =>
        (if Choose(t, w).RunTime? && !t.declared then 1 else 0) + Declarations(Next(t, w), items[1..])
      case Instance(_) => Declarations(AfterInstance(t), items[1..])
      case Skipped => Declarations(t, items[1..])
  }

  lemma WellFormedTail(items: seq<Item>)
    requires items != [] && WellFormed(items)
    ensures WellFormed(items[1..])
    ensures items[0].Prim? ==> IsWidth(items[0].width)
  {
    var rest := items[1..];
    forall i | 0 <= i < |rest| && rest[i].Prim? ensures IsWidth(rest[i].width) {
      assert rest[i] == items[i + 1];
    }
  }

  /** `alignmentbytes` is declared at most once per member list, and not at
      all once it has been declared. */
  lemma {:induction false} DeclaredAtMostOnce(t: Tracker, items: seq<Item>)
    requires WellFormed(items)
    ensures Declarations(t, items) <= 1
    ensures t.declared ==> Declarations(t, items) == 0
    decreases |items|
  {
    if items != [] {
      WellFormedTail(items);
      match items[0]
      case Prim(w) => DeclaredAtMostOnce(Next(t, w), items[1..]);
      case Instance(_) => DeclaredAtMostOnce(AfterInstance(t), items[1..]);
      case Skipped => DeclaredAtMostOnce(t, items[1..]);
    }
  }

  /** The rule the generator evidently intends: fixed padding only for a width
      the tracked alignment covers, counted from the last run-time aligned
      point (the count keeps the padding instead of restarting); any wider
      member is aligned at run time. */
  function CorrectedChoose(t: Tracker, w: nat): (p: Padding)
    requires IsWidth(w)
    ensures p.Static? ==> 0 < p.bytes < w && (t.accumulated + p.bytes) % w == 0
    ensures p.RunTime? <==> t.current < w && w != 1
  {
    if t.current >= w then
      var missing := (w - t.accumulated % w) % w;
      if missing != 0 then Static(missing) else NoPadding
    else if w == 1 then NoPadding
    else RunTime(w)
  }

  function CorrectedNext(t: Tracker, w: nat): Tracker
    requires IsWidth(w)
  {
    match CorrectedChoose(t, w)
    case RunTime(_) => Tracker(w, w, true)
    case Static(n) => Tracker(t.current, t.accumulated + n + w, t.declared)
    case NoPadding => Tracker(t.current, t.accumulated + w, t.declared)
  }

  function CorrectedLayout(position: nat, t: Tracker, items: seq<Item>): (ps: seq<Placement>)
    requires WellFormed(items)
    ensures forall i :: 0 <= i < |ps| ==> IsWidth(ps[i].width)
    ensures |ps| == |PrimWidths(items)|
    decreases |items|
  {
    if items == [] then []
    else
      match items[0]
      case Prim(w) =>
        var start := position + PadAt(position, CorrectedChoose(t, w));
        [Placement(start, w)] + CorrectedLayout(start + w, CorrectedNext(t, w), items[1..])
      case Instance(length) => CorrectedLayout(position + length, AfterInstance(t), items[1..])
      case Skipped => CorrectedLayout(position, t, items[1..])
  }

  /** Under the corrected rule too, each base member gets one placement, in
      order, with its own width, and none overlaps the one before it. */
  lemma {:induction false} CorrectedLayoutInOrder(position: nat, t: Tracker, items: seq<Item>)
    requires WellFormed(items)
    ensures InOrder(CorrectedLayout(position, t, items), PrimWidths(items), position)
    decreases |items|
  {
    if items != [] {
      var rest := items[1..];
      WellFormedTail(items);
      match items[0]
      case Prim(w) =>
        var start := position + PadAt(position, CorrectedChoose(t, w));
        var tail := CorrectedLayout(start + w, CorrectedNext(t, w), rest);
        assert CorrectedLayout(position, t, items) == [Placement(start, w)] + tail;
        CorrectedLayoutInOrder(start + w, CorrectedNext(t, w), rest);
        InOrderCons(Placement(start, w), tail, PrimWidths(rest), position);
        assert PrimWidths(items) == [w] + PrimWidths(rest);
      case Instance(length) =>
        CorrectedLayoutInOrder(position + length, AfterInstance(t), rest);
        assert CorrectedLayout(position, t, items) == CorrectedLayout(position + length, AfterInstance(t), rest);
        InOrderEarlier(CorrectedLayout(position + length, AfterInstance(t), rest), PrimWidths(rest), position + length, position);
        assert PrimWidths(items) == PrimWidths(rest);
      case Skipped =>
        CorrectedLayoutInOrder(position, t, rest);
        assert PrimWidths(items) == PrimWidths(rest);
    }
  }

  /** The last run-time aligned point (`position - accumulated`) is a multiple
      of the tracked width. */
  predicate CorrectedInvariant(position: nat, t: Tracker)
  {
    && (t.current == -1 || IsWidth(t.current))
    && (t.current > 0 ==> position >= t.accumulated && (position - t.accumulated) % t.current == 0)
  }

  lemma CorrectedStep(position: nat, t: Tracker, w: nat)
    requires IsWidth(w) && CorrectedInvariant(position, t)
    ensures (position + PadAt(position, CorrectedChoose(t, w))) % w == 0
    ensures CorrectedInvariant(position + PadAt(position, CorrectedChoose(t, w)) + w, CorrectedNext(t, w))
  {
    if t.current >= w {
      CorrectedStaticStep(position, t, w);
    } else if w != 1 {
      CorrectedRunTimeStep(position, t, w);
    }
  }

  /** CorrectedStep when the tracked width covers the member's width. */
  lemma CorrectedStaticStep(position: nat, t: Tracker, w: nat)
    requires IsWidth(w) && CorrectedInvariant(position, t) && t.current >= w
    ensures (position + PadAt(position, CorrectedChoose(t, w))) % w == 0
    ensures CorrectedInvariant(position + PadAt(position, CorrectedChoose(t, w)) + w, CorrectedNext(t, w))
  {
    var n := PadAt(position, CorrectedChoose(t, w));
    var base := position - t.accumulated;
    assert n == Missing(t.accumulated, w);
    DividesSmallerWidth(base, w, t.current);
    MissingFacts(t.accumulated, w);
    SumOfMultiples(base, t.accumulated + n, w);
    assert position + n == base + (t.accumulated + n);
    assert CorrectedNext(t, w) == Tracker(t.current, t.accumulated + n + w, t.declared);
    assert position + n + w - (t.accumulated + n + w) == base;
  }

  /** CorrectedStep when the member is aligned at run time. */
  lemma CorrectedRunTimeStep(position: nat, t: Tracker, w: nat)
    requires IsWidth(w) && CorrectedInvariant(position, t) && t.current < w && w != 1
    ensures (position + PadAt(position, CorrectedChoose(t, w))) % w == 0
    ensures CorrectedInvariant(position + PadAt(position, CorrectedChoose(t, w)) + w, CorrectedNext(t, w))
  {
    assert CorrectedChoose(t, w) == RunTime(w);
    RunTimePadAligns(position, w);
  }

  /** With the corrected rule every base member is aligned, for every member
      list and every starting position. */
  lemma {:induction false} CorrectedLayoutAligned(position: nat, t: Tracker, items: seq<Item>)
    requires WellFormed(items) && CorrectedInvariant(position, t)
    ensures AllAligned(CorrectedLayout(position, t, items))
    decreases |items|
  {
    if items != [] {
      WellFormedTail(items);
      match items[0]
      case Prim(w) =>
        CorrectedStep(position, t, w);
        var start := position + PadAt(position, CorrectedChoose(t, w));
        CorrectedLayoutAligned(start + w, CorrectedNext(t, w), items[1..]);
      case Instance(length) =>
        CorrectedLayoutAligned(position + length, AfterInstance(t), items[1..]);
      case Skipped =>
        CorrectedLayoutAligned(position, t, items[1..]);
    }
  }
}
