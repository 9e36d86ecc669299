/** Concrete member lists on which the alignment rule of process_base and the
    corrected rule differ. */
module AlignmentExamples {
  import opened Alignment

  /** Where the emitted layout does not meet the rule: after a narrower member
      the tracked width is kept, so a member of the tracked width gets no
      padding although the narrower member moved the position off the
      boundary. `{int32 a; int8 b; int32 c;}` written from position 0 puts
      `c` at offset 5. */
  lemma EqualWidthAfterNarrowerMisaligns()
    ensures Layout(0, StructStart, [Prim(4), Prim(1), Prim(4)])
         == [Placement(0, 4), Placement(4, 1), Placement(5, 4)]
    ensures !Aligned(Placement(5, 4))
  {
  }

  /** Fixed padding is counted from a point aligned only to the tracked width:
      `{int8 a; int32 b; int8 c; int64 d;}` written from position 0 puts `d`
      at offset 12 (three padding bytes before it, 20 bytes in all). */
  lemma WiderStaticPaddingMisaligns()
    ensures Layout(0, StructStart, [Prim(1), Prim(4), Prim(1), Prim(8)])
         == [Placement(0, 1), Placement(4, 4), Placement(8, 1), Placement(12, 8)]
    ensures !Aligned(Placement(12, 8))
  {
    WiderHead(0, StructStart, [Prim(1), Prim(4), Prim(1), Prim(8)]);
  }

  // The example above one member at a time; the first step takes its
  // arguments as variables so that the whole list is not unfolded at once.

  lemma WiderHead(position: nat, t: Tracker, items: seq<Item>)
    requires position == 0 && t == StructStart && items == [Prim(1), Prim(4), Prim(1), Prim(8)]
    ensures Layout(position, t, items)
         == [Placement(0, 1), Placement(4, 4), Placement(8, 1), Placement(12, 8)]
  {
    assert items[1..] == [Prim(4), Prim(1), Prim(8)];
    assert Choose(t, 1) == NoPadding;
    assert Next(t, 1) == Tracker(-1, 1, false);
    WiderTail1();
  }

  lemma WiderTail1()
    ensures Layout(1, Tracker(-1, 1, false), [Prim(4), Prim(1), Prim(8)])
         == [Placement(4, 4), Placement(8, 1), Placement(12, 8)]
  {
    WiderTail2();
  }

  lemma WiderTail2()
    ensures Layout(8, Tracker(4, 4, true), [Prim(1), Prim(8)]) == [Placement(8, 1), Placement(12, 8)]
  {
    WiderTail3();
  }

  lemma WiderTail3()
    ensures Layout(9, Tracker(4, 5, true), [Prim(8)]) == [Placement(12, 8)]
  {
  }

  /** The corrected rule places the two examples above on their boundaries. */
  lemma CorrectedEqualWidthExample()
    ensures CorrectedLayout(0, StructStart, [Prim(4), Prim(1), Prim(4)])
         == [Placement(0, 4), Placement(4, 1), Placement(8, 4)]
  {
  }

  lemma CorrectedWiderExample()
    ensures CorrectedLayout(0, StructStart, [Prim(1), Prim(4), Prim(1), Prim(8)])
         == [Placement(0, 1), Placement(4, 4), Placement(8, 1), Placement(16, 8)]
  {
    CorrectedWiderTail1();
  }

  lemma CorrectedWiderTail1()
    ensures CorrectedLayout(1, Tracker(-1, 1, false), [Prim(4), Prim(1), Prim(8)])
         == [Placement(4, 4), Placement(8, 1), Placement(16, 8)]
  {
    CorrectedWiderTail2();
  }

  lemma CorrectedWiderTail2()
    ensures CorrectedLayout(8, Tracker(4, 4, true), [Prim(1), Prim(8)]) == [Placement(8, 1), Placement(16, 8)]
  {
    CorrectedWiderTail3();
  }

  lemma CorrectedWiderTail3()
    ensures CorrectedLayout(9, Tracker(4, 5, true), [Prim(8)]) == [Placement(16, 8)]
  {
  }
}
