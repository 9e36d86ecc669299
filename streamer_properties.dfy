/** What the generator's specification functions promise: flushing is
    idempotent, padding text appears exactly when the tracker asks for it,
    member lists move the tracker as Alignment.Track says and leave the files
    alone until the struct is flushed, and where a module's opening text lands
    in the header file. */
module StreamerProperties {
  import opened Text
  import opened Alignment
  import opened Streams
  import opened Streamer

  /** Flushing a flushed context writes nothing (flush_ostream skips empty
      buffers). */
  lemma FlushIdempotent(g: Gen)
    ensures FlushSpec(FlushSpec(g)) == FlushSpec(g)
  {
    var f := FlushSpec(g);
    assert f.files.header + f.bufs.header == f.files.header;
    assert f.files.impl + f.bufs.write + f.bufs.writeSize + f.bufs.read + f.bufs.readSize == f.files.impl;
  }

  /** process_base leaves the buffers untouched before the copy exactly when
      the tracker chooses no padding; in particular when the member's width
      is the tracked width. */
  lemma PaddingOnlyWhenChosen(b: Buffers, d: nat, member: string, tr: Tracker, w: nat)
    requires IsWidth(w)
    ensures PaddingSpec(b, d, member, tr, w) == b <==> Choose(tr, w) == NoPadding
    ensures tr.current == w ==> PaddingSpec(b, d, member, tr, w) == b
  {
    ChooseCases(tr, w);
    match Choose(tr, w)
    case RunTime(_) =>
      var r := AlignmentText(Declaration(b, d, tr.declared), d, member, w);
      assert |r.writeSize| > |b.writeSize|;
    case Static(n) =>
      var r := PaddingText(b, d, member, n);
      assert |r.writeSize| > |b.writeSize|;
    case NoPadding =>
  }

  /** A node of a struct's member list and the item the tracker sees for it:
      a base member is a primitive of its natural width, a scoped-name member
      an instance of any run-time length, anything else is skipped. */
  predicate Corresponds(n: Node, it: Item)
  {
    match n
    case Member(_, kind) =>
      (match kind
       case BaseMember(t) => it == Prim(NaturalWidth(t))
       case ScopedName => it.Instance?
       case _ => it == Skipped)
    case Other => it == Skipped
    case _ => false
  }

  predicate CorrespondAll(ns: seq<Node>, items: seq<Item>)
  {
    |ns| == |items| && forall i :: 0 <= i < |ns| ==> Corresponds(ns[i], items[i])
  }

  lemma CorrespondTail(ns: seq<Node>, items: seq<Item>)
    requires ns != [] && CorrespondAll(ns, items)
    ensures CorrespondAll(ns[1..], items[1..])
    ensures Corresponds(ns[0], items[0])
  {
    forall i | 0 <= i < |ns| - 1 ensures Corresponds(ns[1..][i], items[1..][i]) {
      assert ns[1..][i] == ns[i + 1] && items[1..][i] == items[i + 1];
    }
  }

  /** The items of a member list are well formed: every base member has one
      of the four widths. */
  lemma {:induction false} CorrespondingItemsWellFormed(ns: seq<Node>, items: seq<Item>)
    requires CorrespondAll(ns, items)
    ensures WellFormed(items)
  {
    forall i | 0 <= i < |items| && items[i].Prim? ensures IsWidth(items[i].width) {
      assert Corresponds(ns[i], items[i]);
      var t := ns[i].kind.base;
      assert IsWidth(ByteWidth(t));
    }
  }

  /** Walking a member list moves the context's tracker exactly as
      Alignment.Track moves it over the corresponding items, writes nothing
      to the files and leaves the header buffer as it was. This is what makes
      the layout theorems of module Alignment statements about the generated
      code. */
  lemma {:induction false} MembersFollowTracker(order: ScopeOrder, g: Gen, ns: seq<Node>, items: seq<Item>)
    requires CorrespondAll(ns, items)
    ensures WellFormed(items)
    ensures NodesSpec(order, g, ns).tracker == Track(g.tracker, items)
    ensures NodesSpec(order, g, ns).files == g.files
    ensures NodesSpec(order, g, ns).bufs.header == g.bufs.header
    decreases |ns|
  {
    CorrespondingItemsWellFormed(ns, items);
    if ns != [] {
      CorrespondTail(ns, items);
      WellFormedTail(items);
      var h := NodeSpec(order, g, ns[0]);
      assert h.files == g.files && h.bufs.header == g.bufs.header;
      match items[0] {
        case Prim(w) =>
          assert h.tracker == Next(g.tracker, w);
        case Instance(_) =>
          assert h.tracker == AfterInstance(g.tracker);
        case Skipped =>
          assert h.tracker == g.tracker;
      }
      MembersFollowTracker(order, h, ns[1..], items[1..]);
    }
  }

  /** A struct whose children are members: its header text is exactly the
      four declarations, flushed after whatever the header buffer held; the
      tracker ends where Track takes the fresh struct state, and the
      `alignmentbytes` variable is declared at most once in it. */
  lemma StructOfMembers(order: ScopeOrder, g: Gen, n: Node, items: seq<Item>)
    requires n.Constructed? && n.children != [] && CorrespondAll(n.children, items)
    ensures WellFormed(items)
    ensures ConstructedSpec(order, g, n).files.header
         == g.files.header + OpenStruct(g.bufs, g.depth, n.name).header
    ensures ConstructedSpec(order, g, n).tracker == Track(StructStart, items)
    ensures Declarations(StructStart, items) <= 1
  {
    var entered := Gen(OpenStruct(g.bufs, g.depth, n.name), g.depth, StructStart, g.files);
    MembersFollowTracker(order, entered, n.children, items);
    DeclaredAtMostOnce(StructStart, items);
  }

  /** Corrected order: with the opening flushed when the module's context
      is created, the header file continues with the module's opening text
      before anything its children emit. */
  lemma OpeningComesFirst(g: Gen, n: Node)
    requires n.Module? && n.children != []
    ensures g.files.header + ModuleOpening(g.depth, n.name) <= ModuleSpec(OpeningFirst, g, n).files.header
  {
    var start := ModuleStart(OpeningFirst, g, n.name);
    assert start.files.header == g.files.header + ModuleOpening(g.depth, n.name);
    var after := NodesSpec(OpeningFirst, start, n.children);
    assert start.files.header <= after.files.header;
    assert after.files.header <= CloseModule(after).files.header;
  }

  /** Both orders: a non-empty module's output ends with its closing brace
      at the module's depth. */
  lemma ModuleEndsClosed(order: ScopeOrder, g: Gen, n: Node)
    requires n.Module? && n.children != []
    ensures var h := ModuleSpec(order, g, n).files.header;
            var close := Indentation(true, g.depth) + "}\n\n";
            |h| >= |close| && h[|h| - |close|..] == close
  {
    var after := NodesSpec(order, ModuleStart(order, g, n.name), n.children);
    var ind := Indentation(true, g.depth);
    var close := ind + "}\n\n";
    var h := CloseModule(after).files.header;
    assert h == after.files.header + after.bufs.header + ind + "}\n\n";
    assert h == (after.files.header + after.bufs.header) + close;
  }

  /** Everything the first child of a module writes to the header file stays
      at the front of what the module writes. */
  lemma FirstChildOutputFirst(order: ScopeOrder, g: Gen, n: Node)
    requires n.Module? && n.children != []
    ensures NodeSpec(order, ModuleStart(order, g, n.name), n.children[0]).files.header
            <= ModuleSpec(order, g, n).files.header
  {
    var start := ModuleStart(order, g, n.name);
    var first := NodeSpec(order, start, n.children[0]);
    assert NodesSpec(order, start, n.children) == NodesSpec(order, first, n.children[1..]);
    var after := NodesSpec(order, first, n.children[1..]);
    assert first.files.header <= after.files.header;
    assert after.files.header <= CloseModule(after).files.header;
  }

  /** A struct of members flushes the header buffer it finds: the header file
      continues with what was pending. */
  lemma StructFlushesPending(order: ScopeOrder, g: Gen, s: string, members: seq<Node>, items: seq<Item>)
    requires members != [] && CorrespondAll(members, items)
    ensures g.files.header + g.bufs.header <= ConstructedSpec(order, g, Constructed(s, members)).files.header
  {
    StructOfMembers(order, g, Constructed(s, members), items);
    PrefixOfOpenStruct(g.bufs, g.depth, s);
  }

  lemma PrefixOfOpenStruct(b: Buffers, d: nat, s: string)
    ensures b.header <= OpenStruct(b, d, s).header
  {
  }

  /** A module whose first child is a struct of members. */
  predicate StartsWithStruct(m: Node, items: seq<Item>)
  {
    && m.Module? && m.children != []
    && m.children[0].Constructed? && m.children[0].children != []
    && CorrespondAll(m.children[0].children, items)
  }

  /** As written: when a module's first child is a module that starts with a
      struct, the inner module's opening reaches the header file first, so the
      header does not continue with the outer module's opening (the outer
      `namespace` line is flushed only when its context closes, after
      everything the inner module wrote). */
  lemma NestedModuleOpensLate(g: Gen, n: Node, items: seq<Item>)
    requires n.Module? && n.children != [] && StartsWithStruct(n.children[0], items)
    ensures g.files.header + ModuleOpening(g.depth + 1, n.children[0].name)
            <= ModuleSpec(AsWritten, g, n).files.header
    ensures !(g.files.header + ModuleOpening(g.depth, n.name) <= ModuleSpec(AsWritten, g, n).files.header)
  {
    var m := n.children[0];
    var innerA := ModuleStart(AsWritten, g, n.name);
    var h := ModuleSpec(AsWritten, g, n).files.header;
    var hm := ModuleSpec(AsWritten, innerA, m).files.header;
    FirstChildOutputFirst(AsWritten, g, n);
    assert hm <= h;
    ModuleOfStructOpensFirst(innerA, m, items);
    assert innerA.files.header == g.files.header && innerA.depth == g.depth + 1;
    PrefixTransitive(g.files.header + ModuleOpening(g.depth + 1, m.name), hm, h);
    OpeningsDiffer(g.files.header, g.depth, n.name, m.name, h);
  }

  /** A module that starts with a struct of members: the struct's flush
      carries the module's opening to the header file first. */
  lemma ModuleOfStructOpensFirst(g: Gen, m: Node, items: seq<Item>)
    requires StartsWithStruct(m, items)
    ensures g.files.header + ModuleOpening(g.depth, m.name) <= ModuleSpec(AsWritten, g, m).files.header
  {
    var c := m.children[0];
    var inner := ModuleStart(AsWritten, g, m.name);
    var hm := ModuleSpec(AsWritten, g, m).files.header;
    var hc := ConstructedSpec(AsWritten, inner, c).files.header;
    FirstChildOutputFirst(AsWritten, g, m);
    assert hc <= hm;
    StructFlushesPending(AsWritten, inner, c.name, c.children, items);
    assert inner.files.header + inner.bufs.header == g.files.header + ModuleOpening(g.depth, m.name);
    PrefixTransitive(g.files.header + ModuleOpening(g.depth, m.name), hc, hm);
  }

  lemma PrefixTransitive(x: string, y: string, z: string)
    requires x <= y && y <= z
    ensures x <= z
  {
  }

  /** The opening one level deeper starts with a blank where the opening at
      this level has the `n` of `namespace`. */
  lemma OpeningsDiffer(f: string, d: nat, a: string, b: string, h: string)
    requires f + ModuleOpening(d + 1, b) <= h
    ensures !(f + ModuleOpening(d, a) <= h)
  {
    var k := |f| + 2 * d;
    assert (f + ModuleOpening(d + 1, b))[k] == ' ';
    assert (f + ModuleOpening(d, a))[k] == 'n';
  }

  /** Corrected order on the same input: the outer opening and then the
      inner opening start the module's text, as namespace nesting requires. */
  lemma NestedModuleOpensInOrder(g: Gen, n: Node)
    requires n.Module? && n.children != [] && n.children[0].Module? && n.children[0].children != []
    ensures g.files.header + ModuleOpening(g.depth, n.name) + ModuleOpening(g.depth + 1, n.children[0].name)
            <= ModuleSpec(OpeningFirst, g, n).files.header
  {
    var m := n.children[0];
    var startA := ModuleStart(OpeningFirst, g, n.name);
    var h := ModuleSpec(OpeningFirst, g, n).files.header;
    var hm := ModuleSpec(OpeningFirst, startA, m).files.header;
    assert startA.files.header == g.files.header + ModuleOpening(g.depth, n.name);
    OpeningComesFirst(startA, m);
    FirstChildOutputFirst(OpeningFirst, g, n);
    assert hm <= h;
    PrefixTransitive(g.files.header + ModuleOpening(g.depth, n.name) + ModuleOpening(g.depth + 1, m.name), hm, h);
  }
}
