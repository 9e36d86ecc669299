/** What the C++11 class generator guarantees, proved about the
    specification functions of module BackendCpp11. */
module BackendCpp11Properties {
  import opened Wrappers
  import opened Text
  import opened Alignment
  import opened BackendCpp11

  // ---------------------------------------------------------------------
  // Type names
  // ---------------------------------------------------------------------

  /** The base type a C++ name stands for, choosing double for both
      floating-point doubles and uint8_t for both octet and unsigned
      8-bit integers. */
  function BaseTypeOfName(s: string): Option<BaseType>
  {
    if s == "int8_t" then Some(Integer(Int8, false))
    else if s == "int16_t" then Some(Integer(Int16, false))
    else if s == "int32_t" then Some(Integer(Int32, false))
    else if s == "int64_t" then Some(Integer(Int64, false))
    else if s == "uint8_t" then Some(Integer(Int8, true))
    else if s == "uint16_t" then Some(Integer(Int16, true))
    else if s == "uint32_t" then Some(Integer(Int32, true))
    else if s == "uint64_t" then Some(Integer(Int64, true))
    else if s == "float" then Some(FloatingPoint(Float))
    else if s == "double" then Some(FloatingPoint(Double))
    else if s == "char" then Some(Char)
    else if s == "wchar" then Some(WChar)
    else if s == "bool" then Some(Bool)
    else None
  }

  /** The representative of the base types sharing a C++ name. */
  function Canonical(b: BaseType): BaseType
  {
    match b
    case FloatingPoint(LongDouble) => FloatingPoint(Double)
    case Octet => Integer(Int8, true)
    case _ => b
  }

  /** Every base type's C++ name reads back as the type, up to the two
      merges C++ makes: long double is written double and octet uint8_t. */
  lemma BaseTypeNameRoundTrip(b: BaseType)
    ensures BaseTypeOfName(BaseTypeName(b)) == Some(Canonical(b))
  {
    match b
    case Integer(size, unsigned) =>
      if unsigned {
        match size
        case Int8 => assert BaseTypeName(b) == "uint8_t";
        case Int16 => assert BaseTypeName(b) == "uint16_t";
        case Int32 => assert BaseTypeName(b) == "uint32_t";
        case Int64 => assert BaseTypeName(b) == "uint64_t";
      }
    case FloatingPoint(kind) =>
    case Char =>
    case WChar =>
    case Bool =>
    case Octet =>
  }

  /** Two base types share a C++ name exactly when they have the same
      representative. */
  lemma BaseTypeNameInjective(a: BaseType, b: BaseType)
    ensures BaseTypeName(a) == BaseTypeName(b) <==> Canonical(a) == Canonical(b)
  {
    BaseTypeNameRoundTrip(a);
    BaseTypeNameRoundTrip(b);
  }

  /** The C++ name of an integer type carries its width in bits, the width
      the alignment rules give it (ByteWidth equals NaturalWidth), and a "u"
      exactly for unsigned types. */
  lemma IntegerNameCarriesWidth(size: IntSize, unsigned: bool)
    ensures var t := Integer(size, unsigned);
            BaseTypeName(t) == (if unsigned then "u" else "") + "int" + NatToString(8 * NaturalWidth(t)) + "_t"
  {
    BitWidthNames();
  }

  lemma BitWidthNames()
    ensures NatToString(8) == "8" && NatToString(16) == "16"
    ensures NatToString(32) == "32" && NatToString(64) == "64"
  {
    assert NatToString(16) == NatToString(1) + "6";
    assert NatToString(32) == NatToString(3) + "2";
    assert NatToString(64) == NatToString(6) + "4";
  }

  /** The element name inside a `std::vector<...>` name, if it is one. */
  function VectorElement(s: string): (r: Option<string>)
    ensures r.Some? ==> s == VectorOpen + r.value + ">"
  {
    if |s| > |VectorOpen| && s[..|VectorOpen|] == VectorOpen && s[|s| - 1] == '>'
    then
      assert s == s[..|VectorOpen|] + s[|VectorOpen|..|s| - 1] + [s[|s| - 1]];
      Some(s[|VectorOpen|..|s| - 1])
    else None
  }

  /** A sequence's C++ name gives back its element's name. */
  lemma SequenceNameRoundTrip(element: TypeSpec)
    requires Supported(element)
    ensures VectorElement(Cpp11Type(Sequence(element))) == Some(Cpp11Type(element))
  {
    var s := Cpp11Type(Sequence(element));
    assert s[..|VectorOpen|] == VectorOpen;
    assert s[|VectorOpen|..|s| - 1] == Cpp11Type(element);
  }

  /** Nesting a type n times in sequences wraps its name in n vectors. */
  function Nested(t: TypeSpec, n: nat): (r: TypeSpec)
    ensures Supported(r) <==> Supported(t)
  {
    if n == 0 then t else Sequence(Nested(t, n - 1))
  }

  /** Unwrapping n vectors from the name of a type nested n times gives back
      the name of the innermost type. */
  function Unwrap(s: string, n: nat): Option<string>
  {
    if n == 0 then Some(s)
    else match VectorElement(s)
      case None => None
      case Some(e) => Unwrap(e, n - 1)
  }

  lemma {:induction false} NestedNameRoundTrip(t: TypeSpec, n: nat)
    requires Supported(t)
    ensures Unwrap(Cpp11Type(Nested(t, n)), n) == Some(Cpp11Type(t))
  {
    NestedNameIsWrapped(t, n);
    UnwrapWrapped(Cpp11Type(t), n);
  }

  /** A name inside n `std::vector<...>` wrappers. */
  function Wrapped(s: string, n: nat): string
  {
    if n == 0 then s else VectorOpen + Wrapped(s, n - 1) + ">"
  }

  lemma {:induction false} NestedNameIsWrapped(t: TypeSpec, n: nat)
    requires Supported(t)
    ensures Cpp11Type(Nested(t, n)) == Wrapped(Cpp11Type(t), n)
  {
    if n > 0 {
      NestedNameIsWrapped(t, n - 1);
    }
  }

  lemma {:induction false} UnwrapWrapped(s: string, n: nat)
    ensures Unwrap(Wrapped(s, n), n) == Some(s)
  {
    if n > 0 {
      var w := Wrapped(s, n);
      var inner := Wrapped(s, n - 1);
      assert w[..|VectorOpen|] == VectorOpen;
      assert w[|VectorOpen|..|w| - 1] == inner;
      assert VectorElement(w) == Some(inner);
      UnwrapWrapped(s, n - 1);
    }
  }

  // ---------------------------------------------------------------------
  // Default values
  // ---------------------------------------------------------------------

  /** A member gets an initialiser in the default constructor exactly when
      it is of a base type or an enum; an enum starts at its first
      enumerator, and every other default is a zero or false literal. */
  lemma DefaultValueIff(t: TypeSpec)
    requires t.Enumeration? ==> t.enumerators != []
    ensures DefaultValue(t).Some? <==> t.Base? || t.Enumeration?
    ensures t.Enumeration? ==> DefaultValue(t) == Some(t.enumerators[0])
    ensures t.Base? ==> DefaultValue(t).value in {"0", "0.0f", "0.0", "false"}
    ensures t.Base? && t.base.FloatingPoint? ==> DefaultValue(t).value[..3] == "0.0"
  {
  }

  // ---------------------------------------------------------------------
  // The parts of a class
  // ---------------------------------------------------------------------

  function TypedefLine(m: MemberState, d: int): Piece
  {
    Indented(d, "typedef " + m.typeName + " _" + m.name + "_seq;\n\n")
  }

  /** The test as written selects every template type: with the category
      bit inside IDL_SEQUENCE, the second conjunct holds for strings, wide
      strings and fixed point as well as for sequences. */
  lemma TemplatesSelected(t: TypeSpec)
    ensures Selects(AsWritten, t) <==> t.Sequence? || t.StringType? || t.WideStringType? || t.FixedPoint?
  {
  }

  /** There is a typedef line for every selected member and for nothing
      else, and there is none exactly when no member is selected. */
  lemma {:induction false} TypedefsCoverSelected(ms: seq<MemberState>, d: int, sel: Selection)
    ensures forall i :: 0 <= i < |ms| && Selects(sel, ms[i].spec) ==> TypedefLine(ms[i], d) in TypedefLines(ms, d, sel)
    ensures forall p :: p in TypedefLines(ms, d, sel) ==> exists i :: 0 <= i < |ms| && Selects(sel, ms[i].spec) && p == TypedefLine(ms[i], d)
    ensures TypedefLines(ms, d, sel) == [] <==> forall i :: 0 <= i < |ms| ==> !Selects(sel, ms[i].spec)
  {
    if ms != [] {
      var init, m := ms[..|ms| - 1], ms[|ms| - 1];
      TypedefsCoverSelected(init, d, sel);
      var tail := if Selects(sel, m.spec) then [TypedefLine(m, d)] else [];
      assert TypedefLines(ms, d, sel) == TypedefLines(init, d, sel) + tail;
      forall i | 0 <= i < |ms| && Selects(sel, ms[i].spec)
        ensures TypedefLine(ms[i], d) in TypedefLines(ms, d, sel)
      {
        if i < |init| {
          assert init[i] == ms[i];
        }
      }
      forall p | p in TypedefLines(ms, d, sel)
        ensures exists i :: 0 <= i < |ms| && Selects(sel, ms[i].spec) && p == TypedefLine(ms[i], d)
      {
        if p in TypedefLines(init, d, sel) {
          var i :| 0 <= i < |init| && Selects(sel, init[i].spec) && p == TypedefLine(init[i], d);
          assert init[i] == ms[i];
        } else {
          assert p == TypedefLine(ms[|ms| - 1], d);
        }
      }
      if forall i :: 0 <= i < |ms| ==> !Selects(sel, ms[i].spec) {
        assert forall i :: 0 <= i < |init| ==> init[i] == ms[i];
      }
    }
  }

  /** "public:" heads the typedef block exactly when some member is
      selected, and the typedefs sit one level deeper. */
  lemma TypedefsHeader(ms: seq<MemberState>, d: int, sel: Selection)
    ensures var t := Typedefs(ms, d, sel);
            (t != [] <==> exists i :: 0 <= i < |ms| && Selects(sel, ms[i].spec))
            && (t != [] ==> t[0] == Indented(d, "public:\n") && t[1..] == TypedefLines(ms, d + 1, sel))
  {
    TypedefsCoverSelected(ms, d + 1, sel);
  }

  /** As written, a string or wide string member gets a `_seq` typedef of
      its own, and "public:" with it; selecting sequences only, it gets
      none. */
  lemma StringMembersGetTypedefs(m: MemberState, d: int)
    requires m.spec.StringType? || m.spec.WideStringType?
    ensures Typedefs([m], d, AsWritten) == [Indented(d, "public:\n"), TypedefLine(m, d + 1)]
    ensures Typedefs([m], d, SequencesOnly) == []
  {
    assert [m][..0] == [];
    TemplatesSelected(m.spec);
    assert TypedefLines([m], d + 1, AsWritten) == [TypedefLine(m, d + 1)];
    assert TypedefLines([m], d + 1, SequencesOnly) == [];
  }

  /** Selecting sequences only: one typedef per sequence member and nothing
      else, and "public:" exactly when some member is a sequence. */
  lemma TypedefsCoverSequences(ms: seq<MemberState>, d: int)
    ensures forall i :: 0 <= i < |ms| && ms[i].spec.Sequence? ==> TypedefLine(ms[i], d) in TypedefLines(ms, d, SequencesOnly)
    ensures forall p :: p in TypedefLines(ms, d, SequencesOnly) ==> exists i :: 0 <= i < |ms| && ms[i].spec.Sequence? && p == TypedefLine(ms[i], d)
    ensures Typedefs(ms, d, SequencesOnly) != [] <==> exists i :: 0 <= i < |ms| && ms[i].spec.Sequence?
  {
    TypedefsCoverSelected(ms, d, SequencesOnly);
    TypedefsHeader(ms, d, SequencesOnly);
  }

  /** As written, the accessors' context survives the default constructor
      exactly when no member is an enumeration: one enumeration member
      leaves the text of every getter and setter undefined. */
  lemma {:induction false} AccessorsDeterminedIff(ms: seq<MemberState>, d: int)
    ensures AccessorsAfterConstructors(ms, d, false).Some? <==> forall i :: 0 <= i < |ms| ==> !ms[i].spec.Enumeration?
  {
    if ms != [] {
      var init := ms[..|ms| - 1];
      AccessorsDeterminedIff(init, d);
      assert forall i :: 0 <= i < |init| ==> init[i] == ms[i];
    }
  }

  /** Restoring the saved pointer keeps the member context for every member
      list, so the accessors are always the ones Accessors lists. */
  lemma {:induction false} RestoredContextKeepsAccessors(ms: seq<MemberState>, d: int)
    ensures AccessorsAfterConstructors(ms, d, true) == Some(Accessors(ms, d))
  {
    if ms != [] {
      RestoredContextKeepsAccessors(ms[..|ms| - 1], d);
    }
  }

  /** One attribute per member, in member order, one level deeper than
      "private:". */
  lemma {:induction false} AttributesInOrder(ms: seq<MemberState>, d: int)
    ensures |AttributeLines(ms, d)| == |ms|
    ensures forall i :: 0 <= i < |ms| ==> AttributeLines(ms, d)[i] == Indented(d, ms[i].typeName + " " + ms[i].name + "_;\n")
  {
    if ms != [] {
      AttributesInOrder(ms[..|ms| - 1], d);
    }
  }

  /** The members that have a default value. */
  function Defaulted(ms: seq<MemberState>): (r: seq<MemberState>)
    requires ValidStates(ms)
    ensures |r| <= |ms|
  {
    if ms == [] then []
    else
      assert ValidState(ms[|ms| - 1]);
      Defaulted(ms[..|ms| - 1]) + if DefaultValue(ms[|ms| - 1].spec).Some? then [ms[|ms| - 1]] else []
  }

  /** The default constructor's initialiser list: two pieces per member with
      a default, the first separated by " :\n" and the others by ",\n",
      each initialising the member with its default. */
  lemma {:induction false} DefaultInitsShape(ms: seq<MemberState>, d: int)
    requires ValidStates(ms)
    ensures var di, fs := DefaultInits(ms, d), Defaulted(ms);
            && |di| == 2 * |fs|
            && (fs == [] <==> !AnyDefault(ms))
            && (forall k :: 0 <= k < |fs| ==>
                  && di[2 * k] == Unindented(if k == 0 then " :\n" else ",\n")
                  && ValidState(fs[k])
                  && DefaultValue(fs[k].spec).Some?
                  && di[2 * k + 1] == Indented(d, fs[k].name + "_(" + DefaultValue(fs[k].spec).value + ")"))
  {
    if ms != [] {
      var init, m := ms[..|ms| - 1], ms[|ms| - 1];
      AnyDefaultSnoc(ms);
      DefaultInitsShape(init, d);
      var di0, fs0 := DefaultInits(init, d), Defaulted(init);
      match DefaultValue(m.spec)
      case None =>
        assert DefaultInits(ms, d) == di0;
        assert Defaulted(ms) == fs0;
      case Some(v) =>
        var di, fs := DefaultInits(ms, d), Defaulted(ms);
        assert di == di0 + [Unindented(if AnyDefault(init) then ",\n" else " :\n"), Indented(d, m.name + "_(" + v + ")")];
        assert fs == fs0 + [m];
        forall k | 0 <= k < |fs|
          ensures && di[2 * k] == Unindented(if k == 0 then " :\n" else ",\n")
                  && ValidState(fs[k])
                  && DefaultValue(fs[k].spec).Some?
                  && di[2 * k + 1] == Indented(d, fs[k].name + "_(" + DefaultValue(fs[k].spec).value + ")")
        {
          if k < |fs0| {
            assert fs[k] == fs0[k] && di[2 * k] == di0[2 * k] && di[2 * k + 1] == di0[2 * k + 1];
          } else {
            assert fs[k] == m && v == DefaultValue(m.spec).value;
            assert di[2 * k + 1] == Indented(d, m.name + "_(" + v + ")");
          }
        }
    }
  }

  /** A sequence has a member with a default exactly when its prefix has one
      or its last member has one. */
  lemma AnyDefaultSnoc(ms: seq<MemberState>)
    requires ValidStates(ms) && ms != []
    ensures ValidStates(ms[..|ms| - 1]) && ValidState(ms[|ms| - 1])
    ensures AnyDefault(ms) <==> AnyDefault(ms[..|ms| - 1]) || DefaultValue(ms[|ms| - 1].spec).Some?
  {
    var init, m := ms[..|ms| - 1], ms[|ms| - 1];
    assert forall i :: 0 <= i < |init| ==> init[i] == ms[i];
    assert ValidState(m);
    if AnyDefault(init) {
      var j :| 0 <= j < |init| && DefaultValue(init[j].spec).Some?;
      assert ms[j] == init[j];
    }
    if AnyDefault(ms) && DefaultValue(m.spec).None? {
      var j :| 0 <= j < |ms| && DefaultValue(ms[j].spec).Some?;
      assert init[j] == ms[j];
    }
  }

  /** Getter, reference getter and setter per member, plus a move setter for
      reference types, all one level deeper than the class. */
  lemma {:induction false} AccessorsCount(ms: seq<MemberState>, d: int)
    ensures |Accessors(ms, d)| == 3 * |ms| + |References(ms)|
    ensures forall p :: p in Accessors(ms, d) ==> p == Indented(d + 1, p.text)
  {
    if ms != [] {
      AccessorsCount(ms[..|ms| - 1], d);
    }
  }

  /** The members of reference type. */
  function References(ms: seq<MemberState>): (r: seq<MemberState>)
    ensures forall m :: m in r ==> m in ms && m.isReference
  {
    if ms == [] then []
    else References(ms[..|ms| - 1]) + if ms[|ms| - 1].isReference then [ms[|ms| - 1]] else []
  }

  // ---------------------------------------------------------------------
  // The explicit constructor (see Findings)
  // ---------------------------------------------------------------------

  /** A name with no parentheses in it, as get_cpp11_name and
      get_cpp11_type produce for valid identifiers. */
  predicate Plain(s: string)
  {
    '(' !in s && ')' !in s
  }

  /** Parentheses opened minus parentheses closed. */
  function OpenParens(s: string): int
  {
    if s == [] then 0 else OpenParens(s[..|s| - 1]) + ParenValue(s[|s| - 1])
  }

  function ParenValue(c: char): int
  {
    if c == '(' then 1 else if c == ')' then -1 else 0
  }

  lemma {:induction false} OpenParensAppend(a: string, b: string)
    ensures OpenParens(a + b) == OpenParens(a) + OpenParens(b)
  {
    if b != [] {
      var ab, b' := a + b, b[..|b| - 1];
      assert ab[..|ab| - 1] == a + b';
      assert ab[|ab| - 1] == b[|b| - 1];
      OpenParensAppend(a, b');
      assert OpenParens(ab) == OpenParens(a + b') + ParenValue(b[|b| - 1]);
    } else {
      assert a + b == a;
    }
  }

  lemma CharParens(c: char)
    ensures OpenParens([c]) == if c == '(' then 1 else if c == ')' then -1 else 0
  {
    assert [c][..0] == [];
  }

  lemma {:induction false} PlainBalanced(s: string)
    requires Plain(s)
    ensures OpenParens(s) == 0
  {
    if s != [] {
      assert s[|s| - 1] in s;
      PlainBalanced(s[..|s| - 1]);
    }
  }

  lemma {:induction false} FlattenAppend(p: seq<Piece>, q: seq<Piece>)
    ensures Flatten(p + q) == Flatten(p) + Flatten(q)
  {
    if q != [] {
      var pq, q' := p + q, q[..|q| - 1];
      assert pq[..|pq| - 1] == p + q';
      assert pq[|pq| - 1] == q[|q| - 1];
      FlattenAppend(p, q');
      assert Flatten(pq) == Flatten(p) + Flatten(q') + q[|q| - 1].text;
    } else {
      assert p + q == p;
    }
  }

  /** The parentheses in the fixed texts of the explicit constructor. */
  lemma FixedTextParens()
    ensures OpenParens(" ") == 0 && OpenParens(",\n") == 0 && OpenParens(" {}\n\n") == 0
    ensures OpenParens("explicit ") == 0
    ensures OpenParens(") :\n") == -1 && OpenParens(")") == -1
    ensures OpenParens("_(") == 1 && OpenParens("(\n") == 1
  {
    PlainBalanced(" ");
    PlainBalanced(",\n");
    PlainBalanced(" {}\n\n");
    PlainBalanced("explicit ");
    PlainBalanced(" :\n");
    PlainBalanced("_");
    PlainBalanced("\n");
    CharParens('(');
    CharParens(')');
    assert ") :\n" == [')'] + " :\n";
    OpenParensAppend([')'], " :\n");
    assert "_(" == "_" + ['('];
    OpenParensAppend("_", ['(']);
    assert "(\n" == ['('] + "\n";
    OpenParensAppend(['('], "\n");
  }

  lemma ParamParens(ms: seq<MemberState>, i: nat, d: int)
    requires i < |ms| && Plain(ms[i].typeName) && Plain(ms[i].name)
    ensures OpenParens(ParamPiece(ms, i, d).text) == if i == |ms| - 1 then -1 else 0
  {
    var m := ms[i];
    PlainBalanced(m.typeName);
    PlainBalanced(m.name);
    FixedTextParens();
    OpenParensAppend(m.typeName, " ");
    OpenParensAppend(m.typeName + " ", m.name);
    OpenParensAppend(m.typeName + " " + m.name, if i == |ms| - 1 then ") :\n" else ",\n");
  }

  lemma InitParens(ms: seq<MemberState>, i: nat, d: int)
    requires i < |ms| && Plain(ms[i].name)
    ensures OpenParens(InitPiece(ms, i, d).text) == 0
  {
    var m := ms[i];
    PlainBalanced(m.name);
    FixedTextParens();
    OpenParensAppend(m.name, "_(");
    OpenParensAppend(m.name + "_(", m.name);
    OpenParensAppend(m.name + "_(" + m.name, ")");
    OpenParensAppend(m.name + "_(" + m.name + ")", if i == |ms| - 1 then " {}\n\n" else ",\n");
  }

  lemma {:induction false} ParamsParens(ms: seq<MemberState>, d: int, k: nat)
    requires k <= |ms|
    requires forall i :: 0 <= i < |ms| ==> Plain(ms[i].typeName) && Plain(ms[i].name)
    ensures OpenParens(Flatten(Params(ms, k, d))) == if k == |ms| && k > 0 then -1 else 0
  {
    if k > 0 {
      ParamsParens(ms, d, k - 1);
      ParamParens(ms, k - 1, d);
      OpenParensAppend(Flatten(Params(ms, k - 1, d)), ParamPiece(ms, k - 1, d).text);
    }
  }

  lemma {:induction false} InitsParens(ms: seq<MemberState>, d: int, k: nat)
    requires k <= |ms|
    requires forall i :: 0 <= i < |ms| ==> Plain(ms[i].name)
    ensures OpenParens(Flatten(Inits(ms, k, d))) == 0
  {
    if k > 0 {
      InitsParens(ms, d, k - 1);
      InitParens(ms, k - 1, d);
      OpenParensAppend(Flatten(Inits(ms, k - 1, d)), InitPiece(ms, k - 1, d).text);
    }
  }

  /** As written, a struct without members gets an explicit constructor
      whose parameter list is opened and never closed. */
  lemma EmptyStructConstructorUnclosed(name: string, d: int)
    requires Plain(name)
    ensures ExplicitConstructor(name, [], d) == [Indented(d + 1, "explicit " + name + "(\n")]
    ensures OpenParens(Flatten(ExplicitConstructor(name, [], d))) == 1
    ensures var cs := Constructors(name, [], d); cs[|cs| - 1] == Indented(d + 1, "explicit " + name + "(\n")
  {
    var text := "explicit " + name + "(\n";
    var piece := [Indented(d + 1, text)];
    assert Params([], 0, d + 3) == [] && Inits([], 0, d + 5) == [];
    assert ExplicitConstructor(name, [], d) == piece;
    assert Flatten(piece) == Flatten([]) + text;
    assert Flatten(piece) == text;
    PlainBalanced(name);
    FixedTextParens();
    OpenParensAppend("explicit ", name);
    OpenParensAppend("explicit " + name, "(\n");
  }

  /** The corrected explicit constructor closes every parenthesis it opens,
      whatever the number of members, and agrees with the code as written
      whenever there is a member. */
  lemma CorrectedConstructorBalanced(name: string, ms: seq<MemberState>, d: int)
    requires Plain(name)
    requires forall i :: 0 <= i < |ms| ==> Plain(ms[i].typeName) && Plain(ms[i].name)
    ensures OpenParens(Flatten(CorrectedExplicitConstructor(name, ms, d))) == 0
    ensures ms != [] ==> CorrectedExplicitConstructor(name, ms, d) == ExplicitConstructor(name, ms, d)
  {
    if ms != [] {
      var head := [Indented(d + 1, "explicit " + name + "(\n")];
      var params, inits := Params(ms, |ms|, d + 3), Inits(ms, |ms|, d + 5);
      FlattenAppend(head + params, inits);
      FlattenAppend(head, params);
      assert Flatten(head) == "explicit " + name + "(\n";
      PlainBalanced(name);
    FixedTextParens();
    OpenParensAppend("explicit ", name);
      OpenParensAppend("explicit " + name, "(\n");
      OpenParensAppend(Flatten(head), Flatten(params));
      OpenParensAppend(Flatten(head) + Flatten(params), Flatten(inits));
      ParamsParens(ms, d + 3, |ms|);
      InitsParens(ms, d + 5, |ms|);
    }
  }

  // ---------------------------------------------------------------------
  // The scope walk
  // ---------------------------------------------------------------------

  /** Every piece is indented at least at the given depth. */
  predicate AtLeast(ps: seq<Piece>, d: int)
  {
    forall p :: p in ps && p.Indented? ==> p.depth >= d
  }

  lemma AtLeastAppend(a: seq<Piece>, b: seq<Piece>, d: int)
    requires AtLeast(a, d) && AtLeast(b, d)
    ensures AtLeast(a + b, d)
  {
  }

  /** Inside a module nothing makes the walk fail: declarations that are
      neither modules nor constructed types are skipped. */
  lemma {:induction false} ModuleWalkSucceeds(ds: seq<Decl>, d: int)
    requires ValidDecls(ds)
    ensures EmitChildren(ds, d, true).result == Ok
    decreases ds
  {
    if ds != [] {
      ModuleWalkSucceeds(ds[1..], d);
      if ds[0].ModuleDecl? {
        ModuleWalkSucceeds(ds[0].children, d + 1);
      }
    }
  }

  /** At the top level the walk fails exactly when some declaration is
      neither a module nor a constructed type. */
  lemma {:induction false} TopLevelFailsIff(ds: seq<Decl>, d: int)
    requires ValidDecls(ds)
    ensures EmitChildren(ds, d, false).result == InvalidParsetree <==> exists i :: 0 <= i < |ds| && ds[i].OtherDecl?
    decreases ds
  {
    if ds != [] {
      TopLevelFailsIff(ds[1..], d);
      if ds[0].ModuleDecl? {
        ModuleWalkSucceeds(ds[0].children, d + 1);
      }
      if exists i :: 0 <= i < |ds[1..]| && ds[1..][i].OtherDecl? {
        var i :| 0 <= i < |ds[1..]| && ds[1..][i].OtherDecl?;
        assert ds[i + 1].OtherDecl?;
      }
      if exists i :: 0 <= i < |ds| && ds[i].OtherDecl? {
        var i :| 0 <= i < |ds| && ds[i].OtherDecl?;
        if i > 0 {
          assert ds[1..][i - 1].OtherDecl?;
        }
      }
    }
  }

  lemma {:induction false} TypedefLinesAtLeast(ms: seq<MemberState>, d: int, sel: Selection)
    ensures AtLeast(TypedefLines(ms, d, sel), d)
  {
    if ms != [] {
      TypedefLinesAtLeast(ms[..|ms| - 1], d, sel);
    }
  }

  lemma {:induction false} AttributeLinesAtLeast(ms: seq<MemberState>, d: int)
    ensures AtLeast(AttributeLines(ms, d), d)
  {
    if ms != [] {
      AttributeLinesAtLeast(ms[..|ms| - 1], d);
    }
  }

  lemma {:induction false} DefaultInitsAtLeast(ms: seq<MemberState>, d: int)
    requires ValidStates(ms)
    ensures AtLeast(DefaultInits(ms, d), d)
  {
    if ms != [] {
      var init := ms[..|ms| - 1];
      assert ValidStates(init) by {
        assert forall i :: 0 <= i < |init| ==> init[i] == ms[i];
      }
      DefaultInitsAtLeast(init, d);
    }
  }

  lemma {:induction false} ParamsInitsAtLeast(ms: seq<MemberState>, k: nat, d: int)
    requires k <= |ms|
    ensures AtLeast(Params(ms, k, d), d) && AtLeast(Inits(ms, k, d), d)
  {
    if k > 0 {
      ParamsInitsAtLeast(ms, k - 1, d);
    }
  }

  lemma ConstructorsAtLeast(name: string, ms: seq<MemberState>, d: int)
    requires ValidStates(ms)
    ensures AtLeast(Constructors(name, ms, d), d)
  {
    DefaultInitsAtLeast(ms, d + 3);
    ParamsInitsAtLeast(ms, |ms|, d + 3);
    ParamsInitsAtLeast(ms, |ms|, d + 5);
    var explicit := ExplicitConstructor(name, ms, d);
    assert AtLeast(explicit, d);
    assert AtLeast(DefaultConstructor(name, ms, d), d);
  }

  lemma StructAtLeast(name: string, ms: seq<MemberState>, d: int)
    requires ValidStates(ms)
    ensures AtLeast(StructPieces(name, ms, d), d)
  {
    TypedefLinesAtLeast(ms, d + 1, AsWritten);
    AttributeLinesAtLeast(ms, d + 1);
    ConstructorsAtLeast(name, ms, d);
    AccessorsCount(ms, d);
    var typedefs, attributes := Typedefs(ms, d, AsWritten), Attributes(ms, d);
    assert AtLeast(typedefs, d) && AtLeast(attributes, d);
    AtLeastAppend(typedefs, attributes, d);
    AtLeastAppend(Constructors(name, ms, d), Accessors(ms, d), d);
    AtLeastAppend(typedefs + attributes, Constructors(name, ms, d) + Accessors(ms, d), d);
  }

  /** Generated text is never indented less than the scope it belongs to:
      each module's contents sit one level deeper than its braces. */
  lemma {:induction false} EmitAtLeast(decl: Decl, d: int)
    requires ValidDecl(decl)
    ensures AtLeast(EmitDecl(decl, d).pieces, d)
    decreases decl, 1
  {
    match decl
    case ModuleDecl(name, children) =>
      ChildrenAtLeast(children, d + 1, true);
    case StructDecl(name, members) =>
      StructAtLeast(name, States(members), d);
    case _ =>
  }

  lemma {:induction false} ChildrenAtLeast(ds: seq<Decl>, d: int, inModule: bool)
    requires ValidDecls(ds)
    ensures AtLeast(EmitChildren(ds, d, inModule).pieces, d)
    decreases ds, 0
  {
    if ds != [] {
      ChildrenAtLeast(ds[1..], d, inModule);
      EmitAtLeast(ds[0], d);
    }
  }
}
