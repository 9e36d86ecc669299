/** The C++11 class generator (backendCpp11.c): the mapping from IDL types to
    C++ type names and default values, and the text emitted for a struct
    (typedefs, attributes, constructors, getters and setters) and for the
    modules around it. Names arrive already converted by get_cpp11_name,
    which is not part of this model. The output file is a sequence of
    pieces, each either indented at the current depth (idl_file_out_printf)
    or not (idl_file_out_printf_no_indent). */
module BackendCpp11 {
  import opened Wrappers
  import opened Alignment

  // ---------------------------------------------------------------------
  // Types, names and default values
  // ---------------------------------------------------------------------

  /** The type of a member, as the node flags tell the generator. */
  datatype TypeSpec =
    | Base(base: BaseType)
    | Sequence(element: TypeSpec)
    | StringType
    | WideStringType
    | FixedPoint
    | Enumeration(name: string, enumerators: seq<string>)
    | Constructed(name: string)
    | ScopedName(name: string)

  /** The types get_cpp11_type handles without reaching `assert(0)`: fixed
      point is refused, also as a sequence element. */
  predicate Supported(t: TypeSpec)
  {
    match t
    case FixedPoint => false
    case Sequence(e) => Supported(e)
    case _ => true
  }

  function IntName(size: IntSize): string
  {
    match size
    case Int8 => "int8_t"
    case Int16 => "int16_t"
    case Int32 => "int32_t"
    case Int64 => "int64_t"
  }

  /** get_cpp11_base_type */
  function BaseTypeName(b: BaseType): string
  {
    match b
    case Integer(size, unsigned) => if unsigned then "u" + IntName(size) else IntName(size)
    case FloatingPoint(kind) => if kind == Float then "float" else "double"
    case Char => "char"
    case WChar => "wchar"
    case Bool => "bool"
    case Octet => "uint8_t"
  }

  const VectorOpen := "std::vector<"

  /** get_cpp11_type, with get_cpp11_templ_type for the template types. */
  function Cpp11Type(t: TypeSpec): string
    requires Supported(t)
  {
    match t
    case Base(b) => BaseTypeName(b)
    case Sequence(e) => VectorOpen + Cpp11Type(e) + ">"
    case StringType => "std::string"
    case WideStringType => "std::wstring"
    case Enumeration(name, _) => name
    case Constructed(name) => name
    case ScopedName(name) => name
  }

  /** get_default_value: a zero literal for base types, the first
      enumerator for an enum (the child walk stops after one step), and
      nothing for the rest, which initialise themselves. */
  function DefaultValue(t: TypeSpec): Option<string>
    requires t.Enumeration? ==> t.enumerators != []
  {
    match t
    case Base(b) =>
      (match b
       case Integer(_, _) => Some("0")
       case FloatingPoint(kind) => if kind == Float then Some("0.0f") else Some("0.0")
       case Bool => Some("false")
       case _ => Some("0"))
    case Enumeration(_, enumerators) => Some(enumerators[0])
    case _ => None
  }

  // ---------------------------------------------------------------------
  // Members of a struct
  // ---------------------------------------------------------------------

  /** A member declaration: its type, its name, and whether idl_is_reference
      holds for it (a query not part of this model). */
  datatype MemberDecl = MemberDecl(spec: TypeSpec, name: string, isReference: bool)

  predicate ValidMember(d: MemberDecl)
  {
    Supported(d.spec) && (d.spec.Enumeration? ==> d.spec.enumerators != [])
  }

  /** cpp11_member_state: the node with its converted type and member name. */
  datatype MemberState = MemberState(spec: TypeSpec, typeName: string, name: string, isReference: bool)

  predicate ValidState(m: MemberState)
  {
    Supported(m.spec) && (m.spec.Enumeration? ==> m.spec.enumerators != [])
  }

  predicate ValidStates(ms: seq<MemberState>)
  {
    forall i :: 0 <= i < |ms| ==> ValidState(ms[i])
  }

  /** What get_cpp11_member_data records for a member. */
  function StateOf(d: MemberDecl): MemberState
    requires ValidMember(d)
  {
    MemberState(d.spec, Cpp11Type(d.spec), d.name, d.isReference)
  }

  // ---------------------------------------------------------------------
  // Output
  // ---------------------------------------------------------------------

  datatype Piece = Indented(depth: int, text: string) | Unindented(text: string)

  /** The text of the pieces, indentation aside. */
  function Flatten(ps: seq<Piece>): string
  {
    if ps == [] then "" else Flatten(ps[..|ps| - 1]) + ps[|ps| - 1].text
  }

  /** The category bit of the template types in a node's flags. Its
      position is set by the parse tree's header, which is not part of this
      model; all that matters here is that it lies above the low nibble. */
  const TemplTypeBit: bv32 := 0x2_0000

  /** IDL_SEQUENCE: the category bit with the sequence's code 1, composed
      the way IDL_INTEGER_TYPE and the integer flags are (the code is the
      low nibble, streamer_generator.c:293-305). */
  const SequenceFlags: bv32 := TemplTypeBit | 1

  /** The template part of a member's node flags: the category bit and the
      code of the template type (sequence 1, string 2, wide string 3, fixed
      point 4). The other types lack the category bit, which is all that
      the typedef test below needs to know about them. */
  function TemplateFlags(t: TypeSpec): bv32
  {
    match t
    case Sequence(_) => TemplTypeBit | 1
    case StringType => TemplTypeBit | 2
    case WideStringType => TemplTypeBit | 3
    case FixedPoint => TemplTypeBit | 4
    case _ => 0
  }

  /** Which members get a `_seq` typedef: the test of
      struct_generate_typedefs as written (the template bit and any bit of
      IDL_SEQUENCE), or the sequences alone, which its comment and the
      `_seq` suffix name. */
  datatype Selection = AsWritten | SequencesOnly

  predicate Selects(sel: Selection, t: TypeSpec)
  {
    match sel
    case AsWritten => TemplateFlags(t) & TemplTypeBit != 0 && TemplateFlags(t) & SequenceFlags != 0
    case SequencesOnly => t.Sequence?
  }

  /** The typedef lines for the selected members, in member order. */
  function TypedefLines(ms: seq<MemberState>, d: int, sel: Selection): seq<Piece>
  {
    if ms == [] then []
    else
      var m := ms[|ms| - 1];
      TypedefLines(ms[..|ms| - 1], d, sel)
        + (if Selects(sel, m.spec) then [Indented(d, "typedef " + m.typeName + " _" + m.name + "_seq;\n\n")] else [])
  }

  /** struct_generate_typedefs: `public:` before the first typedef only. */
  function Typedefs(ms: seq<MemberState>, d: int, sel: Selection): seq<Piece>
  {
    var lines := TypedefLines(ms, d + 1, sel);
    if lines == [] then [] else [Indented(d, "public:\n")] + lines
  }

  function AttributeLines(ms: seq<MemberState>, d: int): seq<Piece>
  {
    if ms == [] then []
    else
      var m := ms[|ms| - 1];
      AttributeLines(ms[..|ms| - 1], d) + [Indented(d, m.typeName + " " + m.name + "_;\n")]
  }

  /** struct_generate_attributes */
  function Attributes(ms: seq<MemberState>, d: int): seq<Piece>
  {
    [Indented(d, "private:\n")] + AttributeLines(ms, d + 1) + [Indented(d, "\n")]
  }

  /** Whether some member has a default value. */
  predicate AnyDefault(ms: seq<MemberState>)
    requires ValidStates(ms)
  {
    exists i :: 0 <= i < |ms| && DefaultValue(ms[i].spec).Some?
  }

  /** The initialisers of the default constructor: members with a default
      value only, the first after " :\n" and the others after ",\n". */
  function DefaultInits(ms: seq<MemberState>, d: int): seq<Piece>
    requires ValidStates(ms)
  {
    if ms == [] then []
    else
      var init := ms[..|ms| - 1];
      var m := ms[|ms| - 1];
      assert ValidState(m);
      DefaultInits(init, d)
        + match DefaultValue(m.spec)
          case None => []
          case Some(v) => [Unindented(if AnyDefault(init) then ",\n" else " :\n"), Indented(d, m.name + "_(" + v + ")")]
  }

  /** The parameter of the explicit constructor for member i: ",\n" after
      all but the last, ") :\n" after the last. */
  function ParamPiece(ms: seq<MemberState>, i: nat, d: int): Piece
    requires i < |ms|
  {
    Indented(d, ms[i].typeName + " " + ms[i].name + (if i == |ms| - 1 then ") :\n" else ",\n"))
  }

  /** The initialiser of the explicit constructor for member i: ",\n" after
      all but the last, " {}\n\n" after the last. */
  function InitPiece(ms: seq<MemberState>, i: nat, d: int): Piece
    requires i < |ms|
  {
    Indented(d, ms[i].name + "_(" + ms[i].name + ")" + (if i == |ms| - 1 then " {}\n\n" else ",\n"))
  }

  /** The parameters of the first k members. */
  function Params(ms: seq<MemberState>, k: nat, d: int): (ps: seq<Piece>)
    requires k <= |ms|
    ensures |ps| == k
  {
    if k == 0 then [] else Params(ms, k - 1, d) + [ParamPiece(ms, k - 1, d)]
  }

  /** The initialisers of the first k members. */
  function Inits(ms: seq<MemberState>, k: nat, d: int): (ps: seq<Piece>)
    requires k <= |ms|
    ensures |ps| == k
  {
    if k == 0 then [] else Inits(ms, k - 1, d) + [InitPiece(ms, k - 1, d)]
  }

  /** The default constructor, entered at depth d + 1 (initialisers at
      d + 3). */
  function DefaultConstructor(name: string, ms: seq<MemberState>, d: int): seq<Piece>
    requires ValidStates(ms)
  {
    [Indented(d + 1, name + "()")] + DefaultInits(ms, d + 3) + [Unindented(" {}\n\n")]
  }

  /** The explicit constructor, at depth d + 1 (parameters at d + 3,
      initialisers at d + 5). */
  function ExplicitConstructor(name: string, ms: seq<MemberState>, d: int): seq<Piece>
  {
    [Indented(d + 1, "explicit " + name + "(\n")] + Params(ms, |ms|, d + 3) + Inits(ms, |ms|, d + 5)
  }

  /** The explicit constructor as it is meant to be: none for a struct
      without members, whose default constructor already takes no
      arguments. */
  function CorrectedExplicitConstructor(name: string, ms: seq<MemberState>, d: int): seq<Piece>
  {
    if ms == [] then [] else ExplicitConstructor(name, ms, d)
  }

  /** struct_generate_constructors_and_operators: the default and the
      explicit constructor, the latter as written even for a struct without
      members. */
  function Constructors(name: string, ms: seq<MemberState>, d: int): seq<Piece>
    requires ValidStates(ms)
  {
    [Indented(d, "public:\n")] + DefaultConstructor(name, ms, d) + ExplicitConstructor(name, ms, d)
  }

  /** The accessors of one member: const getter, reference getter, setter,
      and a move setter for reference types. */
  function AccessorLines(m: MemberState, d: int): seq<Piece>
  {
    [Indented(d, m.typeName + " " + m.name + "() const { return this->" + m.name + "_; }\n"),
     Indented(d, m.typeName + "& " + m.name + "() { return this->" + m.name + "_; }\n"),
     Indented(d, "void " + m.name + "(" + m.typeName + " _val_) { this->" + m.name + "_ = _val_; }\n")]
    + if m.isReference then [Indented(d, "void " + m.name + "(" + m.typeName + "&& _val_) { this->" + m.name + "_ = _val_; }\n")]
      else []
  }

  /** struct_generate_getters_setters, one level deeper than the class. */
  function Accessors(ms: seq<MemberState>, d: int): seq<Piece>
  {
    if ms == [] then [] else Accessors(ms[..|ms| - 1], d) + AccessorLines(ms[|ms| - 1], d + 1)
  }

  // ---------------------------------------------------------------------
  // The custom context across get_default_value
  // ---------------------------------------------------------------------

  /** What the back end's custom context points to while a class is
      generated: the struct's member context, or the address of
      get_default_value's local `custom_context`, dead once it returns. */
  datatype CustomContext = MemberContext | DeadLocal

  /** get_default_value's effect on the custom context. For an enumeration
      it saves the context, installs its own for the walk over the
      enumerators and then installs `&custom_context` (line 248): the
      address of the local that holds the saved pointer rather than the
      pointer; `restoresSaved` chooses the latter instead. Every other type
      leaves the context alone. */
  function ContextAfterDefault(c: CustomContext, t: TypeSpec, restoresSaved: bool): CustomContext
  {
    if t.Enumeration? && !restoresSaved then DeadLocal else c
  }

  /** The context after the default constructor's loop over the members. */
  function ContextAfterDefaults(c: CustomContext, ms: seq<MemberState>, restoresSaved: bool): CustomContext
  {
    if ms == [] then c
    else ContextAfterDefault(ContextAfterDefaults(c, ms[..|ms| - 1], restoresSaved), ms[|ms| - 1].spec, restoresSaved)
  }

  /** What struct_generate_getters_setters prints after the constructors:
      it fetches the member context anew, so its text is known only while
      that context is intact; read through a dead stack address it is
      undefined (None). */
  function AccessorsAfterConstructors(ms: seq<MemberState>, d: int, restoresSaved: bool): Option<seq<Piece>>
  {
    if ContextAfterDefaults(MemberContext, ms, restoresSaved) == MemberContext then Some(Accessors(ms, d)) else None
  }

  /** The inside of a class: data first, then functions. */
  function ClassBody(name: string, ms: seq<MemberState>, d: int): seq<Piece>
    requires ValidStates(ms)
  {
    (Typedefs(ms, d, AsWritten) + Attributes(ms, d)) + (Constructors(name, ms, d) + Accessors(ms, d))
  }

  /** on_struct_open: the class and its parts, in order. */
  function StructPieces(name: string, ms: seq<MemberState>, d: int): seq<Piece>
    requires ValidStates(ms)
  {
    [Indented(d, "class " + name + " {\n")] + ClassBody(name, ms, d) + [Indented(d, "};\n\n")]
  }

  // ---------------------------------------------------------------------
  // The scope walk
  // ---------------------------------------------------------------------

  /** A declaration of the parse tree, as cpp11_scope_walk tells them apart:
      modules, structs (flags exactly IDL_STRUCT), other constructed types
      (unions, enums), and everything else. */
  datatype Decl =
    | ModuleDecl(name: string, children: seq<Decl>)
    | StructDecl(name: string, members: seq<MemberDecl>)
    | OtherConstructed(name: string)
    | OtherDecl

  datatype Retcode = Ok | InvalidParsetree

  datatype Emitted = Emitted(pieces: seq<Piece>, result: Retcode)

  predicate ValidDecl(d: Decl)
  {
    match d
    case ModuleDecl(_, children) => forall i :: 0 <= i < |children| ==> ValidDecl(children[i])
    case StructDecl(_, members) => forall i :: 0 <= i < |members| ==> ValidMember(members[i])
    case _ => true
  }

  predicate ValidDecls(ds: seq<Decl>)
  {
    forall i :: 0 <= i < |ds| ==> ValidDecl(ds[i])
  }

  function States(members: seq<MemberDecl>): (ms: seq<MemberState>)
    requires forall i :: 0 <= i < |members| ==> ValidMember(members[i])
    ensures |ms| == |members|
    ensures forall i :: 0 <= i < |members| ==> ms[i] == StateOf(members[i])
    ensures ValidStates(ms)
  {
    var ms := seq(|members|, i requires 0 <= i < |members| => StateOf(members[i]));
    assert forall i :: 0 <= i < |ms| ==> ValidMember(members[i]) && ms[i].spec == members[i].spec && ValidState(ms[i]);
    ms
  }

  /** cpp11_scope_walk on one declaration. */
  function EmitDecl(decl: Decl, d: int): Emitted
    requires ValidDecl(decl)
    decreases decl
  {
    match decl
    case ModuleDecl(name, children) =>
      var inner := EmitChildren(children, d + 1, true);
      Emitted([Indented(d, "namespace " + name + " {\n")] + inner.pieces + [Indented(d, "};\n")], inner.result)
    case StructDecl(name, members) => Emitted(StructPieces(name, States(members), d), Ok)
    case OtherConstructed(_) => Emitted([], Ok)
    case OtherDecl => Emitted([], InvalidParsetree)
  }

  /** The walk over a scope, stopping at the first result other than Ok:
      inside a module only modules and constructed types are visited
      (IDL_MODULE | IDL_CONSTR_TYPE), at the top level everything. */
  function EmitChildren(ds: seq<Decl>, d: int, inModule: bool): Emitted
    requires ValidDecls(ds)
    decreases ds
  {
    if ds == [] then Emitted([], Ok)
    else if inModule && ds[0].OtherDecl? then EmitChildren(ds[1..], d, inModule)
    else
      var head := EmitDecl(ds[0], d);
      if head.result != Ok then head
      else
        var tail := EmitChildren(ds[1..], d, inModule);
        Emitted(head.pieces + tail.pieces, tail.result)
  }

  // ---------------------------------------------------------------------
  // The generator, writing into the output file
  // ---------------------------------------------------------------------

  /** Output written in two steps is the concatenation of both. */
  lemma AppendAssoc(a: seq<Piece>, b: seq<Piece>, c: seq<Piece>)
    ensures (a + b) + c == a + (b + c)
  {
  }

  /** get_cpp11_member_data over the members: one entry per member, in
      order, in an array sized by count_members. */
  method CollectMembers(members: seq<MemberDecl>) returns (states: array<MemberState>)
    requires forall i :: 0 <= i < |members| ==> ValidMember(members[i])
    ensures fresh(states) && states[..] == States(members)
  {
    states := new MemberState[|members|](_ => MemberState(StringType, "", "", false));
    var count := 0;
    while count < |members|
      invariant count <= |members|
      invariant forall i :: 0 <= i < count ==> states[i] == StateOf(members[i])
    {
      states[count] := StateOf(members[count]);
      count := count + 1;
    }
  }

  class Writer {
    var pieces: seq<Piece>
    var depth: int

    constructor ()
      ensures pieces == [] && depth == 0
    {
      pieces := [];
      depth := 0;
    }

    /** idl_file_out_printf */
    method Print(text: string)
      modifies this
      ensures pieces == old(pieces) + [Indented(old(depth), text)] && depth == old(depth)
    {
      pieces := pieces + [Indented(depth, text)];
    }

    /** idl_file_out_printf_no_indent */
    method PrintNoIndent(text: string)
      modifies this
      ensures pieces == old(pieces) + [Unindented(text)] && depth == old(depth)
    {
      pieces := pieces + [Unindented(text)];
    }

    /** struct_generate_typedefs */
    method GenerateTypedefs(ms: seq<MemberState>)
      modifies this
      ensures pieces == old(pieces) + Typedefs(ms, old(depth), AsWritten) && depth == old(depth)
    {
      var start, d := pieces, depth;
      var firstTypedef := true;
      var i := 0;
      while i < |ms|
        invariant i <= |ms| && d == old(depth) && start == old(pieces)
        invariant firstTypedef <==> TypedefLines(ms[..i], d + 1, AsWritten) == []
        invariant depth == if firstTypedef then d else d + 1
        invariant pieces == start + Typedefs(ms[..i], d, AsWritten)
      {
        assert ms[..i + 1][..i] == ms[..i];
        if Selects(AsWritten, ms[i].spec) {
          if firstTypedef {
            Print("public:\n");
            depth := depth + 1;
            firstTypedef := false;
          }
          Print("typedef " + ms[i].typeName + " _" + ms[i].name + "_seq;\n\n");
        }
        i := i + 1;
      }
      assert ms[..i] == ms;
      if !firstTypedef {
        depth := depth - 1;
      }
    }

    /** struct_generate_attributes */
    method GenerateAttributes(ms: seq<MemberState>)
      modifies this
      ensures pieces == old(pieces) + Attributes(ms, old(depth)) && depth == old(depth)
    {
      var start := pieces;
      Print("private:\n");
      depth := depth + 1;
      var i := 0;
      while i < |ms|
        invariant i <= |ms| && depth == old(depth) + 1
        invariant pieces == start + [Indented(old(depth), "private:\n")] + AttributeLines(ms[..i], depth)
      {
        assert ms[..i + 1][..i] == ms[..i];
        Print(ms[i].typeName + " " + ms[i].name + "_;\n");
        i := i + 1;
      }
      assert ms[..i] == ms;
      depth := depth - 1;
      Print("\n");
    }

    /** The default constructor's initialiser loop. */
    method GenerateDefaultInits(ms: seq<MemberState>)
      requires ValidStates(ms)
      modifies this
      ensures pieces == old(pieces) + DefaultInits(ms, old(depth)) && depth == old(depth)
    {
      var start := pieces;
      var defValuePresent := false;
      var i := 0;
      while i < |ms|
        invariant i <= |ms| && depth == old(depth)
        invariant defValuePresent == AnyDefault(ms[..i])
        invariant pieces == start + DefaultInits(ms[..i], depth)
      {
        assert ms[..i + 1][..i] == ms[..i];
        assert ValidState(ms[i]);
        var defValue := DefaultValue(ms[i].spec);
        if defValue.Some? {
          if !defValuePresent {
            PrintNoIndent(" :\n");
            defValuePresent := true;
          } else {
            PrintNoIndent(",\n");
          }
          Print(ms[i].name + "_(" + defValue.value + ")");
        }
        assert AnyDefault(ms[..i + 1]) <==> AnyDefault(ms[..i]) || defValue.Some? by {
          if defValue.Some? {
            assert ms[..i + 1][i] == ms[i];
          }
          if AnyDefault(ms[..i + 1]) && !defValue.Some? {
            var j :| 0 <= j < i + 1 && DefaultValue(ms[..i + 1][j].spec).Some?;
            assert ms[..i][j] == ms[..i + 1][j];
          }
        }
        i := i + 1;
      }
      assert ms[..i] == ms;
    }

    /** The explicit constructor's parameter loop. */
    method GenerateParams(ms: seq<MemberState>)
      modifies this
      ensures pieces == old(pieces) + Params(ms, |ms|, old(depth)) && depth == old(depth)
    {
      var start := pieces;
      var i := 0;
      while i < |ms|
        invariant i <= |ms| && depth == old(depth)
        invariant pieces == start + Params(ms, i, depth)
      {
        Print(ms[i].typeName + " " + ms[i].name + (if i == |ms| - 1 then ") :\n" else ",\n"));
        i := i + 1;
      }
    }

    /** The explicit constructor's initialiser loop. */
    method GenerateInits(ms: seq<MemberState>)
      modifies this
      ensures pieces == old(pieces) + Inits(ms, |ms|, old(depth)) && depth == old(depth)
    {
      var start := pieces;
      var i := 0;
      while i < |ms|
        invariant i <= |ms| && depth == old(depth)
        invariant pieces == start + Inits(ms, i, depth)
      {
        Print(ms[i].name + "_(" + ms[i].name + ")" + (if i == |ms| - 1 then " {}\n\n" else ",\n"));
        i := i + 1;
      }
    }

    /** The default constructor: the name at one level deeper than the
        class, the initialisers two levels further. */
    method GenerateDefaultConstructor(name: string, ms: seq<MemberState>)
      requires ValidStates(ms)
      modifies this
      ensures pieces == old(pieces) + DefaultConstructor(name, ms, old(depth)) && depth == old(depth)
    {
      depth := depth + 1;
      Print(name + "()");
      depth := depth + 2;
      GenerateDefaultInits(ms);
      PrintNoIndent(" {}\n\n");
      depth := depth - 3;
    }

    /** The explicit constructor: parameters two levels deeper than its
        name, initialisers two levels further. The head is printed even for
        a struct without members, whose parameter list then stays open. */
    method GenerateExplicitConstructor(name: string, ms: seq<MemberState>)
      modifies this
      ensures pieces == old(pieces) + ExplicitConstructor(name, ms, old(depth)) && depth == old(depth)
    {
      ghost var d, p0 := depth, pieces;
      ghost var head := [Indented(d + 1, "explicit " + name + "(\n")];
      ghost var params, inits := Params(ms, |ms|, d + 3), Inits(ms, |ms|, d + 5);
      depth := depth + 1;
      Print("explicit " + name + "(\n");
      depth := depth + 2;
      GenerateParams(ms);
      depth := depth + 2;
      GenerateInits(ms);
      depth := depth - 5;
      AppendAssoc(p0 + head, params, inits);
      AppendAssoc(p0, head, params + inits);
      AppendAssoc(head, params, inits);
    }

    /** struct_generate_constructors_and_operators: the default and the
        explicit constructor (the operators are compiled out). */
    method GenerateConstructors(name: string, ms: seq<MemberState>)
      requires ValidStates(ms)
      modifies this
      ensures pieces == old(pieces) + Constructors(name, ms, old(depth)) && depth == old(depth)
    {
      Print("public:\n");
      GenerateDefaultConstructor(name, ms);
      GenerateExplicitConstructor(name, ms);
    }

    /** struct_generate_getters_setters */
    method GenerateAccessors(ms: seq<MemberState>)
      modifies this
      ensures pieces == old(pieces) + Accessors(ms, old(depth)) && depth == old(depth)
    {
      var start, d := pieces, depth;
      depth := depth + 1;
      var i := 0;
      while i < |ms|
        invariant i <= |ms| && depth == d + 1 && start == old(pieces) && d == old(depth)
        invariant pieces == start + Accessors(ms[..i], d)
      {
        assert ms[..i + 1][..i] == ms[..i];
        var m := ms[i];
        GenerateAccessorLines(m);
        assert Accessors(ms[..i + 1], d) == Accessors(ms[..i], d) + AccessorLines(m, d + 1);
        AppendAssoc(start, Accessors(ms[..i], d), AccessorLines(m, d + 1));
        i := i + 1;
      }
      assert ms[..i] == ms;
      depth := depth - 1;
    }

    /** The getter, the reference getter and the setter of one member, and
        the move setter when the member is passed by reference. */
    method GenerateAccessorLines(m: MemberState)
      modifies this
      ensures pieces == old(pieces) + AccessorLines(m, old(depth)) && depth == old(depth)
    {
      Print(m.typeName + " " + m.name + "() const { return this->" + m.name + "_; }\n");
      Print(m.typeName + "& " + m.name + "() { return this->" + m.name + "_; }\n");
      Print("void " + m.name + "(" + m.typeName + " _val_) { this->" + m.name + "_ = _val_; }\n");
      if m.isReference {
        Print("void " + m.name + "(" + m.typeName + "&& _val_) { this->" + m.name + "_ = _val_; }\n");
      }
    }

    /** The data part of a class: typedefs and attributes. */
    method GenerateData(ms: seq<MemberState>)
      modifies this
      ensures pieces == old(pieces) + (Typedefs(ms, old(depth), AsWritten) + Attributes(ms, old(depth))) && depth == old(depth)
    {
      ghost var start, d := pieces, depth;
      GenerateTypedefs(ms);
      GenerateAttributes(ms);
      AppendAssoc(start, Typedefs(ms, d, AsWritten), Attributes(ms, d));
    }

    /** The function part of a class: constructors, getters and setters. */
    method GenerateFunctions(name: string, ms: seq<MemberState>)
      requires ValidStates(ms)
      modifies this
      ensures pieces == old(pieces) + (Constructors(name, ms, old(depth)) + Accessors(ms, old(depth))) && depth == old(depth)
    {
      ghost var start, d := pieces, depth;
      GenerateConstructors(name, ms);
      GenerateAccessors(ms);
      AppendAssoc(start, Constructors(name, ms, d), Accessors(ms, d));
    }

    /** The inside of a class. */
    method GenerateBody(name: string, ms: seq<MemberState>)
      requires ValidStates(ms)
      modifies this
      ensures pieces == old(pieces) + ClassBody(name, ms, old(depth)) && depth == old(depth)
    {
      ghost var start, d := pieces, depth;
      GenerateData(ms);
      GenerateFunctions(name, ms);
      AppendAssoc(start, Typedefs(ms, d, AsWritten) + Attributes(ms, d), Constructors(name, ms, d) + Accessors(ms, d));
    }

    /** The class text of on_struct_open, once the members are collected. */
    method GenerateClass(name: string, ms: seq<MemberState>)
      requires ValidStates(ms)
      modifies this
      ensures pieces == old(pieces) + StructPieces(name, ms, old(depth)) && depth == old(depth)
    {
      ghost var start, d := pieces, depth;
      ghost var open, body, close := [Indented(d, "class " + name + " {\n")], ClassBody(name, ms, d), [Indented(d, "};\n\n")];
      Print("class " + name + " {\n");
      GenerateBody(name, ms);
      Print("};\n\n");
      AppendAssoc(start, open, body);
      AppendAssoc(start, open + body, close);
    }

    /** on_struct_open: count and collect the members, then emit the class. */
    method OnStructOpen(name: string, members: seq<MemberDecl>) returns (r: Retcode)
      requires forall i :: 0 <= i < |members| ==> ValidMember(members[i])
      modifies this
      ensures pieces == old(pieces) + StructPieces(name, States(members), old(depth)) && depth == old(depth)
      ensures r == Ok
    {
      var states := CollectMembers(members);
      GenerateClass(name, states[..]);
      r := Ok;
    }

    /** on_module_open */
    method OnModuleOpen(name: string, children: seq<Decl>) returns (r: Retcode)
      requires ValidDecls(children)
      modifies this
      ensures var e := EmitDecl(ModuleDecl(name, children), old(depth));
              pieces == old(pieces) + e.pieces && r == e.result && depth == old(depth)
      decreases ModuleDecl(name, children), 1
    {
      ghost var d, p0 := depth, pieces;
      ghost var open, close := [Indented(d, "namespace " + name + " {\n")], [Indented(d, "};\n")];
      ghost var inner := EmitChildren(children, d + 1, true);
      Print("namespace " + name + " {\n");
      depth := depth + 1;
      r := WalkChildren(children, true);
      depth := depth - 1;
      Print("};\n");
      assert pieces == ((p0 + open) + inner.pieces) + close;
      AppendAssoc(p0 + open, inner.pieces, close);
      AppendAssoc(p0, open, inner.pieces + close);
      AppendAssoc(open, inner.pieces, close);
    }

    /** idl_walk_children / idl_walk_current_scope with cpp11_scope_walk:
        the children in order, stopping at the first result other than Ok. */
    method WalkChildren(ds: seq<Decl>, inModule: bool) returns (r: Retcode)
      requires ValidDecls(ds)
      modifies this
      ensures var e := EmitChildren(ds, old(depth), inModule);
              pieces == old(pieces) + e.pieces && r == e.result && depth == old(depth)
      decreases ds, 0
    {
      if ds == [] {
        r := Ok;
      } else if inModule && ds[0].OtherDecl? {
        r := WalkChildren(ds[1..], inModule);
      } else {
        ghost var start, head, tail := pieces, EmitDecl(ds[0], depth), EmitChildren(ds[1..], depth, inModule);
        r := ScopeWalk(ds[0]);
        if r == Ok {
          r := WalkChildren(ds[1..], inModule);
          AppendAssoc(start, head.pieces, tail.pieces);
        }
      }
    }

    /** idl_backendGenerate: the walk over the top-level declarations. */
    method BackendGenerate(root: seq<Decl>) returns (r: Retcode)
      requires ValidDecls(root)
      modifies this
      ensures var e := EmitChildren(root, old(depth), false);
              pieces == old(pieces) + e.pieces && r == e.result && depth == old(depth)
    {
      r := WalkChildren(root, false);
    }

    /** cpp11_scope_walk */
    method ScopeWalk(decl: Decl) returns (r: Retcode)
      requires ValidDecl(decl)
      modifies this
      ensures var e := EmitDecl(decl, old(depth));
              pieces == old(pieces) + e.pieces && r == e.result && depth == old(depth)
      decreases decl, 2
    {
      match decl
      case ModuleDecl(name, children) =>
        r := OnModuleOpen(name, children);
      case StructDecl(name, members) =>
        r := OnStructOpen(name, members);
      case OtherConstructed(_) =>
        r := Ok;
      case OtherDecl =>
        r := InvalidParsetree;
    }
  }
}
