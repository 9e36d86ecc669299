/** The streamer generator of streamer_generator.c: a walk over the IDL tree
    that, for every struct, accumulates the text of four C++ procedures
    (write, write-size, read, read-size) and their declarations in the
    buffers of a generation context, and flushes them to a header file and
    an implementation file.

    The specification functions (BaseSpec … NodesSpec) describe each step on
    a snapshot of one context and the two files; the methods of `Context`
    perform the steps on objects, in the order the source performs them, and
    are proved to end in the state the specification functions give. */
module Streamer {
  import opened Text
  import opened Alignment
  import opened Streams

  // ---------------------------------------------------------------------
  // The tree the walk visits. Names are already converted to C++11 names
  // (get_cpp11_name is not part of this model).
  // ---------------------------------------------------------------------

  datatype MemberKind = BaseMember(base: BaseType) | ScopedName | TemplateType | Unrecognized

  datatype Node =
    | Module(name: string, children: seq<Node>)
    | Constructed(name: string, children: seq<Node>)
    | Member(declarator: string, kind: MemberKind)
    | Other

  function Size(n: Node): (s: nat)
    ensures s >= 1
  {
    match n
    case Module(_, cs) => 1 + SizeAll(cs)
    case Constructed(_, cs) => 1 + SizeAll(cs)
    case _ => 1
  }

  function SizeAll(ns: seq<Node>): nat
  {
    if ns == [] then 0 else Size(ns[0]) + SizeAll(ns[1..])
  }

  // ---------------------------------------------------------------------
  // The text the generator emits.
  // ---------------------------------------------------------------------

  function WriteSignature(s: string): string
  {
    "size_t write_struct(const " + s + " &write, void *data, size_t position)"
  }

  function WriteSizeSignature(s: string): string
  {
    "size_t write_size(const " + s + " &write, size_t offset)"
  }

  function ReadSignature(s: string): string
  {
    "size_t read_struct(" + s + " &read, void *data, size_t position)"
  }

  function ReadSizeSignature(s: string): string
  {
    "size_t " + s + "_read_size(void *data, size_t offset)"
  }

  function NamespaceOpen(s: string): string
  {
    "namespace " + s + "\n"
  }

  const DeclareAlignmentBytes := "  size_t alignmentbytes = "
  const AssignAlignmentBytes := "  alignmentbytes = "
  const AlignmentFor := "  //alignment for: "
  const ZeroAlignmentBytes := "  memset(data+position,0x0,alignmentbytes);  //setting alignment bytes to 0x0\n"
  const IncrAlignment := "  position += alignmentbytes;"
  const IncrComment := "  //moving position indicator\n"
  const IncrBy := "  position += "
  const PaddingFor := "  //padding bytes for: "
  const BytesFor := "  //bytes for member: "
  const StartAtOffset := "  size_t position = offset;\n"
  const ReturnPosition := "  return position;\n"
  const ReturnLength := "  return position-offset;\n"

  function ZeroPadding(n: nat): string
  {
    "  memset(data+position,0x0," + NatToString(n) + ");  //setting padding bytes to 0x0\n"
  }

  function IncrPosition(n: nat): string
  {
    IncrBy + NatToString(n) + ";"
  }

  function CopyOut(member: string, w: nat): string
  {
    "  memcpy(data+position,&write." + member + "()," + NatToString(w) + ");"
  }

  /** The read copy as the source spells it (no comma before `data`). */
  function CopyIn(member: string, w: nat): string
  {
    "  memcpy(&read." + member + "() data+position," + NatToString(w) + ");"
  }

  function WriteInstance(member: string): string
  {
    "  position = write_struct(write." + member + "(), data, position);\n"
  }

  /** The nested read call as the source spells it (through `write.`). */
  function ReadInstance(member: string): string
  {
    "  position = read_struct(write." + member + "(), data, position);\n"
  }

  function ReadSizeInstance(member: string): string
  {
    "  position += " + member + "_read_size(data, position);\n"
  }

  function WriteSizeInstance(member: string): string
  {
    "  position += write_size(write." + member + "(), position);\n"
  }

  // ---------------------------------------------------------------------
  // Snapshots: the five buffers of one context, its depth and tracker, and
  // the two files.
  // ---------------------------------------------------------------------

  datatype Buffers = Buffers(header: string, write: string, writeSize: string, read: string, readSize: string)

  const NoText := Buffers("", "", "", "", "")

  datatype Files = Files(header: string, impl: string)

  datatype Gen = Gen(bufs: Buffers, depth: nat, tracker: Tracker, files: Files)

  /** A fresh context (create_context) over two empty files. */
  const Start := Gen(NoText, 0, StructStart, Files("", ""))

  /** Files only grow. */
  predicate Extends(before: Files, after: Files)
  {
    before.header <= after.header && before.impl <= after.impl
  }

  /** Where a module's opening text reaches the header file: as the source
      does it (with the first flush of the module's context) or, corrected,
      before any child is processed. */
  datatype ScopeOrder = AsWritten | OpeningFirst

  // ---------------------------------------------------------------------
  // Specification of each step.
  // ---------------------------------------------------------------------

  /** flush_context: the header buffer to the header file, then the write,
      write-size, read and read-size buffers, in that order, to the
      implementation file; all buffers end empty. */
  function FlushSpec(g: Gen): (r: Gen)
    ensures r.bufs == NoText && r.depth == g.depth && r.tracker == g.tracker
    ensures r.files.header == g.files.header + g.bufs.header
    ensures r.files.impl == g.files.impl + g.bufs.write + g.bufs.writeSize + g.bufs.read + g.bufs.readSize
  {
    var b := g.bufs;
    g.(bufs := NoText,
       files := Files(g.files.header + b.header,
                      g.files.impl + b.write + b.writeSize + b.read + b.readSize))
  }

  /** The start of a run-time alignment: the `alignmentbytes` variable,
      declared the first time in a struct and assigned afterwards, in the
      write and read procedures. */
  function Declaration(b: Buffers, d: nat, declared: bool): (r: Buffers)
    ensures r.header == b.header && r.writeSize == b.writeSize && r.readSize == b.readSize
  {
    var ind := Indentation(true, d);
    var decl := if declared then AssignAlignmentBytes else DeclareAlignmentBytes;
    b.(write := b.write + ind + decl, read := b.read + ind + decl)
  }

  /** The rest of a run-time alignment: the formula (the value of
      `alignmentbytes` in the write and read procedures), zeroing in the
      write procedure, and the position increment in all four. */
  function AlignmentText(b: Buffers, d: nat, member: string, w: nat): (r: Buffers)
    ensures r.header == b.header
  {
    var ind := Indentation(true, d);
    var formula := GenerateAlignment(w);
    b.(write := b.write + formula + AlignmentFor + member + "\n"
                + ind + ZeroAlignmentBytes + ind + IncrAlignment + IncrComment,
       read := b.read + formula + AlignmentFor + member + "\n"
               + ind + IncrAlignment + IncrComment,
       writeSize := b.writeSize + ind + IncrBy + formula + AlignmentFor + member + "\n",
       readSize := b.readSize + ind + IncrBy + formula + AlignmentFor + member + "\n")
  }

  /** The fixed padding process_base emits: `n` zero bytes in the write
      procedure and a position increment of `n` in all four. */
  function PaddingText(b: Buffers, d: nat, member: string, n: nat): (r: Buffers)
    ensures r.header == b.header
  {
    var ind := Indentation(true, d);
    b.(write := b.write + ind + ZeroPadding(n) + ind + IncrPosition(n) + IncrComment,
       writeSize := b.writeSize + ind + IncrPosition(n) + PaddingFor + member + "\n",
       readSize := b.readSize + ind + IncrPosition(n) + PaddingFor + member + "\n",
       read := b.read + ind + IncrPosition(n) + PaddingFor + member + "\n")
  }

  /** What process_base emits before a base member of width `w`: the
      instruction the tracker chooses; the header buffer is never touched. */
  function PaddingSpec(b: Buffers, d: nat, member: string, tr: Tracker, w: nat): (r: Buffers)
    requires IsWidth(w)
    ensures r.header == b.header
  {
    match Choose(tr, w)
    case RunTime(_) => AlignmentText(Declaration(b, d, tr.declared), d, member, w)
    case Static(n) => PaddingText(b, d, member, n)
    case NoPadding => b
  }

  /** The copy of the member itself and the position increment, emitted for
      every base member. */
  function CopySpec(b: Buffers, d: nat, member: string, w: nat): (r: Buffers)
    ensures r.header == b.header
  {
    var ind := Indentation(true, d);
    b.(write := b.write + ind + CopyOut(member, w) + BytesFor + member + "\n"
                + ind + IncrPosition(w) + IncrComment,
       read := b.read + ind + CopyIn(member, w) + BytesFor + member + "\n"
               + ind + IncrPosition(w) + IncrComment,
       writeSize := b.writeSize + ind + IncrPosition(w) + BytesFor + member + "\n",
       readSize := b.readSize + ind + IncrPosition(w) + BytesFor + member + "\n")
  }

  /** process_base: padding as the tracker chooses, then the copy; the
      tracker moves on as Alignment.Next says. */
  function BaseSpec(g: Gen, member: string, t: BaseType): (r: Gen)
    ensures r.depth == g.depth && r.files == g.files && r.bufs.header == g.bufs.header
    ensures r.tracker == Next(g.tracker, NaturalWidth(t))
  {
    var w := ByteWidth(t);
    Gen(CopySpec(PaddingSpec(g.bufs, g.depth, member, g.tracker, w), g.depth, member, w),
        g.depth, Next(g.tracker, w), g.files)
  }

  /** process_instance: a call to the nested type's four procedures; the
      width becomes unknown and nothing is accumulated. */
  function InstanceSpec(g: Gen, member: string): (r: Gen)
    ensures r.depth == g.depth && r.files == g.files && r.bufs.header == g.bufs.header
    ensures r.tracker == AfterInstance(g.tracker)
  {
    var ind := Indentation(true, g.depth);
    var b := g.bufs;
    g.(bufs := b.(write := b.write + ind + WriteInstance(member),
                  read := b.read + ind + ReadInstance(member),
                  readSize := b.readSize + ind + ReadSizeInstance(member),
                  writeSize := b.writeSize + ind + WriteSizeInstance(member)),
       tracker := AfterInstance(g.tracker))
  }

  /** process_member: base members and instances emit code; template-typed
      members only print a trace; other members do nothing. */
  function MemberSpec(g: Gen, m: Node): (r: Gen)
    requires m.Member?
    ensures r.depth == g.depth && r.files == g.files && r.bufs.header == g.bufs.header
  {
    match m.kind
    case BaseMember(t) => BaseSpec(g, m.declarator, t)
    case ScopedName => InstanceSpec(g, m.declarator)
    case _ => g
  }

  /** The declarations and heads of the write and write-size procedures. */
  function WriteHeads(b: Buffers, d: nat, s: string): (r: Buffers)
    ensures r.read == b.read && r.readSize == b.readSize
  {
    var ind := Indentation(true, d);
    b.(header := b.header + ind + WriteSignature(s) + ";\n\n" + ind + WriteSizeSignature(s) + ";\n\n",
       write := b.write + ind + WriteSignature(s) + "\n" + ind + "{\n",
       writeSize := b.writeSize + ind + WriteSizeSignature(s) + "\n" + ind + "{\n" + ind + StartAtOffset)
  }

  /** The declarations and heads of the read and read-size procedures. */
  function ReadHeads(b: Buffers, d: nat, s: string): (r: Buffers)
    ensures r.write == b.write && r.writeSize == b.writeSize
  {
    var ind := Indentation(true, d);
    b.(header := b.header + ind + ReadSignature(s) + ";\n\n" + ind + ReadSizeSignature(s) + ";\n\n",
       read := b.read + ind + ReadSignature(s) + "\n" + ind + "{\n",
       readSize := b.readSize + ind + ReadSizeSignature(s) + "\n" + ind + "{\n" + ind + StartAtOffset)
  }

  /** The declarations and procedure heads process_constructed emits: the
      four declarations in the header, each procedure opened in its own
      buffer. */
  function OpenStruct(b: Buffers, d: nat, s: string): Buffers
  {
    ReadHeads(WriteHeads(b, d, s), d, s)
  }

  /** The procedure tails process_constructed emits after the members. */
  function CloseStruct(b: Buffers, d: nat): Buffers
  {
    var ind := Indentation(true, d);
    b.(writeSize := b.writeSize + ind + ReturnLength + ind + "}\n\n",
       write := b.write + ind + ReturnPosition + ind + "}\n\n",
       read := b.read + ind + ReturnPosition + ind + "}\n\n",
       readSize := b.readSize + ind + ReturnLength + ind + "}\n\n")
  }

  /** The text a module's context starts with, at the module's depth. */
  function ModuleOpening(d: nat, s: string): string
  {
    Indentation(true, d) + NamespaceOpen(s) + Indentation(true, d) + "{\n\n"
  }

  /** The context process_module creates for a module of the given name,
      after the opening text and the depth increment. */
  function OpenModule(g: Gen, s: string): (r: Gen)
    ensures r.depth == g.depth + 1 && r.files == g.files
  {
    Gen(Buffers(ModuleOpening(g.depth, s), ModuleOpening(g.depth, s), "", "", ""),
        g.depth + 1, StructStart, g.files)
  }

  /** process_constructed: nothing for a struct without members; otherwise
      the heads, a fresh tracker, the members, the tails, and a flush of the
      whole context. */
  function ConstructedSpec(order: ScopeOrder, g: Gen, n: Node): (r: Gen)
    requires n.Constructed?
    ensures r.depth == g.depth && Extends(g.files, r.files)
    ensures n.children == [] ==> r == g
    ensures n.children != [] ==> r.bufs == NoText
    decreases Size(n), 0
  {
    if n.children == [] then g
    else
      var entered := Gen(OpenStruct(g.bufs, g.depth, n.name), g.depth, StructStart, g.files);
      var after := NodesSpec(order, entered, n.children);
      FlushSpec(after.(bufs := CloseStruct(after.bufs, after.depth)))
  }

  /** The end of a module's context: one level up, the closing brace in the
      header and read-size buffers, and a flush. */
  function CloseModule(g: Gen): (r: Gen)
    requires g.depth > 0
    ensures r.depth == g.depth - 1 && r.bufs == NoText
  {
    var ind := Indentation(true, g.depth - 1);
    FlushSpec(g.(depth := g.depth - 1,
                 bufs := g.bufs.(header := g.bufs.header + ind + "}\n\n",
                                 readSize := g.bufs.readSize + ind + "}\n\n")))
  }

  /** The module's context as its children first see it: as written, the
      opening text waits in the buffers; corrected, it is already flushed. */
  function ModuleStart(order: ScopeOrder, g: Gen, s: string): (r: Gen)
    ensures r.depth == g.depth + 1 && Extends(g.files, r.files)
  {
    var inner := OpenModule(g, s);
    if order == OpeningFirst then FlushSpec(inner) else inner
  }

  /** process_module: nothing for an empty module; otherwise the children
      go through a new context one level deeper, which is closed (flushed)
      at the end. Only the files of the calling context change. */
  function ModuleSpec(order: ScopeOrder, g: Gen, n: Node): (r: Gen)
    requires n.Module?
    ensures r.bufs == g.bufs && r.depth == g.depth && r.tracker == g.tracker
    ensures Extends(g.files, r.files)
    ensures n.children == [] ==> r == g
    decreases Size(n), 0
  {
    if n.children == [] then g
    else
      var after := NodesSpec(order, ModuleStart(order, g, n.name), n.children);
      g.(files := CloseModule(after).files)
  }

  /** process_node on one node, dispatching on its kind. */
  function NodeSpec(order: ScopeOrder, g: Gen, n: Node): (r: Gen)
    ensures r.depth == g.depth && Extends(g.files, r.files)
    decreases Size(n), 1
  {
    match n
    case Member(_, _) => MemberSpec(g, n)
    case Module(_, _) => ModuleSpec(order, g, n)
    case Constructed(_, _) => ConstructedSpec(order, g, n)
    case Other => g
  }

  /** process_node along a sibling chain. */
  function NodesSpec(order: ScopeOrder, g: Gen, ns: seq<Node>): (r: Gen)
    ensures r.depth == g.depth && Extends(g.files, r.files)
    decreases SizeAll(ns), 2
  {
    if ns == [] then g
    else NodesSpec(order, NodeSpec(order, g, ns[0]), ns[1..])
  }

  /** idl_streamers_generate: the whole tree through a context named "",
      closed at the end; the text of the header and implementation files. */
  function GeneratedText(order: ScopeOrder, tree: seq<Node>): Files
  {
    FlushSpec(NodesSpec(order, Start, tree)).files
  }

  // ---------------------------------------------------------------------
  // The objects.
  // ---------------------------------------------------------------------

  /** The pair of output files (create_streamer opens them; opening is not
      part of this model). */
  class Streamer {
    const headerFile: Sink
    const implFile: Sink

    ghost predicate Valid()
    {
      headerFile != implFile
    }

    constructor ()
      ensures Valid() && fresh(headerFile) && fresh(implFile)
      ensures headerFile.text == [] && implFile.text == []
    {
      headerFile := new Sink();
      implFile := new Sink();
    }
  }

  /** A generation context: the scope name, five buffers, the indentation
      depth and the alignment tracker. */
  class Context {
    const str: Streamer
    const scope: string
    const headerStream: OStream
    const writeSizeStream: OStream
    const writeStream: OStream
    const readSizeStream: OStream
    const readStream: OStream
    var depth: nat
    var currentAlignment: int
    var accumulatedAlignment: nat
    var alignmentPresent: bool

    ghost predicate Valid()
    {
      str.Valid() &&
      headerStream != writeSizeStream && headerStream != writeStream &&
      headerStream != readSizeStream && headerStream != readStream &&
      writeSizeStream != writeStream && writeSizeStream != readSizeStream &&
      writeSizeStream != readStream && writeStream != readSizeStream &&
      writeStream != readStream && readSizeStream != readStream
    }

    ghost function Streams(): set<object>
    {
      {headerStream, writeSizeStream, writeStream, readSizeStream, readStream}
    }

    ghost function Bufs(): Buffers
      reads headerStream, writeSizeStream, writeStream, readSizeStream, readStream
    {
      Buffers(headerStream.buffer, writeStream.buffer, writeSizeStream.buffer,
              readStream.buffer, readSizeStream.buffer)
    }

    ghost function TrackerState(): Tracker
      reads this
    {
      Tracker(currentAlignment, accumulatedAlignment, alignmentPresent)
    }

    ghost function Snapshot(): Gen
      reads this, headerStream, writeSizeStream, writeStream, readSizeStream, readStream, str.headerFile, str.implFile
    {
      Gen(Bufs(), depth, TrackerState(), Files(str.headerFile.text, str.implFile.text))
    }

    /** create_context */
    constructor (str: Streamer, scope: string)
      requires str.Valid()
      ensures Valid() && this.str == str && this.scope == scope
      ensures fresh(Streams())
      ensures Snapshot() == Gen(NoText, 0, StructStart, Files(str.headerFile.text, str.implFile.text))
    {
      this.str := str;
      this.scope := scope;
      depth := 0;
      currentAlignment := -1;
      accumulatedAlignment := 0;
      alignmentPresent := false;
      headerStream := new OStream();
      writeSizeStream := new OStream();
      writeStream := new OStream();
      readSizeStream := new OStream();
      readStream := new OStream();
    }

    /** flush_context */
    method FlushContext()
      requires Valid()
      modifies headerStream, writeSizeStream, writeStream, readSizeStream, readStream, str.headerFile, str.implFile
      ensures Snapshot() == FlushSpec(old(Snapshot()))
    {
      headerStream.Flush(str.headerFile);
      writeStream.Flush(str.implFile);
      writeSizeStream.Flush(str.implFile);
      readStream.Flush(str.implFile);
      readSizeStream.Flush(str.implFile);
    }

    /** close_context: a flush; releasing the buffers is not modelled. */
    method CloseContext()
      requires Valid()
      modifies headerStream, writeSizeStream, writeStream, readSizeStream, readStream, str.headerFile, str.implFile
      ensures Snapshot() == FlushSpec(old(Snapshot()))
    {
      FlushContext();
    }

    /** process_base: the padding the tracker calls for, the width added
        to the accumulated bytes, then the member copy. */
    method ProcessBase(member: string, t: BaseType)
      requires Valid()
      modifies this, headerStream, writeSizeStream, writeStream, readSizeStream, readStream
      ensures Snapshot() == BaseSpec(old(Snapshot()), member, t)
    {
      var w := ByteWidth(t);
      NextAfterPadding(TrackerState(), w);
      PadFor(member, w);
      accumulatedAlignment := accumulatedAlignment + w;
      EmitCopy(member, w);
    }

    /** The alignment decision of process_base for a member of width `w`. */
    method PadFor(member: string, w: nat)
      requires Valid() && IsWidth(w)
      modifies this, headerStream, writeSizeStream, writeStream, readSizeStream, readStream
      ensures Bufs() == PaddingSpec(old(Bufs()), depth, member, old(TrackerState()), w)
      ensures depth == old(depth)
      ensures TrackerState() == AfterPadding(old(TrackerState()), w)
    {
      if currentAlignment != w {
        if 0 > currentAlignment && w != 1 {
          AlignAtRunTime(member, w);
        } else {
          PadToWidth(member, w);
        }
      }
    }

    /** The run-time branch: the alignment code, then the tracker records
        the width and restarts the count. */
    method AlignAtRunTime(member: string, w: nat)
      requires Valid() && IsWidth(w)
      requires currentAlignment != w && 0 > currentAlignment && w != 1
      modifies this, headerStream, writeSizeStream, writeStream, readSizeStream, readStream
      ensures Bufs() == PaddingSpec(old(Bufs()), depth, member, old(TrackerState()), w)
      ensures depth == old(depth)
      ensures TrackerState() == AfterPadding(old(TrackerState()), w)
    {
      ghost var tr := TrackerState();
      assert Choose(tr, w) == RunTime(w);
      EmitDeclaration();
      EmitAlignment(member, w);
      accumulatedAlignment, currentAlignment := 0, w;
    }

    /** The fixed branch: the bytes missing to a multiple of `w`, if any,
        and a restarted count after them. */
    method PadToWidth(member: string, w: nat)
      requires Valid() && IsWidth(w)
      requires currentAlignment != w && !(0 > currentAlignment && w != 1)
      modifies this, headerStream, writeSizeStream, writeStream, readSizeStream, readStream
      ensures Bufs() == PaddingSpec(old(Bufs()), depth, member, old(TrackerState()), w)
      ensures depth == old(depth)
      ensures TrackerState() == AfterPadding(old(TrackerState()), w)
    {
      var missing := Missing(accumulatedAlignment, w);
      if missing != 0 {
        EmitPadding(member, missing);
        accumulatedAlignment := 0;
      }
    }

    /** The declaration or assignment that starts a run-time alignment; the
        first one in a struct records that the variable exists. */
    method EmitDeclaration()
      requires Valid()
      modifies this, writeStream, readStream
      ensures Bufs() == Declaration(old(Bufs()), depth, old(alignmentPresent))
      ensures alignmentPresent && depth == old(depth)
      ensures currentAlignment == old(currentAlignment) && accumulatedAlignment == old(accumulatedAlignment)
    {
      var d := depth;
      if !alignmentPresent {
        writeStream.Append(DeclareAlignmentBytes, true, d);
        readStream.Append(DeclareAlignmentBytes, true, d);
        alignmentPresent := true;
      } else {
        writeStream.Append(AssignAlignmentBytes, true, d);
        readStream.Append(AssignAlignmentBytes, true, d);
      }
    }

    /** The run-time alignment formula and what follows it. */
    method EmitAlignment(member: string, w: nat)
      requires Valid()
      modifies headerStream, writeSizeStream, writeStream, readSizeStream, readStream
      ensures Bufs() == AlignmentText(old(Bufs()), depth, member, w)
    {
      var d := depth;
      var buffer := GenerateAlignment(w);
      writeStream.AppendNote(buffer, AlignmentFor, member, d);
      writeStream.Append(ZeroAlignmentBytes, true, d);
      writeStream.Append(IncrAlignment, true, d);
      writeStream.Append(IncrComment, false, d);

      readStream.AppendNote(buffer, AlignmentFor, member, d);
      readStream.Append(IncrAlignment, true, d);
      readStream.Append(IncrComment, false, d);

      writeSizeStream.Append(IncrBy, true, d);
      writeSizeStream.AppendNote(buffer, AlignmentFor, member, d);

      readSizeStream.Append(IncrBy, true, d);
      readSizeStream.AppendNote(buffer, AlignmentFor, member, d);
    }

    /** The fixed-padding branch of process_base. */
    method EmitPadding(member: string, missing: nat)
      requires Valid()
      modifies headerStream, writeSizeStream, writeStream, readSizeStream, readStream
      ensures Bufs() == PaddingText(old(Bufs()), depth, member, missing)
    {
      var d := depth;
      var buffer := ZeroPadding(missing);
      writeStream.Append(buffer, true, d);

      buffer := IncrPosition(missing);
      writeSizeStream.AppendTagged(buffer, PaddingFor, member, d);
      readSizeStream.AppendTagged(buffer, PaddingFor, member, d);
      readStream.AppendTagged(buffer, PaddingFor, member, d);

      writeStream.Append(buffer, true, d);
      writeStream.Append(IncrComment, false, d);
    }

    /** The member copy at the end of process_base. */
    method EmitCopy(member: string, w: nat)
      requires Valid()
      modifies headerStream, writeSizeStream, writeStream, readSizeStream, readStream
      ensures Bufs() == CopySpec(old(Bufs()), depth, member, w)
    {
      var d := depth;
      var buffer := CopyOut(member, w);
      writeStream.AppendTagged(buffer, BytesFor, member, d);

      buffer := CopyIn(member, w);
      readStream.AppendTagged(buffer, BytesFor, member, d);

      buffer := IncrPosition(w);
      writeSizeStream.AppendTagged(buffer, BytesFor, member, d);
      readSizeStream.AppendTagged(buffer, BytesFor, member, d);

      writeStream.Append(buffer, true, d);
      writeStream.Append(IncrComment, false, d);

      readStream.Append(buffer, true, d);
      readStream.Append(IncrComment, false, d);
    }

    /** process_instance */
    method ProcessInstance(member: string)
      requires Valid()
      modifies this, headerStream, writeSizeStream, writeStream, readSizeStream, readStream
      ensures Snapshot() == InstanceSpec(old(Snapshot()), member)
    {
      writeStream.Append(WriteInstance(member), true, depth);
      readStream.Append(ReadInstance(member), true, depth);
      readSizeStream.Append(ReadSizeInstance(member), true, depth);
      writeSizeStream.Append(WriteSizeInstance(member), true, depth);
      accumulatedAlignment := 0;
      currentAlignment := -1;
    }

    /** process_member; process_template only prints a trace. */
    method ProcessMember(m: Node)
      requires Valid() && m.Member?
      modifies this, headerStream, writeSizeStream, writeStream, readSizeStream, readStream
      ensures Snapshot() == MemberSpec(old(Snapshot()), m)
    {
      match m.kind
      case BaseMember(t) => ProcessBase(m.declarator, t);
      case ScopedName => ProcessInstance(m.declarator);
      case TemplateType =>
      case Unrecognized =>
    }

    /** The write and write-size halves of process_constructed's heads. */
    method EmitWriteHeads(s: string)
      requires Valid()
      modifies headerStream, writeSizeStream, writeStream
      ensures Bufs() == WriteHeads(old(Bufs()), depth, s)
    {
      var d := depth;
      var buffer := WriteSignature(s);
      headerStream.AppendDeclaration(buffer, d);
      writeStream.AppendOpening(buffer, d);

      buffer := WriteSizeSignature(s);
      headerStream.AppendDeclaration(buffer, d);
      writeSizeStream.AppendOpening(buffer, d);
      writeSizeStream.Append(StartAtOffset, true, d);
    }

    /** The read and read-size halves of process_constructed's heads. */
    method EmitReadHeads(s: string)
      requires Valid()
      modifies headerStream, readSizeStream, readStream
      ensures Bufs() == ReadHeads(old(Bufs()), depth, s)
    {
      var d := depth;
      var buffer := ReadSignature(s);
      headerStream.AppendDeclaration(buffer, d);
      readStream.AppendOpening(buffer, d);

      buffer := ReadSizeSignature(s);
      headerStream.AppendDeclaration(buffer, d);
      readSizeStream.AppendOpening(buffer, d);
      readSizeStream.Append(StartAtOffset, true, d);
    }

    /** The procedure tails of process_constructed. */
    method EmitStructTails()
      requires Valid()
      modifies writeSizeStream, writeStream, readSizeStream, readStream
      ensures Bufs() == CloseStruct(old(Bufs()), depth)
    {
      var d := depth;
      writeSizeStream.AppendClosing(ReturnLength, d);
      writeStream.AppendClosing(ReturnPosition, d);
      readStream.AppendClosing(ReturnPosition, d);
      readSizeStream.AppendClosing(ReturnLength, d);
    }

    /** The part of process_constructed before the members: the heads and a
        fresh tracker. */
    method EnterStruct(s: string)
      requires Valid()
      modifies this, headerStream, writeSizeStream, writeStream, readSizeStream, readStream
      ensures Snapshot() == Gen(OpenStruct(old(Bufs()), depth, s), old(depth), StructStart, old(Snapshot()).files)
    {
      EmitWriteHeads(s);
      EmitReadHeads(s);
      currentAlignment := -1;
      alignmentPresent := false;
      accumulatedAlignment := 0;
    }

    /** The part of process_constructed after the members: the tails and a
        flush. */
    method LeaveStruct()
      requires Valid()
      modifies headerStream, writeSizeStream, writeStream, readSizeStream, readStream, str.headerFile, str.implFile
      ensures Snapshot() == FlushSpec(old(Snapshot()).(bufs := CloseStruct(old(Bufs()), depth)))
    {
      EmitStructTails();
      FlushContext();
    }

    /** process_constructed */
    method ProcessConstructed(n: Node)
      requires Valid() && n.Constructed?
      modifies this, headerStream, writeSizeStream, writeStream, readSizeStream, readStream, str.headerFile, str.implFile
      ensures Snapshot() == ConstructedSpec(AsWritten, old(Snapshot()), n)
      decreases Size(n), 0
    {
      if n.children != [] {
        EnterStruct(n.name);
        ProcessNode(n.children);
        LeaveStruct();
      }
    }

    /** The opening process_module writes into the new context: the
        namespace line and its brace, in the header and write buffers. */
    method OpenScope(s: string)
      requires Valid()
      modifies headerStream, writeStream
      ensures Bufs() == old(Bufs()).(header := old(Bufs()).header + ModuleOpening(depth, s),
                                     write := old(Bufs()).write + ModuleOpening(depth, s))
    {
      var d := depth;
      var buffer := NamespaceOpen(s);
      headerStream.Append(buffer, true, d);
      headerStream.Append("{\n\n", true, d);
      writeStream.Append(buffer, true, d);
      writeStream.Append("{\n\n", true, d);
    }

    /** The closing process_module writes: the brace, in the header and
        read-size buffers. */
    method CloseScope()
      requires Valid()
      modifies headerStream, readSizeStream
      ensures Bufs() == old(Bufs()).(header := old(Bufs()).header + Indentation(true, depth) + "}\n\n",
                                     readSize := old(Bufs()).readSize + Indentation(true, depth) + "}\n\n")
    {
      var d := depth;
      headerStream.Append("}\n\n", true, d);
      readSizeStream.Append("}\n\n", true, d);
    }

    /** The first half of process_module: a new context for the module,
        at this context's depth, holding the opening text, one level
        deeper. */
    method EnterModule(s: string) returns (inner: Context)
      requires Valid()
      ensures inner.Valid() && inner.str == str
      ensures fresh(inner) && fresh(inner.headerStream) && fresh(inner.writeSizeStream)
      ensures fresh(inner.writeStream) && fresh(inner.readSizeStream) && fresh(inner.readStream)
      ensures inner.Snapshot() == OpenModule(Snapshot(), s)
    {
      inner := new Context(str, s);
      inner.depth := depth;
      inner.OpenScope(s);
      inner.depth := inner.depth + 1;
    }

    /** The second half of process_module: back to the module's depth, the
        closing text, and the context closed. */
    method LeaveModule()
      requires Valid() && depth > 0
      modifies this, headerStream, readSizeStream, writeSizeStream, writeStream, readStream, str.headerFile, str.implFile
      ensures Snapshot() == CloseModule(old(Snapshot()))
    {
      depth := depth - 1;
      CloseScope();
      CloseContext();
    }

    /** process_module */
    method ProcessModule(n: Node)
      requires Valid() && n.Module?
      modifies str.headerFile, str.implFile
      ensures Snapshot() == ModuleSpec(AsWritten, old(Snapshot()), n)
      decreases Size(n), 0
    {
      if n.children != [] {
        var newctx := EnterModule(n.name);
        newctx.ProcessNode(n.children);
        newctx.LeaveModule();
      }
    }

    /** process_node: the node, then its next sibling. The source
        dereferences the node, so the chain is never empty. */
    method ProcessNode(ns: seq<Node>)
      requires Valid() && ns != []
      modifies this, headerStream, writeSizeStream, writeStream, readSizeStream, readStream, str.headerFile, str.implFile
      ensures Snapshot() == NodesSpec(AsWritten, old(Snapshot()), ns)
      decreases SizeAll(ns), 2
    {
      var n := ns[0];
      match n {
        case Member(_, _) => ProcessMember(n);
        case Module(_, _) => ProcessModule(n);
        case Constructed(_, _) => ProcessConstructed(n);
        case Other =>
      }
      if |ns| > 1 {
        ProcessNode(ns[1..]);
      }
    }
  }

  /** idl_streamers_generate, from the parsed tree on: the header and
      implementation text the generator writes. The source reads the
      tree's root node, so the tree is not empty. */
  method Generate(tree: seq<Node>) returns (header: string, impl: string)
    requires tree != []
    ensures Files(header, impl) == GeneratedText(AsWritten, tree)
  {
    var str := new Streamer();
    var ctx := new Context(str, "");
    ctx.ProcessNode(tree);
    ctx.CloseContext();
    header := str.headerFile.text;
    impl := str.implFile.text;
  }
}
