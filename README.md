# IDL code generation tools of Cyclone DDS, modelled in Dafny

This project models four parts of the IDL tool chain of Cyclone DDS.

- **The streamer generator** (`streamer_generator.c`). It walks the IDL parse
  tree and writes C++ serialisation code. For every struct it writes four
  procedures: write, write-size, read and read-size. The text goes into five
  text buffers per scope and is flushed into a header file and an
  implementation file. Between members it emits padding: either fixed padding
  bytes or a run-time alignment formula. An alignment tracker decides which,
  using the current width, the accumulated byte count and whether the
  `alignmentbytes` variable is declared yet.
- **The directive parser of idlc** (`directive.c`). This is a state machine
  driven one token at a time by the scanner. It handles `#line n ["file"]` and
  `#pragma keylist type key...`.
- **The string utilities** (`string_utils.c`). These are case-insensitive
  comparison, `strsep`, `memdup`/`strdup` and a classic `getopt`.
- **The C++11 back end** (`backendCpp11.c`). It maps IDL types to C++11 type
  names and default values. For every struct it writes a class: `_seq`
  typedefs, private attributes, a default and an explicit constructor, and
  getters and setters. Modules become namespaces.

Code that changes state step by step is modelled as classes with `modifies`
clauses and loops:

- the output buffers, the per-scope context, the directive processor, the
  `getopt` globals and the C++ writer;
- `strsep` on an array;
- `memdup` into a fresh array.

Each method is proved against a specification function of the old state, and
the properties are proved about those functions. Byte widths, padding and the
run-time meaning of the emitted code are related to the natural-alignment rule
of OMG CDR (section 15.3.1.1 of CORBA 3.0: a value of w bytes starts at an
offset divisible by w).

Files:

| file | module | contents |
|---|---|---|
| `wrappers.dfy` | Wrappers | Option |
| `text.dfy` | Text | blanks, decimal rendering and parsing |
| `alignment.dfy` | Alignment | byte widths, the padding decision, the tracker, placement of members at run time, corrected rule |
| `alignment_examples.dfy` | AlignmentExamples | concrete member lists, as written and corrected |
| `ostream.dfy` | Streams | output file and output buffer objects |
| `streamer.dfy` | Streamer | snapshots, step specifications, the context class, the generator |
| `streamer_properties.dfy` | StreamerProperties | flushing, struct bodies, module nesting order |
| `directive.dfy` | Directives | state bits, phases, step specifications, the processor class |
| `directive_properties.dfy` | DirectiveProperties | per-phase behaviour and whole directives |
| `string_utils.dfy` | StringUtils | comparison, strsep, memdup/strdup, getopt |
| `string_utils_properties.dfy` | StringUtilsProperties | their properties |
| `backend_cpp11.dfy` | BackendCpp11 | type names, default values, class text, the writer and the scope walk |
| `backend_cpp11_properties.dfy` | BackendCpp11Properties | name round trips, class structure, indentation, balanced parentheses |

## Model

| member | source | states |
|---|---|---|
| Text.Spaces | src/idl/src/streamer_generator.c:181-203 | the indentation is exactly n blanks |
| Text.NatToString | src/idl/src/streamer_generator.c:656-674 | the `%d` rendering of a number is a non-empty string of digits |
| Text.DecimalRoundTrip | src/tools/idlc/src/directive.c:84-89 | parsing a number's decimal rendering (base-10 `strtoull` consuming the whole token) gives back the number |
| Alignment.LowNibble | src/idl/src/streamer_generator.c:548-564 | the type code in `flags & 0xf` is below 16 |
| Alignment.ByteWidth | src/idl/src/streamer_generator.c:547-566 | the width computed from the flags by shift and switch is one of 1, 2, 4, 8 and equals the type's natural size |
| Alignment.Choose | src/idl/src/streamer_generator.c:571-651 | the padding decision of `process_base`: none for an equal width, run-time alignment for an unknown tracked width and a member wider than a byte, else the missing bytes; its cases are proved in ChooseCases |
| Alignment.Next | src/idl/src/streamer_generator.c:571-654 | the tracker after a base member: the decision's update, then the member's bytes added to the count; proved in NextAfterPadding and NextCases |
| Alignment.ChooseCases | src/idl/src/streamer_generator.c:571-651 | no padding when the tracked width equals the member's width; run-time alignment exactly when it differs, the tracked width is unknown and the width is not 1; otherwise fixed padding of fewer than w bytes that completes the accumulated count to a multiple of w |
| Alignment.NextAfterPadding | src/idl/src/streamer_generator.c:615-654 | the tracker after a member is the padding decision followed by adding the member's width |
| Alignment.NextCases | src/idl/src/streamer_generator.c:571-654 | after run-time alignment the tracked width becomes w and the variable is declared; otherwise the tracked width is unchanged; the count is w plus the old count only when no padding was emitted |
| Alignment.AfterInstance | src/idl/src/streamer_generator.c:437-438 | a nested instance makes the width unknown and resets the count, keeping the declaration flag |
| Alignment.GenerateAlignment | src/idl/src/streamer_generator.c:69-91 | the text of the run-time alignment formula for a width, with the `position%2` shortcut for width 2; its meaning is proved in EvenOddShortcut and RunTimePadAligns |
| Alignment.EvenOddShortcut | src/idl/src/streamer_generator.c:69-91 | the `position%2` text for width 2 computes the general `(w - position%w)%w` |
| Alignment.RunTimePadAligns | src/idl/src/streamer_generator.c:69-91 | the run-time formula pads fewer than w bytes and lands on a multiple of w |
| Alignment.Track | src/idl/src/streamer_generator.c:401-443 | the tracker after a member list: base members step it as Next, nested instances reset it, template members leave it; the emitter is tied to it by StreamerProperties.MembersFollowTracker |
| Alignment.Layout | src/idl/src/streamer_generator.c:571-654 | as many placements as the list has base members, each of one of the four widths |
| Alignment.LayoutInOrder | src/idl/src/streamer_generator.c:571-654 | the placements carry the base members' widths in member order, start at or after the start position, and none overlaps the one before it (padding only moves a member forward) |
| Alignment.SameWidthStep | src/idl/src/streamer_generator.c:571 | a member whose width equals the tracked width lands aligned without padding |
| Alignment.StaticStep | src/idl/src/streamer_generator.c:618-651 | when the tracked width is known and differs, fixed padding from the accumulated count aligns a member no wider than the run's bound |
| Alignment.DescendingStep | src/idl/src/streamer_generator.c:571-654 | one member of a run of non-increasing widths lands aligned and keeps the run invariant |
| Alignment.DescendingRunsAligned | src/idl/src/streamer_generator.c:571-654 | when widths never grow between nested instances, every base member lands aligned from any start position |
| Alignment.DeclaredAtMostOnce | src/idl/src/streamer_generator.c:575-585 | `alignmentbytes` is declared at most once per member list, and not at all once declared |
| Alignment.CorrectedChoose | src/idl/src/streamer_generator.c:618-651 | the corrected decision: fixed padding (fewer than w bytes, completing the count) only when the tracked width covers w; run-time alignment exactly when the tracked width is smaller or unknown and w is not 1 |
| Alignment.CorrectedLayout | src/idl/src/streamer_generator.c:571-654 | under the corrected decision, as many placements as the list has base members, each of one of the four widths |
| Alignment.CorrectedLayoutInOrder | src/idl/src/streamer_generator.c:571-654 | under the corrected decision too, the placements carry the base members' widths in order, start at or after the start position, and do not overlap |
| Alignment.CorrectedStep | src/idl/src/streamer_generator.c:571-654 | under the corrected decision one member lands aligned and keeps the invariant |
| Alignment.CorrectedLayoutAligned | src/idl/src/streamer_generator.c:571-654 | with the corrected decision every base member of every member list is aligned, from any start position whose tracker satisfies the invariant (a fresh tracker always does) |
| AlignmentExamples.EqualWidthAfterNarrowerMisaligns | src/idl/src/streamer_generator.c:618-651 | as written, `{int32 a; int8 b; int32 c}` places c at offset 5 |
| AlignmentExamples.WiderStaticPaddingMisaligns | src/idl/src/streamer_generator.c:618-651 | as written, `{int8; int32; int8; int64}` places the int64 at offset 12 |
| AlignmentExamples.CorrectedEqualWidthExample | src/idl/src/streamer_generator.c:618-651 | the corrected rule places c of the first example at offset 8 |
| AlignmentExamples.CorrectedWiderExample | src/idl/src/streamer_generator.c:618-651 | the corrected rule places the int64 of the second example at offset 16 |
| Streams.Sink.constructor | src/idl/src/streamer_generator.c:93-132 | a newly opened output file is empty |
| Streams.Sink.Write | src/idl/src/streamer_generator.c:169-179 | writing appends the text to the file |
| Streams.Indentation | src/idl/src/streamer_generator.c:181-203 | the prefix is two blanks per depth level when indenting, else nothing |
| Streams.OStream.constructor | src/idl/src/streamer_generator.c:145-152 | a new buffer is empty |
| Streams.OStream.Append | src/idl/src/streamer_generator.c:181-203 | the buffer becomes the old content, the indentation read at call time, then the text |
| Streams.OStream.AppendTagged | src/idl/src/streamer_generator.c:589-591 | an indented text followed by a tag, the member name and a line break |
| Streams.OStream.AppendNote | src/idl/src/streamer_generator.c:588-591 | the same four appends with the text unindented |
| Streams.OStream.AppendDeclaration | src/idl/src/streamer_generator.c:488-489 | an indented signature followed by `;` and a blank line |
| Streams.OStream.AppendOpening | src/idl/src/streamer_generator.c:490-492 | an indented signature on its own line, then an indented opening brace |
| Streams.OStream.AppendClosing | src/idl/src/streamer_generator.c:530-531 | an indented return line, then an indented closing brace and a blank line |
| Streams.OStream.Clear | src/idl/src/streamer_generator.c:161-167 | the buffer becomes empty |
| Streams.OStream.Flush | src/idl/src/streamer_generator.c:169-179 | an empty buffer writes nothing; otherwise the file gains the whole buffer and the buffer becomes empty |
| Streamer.Size | src/idl/src/streamer_generator.c:382-395 | a positive size measure of a node, used to bound the recursive walk |
| Streamer.FlushSpec | src/idl/src/streamer_generator.c:238-245 | the header buffer goes to the header file; the write, write-size, read and read-size buffers go to the implementation file in that order; all buffers end empty |
| Streamer.Declaration | src/idl/src/streamer_generator.c:575-585 | only the write and read buffers change |
| Streamer.AlignmentText | src/idl/src/streamer_generator.c:587-613 | the header buffer is untouched |
| Streamer.PaddingText | src/idl/src/streamer_generator.c:620-650 | the header buffer is untouched |
| Streamer.PaddingSpec | src/idl/src/streamer_generator.c:571-652 | the padding emitted for a member never touches the header buffer |
| Streamer.CopySpec | src/idl/src/streamer_generator.c:656-689 | the member copy never touches the header buffer |
| Streamer.BaseSpec | src/idl/src/streamer_generator.c:544-694 | a base member leaves depth, files and header alone and moves the tracker as Alignment.Next says |
| Streamer.InstanceSpec | src/idl/src/streamer_generator.c:414-443 | a nested instance leaves depth, files and header alone and moves the tracker as Alignment.AfterInstance says |
| Streamer.MemberSpec | src/idl/src/streamer_generator.c:401-412 | no member touches depth, files or header buffer |
| Streamer.WriteHeads | src/idl/src/streamer_generator.c:485-502 | the read and read-size buffers are untouched |
| Streamer.ReadHeads | src/idl/src/streamer_generator.c:504-521 | the write and write-size buffers are untouched |
| Streamer.OpenModule | src/idl/src/streamer_generator.c:459-466 | the module's context is one level deeper and the files are unchanged |
| Streamer.ConstructedSpec | src/idl/src/streamer_generator.c:480-542 | a struct without members changes nothing; otherwise the context ends flushed at the same depth with the files only extended |
| Streamer.CloseModule | src/idl/src/streamer_generator.c:471-474 | the module's context goes one level up and ends flushed |
| Streamer.ModuleStart | src/idl/src/streamer_generator.c:459-466 | the children see a context one level deeper with the files only extended |
| Streamer.ModuleSpec | src/idl/src/streamer_generator.c:451-478 | an empty module changes nothing; otherwise only the files of the calling context change, and only by extension |
| Streamer.NodeSpec | src/idl/src/streamer_generator.c:382-390 | any node keeps the depth and only extends the files |
| Streamer.NodesSpec | src/idl/src/streamer_generator.c:382-395 | a sibling chain keeps the depth and only extends the files |
| Streamer.Streamer.constructor | src/idl/src/streamer_generator.c:93-132 | two fresh, empty output files |
| Streamer.Context.constructor | src/idl/src/streamer_generator.c:205-227 | five fresh empty buffers at depth 0 with a fresh tracker over the streamer's files |
| Streamer.Context.FlushContext | src/idl/src/streamer_generator.c:238-245 | the new state is FlushSpec of the old |
| Streamer.Context.CloseContext | src/idl/src/streamer_generator.c:247-259 | the new state is FlushSpec of the old |
| Streamer.Context.ProcessBase | src/idl/src/streamer_generator.c:544-694 | the new state is BaseSpec of the old |
| Streamer.Context.PadFor | src/idl/src/streamer_generator.c:571-652 | the buffers gain PaddingSpec and the tracker becomes AfterPadding |
| Streamer.Context.AlignAtRunTime | src/idl/src/streamer_generator.c:573-617 | in the run-time branch: the buffers gain PaddingSpec and the tracker becomes AfterPadding |
| Streamer.Context.PadToWidth | src/idl/src/streamer_generator.c:618-651 | in the fixed branch: the buffers gain PaddingSpec and the tracker becomes AfterPadding |
| Streamer.Context.EmitDeclaration | src/idl/src/streamer_generator.c:575-585 | the declaration or assignment is emitted and the variable counts as declared afterwards |
| Streamer.Context.EmitAlignment | src/idl/src/streamer_generator.c:587-613 | the buffers gain AlignmentText |
| Streamer.Context.EmitPadding | src/idl/src/streamer_generator.c:623-647 | the buffers gain PaddingText |
| Streamer.Context.EmitCopy | src/idl/src/streamer_generator.c:656-689 | the buffers gain CopySpec |
| Streamer.Context.ProcessInstance | src/idl/src/streamer_generator.c:414-443 | the new state is InstanceSpec of the old |
| Streamer.Context.ProcessMember | src/idl/src/streamer_generator.c:401-412 | the new state is MemberSpec of the old |
| Streamer.Context.EmitWriteHeads | src/idl/src/streamer_generator.c:485-502 | the buffers gain WriteHeads |
| Streamer.Context.EmitReadHeads | src/idl/src/streamer_generator.c:504-521 | the buffers gain ReadHeads |
| Streamer.Context.EmitStructTails | src/idl/src/streamer_generator.c:530-537 | the buffers gain the four procedure tails |
| Streamer.Context.EnterStruct | src/idl/src/streamer_generator.c:484-525 | the heads are emitted and the tracker restarts |
| Streamer.Context.LeaveStruct | src/idl/src/streamer_generator.c:530-538 | the tails are emitted and the context is flushed |
| Streamer.Context.ProcessConstructed | src/idl/src/streamer_generator.c:480-542 | the new state is ConstructedSpec of the old, with the source's order |
| Streamer.Context.OpenScope | src/idl/src/streamer_generator.c:461-466 | the module opening is in the header and write buffers and the depth is one higher |
| Streamer.Context.CloseScope | src/idl/src/streamer_generator.c:471-473 | the depth is one lower and the closing brace is in the header and read-size buffers |
| Streamer.Context.EnterModule | src/idl/src/streamer_generator.c:455-466 | a fresh context whose state is OpenModule of this one |
| Streamer.Context.LeaveModule | src/idl/src/streamer_generator.c:471-474 | the new state is CloseModule of the old |
| Streamer.Context.ProcessModule | src/idl/src/streamer_generator.c:451-478 | the new state is ModuleSpec of the old, with the source's order |
| Streamer.Context.ProcessNode | src/idl/src/streamer_generator.c:382-395 | the new state is NodesSpec of the old over the sibling chain |
| Streamer.GeneratedText | src/idl/src/streamer_generator.c:696-706 | the two files produced by walking the whole tree in one root context and closing it; Generate is proved to produce exactly these |
| Streamer.Generate | src/idl/src/streamer_generator.c:696-706 | the two files hold exactly GeneratedText of the tree |
| StreamerProperties.FlushIdempotent | src/idl/src/streamer_generator.c:169-179 | flushing a flushed context changes nothing |
| StreamerProperties.PaddingOnlyWhenChosen | src/idl/src/streamer_generator.c:571-652 | the buffers are unchanged exactly when the decision is no padding: the tracked width equals the member's width, or the width is known and the count already sits on a multiple of the member's width; an equal width always leaves them unchanged |
| StreamerProperties.CorrespondingItemsWellFormed | src/idl/src/streamer_generator.c:547-566 | the items of a member list are well formed: every base member has one of the four widths |
| StreamerProperties.MembersFollowTracker | src/idl/src/streamer_generator.c:401-443 | walking a member list moves the tracker exactly as Alignment.Track does over its items |
| StreamerProperties.StructOfMembers | src/idl/src/streamer_generator.c:480-542 | a struct's members are tracked from a fresh tracker, and `alignmentbytes` is declared at most once in it |
| StreamerProperties.OpeningComesFirst | src/idl/src/streamer_generator.c:459-466 | with the corrected order, the header file continues with the module's opening text before anything its children emit |
| StreamerProperties.ModuleEndsClosed | src/idl/src/streamer_generator.c:471-474 | in both orders, the header file after a non-empty module ends with its closing brace at the module's depth |
| StreamerProperties.FirstChildOutputFirst | src/idl/src/streamer_generator.c:470 | what the first child writes to the header file stays at the front of what the module writes |
| StreamerProperties.StructFlushesPending | src/idl/src/streamer_generator.c:538 | a struct flushes the header buffer it finds, so the header file continues with what was pending |
| StreamerProperties.NestedModuleOpensLate | src/idl/src/streamer_generator.c:459-474 | as written, an outer module whose first child is a module reaches the header file after the inner module's opening |
| StreamerProperties.ModuleOfStructOpensFirst | src/idl/src/streamer_generator.c:459-474 | a module that starts with a struct has its opening carried to the header file first by the struct's flush |
| StreamerProperties.NestedModuleOpensInOrder | src/idl/src/streamer_generator.c:459-474 | with the corrected order, the outer opening and then the inner opening start the module's header text |
| Directives.DispatchSelects | src/tools/idlc/src/directive.c:233-264 | the dispatcher's bit tests pick out the line phases, then the keylist phases, then pragma, then directive, then initial |
| Directives.TransitionsAreBitUpdates | src/tools/idlc/src/directive.c:28-34 | each phase change is the source's update of the state word (`\|=`, `++`, or clearing and setting the directive bits) |
| Directives.PhasesWithinMask | src/tools/idlc/src/directive.c:34 | every phase lies within STATEMASK, so clearing it leaves the other scanner bits alone |
| Directives.LineValue | src/tools/idlc/src/directive.c:84-94 | the recorded line is the parsed value truncated to 32 bits |
| Directives.DispatchByPhase | src/tools/idlc/src/directive.c:229-274 | each phase reaches the branch of idl_parse_directive that handles it |
| Directives.FindFile | src/tools/idlc/src/directive.c:39-44 | the index of the first file with that name, or the list's length when there is none |
| Directives.Processor.Report | src/tools/idlc/src/directive.c:117-118 | the message is appended and nothing else changes |
| Directives.Processor.Reject | src/tools/idlc/src/directive.c:80-82 | the error is reported, the result is a parse error and nothing else changes |
| Directives.PushLineSpec | src/tools/idlc/src/directive.c:36-63 | the `#line` push: reuse the listed file of that name or prepend a new one, then move to the line at column 1; properties in DirectiveProperties.PushLineKeepsNamesDistinct |
| Directives.LineSpec | src/tools/idlc/src/directive.c:65-131 | the `#line` states: number, optional string literal, end of line, extra tokens; properties in LineNumberStep, FileNameStep, ExtraTokensOnlyWarn and LineDirectiveEnds |
| Directives.PushKeylistSpec | src/tools/idlc/src/directive.c:133-158 | the keylist hand-over: the data type and keys go to the pragma sink, whose verdict is returned; properties in KeylistEnds |
| Directives.KeylistSpec | src/tools/idlc/src/directive.c:160-227 | the `#pragma keylist` states: data type, first key, keys separated by commas, end of line; properties in DataTypeStep, KeyStep and KeylistEnds |
| Directives.NameSpec | src/tools/idlc/src/directive.c:237-263 | the directive name after `#` and after `pragma`: `line`, `pragma` and `keylist` accepted, anything else an error; properties in DirectiveNamesLineOrPragma and PragmaTakesOnlyKeylist |
| Directives.DirectiveStep | src/tools/idlc/src/directive.c:229-274 | one token fed to `idl_parse_directive`, dispatched on the state bits; properties in StepKeepsConsistent, InitialAcceptsOnlyHash and the whole-directive runs |
| Directives.Processor.PushLine | src/tools/idlc/src/directive.c:36-63 | the new state and result are PushLineSpec of the old |
| Directives.Processor.EndLine | src/tools/idlc/src/directive.c:122-128 | the new state and result are LineEndSpec of the old |
| Directives.Processor.FinishLine | src/tools/idlc/src/directive.c:115-128 | the new state and result are ExtraTokensSpec of the old |
| Directives.Processor.TakeFileName | src/tools/idlc/src/directive.c:99-114 | the new state and result are LineSpec of the old |
| Directives.Processor.ParseLine | src/tools/idlc/src/directive.c:65-131 | the new state and result are LineSpec of the old |
| Directives.Processor.PushKeylist | src/tools/idlc/src/directive.c:133-158 | the new state and result are PushKeylistSpec of the old |
| Directives.Processor.TakeKey | src/tools/idlc/src/directive.c:192-224 | the new state and result are KeylistSpec of the old |
| Directives.Processor.ParseKeylist | src/tools/idlc/src/directive.c:160-227 | the new state and result are KeylistSpec of the old |
| Directives.Processor.TakeName | src/tools/idlc/src/directive.c:237-263 | the new state and result are NameSpec of the old |
| Directives.Processor.ParseDirective | src/tools/idlc/src/directive.c:229-274 | the new state and result are DirectiveStep of the old |
| DirectiveProperties.StepKeepsConsistent | src/tools/idlc/src/directive.c:77-123 | every call keeps the pending directive consistent with the phase, so the parser's assertions on it hold |
| DirectiveProperties.InitialAcceptsOnlyHash | src/tools/idlc/src/directive.c:264-271 | in the initial state `#` enters a directive and every other token is an error |
| DirectiveProperties.DirectiveNamesLineOrPragma | src/tools/idlc/src/directive.c:249-263 | after `#`, success exactly for the identifiers `line` and `pragma`, and these select LINE and PRAGMA |
| DirectiveProperties.PragmaTakesOnlyKeylist | src/tools/idlc/src/directive.c:237-248 | after `#pragma`, success exactly for the identifier `keylist` |
| DirectiveProperties.LineNumberStep | src/tools/idlc/src/directive.c:73-98 | a non-number and a number that is not all decimal are errors; otherwise the line is recorded with no file and the state advances |
| DirectiveProperties.LineNumberRoundTrip | src/tools/idlc/src/directive.c:84-94 | every line number below 2^32, written in decimal, is the line recorded |
| DirectiveProperties.FileNameStep | src/tools/idlc/src/directive.c:99-113 | a string literal is recorded as the file; anything else is an error that leaves the state at extra tokens |
| DirectiveProperties.ExtraTokensOnlyWarn | src/tools/idlc/src/directive.c:115-128 | the first surplus token draws a warning only; later ones are skipped silently |
| DirectiveProperties.LineDirectiveEnds | src/tools/idlc/src/directive.c:122-127 | a newline or end of input ends `#line`: the directive bits are cleared and the scanner moves to the recorded line at column 1 |
| DirectiveProperties.PushLineKeepsNamesDistinct | src/tools/idlc/src/directive.c:39-56 | the file list never holds a name twice, and the directive's file is listed afterwards |
| DirectiveProperties.DataTypeStep | src/tools/idlc/src/directive.c:170-191 | a missing or non-identifier data type is an error; an identifier starts the keylist with no keys |
| DirectiveProperties.KeyStep | src/tools/idlc/src/directive.c:199-224 | keys are appended in order; a comma is accepted only after a key; non-identifiers and reserved words are refused |
| DirectiveProperties.KeylistEnds | src/tools/idlc/src/directive.c:199-201 | a newline or end of input hands the data type and keys to the pragma sink, clears the directive bits and returns the sink's verdict |
| DirectiveProperties.Run | src/tools/idlc/src/directive.c:229-274 | feeding tokens one by one, stopping at the first error, keeps the processor consistent |
| DirectiveProperties.RunConcat | src/tools/idlc/src/directive.c:229-274 | feeding two token runs in turn is feeding their concatenation |
| DirectiveProperties.KeysRun | src/tools/idlc/src/directive.c:192-224 | unreserved identifier keys are collected in order |
| DirectiveProperties.LineDirectiveRun | src/tools/idlc/src/directive.c:66-131 | `#line n` moves the scanner to line n (32-bit), column 1, same file, and directive parsing ends |
| DirectiveProperties.LineFileRun | src/tools/idlc/src/directive.c:36-63 | `#line n "f"` moves the scanner to line n of file f, and f is listed exactly once |
| DirectiveProperties.KeylistRun | src/tools/idlc/src/directive.c:133-227 | `#pragma keylist t k1 k2 ...` hands t and then the keys to the sink in order and returns the sink's verdict |
| StringUtils.Lower | src/idl/src/string_utils.c:29 | `tolower` in the C locale maps only A..Z, shifting them by 32, and keeps NUL |
| StringUtils.CaselessPrefix | src/idl/src/string_utils.c:28-35 | the longest prefix on which both strings agree up to case |
| StringUtils.CaseCmp | src/idl/src/string_utils.c:21-38 | the case-insensitive comparison: the difference of the lowered characters at the first difference or at the end; properties in CaseCmpAtFirstDifference, CaseCmpZeroIff and CaseCmpAntisymmetric |
| StringUtils.NCaseCmp | src/idl/src/string_utils.c:40-64 | the same comparison on at most n characters; properties in NCaseCmpOnPrefixes, NCaseCmpZeroIff and NCaseCmpLongBound |
| StringUtils.StrCaseCmp | src/idl/src/string_utils.c:21-38 | the loop computes CaseCmp |
| StringUtils.StrNCaseCmp | src/idl/src/string_utils.c:40-64 | the loop computes NCaseCmp |
| StringUtils.NulFrom | src/idl/src/string_utils.c:143 | the first NUL at or after a position |
| StringUtils.TokenEnd | src/idl/src/string_utils.c:143-144 | the first separator or the terminator after the start, with no separator before it |
| StringUtils.StrSepSpec | src/idl/src/string_utils.c:136-151 | `strsep` on a NUL-terminated buffer: no token at NULL, else the token up to the first separator, which is overwritten with NUL; properties in StrSepToken |
| StringUtils.StrSep | src/idl/src/string_utils.c:136-151 | the returned token, the new position and the new buffer are StrSepSpec of the old buffer |
| StringUtils.StrLen | src/idl/src/string_utils.c:171 | the length is the index of the first NUL |
| StringUtils.MemDup | src/idl/src/string_utils.c:153-163 | NULL exactly for zero bytes; otherwise a fresh block holding the first n bytes |
| StringUtils.StrDup | src/idl/src/string_utils.c:165-172 | a fresh copy of the string and its terminator, designating the same C string |
| StringUtils.IndexOf | src/idl/src/string_utils.c:201 | `strchr` finds the first occurrence of the character |
| StringUtils.OptParser.constructor | src/idl/src/string_utils.c:176-187 | diagnostics on, `optind` 1, `sp` 1, no argument |
| StringUtils.OptParser.Complain | src/idl/src/string_utils.c:174 | a diagnostic with the program name is recorded only when `opterr` is set |
| StringUtils.OptParser.Illegal | src/idl/src/string_utils.c:200-208 | the illegal-option branch computes GetOptSpec |
| StringUtils.OptParser.WithArgument | src/idl/src/string_utils.c:209-218 | the option-argument branch computes GetOptSpec |
| StringUtils.OptParser.Flag | src/idl/src/string_utils.c:219-225 | the flag branch computes GetOptSpec |
| StringUtils.GetOptSpec | src/idl/src/string_utils.c:181-227 | one `getopt` call on the globals: end of options, unknown option, option with attached or separate argument, flag; properties in GetOptKeepsValid, GetOptEnd, GetOptAdvances and the argument lemmas |
| StringUtils.OptParser.GetOpt | src/idl/src/string_utils.c:181-227 | the result and the new globals are GetOptSpec of the old |
| StringUtilsProperties.CaseCmpAtFirstDifference | src/idl/src/string_utils.c:21-38 | the result is the difference of the lowered characters at the first position where they differ up to case, or at the end |
| StringUtilsProperties.CaseCmpZeroIff | src/idl/src/string_utils.c:21-38 | zero exactly for strings equal up to case |
| StringUtilsProperties.CaseCmpAntisymmetric | src/idl/src/string_utils.c:21-38 | swapping the arguments negates the result |
| StringUtilsProperties.NCaseCmpOnPrefixes | src/idl/src/string_utils.c:40-64 | the bounded comparison is the full comparison of the first n characters |
| StringUtilsProperties.NCaseCmpZeroIff | src/idl/src/string_utils.c:40-64 | zero exactly when the first n characters agree up to case; always zero for n = 0 |
| StringUtilsProperties.NCaseCmpLongBound | src/idl/src/string_utils.c:40-64 | a bound past the end of either string gives the unbounded answer |
| StringUtilsProperties.StrSepToken | src/idl/src/string_utils.c:136-151 | an empty string gives NULL and no change; otherwise the token is the longest separator-free prefix, its end is NUL-terminated and the position moves past it |
| StringUtilsProperties.GetOptKeepsValid | src/idl/src/string_utils.c:181-227 | getopt keeps its invariant and never moves `optind` beyond `argc` |
| StringUtilsProperties.GetOptEnd | src/idl/src/string_utils.c:191-199 | EOF exactly at the end of options (no argument left, no leading '-', a lone "-", or "--"); only "--" is consumed |
| StringUtilsProperties.GetOptAdvances | src/idl/src/string_utils.c:200-226 | every non-EOF answer moves to a later argument or further into the same one |
| StringUtilsProperties.AttachedArgument | src/idl/src/string_utils.c:209-211 | `-oVALUE` gives VALUE and moves to the next argument |
| StringUtilsProperties.SeparateArgument | src/idl/src/string_utils.c:212-217 | `-o VALUE` gives VALUE and skips both arguments; `-o` as the last argument is refused with a diagnostic |
| StringUtilsProperties.GroupedFlags | src/idl/src/string_utils.c:219-225 | `-ab` gives a and stays in the argument, then b and moves on |
| BackendCpp11.BaseTypeName | src/idl/src/backendCpp11.c:43-107 | the C++11 name of each base type; proved readable back in BaseTypeNameRoundTrip and BaseTypeNameInjective |
| BackendCpp11.Cpp11Type | src/idl/src/backendCpp11.c:113-169 | the C++11 name of a type: base names, `std::vector<...>` for sequences, the string types, and the declared name otherwise; round trips in SequenceNameRoundTrip and NestedNameRoundTrip |
| BackendCpp11.DefaultValue | src/idl/src/backendCpp11.c:171-261 | the default initialiser of a type; characterised in DefaultValueIff |
| BackendCpp11.TemplateFlags | src/idl/src/streamer_generator.c:290-309 | the template category bit and the code of each template type (sequence 1, string 2, wide string 3, fixed point 4); used by Selects |
| BackendCpp11.Selects | src/idl/src/backendCpp11.c:327 | the typedef test as written, `(flags & IDL_TEMPL_TYPE) && (flags & IDL_SEQUENCE)`, or sequences only; characterised in TemplatesSelected |
| BackendCpp11.Typedefs | src/idl/src/backendCpp11.c:318-341 | `public:` and one typedef per selected member; characterised in TypedefsCoverSelected and TypedefsHeader |
| BackendCpp11.Attributes | src/idl/src/backendCpp11.c:343-359 | `private:` and one attribute per member; characterised in AttributesInOrder |
| BackendCpp11.DefaultInits | src/idl/src/backendCpp11.c:374-391 | the default constructor's initialisers; characterised in DefaultInitsShape |
| BackendCpp11.Constructors | src/idl/src/backendCpp11.c:361-413 | `public:`, the default constructor and the explicit constructor as written; balance and indentation in EmptyStructConstructorUnclosed and StructAtLeast |
| BackendCpp11.ContextAfterDefault | src/idl/src/backendCpp11.c:236-249 | the custom context get_default_value leaves: the dead local's address after an enumeration, as written; characterised in AccessorsDeterminedIff |
| BackendCpp11.ContextAfterDefaults | src/idl/src/backendCpp11.c:374-391 | the custom context after the default constructor's loop over the members |
| BackendCpp11.AccessorsAfterConstructors | src/idl/src/backendCpp11.c:505-534 | the getters and setters are determined only while the member context is intact; characterised in AccessorsDeterminedIff and RestoredContextKeepsAccessors |
| BackendCpp11.StructPieces | src/idl/src/backendCpp11.c:536-581 | the class line, the body in source order with the typedefs the bit test selects, and the closing brace; indentation in StructAtLeast |
| BackendCpp11.EmitDecl | src/idl/src/backendCpp11.c:584-608 | a module becomes a namespace around its children, a struct a class, other constructed types nothing, anything else an invalid parse tree; properties in EmitAtLeast |
| BackendCpp11.EmitChildren | src/idl/src/backendCpp11.c:266-281 | the walk over a scope, skipping other declarations inside modules and stopping at the first failure; properties in ModuleWalkSucceeds, TopLevelFailsIff and ChildrenAtLeast |
| BackendCpp11.Params | src/idl/src/backendCpp11.c:397-403 | one parameter line per member |
| BackendCpp11.Inits | src/idl/src/backendCpp11.c:405-411 | one initialiser line per member |
| BackendCpp11.States | src/idl/src/backendCpp11.c:299-308 | one member state per member, in order, each with its C++ type name |
| BackendCpp11.CollectMembers | src/idl/src/backendCpp11.c:544-553 | a fresh array holding the member states in order |
| BackendCpp11.Writer.Print | src/idl/src/backendCpp11.c:272 | one line at the current indentation is appended |
| BackendCpp11.Writer.PrintNoIndent | src/idl/src/backendCpp11.c:380 | one piece without indentation is appended |
| BackendCpp11.Writer.GenerateTypedefs | src/idl/src/backendCpp11.c:318-341 | the loop makes the source's bit test on each member; the output gains Typedefs with the as-written selection and the depth is restored |
| BackendCpp11.Writer.GenerateAttributes | src/idl/src/backendCpp11.c:343-359 | the output gains Attributes and the depth is restored |
| BackendCpp11.Writer.GenerateDefaultInits | src/idl/src/backendCpp11.c:374-390 | the output gains DefaultInits |
| BackendCpp11.Writer.GenerateParams | src/idl/src/backendCpp11.c:397-403 | the output gains the parameter lines |
| BackendCpp11.Writer.GenerateInits | src/idl/src/backendCpp11.c:405-411 | the output gains the initialiser lines |
| BackendCpp11.Writer.GenerateDefaultConstructor | src/idl/src/backendCpp11.c:367-392 | the output gains DefaultConstructor and the depth is restored |
| BackendCpp11.Writer.GenerateExplicitConstructor | src/idl/src/backendCpp11.c:394-413 | the output gains the explicit constructor as written, its head printed even for a struct without members, and the depth is restored |
| BackendCpp11.Writer.GenerateConstructors | src/idl/src/backendCpp11.c:361-413 | the output gains Constructors and the depth is restored |
| BackendCpp11.Writer.GenerateAccessors | src/idl/src/backendCpp11.c:505-534 | the output gains Accessors and the depth is restored |
| BackendCpp11.Writer.GenerateAccessorLines | src/idl/src/backendCpp11.c:514-531 | the output gains one member's getter, reference getter and setter, plus the move setter exactly for a member passed by reference |
| BackendCpp11.Writer.GenerateBody | src/idl/src/backendCpp11.c:557-567 | the output gains the class body and the depth is restored |
| BackendCpp11.Writer.GenerateClass | src/idl/src/backendCpp11.c:555-569 | the output gains StructPieces |
| BackendCpp11.Writer.OnStructOpen | src/idl/src/backendCpp11.c:536-581 | the output gains the class text of the struct's members, and the result is OK |
| BackendCpp11.Writer.OnModuleOpen | src/idl/src/backendCpp11.c:266-281 | the output and result are EmitDecl of the module |
| BackendCpp11.Writer.WalkChildren | src/idl/src/backendCpp11.c:274 | the output and result are EmitChildren of the declarations |
| BackendCpp11.Writer.ScopeWalk | src/idl/src/backendCpp11.c:584-608 | the output and result are EmitDecl of the declaration |
| BackendCpp11.Writer.BackendGenerate | src/idl/src/backendCpp11.c:610-618 | the output and result are EmitChildren of the top-level declarations |
| BackendCpp11Properties.BaseTypeNameRoundTrip | src/idl/src/backendCpp11.c:43-107 | every base type's C++ name reads back as the type, except that long double is written `double` and octet `uint8_t` |
| BackendCpp11Properties.BaseTypeNameInjective | src/idl/src/backendCpp11.c:43-107 | two base types share a C++ name exactly when they differ only by those two merges |
| BackendCpp11Properties.IntegerNameCarriesWidth | src/idl/src/backendCpp11.c:43-73 | an integer's name is `int<bits>_t` with the type's bit width, with a `u` prefix exactly for unsigned types |
| BackendCpp11Properties.SequenceNameRoundTrip | src/idl/src/backendCpp11.c:113-146 | a sequence's C++ name gives back its element's name |
| BackendCpp11Properties.Nested | src/idl/src/backendCpp11.c:148-169 | a type nested in n sequences is supported exactly when the innermost type is |
| BackendCpp11Properties.NestedNameRoundTrip | src/idl/src/backendCpp11.c:113-169 | unwrapping n vectors from a type nested n times gives back the innermost name |
| BackendCpp11Properties.NestedNameIsWrapped | src/idl/src/backendCpp11.c:113-146 | the C++ name of a type nested n times in sequences is its name inside n `std::vector<...>` wrappers |
| BackendCpp11Properties.UnwrapWrapped | src/idl/src/backendCpp11.c:113-146 | stripping n vector wrappers from a name wrapped n times gives the name back |
| BackendCpp11Properties.DefaultValueIff | src/idl/src/backendCpp11.c:171-261 | a default exists exactly for base and enum types; an enum's is its first enumerator; the others are `0`, `0.0f`, `0.0` or `false`, floating point starting `0.0` |
| BackendCpp11Properties.TemplatesSelected | src/idl/src/backendCpp11.c:327 | the test as written holds exactly for the template types: sequences, strings, wide strings and fixed point |
| BackendCpp11Properties.TypedefsCoverSelected | src/idl/src/backendCpp11.c:318-341 | for either selection, a typedef line for every selected member and for nothing else, and none exactly when no member is selected |
| BackendCpp11Properties.TypedefsHeader | src/idl/src/backendCpp11.c:324-333 | "public:" heads the typedef block exactly when some member is selected, and the typedef lines are one level deeper |
| BackendCpp11Properties.StringMembersGetTypedefs | src/idl/src/backendCpp11.c:327-333 | as written, a string or wide string member gets "public:" and a `_seq` typedef; selecting sequences only, it gets none |
| BackendCpp11Properties.TypedefsCoverSequences | src/idl/src/backendCpp11.c:318-341 | selecting sequences only: a typedef line for every sequence member and nothing else, and "public:" exactly when some member is a sequence |
| BackendCpp11Properties.AccessorsDeterminedIff | src/idl/src/backendCpp11.c:236-249 | as written, the getters and setters are determined exactly when no member is an enumeration |
| BackendCpp11Properties.RestoredContextKeepsAccessors | src/idl/src/backendCpp11.c:236-249 | restoring the saved pointer keeps the member context, so the accessors are Accessors for every member list |
| BackendCpp11Properties.AttributesInOrder | src/idl/src/backendCpp11.c:343-359 | one attribute per member in member order, one level deeper than "private:" |
| BackendCpp11Properties.DefaultInitsShape | src/idl/src/backendCpp11.c:374-391 | exactly the members with a default get an initialiser, in order; " :" comes first and "," between them, and nothing when no member has a default |
| BackendCpp11Properties.AccessorsCount | src/idl/src/backendCpp11.c:505-534 | three accessors per member plus a move setter per reference member, all one level deeper than the class |
| BackendCpp11Properties.ParamsParens | src/idl/src/backendCpp11.c:397-403 | for names without parentheses, the full parameter list closes exactly one parenthesis when there is a member and none when there is not |
| BackendCpp11Properties.InitsParens | src/idl/src/backendCpp11.c:405-411 | the initialiser lines are balanced |
| BackendCpp11Properties.EmptyStructConstructorUnclosed | src/idl/src/backendCpp11.c:394-413 | as written, a struct without members gets `explicit S(` with its parenthesis never closed, and it is the last line of the constructors the class is given |
| BackendCpp11Properties.CorrectedConstructorBalanced | src/idl/src/backendCpp11.c:394-413 | the corrected explicit constructor is balanced for every member list and is the source's text whenever there is a member |
| BackendCpp11Properties.ModuleWalkSucceeds | src/idl/src/backendCpp11.c:266-281 | inside a module the walk never fails: other declarations are skipped |
| BackendCpp11Properties.TopLevelFailsIff | src/idl/src/backendCpp11.c:584-618 | at the top level the walk fails exactly when some declaration is neither a module nor a constructed type |
| BackendCpp11Properties.StructAtLeast | src/idl/src/backendCpp11.c:555-569 | a class's text is never indented less than the class line |
| BackendCpp11Properties.EmitAtLeast | src/idl/src/backendCpp11.c:266-281 | generated text is never indented less than its scope; a module's contents sit one level deeper than its braces |
| BackendCpp11Properties.ChildrenAtLeast | src/idl/src/backendCpp11.c:274 | the children's text is never indented less than their scope |

## Left out

- Opening and closing files and freeing memory are not modelled. This covers create_streamer and destruct_streamer, destruct_ostream, close_context, and the `free` calls everywhere. The two output files are objects holding text.
- idl_streamers_generate parses its IDL text with idl_parse_string, which is not part of this model. Streamer.Generate starts from the parsed tree and requires a non-empty one, because process_node reads the root node without a null check.
- get_cpp11_name and get_cpp11_type's mangling are not part of this model. Nodes carry the final names.
- print_node and process_template only print traces to standard output, so they are not modelled beyond the template member being skipped.
- The `malloc` and `realloc` buffer sizes in process_base (streamer_generator.c:623 and 628) are not modelled. The emitted text is modelled as if every buffer were large enough.
- Allocation failures are not modelled. The directive parser's `IDL_MEMORY_EXHAUSTED` returns are not modelled, and idl_memdup is modelled with `malloc` always succeeding.
- idl_asprintf and idl_vasprintf are formatting into allocated memory through `vsnprintf`, which is not part of this model.
- The value of IDL_SCAN_DIRECTIVE is defined in a header that is not part of this model. It is taken as 0x100, the bit above the eight directive bits. Only the directive bits of the processor's state word are modelled.
- idl_istoken is an input: the set of reserved words.
- ddsts_pragma_open, ddsts_pragma_add_identifier and ddsts_pragma_close form the pragma sink, which is an outside component. The model records what is handed to it and takes its verdict as an input.
- Diagnostic source locations are not modelled. Messages carry only their text.
- The keys of a keylist are a sequence instead of a NULL-terminated array.
- The `ERANGE` that `strtoull` sets for a line number above 2^64-1 is not modelled; the saturated value is, before the `uint32_t` cast.
- StringUtils.Lower: `tolower` is modelled for the C locale only.
- The characters `getopt` compares are code points, so `char` signedness is not modelled.
- StringUtilsProperties.GetOptAdvances states progress as two comparisons instead of one numeric measure.
- idl_walk_children, idl_walk_current_scope, idl_is_reference and the custom-context calls of the C++ back end belong to the tree walker, which is not part of this model.
  - The walk is modelled as visiting children in order and stopping at the first result that is not OK.
  - Whether a member is a reference is a field of the member.
  - idl_set_custom_context is assumed to succeed.
- The back end's indentation is modelled as a depth on each line instead of blank characters. idl_indent_double_incr counts as two levels.
- The `#if 0` blocks of backendCpp11.c are not modelled: the copy and move constructors and assignment operators (lines 414-501) and the declarator helpers.
- Fixed-point types are outside get_cpp11_type's supported set and are excluded by the Supported predicate.
- BackendCpp11.DefaultValue requires an enumeration to have at least one enumerator, as IDL grammar guarantees.
- BackendCpp11.DefaultValue gives the value only. Its effect on the custom context is BackendCpp11.ContextAfterDefault.
- BackendCpp11.TemplateFlags: IDL_TEMPL_TYPE and IDL_SEQUENCE are defined in the parse tree's header, which is not part of this model. IDL_SEQUENCE is taken as the template bit plus the code 1, composed like IDL_INTEGER_TYPE (streamer_generator.c:312). If it were the bare code 1, string members would lose their typedef and wide string members would keep it.
- BackendCpp11.StructPieces: for a struct with an enumeration member, the getters and setters are the intended ones. The source reads them through a dead stack address (see Findings), which has no defined text.
- BackendCpp11.EmitDecl: a struct declaration's text has the getters and setters of StructPieces, also after an enumeration member.
- BackendCpp11.EmitChildren: the children's text has the getters and setters of StructPieces, also after an enumeration member.
- BackendCpp11.Writer.OnStructOpen: the writer keeps the member context across get_default_value, so it emits StructPieces' getters and setters, also after an enumeration member.
- BackendCpp11.Writer.GenerateBody: the getters and setters are emitted from the member context, as if get_default_value had restored it.
- BackendCpp11.Writer.GenerateClass: the class text carries GenerateBody's getters and setters, also after an enumeration member.
- BackendCpp11.Writer.OnModuleOpen: a module's text carries OnStructOpen's getters and setters, also after an enumeration member.
- BackendCpp11.Writer.WalkChildren: the children's text carries OnStructOpen's getters and setters, also after an enumeration member.
- BackendCpp11.Writer.ScopeWalk: the walk's text carries OnStructOpen's getters and setters, also after an enumeration member.
- BackendCpp11.Writer.BackendGenerate: the generated file carries OnStructOpen's getters and setters, also after an enumeration member.
- The C++ writer emits the explicit constructor as written, unclosed for a struct without members (see Findings). The intended constructor is BackendCpp11.CorrectedExplicitConstructor; no writer method emits it.
- The initial state of the directive processor (not in a directive, line 1, column 1) is set by the scanner, which is not part of this model; Directives.Processor's constructor stands in for it.
- Opening the C++ output is not part of this model; BackendCpp11.Writer's constructor starts with an empty output at depth 0.
- Streamer.Context.ProcessNode and ProcessModule follow the source's flushing order. The corrected order exists only at the specification level, as Streamer.ScopeOrder.OpeningFirst.

## Findings

| source | as written | input that shows it | evidently intended | confidence | as-written member | corrected member |
|---|---|---|---|---|---|---|
| src/idl/src/streamer_generator.c:618-651 | fixed padding is computed from the accumulated count while `currentalignment` keeps the old width, so later members are measured against the wrong boundary | `struct { int32 a; int8 b; int32 c; }` places c at offset 5; `struct { int8 a; int32 b; int8 c; int64 d; }` places d at offset 12 | every base member starts at an offset divisible by its width | high; not executed | AlignmentExamples.EqualWidthAfterNarrowerMisaligns | Alignment.CorrectedLayoutAligned |
| src/idl/src/streamer_generator.c:459-474 | a module's `namespace` opening waits in its context's buffers until the first flush, so a nested module flushes its own opening first | `module A { module B { struct S { long x; }; }; };` puts `namespace B` in the header before `namespace A` | each namespace opening reaches the header before its contents | high; not executed | StreamerProperties.NestedModuleOpensLate | StreamerProperties.NestedModuleOpensInOrder |
| src/idl/src/backendCpp11.c:394-413 | the explicit constructor's `)` is printed with the last parameter, so a struct with no members leaves `explicit S(` unclosed | a struct with no members | no explicit constructor (or a balanced one) when there are no members | medium (depends on the parser admitting empty structs); not executed | BackendCpp11Properties.EmptyStructConstructorUnclosed | BackendCpp11Properties.CorrectedConstructorBalanced |
| src/idl/src/backendCpp11.c:327 | the typedef test `(flags & IDL_TEMPL_TYPE) && (flags & IDL_SEQUENCE)` tests bits of a numbered code, so other template types pass it | `struct S { wstring w; };` gets `public:` and `typedef std::wstring _w_seq;` | a `_seq` typedef for sequence members only, as the test's comment and the suffix say | medium (depends on the flag values in the parse tree's header); not executed | BackendCpp11Properties.StringMembersGetTypedefs | BackendCpp11Properties.TypedefsCoverSequences |
| src/idl/src/backendCpp11.c:240-249 | get_default_value reinstalls `&custom_context`, the address of its own local, instead of the saved pointer | `struct S { E e; };` with E an enumeration: struct_generate_getters_setters then reads its member context through a dead stack address | the saved member context is restored, so the getters and setters list every member | high; not executed | BackendCpp11Properties.AccessorsDeterminedIff | BackendCpp11Properties.RestoredContextKeepsAccessors |
