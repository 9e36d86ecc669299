/** The compiler-directive parser of idlc (directive.c): a token-driven state
    machine for `#line` (C preprocessor line control, section 6.10.4 of
    ISO/IEC 9899) and `#pragma keylist`, which keeps its state in the low bits
    of the processor's state word. */
module Directives {
  import opened Text
  import opened Wrappers

  // ---------------------------------------------------------------------
  // State bits
  // ---------------------------------------------------------------------

  /** The scanner flag that marks directive scanning. Its value lives in a
      header that is not part of this model; it is taken to be the single bit
      just above the eight bits reserved for directive parsing. */
  const ScanDirective: bv32 := 0x100

  /** DIRECTIVE, LINE, PRAGMA and KEYLIST: the global-state masks the
      dispatcher tests, built up from the scan flag. */
  const DirectiveBits: bv32 := ScanDirective | (1 << 4)
  const LineBits: bv32 := DirectiveBits | (1 << 5)
  const PragmaBits: bv32 := DirectiveBits | (1 << 6)
  const KeylistBits: bv32 := PragmaBits | (1 << 7)

  /** STATEMASK: the directive bits, the scan flag included. */
  const StateMask: bv32 := ScanDirective | (ScanDirective - 1)

  /** Where the parser is. `Idle` is a state word without the scan flag
      (directive parsing not under way); the others are INITIAL, DISCARD,
      DIRECTIVE, PRAGMA and the local states of `#line` (numbered upwards
      from LINE) and of `#pragma keylist` (numbered upwards from KEYLIST). */
  datatype Phase =
    | Idle | Initial | Discard | InDirective | InPragma
    | LineNumber | FileName | ExtraTokens | LineEnd
    | DataType | FirstKey | Key

  /** `proc->state & STATEMASK` in each phase. */
  function Bits(ph: Phase): bv32
  {
    match ph
    case Idle => 0
    case Initial => ScanDirective | 0
    case Discard => ScanDirective | 1
    case InDirective => DirectiveBits
    case InPragma => PragmaBits
    case LineNumber => LineBits
    case FileName => LineBits + 1
    case ExtraTokens => LineBits + 2
    case LineEnd => LineBits + 3
    case DataType => KeylistBits
    case FirstKey => KeylistBits + 1
    case Key => KeylistBits + 2
  }

  /** The dispatcher's tests, in its order, single out these phases: the
      LINE test the `#line` states, the KEYLIST test the keylist states, the
      PRAGMA test PRAGMA, the DIRECTIVE test DIRECTIVE and the equality test
      INITIAL. Idle and DISCARD pass none. */
  lemma DispatchSelects(ph: Phase)
    ensures Bits(ph) & LineBits == LineBits <==> ph in {LineNumber, FileName, ExtraTokens, LineEnd}
    ensures Bits(ph) & LineBits != LineBits ==>
              (Bits(ph) & KeylistBits == KeylistBits <==> ph in {DataType, FirstKey, Key})
    ensures Bits(ph) & LineBits != LineBits && Bits(ph) & KeylistBits != KeylistBits ==>
              (Bits(ph) & PragmaBits == PragmaBits <==> ph == InPragma)
    ensures Bits(ph) & LineBits != LineBits && Bits(ph) & KeylistBits != KeylistBits
            && Bits(ph) & PragmaBits != PragmaBits ==>
              (Bits(ph) & DirectiveBits == DirectiveBits <==> ph == InDirective)
    ensures Bits(ph) == Bits(Initial) <==> ph == Initial
  {
  }

  /** Each phase change is the source's update of the state word: `|=` of
      DIRECTIVE, LINE, PRAGMA or KEYLIST, `++` within `#line`, replacing the
      directive bits by a keylist state, or clearing them. */
  lemma TransitionsAreBitUpdates()
    ensures Bits(InDirective) == Bits(Initial) | DirectiveBits
    ensures Bits(LineNumber) == Bits(InDirective) | LineBits
    ensures Bits(InPragma) == Bits(InDirective) | PragmaBits
    ensures Bits(DataType) == Bits(InPragma) | KeylistBits
    ensures Bits(FileName) == Bits(LineNumber) + 1
    ensures Bits(ExtraTokens) == Bits(FileName) + 1
    ensures Bits(LineEnd) == Bits(ExtraTokens) + 1
    ensures Bits(FirstKey) == KeylistBits + 1 && Bits(Key) == KeylistBits + 2
    ensures Bits(Idle) == Bits(LineEnd) & !StateMask
  {
  }

  /** Every phase lies within STATEMASK, so `state &= ~STATEMASK` and the
      updates above leave the bits of the other scanner states alone. */
  lemma PhasesWithinMask(ph: Phase)
    ensures Bits(ph) & !StateMask == 0
  {
  }

  // ---------------------------------------------------------------------
  // Tokens, directives and the processor state
  // ---------------------------------------------------------------------

  /** A token code: a character code (`'#'`, `','`, `'\n'`, and `'\0'` at the
      end of input) or one of the scanner's token kinds. */
  datatype Code = Char(c: char) | PpNumber | StringLiteral | Identifier | OtherKind

  datatype Token = Token(code: Code, text: string)

  /** A newline or the end of input closes a directive. */
  predicate EndsDirective(tok: Token)
  {
    tok.code == Char('\n') || tok.code == Char('\0')
  }

  /** The directive under construction (`proc->directive`). */
  datatype Directive =
    | LineControl(line: nat, file: Option<string>)
    | Keylist(dataType: string, keys: seq<string>)

  /** The scanner position `#line` resets. */
  datatype Position = Position(file: Option<string>, line: nat, column: nat)

  datatype Message = Error(text: string) | Warning(text: string)

  /** 0, IDL_PARSE_ERROR or IDL_MEMORY_EXHAUSTED. */
  datatype Outcome = Ok | ParseError | MemoryExhausted

  /** What closing a pragma in the type-system context reports; that code
      is not part of this model, so its verdict is an input. */
  datatype SinkVerdict = Accepted | OutOfResources | Rejected

  /** Everything the parser reads or changes: the phase (the directive bits
      of `proc->state`), the pending directive, the list of file names (most
      recent first), the scanner position, the identifier lists handed to the
      pragma sink and the diagnostics reported. */
  datatype Proc = Proc(
    phase: Phase,
    directive: Option<Directive>,
    files: seq<string>,
    position: Position,
    pragmas: seq<seq<string>>,
    messages: seq<Message>)

  datatype Stepped = Stepped(proc: Proc, outcome: Outcome)

  /** The facts the parser asserts about the pending directive in each
      phase: none before a directive has started, a `#line` one (without a
      file until the file name is taken) in the later `#line` phases, and a
      keylist once its data type is known. */
  predicate Consistent(p: Proc)
  {
    match p.phase
    case Initial | InDirective | InPragma | LineNumber | DataType => p.directive.None?
    case FileName => p.directive.Some? && p.directive.value.LineControl? && p.directive.value.file.None?
    case ExtraTokens | LineEnd => p.directive.Some? && p.directive.value.LineControl?
    case FirstKey | Key => p.directive.Some? && p.directive.value.Keylist?
    case Idle | Discard => true
  }

  predicate NoDuplicates(names: seq<string>)
  {
    forall i, j :: 0 <= i < j < |names| ==> names[i] != names[j]
  }

  // ---------------------------------------------------------------------
  // The specification of one call of idl_parse_directive
  // ---------------------------------------------------------------------

  /** idl_error followed by `return IDL_PARSE_ERROR`. */
  function Fail(p: Proc, text: string): Stepped
  {
    Stepped(p.(messages := p.messages + [Error(text)]), ParseError)
  }

  /** The largest value `strtoull` returns: out-of-range values saturate. */
  const ULLongMax: nat := 0xFFFF_FFFF_FFFF_FFFF

  /** The line a decimal pp-number sets: the `strtoull` value cast to 32 bits. */
  function LineValue(text: string): (line: nat)
    requires IsDecimal(text)
    ensures line < 0x1_0000_0000
  {
    var v := DecimalValue(text);
    (if v <= ULLongMax then v else ULLongMax) % 0x1_0000_0000
  }

  /** push_line: record the file name unless an equal one is already listed
      (new names go in front), then move the scanner to the directive's line,
      column 1. */
  function PushLineSpec(p: Proc): Stepped
    requires p.directive.Some? && p.directive.value.LineControl?
  {
    var d := p.directive.value;
    var files := if d.file.Some? && d.file.value !in p.files then [d.file.value] + p.files else p.files;
    var file := if d.file.Some? then d.file else p.position.file;
    Stepped(p.(files := files, position := Position(file, d.line, 1), directive := None), Ok)
  }

  /** The `newline` case: a newline or end of input clears the directive bits
      and pushes the directive; anything else is skipped. */
  function LineEndSpec(p: Proc, tok: Token): Stepped
    requires p.directive.Some? && p.directive.value.LineControl?
  {
    if EndsDirective(tok) then PushLineSpec(p.(phase := Idle))
    else Stepped(p, Ok)
  }

  /** The `extra_tokens` case: warn about a token that does not end the
      directive, step to `newline` and fall through. */
  function ExtraTokensSpec(p: Proc, tok: Token): Stepped
    requires p.directive.Some? && p.directive.value.LineControl?
  {
    var warned := if EndsDirective(tok) then p.messages
                  else p.messages + [Warning("extra tokens at end of #line directive")];
    LineEndSpec(p.(phase := LineEnd, messages := warned), tok)
  }

  /** parse_line: the switch on the `#line` phase. */
  function LineSpec(p: Proc, tok: Token): Stepped
    requires Consistent(p)
  {
    match p.phase
    case LineNumber =>
      if tok.code != PpNumber then Fail(p, "no line number in #line directive")
      else if !IsDecimal(tok.text) then Fail(p, "invalid line number in #line directive")
      else Stepped(p.(directive := Some(LineControl(LineValue(tok.text), None)), phase := FileName), Ok)
    case FileName =>
      var q := p.(phase := ExtraTokens);
      if !EndsDirective(tok) then
        if tok.code != StringLiteral then Fail(q, "invalid filename in #line directive")
        else Stepped(q.(directive := Some(p.directive.value.(file := Some(tok.text)))), Ok)
      else ExtraTokensSpec(q, tok)
    case ExtraTokens => ExtraTokensSpec(p, tok)
    case LineEnd => LineEndSpec(p, tok)
    case _ => Stepped(p, Ok)
  }

  /** The result push_keylist returns once ddsts_pragma_close has spoken. */
  function CloseOutcome(verdict: SinkVerdict): Outcome
  {
    match verdict
    case Accepted => Ok
    case OutOfResources => MemoryExhausted
    case Rejected => ParseError
  }

  /** push_keylist: the sink receives the data type and then the keys in
      order; the directive is released whatever the sink decides. */
  function PushKeylistSpec(p: Proc, verdict: SinkVerdict): Stepped
    requires p.directive.Some? && p.directive.value.Keylist?
  {
    var d := p.directive.value;
    Stepped(p.(pragmas := p.pragmas + [[d.dataType] + d.keys], directive := None), CloseOutcome(verdict))
  }

  /** parse_keylist; `keywords` is what idl_istoken recognises as reserved. */
  function KeylistSpec(p: Proc, tok: Token, keywords: set<string>, verdict: SinkVerdict): Stepped
    requires Consistent(p)
  {
    match p.phase
    case DataType =>
      if EndsDirective(tok) then Fail(p, "no data-type in #pragma keylist directive")
      else if tok.code != Identifier then Fail(p, "invalid data-type in #pragma keylist directive")
      else Stepped(p.(directive := Some(Keylist(tok.text, [])), phase := FirstKey), Ok)
    case FirstKey | Key =>
      if EndsDirective(tok) then PushKeylistSpec(p.(phase := Idle), verdict)
      else if tok.code == Char(',') && p.phase == Key then Stepped(p, Ok)
      else if tok.code != Identifier then Fail(p, "invalid key in #pragma keylist directive")
      else if tok.text in keywords then Fail(p, "invalid key " + tok.text + " in #pragma keylist directive")
      else
        var d := p.directive.value;
        Stepped(p.(directive := Some(d.(keys := d.keys + [tok.text])), phase := Key), Ok)
    case _ => Stepped(p, Ok)
  }

  /** The PRAGMA and DIRECTIVE branches of idl_parse_directive: after
      `#pragma` only `keylist` is supported; after `#` only `line` and
      `pragma`. */
  function NameSpec(p: Proc, tok: Token): Stepped
  {
    if tok.code != Identifier then Fail(p, "invalid compiler directive")
    else if p.phase == InPragma then
      if tok.text == "keylist" then Stepped(p.(phase := DataType), Ok)
      else Fail(p, "unsupported #pragma directive " + tok.text)
    else if tok.text == "line" then Stepped(p.(phase := LineNumber), Ok)
    else if tok.text == "pragma" then Stepped(p.(phase := InPragma), Ok)
    else Fail(p, "invalid compiler directive " + tok.text)
  }

  /** idl_parse_directive: the dispatcher's bit tests on the directive bits,
      most specific first. */
  function DirectiveStep(p: Proc, tok: Token, keywords: set<string>, verdict: SinkVerdict): Stepped
    requires Consistent(p)
  {
    var s := Bits(p.phase);
    if s & LineBits == LineBits then LineSpec(p, tok)
    else if s & KeylistBits == KeylistBits then KeylistSpec(p, tok, keywords, verdict)
    else if s & PragmaBits == PragmaBits then NameSpec(p, tok)
    else if s & DirectiveBits == DirectiveBits then NameSpec(p, tok)
    else if s == Bits(Initial) then
      if tok.code == Char('#') then Stepped(p.(phase := InDirective), Ok)
      else Fail(p, "invalid compiler directive")
    else Stepped(p, Ok)
  }

  /** The dispatch read phase by phase: which branch of idl_parse_directive
      each phase reaches. */
  lemma DispatchByPhase(p: Proc, tok: Token, keywords: set<string>, verdict: SinkVerdict)
    requires Consistent(p)
    ensures p.phase in {LineNumber, FileName, ExtraTokens, LineEnd} ==>
              DirectiveStep(p, tok, keywords, verdict) == LineSpec(p, tok)
    ensures p.phase in {DataType, FirstKey, Key} ==>
              DirectiveStep(p, tok, keywords, verdict) == KeylistSpec(p, tok, keywords, verdict)
    ensures p.phase in {InPragma, InDirective} ==>
              DirectiveStep(p, tok, keywords, verdict) == NameSpec(p, tok)
    ensures p.phase == Initial ==>
              DirectiveStep(p, tok, keywords, verdict)
                == if tok.code == Char('#') then Stepped(p.(phase := InDirective), Ok)
                   else Fail(p, "invalid compiler directive")
    ensures p.phase in {Idle, Discard} ==> DirectiveStep(p, tok, keywords, verdict) == Stepped(p, Ok)
  {
    match p.phase
    case Idle => DispatchSelects(Idle);
    case Initial => DispatchSelects(Initial);
    case Discard => DispatchSelects(Discard);
    case InDirective => DispatchSelects(InDirective);
    case InPragma => DispatchSelects(InPragma);
    case LineNumber => DispatchSelects(LineNumber);
    case FileName => DispatchSelects(FileName);
    case ExtraTokens => DispatchSelects(ExtraTokens);
    case LineEnd => DispatchSelects(LineEnd);
    case DataType => DispatchSelects(DataType);
    case FirstKey => DispatchSelects(FirstKey);
    case Key => DispatchSelects(Key);
  }

  // ---------------------------------------------------------------------
  // The processor, changed in place
  // ---------------------------------------------------------------------

  /** The first index of `name` in the file list, or `|files|` when it is
      absent (the list walk of push_line ending at NULL). */
  method FindFile(files: seq<string>, name: string) returns (i: nat)
    ensures i <= |files|
    ensures i < |files| ==> files[i] == name
    ensures forall j :: 0 <= j < i ==> files[j] != name
  {
    i := 0;
    while i < |files| && files[i] != name
      invariant i <= |files|
      invariant forall j :: 0 <= j < i ==> files[j] != name
    {
      i := i + 1;
    }
  }

  /** The parts of idl_processor_t the directive parser uses. */
  class Processor {
    var phase: Phase
    var directive: Option<Directive>
    var files: seq<string>
    var position: Position
    var pragmas: seq<seq<string>>
    var messages: seq<Message>

    function Snapshot(): Proc
      reads this
    {
      Proc(phase, directive, files, position, pragmas, messages)
    }

    /** A processor that is not scanning a directive. */
    constructor (initialFile: Option<string>)
      ensures Snapshot() == Proc(Idle, None, [], Position(initialFile, 1, 1), [], [])
    {
      phase := Idle;
      directive := None;
      files := [];
      position := Position(initialFile, 1, 1);
      pragmas := [];
      messages := [];
    }

    /** idl_error / idl_warning */
    method Report(m: Message)
      modifies this
      ensures Snapshot() == old(Snapshot()).(messages := old(messages) + [m])
    {
      messages := messages + [m];
    }

    /** idl_error, then `return IDL_PARSE_ERROR`. */
    method Reject(text: string) returns (r: Outcome)
      modifies this
      ensures Stepped(Snapshot(), r) == Fail(old(Snapshot()), text)
    {
      Report(Error(text));
      r := ParseError;
    }

    /** push_line */
    method PushLine() returns (r: Outcome)
      requires directive.Some? && directive.value.LineControl?
      modifies this
      ensures Stepped(Snapshot(), r) == PushLineSpec(old(Snapshot()))
    {
      var dir := directive.value;
      if dir.file.Some? {
        var i := FindFile(files, dir.file.value);
        if i == |files| {
          files := [dir.file.value] + files;
        }
        position := position.(file := dir.file);
      }
      position := position.(line := dir.line, column := 1);
      directive := None;
      r := Ok;
    }

    /** The `newline` case. */
    method EndLine(tok: Token) returns (r: Outcome)
      requires directive.Some? && directive.value.LineControl?
      modifies this
      ensures Stepped(Snapshot(), r) == LineEndSpec(old(Snapshot()), tok)
    {
      if EndsDirective(tok) {
        phase := Idle;
        r := PushLine();
      } else {
        r := Ok;
      }
    }

    /** The `extra_tokens` case, falling through to `newline`. */
    method FinishLine(tok: Token) returns (r: Outcome)
      requires directive.Some? && directive.value.LineControl?
      modifies this
      ensures Stepped(Snapshot(), r) == ExtraTokensSpec(old(Snapshot()), tok)
    {
      if !EndsDirective(tok) {
        Report(Warning("extra tokens at end of #line directive"));
      }
      phase := LineEnd;
      r := EndLine(tok);
    }

    /** The `filename` case: the state advances before the token is judged. */
    method TakeFileName(tok: Token) returns (r: Outcome)
      requires Consistent(Snapshot()) && phase == FileName
      modifies this
      ensures Stepped(Snapshot(), r) == LineSpec(old(Snapshot()), tok)
    {
      phase := ExtraTokens;
      if !EndsDirective(tok) {
        if tok.code != StringLiteral {
          r := Reject("invalid filename in #line directive");
        } else {
          directive := Some(directive.value.(file := Some(tok.text)));
          r := Ok;
        }
      } else {
        r := FinishLine(tok);
      }
    }

    /** parse_line */
    method ParseLine(tok: Token) returns (r: Outcome)
      requires Consistent(Snapshot())
      modifies this
      ensures Stepped(Snapshot(), r) == LineSpec(old(Snapshot()), tok)
    {
      match phase
      case LineNumber =>
        if tok.code != PpNumber {
          r := Reject("no line number in #line directive");
        } else if !IsDecimal(tok.text) {
          r := Reject("invalid line number in #line directive");
        } else {
          directive := Some(LineControl(LineValue(tok.text), None));
          phase := FileName;
          r := Ok;
        }
      case FileName =>
        r := TakeFileName(tok);
      case ExtraTokens =>
        r := FinishLine(tok);
      case LineEnd =>
        r := EndLine(tok);
      case _ =>
        r := Ok;
    }

    /** push_keylist: the data type, then each key, to the pragma sink. */
    method PushKeylist(verdict: SinkVerdict) returns (r: Outcome)
      requires directive.Some? && directive.value.Keylist?
      modifies this
      ensures Stepped(Snapshot(), r) == PushKeylistSpec(old(Snapshot()), verdict)
    {
      var dir := directive.value;
      var sent := [dir.dataType];
      var i := 0;
      while i < |dir.keys|
        invariant i <= |dir.keys|
        invariant sent == [dir.dataType] + dir.keys[..i]
      {
        sent := sent + [dir.keys[i]];
        i := i + 1;
      }
      assert dir.keys[..i] == dir.keys;
      pragmas := pragmas + [sent];
      directive := None;
      r := CloseOutcome(verdict);
    }

    /** The `first_key` and `key` cases of parse_keylist. */
    method TakeKey(tok: Token, keywords: set<string>, verdict: SinkVerdict) returns (r: Outcome)
      requires Consistent(Snapshot()) && (phase == FirstKey || phase == Key)
      modifies this
      ensures Stepped(Snapshot(), r) == KeylistSpec(old(Snapshot()), tok, keywords, verdict)
    {
      if EndsDirective(tok) {
        phase := Idle;
        r := PushKeylist(verdict);
      } else if tok.code == Char(',') && phase == Key {
        r := Ok;
      } else if tok.code != Identifier {
        r := Reject("invalid key in #pragma keylist directive");
      } else if tok.text in keywords {
        r := Reject("invalid key " + tok.text + " in #pragma keylist directive");
      } else {
        var dir := directive.value;
        directive := Some(dir.(keys := dir.keys + [tok.text]));
        phase := Key;
        r := Ok;
      }
    }

    /** parse_keylist */
    method ParseKeylist(tok: Token, keywords: set<string>, verdict: SinkVerdict) returns (r: Outcome)
      requires Consistent(Snapshot())
      modifies this
      ensures Stepped(Snapshot(), r) == KeylistSpec(old(Snapshot()), tok, keywords, verdict)
    {
      match phase
      case DataType =>
        if EndsDirective(tok) {
          r := Reject("no data-type in #pragma keylist directive");
        } else if tok.code != Identifier {
          r := Reject("invalid data-type in #pragma keylist directive");
        } else {
          directive := Some(Keylist(tok.text, []));
          phase := FirstKey;
          r := Ok;
        }
      case FirstKey | Key =>
        r := TakeKey(tok, keywords, verdict);
      case _ =>
        r := Ok;
    }

    /** The PRAGMA and DIRECTIVE branches of idl_parse_directive: expect
        `keylist`, or `line` or `pragma`. */
    method TakeName(tok: Token) returns (r: Outcome)
      requires phase == InPragma || phase == InDirective
      modifies this
      ensures Stepped(Snapshot(), r) == NameSpec(old(Snapshot()), tok)
    {
      if tok.code != Identifier {
        r := Reject("invalid compiler directive");
      } else if phase == InPragma {
        if tok.text == "keylist" {
          phase := DataType;
          r := Ok;
        } else {
          r := Reject("unsupported #pragma directive " + tok.text);
        }
      } else if tok.text == "line" {
        phase := LineNumber;
        r := Ok;
      } else if tok.text == "pragma" {
        phase := InPragma;
        r := Ok;
      } else {
        r := Reject("invalid compiler directive " + tok.text);
      }
    }

    /** idl_parse_directive */
    method ParseDirective(tok: Token, keywords: set<string>, verdict: SinkVerdict) returns (r: Outcome)
      requires Consistent(Snapshot())
      modifies this
      ensures Stepped(Snapshot(), r) == DirectiveStep(old(Snapshot()), tok, keywords, verdict)
    {
      DispatchSelects(phase);
      var s := Bits(phase);
      if s & LineBits == LineBits {
        r := ParseLine(tok);
      } else if s & KeylistBits == KeylistBits {
        r := ParseKeylist(tok, keywords, verdict);
      } else if s & PragmaBits == PragmaBits || s & DirectiveBits == DirectiveBits {
        r := TakeName(tok);
      } else if s == Bits(Initial) {
        if tok.code == Char('#') {
          phase := InDirective;
          r := Ok;
        } else {
          r := Reject("invalid compiler directive");
        }
      } else {
        r := Ok;
      }
    }
  }
}
