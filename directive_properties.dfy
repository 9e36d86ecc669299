/** What the directive parser guarantees, proved about the specification
    functions of module Directives: the state machine's transitions, the
    invariant behind its assertions, and what whole directives do. */
module DirectiveProperties {
  import opened Text
  import opened Wrappers
  import opened Directives

  // ---------------------------------------------------------------------
  // The invariant
  // ---------------------------------------------------------------------

  lemma LineSpecKeeps(p: Proc, tok: Token)
    requires Consistent(p)
    ensures Consistent(LineSpec(p, tok).proc)
  {
    var r := LineSpec(p, tok).proc;
    match p.phase
    case LineNumber =>
      assert r.phase in {LineNumber, FileName};
    case FileName =>
      if EndsDirective(tok) {
        assert r.phase == Idle;
      } else {
        assert r.phase == ExtraTokens && r.directive.Some? && r.directive.value.LineControl?;
      }
    case ExtraTokens =>
      assert r.phase in {LineEnd, Idle};
    case _ =>
  }

  lemma KeySpecKeeps(p: Proc, tok: Token, keywords: set<string>, verdict: SinkVerdict)
    requires Consistent(p) && p.phase in {FirstKey, Key}
    ensures Consistent(KeylistSpec(p, tok, keywords, verdict).proc)
  {
    var r := KeylistSpec(p, tok, keywords, verdict).proc;
    if EndsDirective(tok) {
      assert r.phase == Idle;
    } else if tok.code == Char(',') && p.phase == Key {
      assert r == p;
    } else if tok.code != Identifier || tok.text in keywords {
      assert r.phase == p.phase && r.directive == p.directive;
    } else {
      assert r.phase == Key && r.directive.Some? && r.directive.value.Keylist?;
    }
  }

  lemma KeylistSpecKeeps(p: Proc, tok: Token, keywords: set<string>, verdict: SinkVerdict)
    requires Consistent(p)
    ensures Consistent(KeylistSpec(p, tok, keywords, verdict).proc)
  {
    match p.phase
    case FirstKey | Key => KeySpecKeeps(p, tok, keywords, verdict);
    case DataType =>
      if EndsDirective(tok) || tok.code != Identifier {
        assert KeylistSpec(p, tok, keywords, verdict).proc.directive == p.directive;
      } else {
        assert KeylistSpec(p, tok, keywords, verdict).proc.phase == FirstKey;
      }
    case _ =>
  }

  /** Every call keeps the pending directive consistent with the phase: the
      parser's assertions about `proc->directive` hold on every path. */
  lemma StepKeepsConsistent(p: Proc, tok: Token, keywords: set<string>, verdict: SinkVerdict)
    requires Consistent(p)
    ensures Consistent(DirectiveStep(p, tok, keywords, verdict).proc)
  {
    DispatchByPhase(p, tok, keywords, verdict);
    LineSpecKeeps(p, tok);
    KeylistSpecKeeps(p, tok, keywords, verdict);
  }

  // ---------------------------------------------------------------------
  // Transitions, as idl_parse_directive dispatches them
  // ---------------------------------------------------------------------

  /** INITIAL accepts only `#`. */
  lemma InitialAcceptsOnlyHash(p: Proc, tok: Token, keywords: set<string>, verdict: SinkVerdict)
    requires Consistent(p) && p.phase == Initial
    ensures tok.code == Char('#') ==>
              DirectiveStep(p, tok, keywords, verdict) == Stepped(p.(phase := InDirective), Ok)
    ensures tok.code != Char('#') ==>
              DirectiveStep(p, tok, keywords, verdict) == Fail(p, "invalid compiler directive")
  {
    DispatchByPhase(p, tok, keywords, verdict);
  }

  /** After `#`, the identifier `line` selects LINE and `pragma` selects
      PRAGMA; any other token is an error and the state stays put. */
  lemma DirectiveNamesLineOrPragma(p: Proc, tok: Token, keywords: set<string>, verdict: SinkVerdict)
    requires Consistent(p) && p.phase == InDirective
    ensures var r := DirectiveStep(p, tok, keywords, verdict);
            r.outcome == Ok <==> tok.code == Identifier && (tok.text == "line" || tok.text == "pragma")
    ensures tok.code == Identifier && tok.text == "line" ==>
              DirectiveStep(p, tok, keywords, verdict).proc == p.(phase := LineNumber)
    ensures tok.code == Identifier && tok.text == "pragma" ==>
              DirectiveStep(p, tok, keywords, verdict).proc == p.(phase := InPragma)
    ensures tok.code != Identifier ==>
              DirectiveStep(p, tok, keywords, verdict) == Fail(p, "invalid compiler directive")
  {
    DispatchByPhase(p, tok, keywords, verdict);
  }

  /** After `#pragma`, only `keylist` is supported. */
  lemma PragmaTakesOnlyKeylist(p: Proc, tok: Token, keywords: set<string>, verdict: SinkVerdict)
    requires Consistent(p) && p.phase == InPragma
    ensures var r := DirectiveStep(p, tok, keywords, verdict);
            r.outcome == Ok <==> tok.code == Identifier && tok.text == "keylist"
    ensures tok.code == Identifier && tok.text == "keylist" ==>
              DirectiveStep(p, tok, keywords, verdict).proc == p.(phase := DataType)
    ensures tok.code == Identifier && tok.text != "keylist" ==>
              DirectiveStep(p, tok, keywords, verdict)
                == Fail(p, "unsupported #pragma directive " + tok.text)
  {
    DispatchByPhase(p, tok, keywords, verdict);
  }

  /** `#line` takes a pp-number that is decimal throughout; on success the
      directive records that line and no file, and the state advances. */
  lemma LineNumberStep(p: Proc, tok: Token, keywords: set<string>, verdict: SinkVerdict)
    requires Consistent(p) && p.phase == LineNumber
    ensures tok.code != PpNumber ==>
              DirectiveStep(p, tok, keywords, verdict) == Fail(p, "no line number in #line directive")
    ensures tok.code == PpNumber && !IsDecimal(tok.text) ==>
              DirectiveStep(p, tok, keywords, verdict) == Fail(p, "invalid line number in #line directive")
    ensures tok.code == PpNumber && IsDecimal(tok.text) ==>
              DirectiveStep(p, tok, keywords, verdict)
                == Stepped(p.(phase := FileName, directive := Some(LineControl(LineValue(tok.text), None))), Ok)
  {
    DispatchByPhase(p, tok, keywords, verdict);
  }

  /** Every line number that fits in 32 bits, written in decimal, is the
      line `#line` records. */
  lemma LineNumberRoundTrip(n: nat)
    requires n < 0x1_0000_0000
    ensures IsDecimal(NatToString(n)) && LineValue(NatToString(n)) == n
  {
    DecimalRoundTrip(n);
  }

  /** The optional file name must be a string literal; the state advances
      before the token is judged, so an error leaves it at `extra_tokens`. */
  lemma FileNameStep(p: Proc, tok: Token, keywords: set<string>, verdict: SinkVerdict)
    requires Consistent(p) && p.phase == FileName && !EndsDirective(tok)
    ensures tok.code == StringLiteral ==>
              DirectiveStep(p, tok, keywords, verdict)
                == Stepped(p.(phase := ExtraTokens, directive := Some(p.directive.value.(file := Some(tok.text)))), Ok)
    ensures tok.code != StringLiteral ==>
              DirectiveStep(p, tok, keywords, verdict)
                == Fail(p.(phase := ExtraTokens), "invalid filename in #line directive")
  {
    DispatchByPhase(p, tok, keywords, verdict);
  }

  /** The first surplus token only draws a warning; later ones are skipped
      silently until the directive ends. */
  lemma ExtraTokensOnlyWarn(p: Proc, tok: Token, keywords: set<string>, verdict: SinkVerdict)
    requires Consistent(p) && !EndsDirective(tok)
    requires p.phase == ExtraTokens || p.phase == LineEnd
    ensures p.phase == ExtraTokens ==>
              DirectiveStep(p, tok, keywords, verdict)
                == Stepped(p.(phase := LineEnd,
                              messages := p.messages + [Warning("extra tokens at end of #line directive")]), Ok)
    ensures p.phase == LineEnd ==> DirectiveStep(p, tok, keywords, verdict) == Stepped(p, Ok)
  {
    DispatchByPhase(p, tok, keywords, verdict);
  }

  /** A newline or the end of input completes `#line` from any of its later
      states: the directive bits are cleared, the scanner moves to the
      recorded line at column 1 (and to the named file, if any), and the
      directive is released. */
  lemma LineDirectiveEnds(p: Proc, tok: Token, keywords: set<string>, verdict: SinkVerdict)
    requires Consistent(p) && EndsDirective(tok)
    requires p.phase == FileName || p.phase == ExtraTokens || p.phase == LineEnd
    ensures var r := DirectiveStep(p, tok, keywords, verdict);
            var d := p.directive.value;
            && r.outcome == Ok
            && r.proc.phase == Idle
            && r.proc.directive == None
            && r.proc.position == Position(if d.file.Some? then d.file else p.position.file, d.line, 1)
            && r.proc.messages == p.messages
            && r.proc.pragmas == p.pragmas
  {
    DispatchByPhase(p, tok, keywords, verdict);
  }

  /** push_line never lists a file name twice, and the directive's file is
      listed afterwards. */
  lemma PushLineKeepsNamesDistinct(p: Proc)
    requires p.directive.Some? && p.directive.value.LineControl?
    requires NoDuplicates(p.files)
    ensures NoDuplicates(PushLineSpec(p).proc.files)
    ensures var d := p.directive.value; d.file.Some? ==> d.file.value in PushLineSpec(p).proc.files
    ensures forall name :: name in p.files ==> name in PushLineSpec(p).proc.files
  {
    var d := p.directive.value;
    var files := PushLineSpec(p).proc.files;
    if d.file.Some? && d.file.value !in p.files {
      assert files == [d.file.value] + p.files;
      forall i, j | 0 <= i < j < |files|
        ensures files[i] != files[j]
      {
        if i == 0 {
          assert files[j] == p.files[j - 1];
        } else {
          assert files[i] == p.files[i - 1] && files[j] == p.files[j - 1];
        }
      }
    }
  }

  /** `#pragma keylist` needs an identifier for its data type. */
  lemma DataTypeStep(p: Proc, tok: Token, keywords: set<string>, verdict: SinkVerdict)
    requires Consistent(p) && p.phase == DataType
    ensures EndsDirective(tok) ==>
              DirectiveStep(p, tok, keywords, verdict) == Fail(p, "no data-type in #pragma keylist directive")
    ensures !EndsDirective(tok) && tok.code != Identifier ==>
              DirectiveStep(p, tok, keywords, verdict) == Fail(p, "invalid data-type in #pragma keylist directive")
    ensures tok.code == Identifier ==>
              DirectiveStep(p, tok, keywords, verdict)
                == Stepped(p.(phase := FirstKey, directive := Some(Keylist(tok.text, []))), Ok)
  {
    DispatchByPhase(p, tok, keywords, verdict);
  }

  /** A key is appended after the ones before it; a comma is accepted only
      once a key has been seen; reserved words are refused. */
  lemma KeyStep(p: Proc, tok: Token, keywords: set<string>, verdict: SinkVerdict)
    requires Consistent(p) && (p.phase == FirstKey || p.phase == Key) && !EndsDirective(tok)
    ensures tok.code == Char(',') && p.phase == Key ==> DirectiveStep(p, tok, keywords, verdict) == Stepped(p, Ok)
    ensures tok.code == Char(',') && p.phase == FirstKey ==>
              DirectiveStep(p, tok, keywords, verdict) == Fail(p, "invalid key in #pragma keylist directive")
    ensures tok.code == Identifier && tok.text in keywords ==>
              DirectiveStep(p, tok, keywords, verdict)
                == Fail(p, "invalid key " + tok.text + " in #pragma keylist directive")
    ensures tok.code == Identifier && tok.text !in keywords ==>
              var d := p.directive.value;
              DirectiveStep(p, tok, keywords, verdict)
                == Stepped(p.(phase := Key, directive := Some(Keylist(d.dataType, d.keys + [tok.text]))), Ok)
  {
    DispatchByPhase(p, tok, keywords, verdict);
  }

  /** A newline or the end of input hands the data type and then the keys to
      the pragma sink and clears the directive bits; the result is what the
      sink reports. */
  lemma KeylistEnds(p: Proc, tok: Token, keywords: set<string>, verdict: SinkVerdict)
    requires Consistent(p) && (p.phase == FirstKey || p.phase == Key) && EndsDirective(tok)
    ensures var d := p.directive.value;
            DirectiveStep(p, tok, keywords, verdict)
              == Stepped(p.(phase := Idle, directive := None, pragmas := p.pragmas + [[d.dataType] + d.keys]),
                         CloseOutcome(verdict))
  {
    DispatchByPhase(p, tok, keywords, verdict);
  }

  // ---------------------------------------------------------------------
  // Whole directives
  // ---------------------------------------------------------------------

  /** The scanner's calls of idl_parse_directive, one per token, until one
      reports an error. */
  ghost function Run(p: Proc, toks: seq<Token>, keywords: set<string>, verdict: SinkVerdict): (r: Stepped)
    requires Consistent(p)
    ensures Consistent(r.proc)
    decreases |toks|
  {
    if toks == [] then Stepped(p, Ok)
    else
      StepKeepsConsistent(p, toks[0], keywords, verdict);
      var s := DirectiveStep(p, toks[0], keywords, verdict);
      if s.outcome != Ok then s else Run(s.proc, toks[1..], keywords, verdict)
  }

  /** Feeding two token runs one after the other is feeding their
      concatenation. */
  lemma {:induction false} RunConcat(p: Proc, a: seq<Token>, b: seq<Token>, keywords: set<string>, verdict: SinkVerdict)
    requires Consistent(p)
    ensures var r := Run(p, a, keywords, verdict);
            Run(p, a + b, keywords, verdict)
              == if r.outcome != Ok then r else Run(r.proc, b, keywords, verdict)
    decreases |a|
  {
    if a == [] {
      assert a + b == b;
    } else {
      StepKeepsConsistent(p, a[0], keywords, verdict);
      var s := DirectiveStep(p, a[0], keywords, verdict);
      assert (a + b)[0] == a[0] && (a + b)[1..] == a[1..] + b;
      if s.outcome == Ok {
        RunConcat(s.proc, a[1..], b, keywords, verdict);
      }
    }
  }

  function Hash(): Token { Token(Char('#'), "#") }
  function Newline(): Token { Token(Char('\n'), "") }
  function Word(text: string): Token { Token(Identifier, text) }

  /** A comma-separated key list, as the tokens the scanner hands over. */
  function KeyTokens(keys: seq<string>): seq<Token>
    decreases |keys|
  {
    if keys == [] then []
    else
      var init := keys[..|keys| - 1];
      KeyTokens(init) + (if init == [] then [] else [Token(Char(','), ",")]) + [Word(keys[|keys| - 1])]
  }

  /** One more key, after a comma unless it is the first. */
  lemma NextKeyRun(q: Proc, dataType: string, keys: seq<string>, key: string, keywords: set<string>, verdict: SinkVerdict)
    requires q.directive == Some(Keylist(dataType, keys)) && key !in keywords
    requires q.phase == (if keys == [] then FirstKey else Key)
    ensures var sep: seq<Token> := if keys == [] then [] else [Token(Char(','), ",")];
            Run(q, sep + [Word(key)], keywords, verdict)
              == Stepped(q.(phase := Key, directive := Some(Keylist(dataType, keys + [key]))), Ok)
  {
    DispatchByPhase(q, Word(key), keywords, verdict);
    if keys != [] {
      DispatchByPhase(q, Token(Char(','), ","), keywords, verdict);
      assert Run(q, [Token(Char(','), ",")], keywords, verdict) == Stepped(q, Ok);
      RunConcat(q, [Token(Char(','), ",")], [Word(key)], keywords, verdict);
    }
  }

  /** Keys that are identifiers and not reserved words are collected in
      order; the first one moves the parser from `first_key` to `key`. */
  lemma {:induction false} KeysRun(p: Proc, dataType: string, keys: seq<string>, keywords: set<string>, verdict: SinkVerdict)
    requires p.phase == FirstKey && p.directive == Some(Keylist(dataType, []))
    requires forall k :: k in keys ==> k !in keywords
    ensures Run(p, KeyTokens(keys), keywords, verdict)
              == Stepped(p.(phase := if keys == [] then FirstKey else Key,
                            directive := Some(Keylist(dataType, keys))), Ok)
    decreases |keys|
  {
    if keys == [] {
      assert p.(phase := FirstKey, directive := Some(Keylist(dataType, []))) == p;
    } else {
      var init := keys[..|keys| - 1];
      var last := keys[|keys| - 1];
      var sep: seq<Token> := if init == [] then [] else [Token(Char(','), ",")];
      assert keys == init + [last];
      assert KeyTokens(keys) == KeyTokens(init) + sep + [Word(last)];
      assert KeyTokens(keys) == KeyTokens(init) + (sep + [Word(last)]);
      KeysRun(p, dataType, init, keywords, verdict);
      var q := Run(p, KeyTokens(init), keywords, verdict).proc;
      RunConcat(p, KeyTokens(init), sep + [Word(last)], keywords, verdict);
      NextKeyRun(q, dataType, init, last, keywords, verdict);
    }
  }

  /** `#line n` up to the line number: a `#line` directive pending with
      line n and no file. */
  lemma LineHeadRun(p: Proc, n: string, keywords: set<string>, verdict: SinkVerdict)
    requires Consistent(p) && p.phase == Initial && IsDecimal(n)
    ensures Run(p, [Hash(), Word("line"), Token(PpNumber, n)], keywords, verdict)
              == Stepped(p.(phase := FileName, directive := Some(LineControl(LineValue(n), None))), Ok)
  {
    var toks := [Hash(), Word("line"), Token(PpNumber, n)];
    var p1 := p.(phase := InDirective);
    var p2 := p.(phase := LineNumber);
    var p3 := p.(phase := FileName, directive := Some(LineControl(LineValue(n), None)));
    DispatchByPhase(p, Hash(), keywords, verdict);
    DispatchByPhase(p1, Word("line"), keywords, verdict);
    DispatchByPhase(p2, Token(PpNumber, n), keywords, verdict);
    assert Run(p3, toks[3..], keywords, verdict) == Stepped(p3, Ok);
    assert Run(p2, toks[2..], keywords, verdict) == Run(p3, toks[3..], keywords, verdict);
    assert Run(p1, toks[1..], keywords, verdict) == Run(p2, toks[2..], keywords, verdict);
  }

  /** `#line n`: the scanner moves to line n (cast to 32 bits), column 1, of
      the same file, and directive parsing ends. */
  lemma LineDirectiveRun(p: Proc, n: string, keywords: set<string>, verdict: SinkVerdict)
    requires Consistent(p) && p.phase == Initial && IsDecimal(n)
    ensures Run(p, [Hash(), Word("line"), Token(PpNumber, n), Newline()], keywords, verdict)
              == Stepped(p.(phase := Idle, position := Position(p.position.file, LineValue(n), 1)), Ok)
  {
    var head := [Hash(), Word("line"), Token(PpNumber, n)];
    var p3 := p.(phase := FileName, directive := Some(LineControl(LineValue(n), None)));
    LineHeadRun(p, n, keywords, verdict);
    RunConcat(p, head, [Newline()], keywords, verdict);
    assert head + [Newline()] == [Hash(), Word("line"), Token(PpNumber, n), Newline()];
    DispatchByPhase(p3, Newline(), keywords, verdict);
    assert Run(p3, [Newline()], keywords, verdict) == DirectiveStep(p3, Newline(), keywords, verdict);
  }

  /** `#line n "f"`: the scanner moves to line n of file f, and f is listed
      among the file names exactly once. */
  lemma LineFileRun(p: Proc, n: string, f: string, keywords: set<string>, verdict: SinkVerdict)
    requires Consistent(p) && p.phase == Initial && IsDecimal(n)
    ensures var r := Run(p, [Hash(), Word("line"), Token(PpNumber, n), Token(StringLiteral, f), Newline()], keywords, verdict);
            r == Stepped(p.(phase := Idle,
                            files := if f in p.files then p.files else [f] + p.files,
                            position := Position(Some(f), LineValue(n), 1)), Ok)
            && (NoDuplicates(p.files) ==> NoDuplicates(r.proc.files))
  {
    var head := [Hash(), Word("line"), Token(PpNumber, n)];
    var tail := [Token(StringLiteral, f), Newline()];
    var p3 := p.(phase := FileName, directive := Some(LineControl(LineValue(n), None)));
    var p4 := p.(phase := ExtraTokens, directive := Some(LineControl(LineValue(n), Some(f))));
    LineHeadRun(p, n, keywords, verdict);
    RunConcat(p, head, tail, keywords, verdict);
    assert head + tail == [Hash(), Word("line"), Token(PpNumber, n), Token(StringLiteral, f), Newline()];
    DispatchByPhase(p3, Token(StringLiteral, f), keywords, verdict);
    DispatchByPhase(p4, Newline(), keywords, verdict);
    assert Run(p4, tail[1..], keywords, verdict) == DirectiveStep(p4, Newline(), keywords, verdict);
    if NoDuplicates(p.files) {
      PushLineKeepsNamesDistinct(p4.(phase := Idle));
    }
  }

  /** `#pragma keylist t` up to the data type: a keylist pending with no
      keys yet. */
  lemma KeylistHeadRun(p: Proc, dataType: string, keywords: set<string>, verdict: SinkVerdict)
    requires Consistent(p) && p.phase == Initial
    ensures Run(p, [Hash(), Word("pragma"), Word("keylist"), Word(dataType)], keywords, verdict)
              == Stepped(p.(phase := FirstKey, directive := Some(Keylist(dataType, []))), Ok)
  {
    var head := [Hash(), Word("pragma"), Word("keylist"), Word(dataType)];
    var p1 := p.(phase := InDirective);
    var p2 := p.(phase := InPragma);
    var p3 := p.(phase := DataType);
    var p4 := p.(phase := FirstKey, directive := Some(Keylist(dataType, [])));
    DispatchByPhase(p, Hash(), keywords, verdict);
    DispatchByPhase(p1, Word("pragma"), keywords, verdict);
    DispatchByPhase(p2, Word("keylist"), keywords, verdict);
    DispatchByPhase(p3, Word(dataType), keywords, verdict);
    assert Run(p4, head[4..], keywords, verdict) == Stepped(p4, Ok);
    assert Run(p3, head[3..], keywords, verdict) == Stepped(p4, Ok);
    assert Run(p2, head[2..], keywords, verdict) == Run(p3, head[3..], keywords, verdict);
    assert Run(p1, head[1..], keywords, verdict) == Run(p2, head[2..], keywords, verdict);
  }

  /** `#pragma keylist t k1, k2, ...`: the pragma sink receives t and then
      the keys in order, directive parsing ends, and the result is the
      sink's verdict. */
  lemma KeylistRun(p: Proc, dataType: string, keys: seq<string>, keywords: set<string>, verdict: SinkVerdict)
    requires Consistent(p) && p.phase == Initial
    requires forall k :: k in keys ==> k !in keywords
    ensures Run(p, [Hash(), Word("pragma"), Word("keylist"), Word(dataType)] + KeyTokens(keys) + [Newline()],
                keywords, verdict)
              == Stepped(p.(phase := Idle, pragmas := p.pragmas + [[dataType] + keys]), CloseOutcome(verdict))
  {
    var head := [Hash(), Word("pragma"), Word("keylist"), Word(dataType)];
    var p4 := p.(phase := FirstKey, directive := Some(Keylist(dataType, [])));
    KeylistHeadRun(p, dataType, keywords, verdict);
    RunConcat(p, head, KeyTokens(keys) + [Newline()], keywords, verdict);
    KeysRun(p4, dataType, keys, keywords, verdict);
    var p5 := Run(p4, KeyTokens(keys), keywords, verdict).proc;
    RunConcat(p4, KeyTokens(keys), [Newline()], keywords, verdict);
    DispatchByPhase(p5, Newline(), keywords, verdict);
    assert Run(p5, [Newline()], keywords, verdict) == DirectiveStep(p5, Newline(), keywords, verdict);
    assert head + KeyTokens(keys) + [Newline()] == head + (KeyTokens(keys) + [Newline()]);
  }
}
