/** What the string utilities guarantee, proved about the specification
    functions of module StringUtils. */
module StringUtilsProperties {
  import opened Wrappers
  import opened StringUtils

  // ---------------------------------------------------------------------
  // Case-insensitive comparison
  // ---------------------------------------------------------------------

  /** idl_strcasecmp returns the lowered difference at the end of the
      longest common prefix up to case (a terminator counting as NUL). */
  lemma {:induction false} CaseCmpAtFirstDifference(s1: string, s2: string)
    ensures var k := CaselessPrefix(s1, s2);
            CaseCmp(s1, s2) == LowerDiff(At(s1, k), At(s2, k))
  {
    if s1 != [] && s2 != [] && Lower(s1[0]) == Lower(s2[0]) {
      CaseCmpAtFirstDifference(s1[1..], s2[1..]);
    }
  }

  /** A non-NUL character lowers to a positive code. */
  lemma LowerPositive(c: char)
    requires c != '\0'
    ensures Lower(c) as int > 0
  {
  }

  /** idl_strcasecmp reports equality exactly for strings that are equal up
      to case. */
  lemma CaseCmpZeroIff(s1: string, s2: string)
    requires IsCString(s1) && IsCString(s2)
    ensures CaseCmp(s1, s2) == 0 <==> SameIgnoringCase(s1, s2)
  {
    var k := CaselessPrefix(s1, s2);
    CaseCmpAtFirstDifference(s1, s2);
    if k < |s1| && k < |s2| {
      assert !SameIgnoringCase(s1, s2);
    } else if k < |s2| {
      assert s2[k] in s2;
      LowerPositive(s2[k]);
    } else if k < |s1| {
      assert s1[k] in s1;
      LowerPositive(s1[k]);
    }
  }

  /** Swapping the arguments negates the result. */
  lemma {:induction false} CaseCmpAntisymmetric(s1: string, s2: string)
    ensures CaseCmp(s2, s1) == -CaseCmp(s1, s2)
  {
    if s1 != [] && s2 != [] && Lower(s1[0]) == Lower(s2[0]) {
      CaseCmpAntisymmetric(s1[1..], s2[1..]);
    }
  }

  /** idl_strncasecmp is idl_strcasecmp on the first `n` characters. */
  lemma {:induction false} NCaseCmpOnPrefixes(s1: string, s2: string, n: nat)
    ensures NCaseCmp(s1, s2, n) == CaseCmp(Take(s1, n), Take(s2, n))
  {
    if n > 0 && s1 != [] && s2 != [] && Lower(s1[0]) == Lower(s2[0]) {
      NCaseCmpOnPrefixes(s1[1..], s2[1..], n - 1);
      assert Take(s1, n)[1..] == Take(s1[1..], n - 1);
      assert Take(s2, n)[1..] == Take(s2[1..], n - 1);
    }
  }

  /** idl_strncasecmp reports equality exactly when the first `n`
      characters (or the whole of a shorter string) agree up to case; in
      particular it returns 0 when `n` is 0. */
  lemma NCaseCmpZeroIff(s1: string, s2: string, n: nat)
    requires IsCString(s1) && IsCString(s2)
    ensures NCaseCmp(s1, s2, n) == 0 <==> SameIgnoringCase(Take(s1, n), Take(s2, n))
    ensures n == 0 ==> NCaseCmp(s1, s2, n) == 0
  {
    NCaseCmpOnPrefixes(s1, s2, n);
    assert IsCString(Take(s1, n)) && IsCString(Take(s2, n)) by {
      if n <= |s1| {
        assert forall i :: 0 <= i < n ==> s1[..n][i] == s1[i];
      }
      if n <= |s2| {
        assert forall i :: 0 <= i < n ==> s2[..n][i] == s2[i];
      }
    }
    CaseCmpZeroIff(Take(s1, n), Take(s2, n));
  }

  /** With a bound past the end of either string, idl_strncasecmp answers
      as idl_strcasecmp. */
  lemma {:induction false} NCaseCmpLongBound(s1: string, s2: string, n: nat)
    requires n > |s1| || n > |s2|
    ensures NCaseCmp(s1, s2, n) == CaseCmp(s1, s2)
  {
    if s1 != [] && s2 != [] && Lower(s1[0]) == Lower(s2[0]) {
      NCaseCmpLongBound(s1[1..], s2[1..], n - 1);
    }
  }

  // ---------------------------------------------------------------------
  // strsep
  // ---------------------------------------------------------------------

  /** On an empty string idl_strsep returns NULL and changes nothing.
      Otherwise it returns the start of the string; the token it designates
      afterwards is the longest prefix free of separators; the separator
      after it, if any, is overwritten by NUL and skipped; nothing else in
      memory changes and the rest is still a C string. */
  lemma StrSepToken(m: seq<char>, pos: nat, sep: string)
    requires Terminated(m, pos) && IsCString(sep)
    ensures var r := StrSepSpec(m, pos, sep);
            m[pos] == '\0' ==> r == Split(None, pos, m)
    ensures var r := StrSepSpec(m, pos, sep);
            var e := TokenEnd(m, pos, sep);
            m[pos] != '\0' ==>
              && r.token == Some(pos)
              && Terminated(r.memory, pos) && CStringAt(r.memory, pos) == m[pos..e]
              && (forall i :: pos <= i < e ==> m[i] !in sep)
              && (e < NulFrom(m, pos) ==> m[e] in sep && r.next == e + 1)
              && (e == NulFrom(m, pos) ==> r.next == e)
              && |r.memory| == |m|
              && (forall i :: 0 <= i < |m| && i != e ==> r.memory[i] == m[i])
              && Terminated(r.memory, r.next)
  {
    if m[pos] != '\0' {
      var r := StrSepSpec(m, pos, sep);
      var e := TokenEnd(m, pos, sep);
      var z := NulFrom(m, pos);
      assert r.memory[e] == '\0';
      assert r.memory[pos..][e - pos] == '\0';
      assert Terminated(r.memory, pos);
      var z' := NulFrom(r.memory, pos);
      assert forall i :: pos <= i < e ==> r.memory[i] == m[i] && m[i] != '\0';
      assert z' == e;
      assert r.memory[z] == '\0';
      assert r.memory[r.next..][z - r.next] == '\0';
    }
  }

  // ---------------------------------------------------------------------
  // getopt
  // ---------------------------------------------------------------------

  /** getopt keeps its own invariant, and never moves `optind` beyond
      `argc` once it is within it. */
  lemma GetOptKeepsValid(st: OptState, argv: seq<string>, opts: string)
    requires ValidOpt(st, argv) && CStrings(argv) && IsCString(opts)
    ensures ValidOpt(GetOptSpec(st, argv, opts).state, argv)
    ensures st.optind <= |argv| ==> GetOptSpec(st, argv, opts).state.optind <= |argv|
  {
  }

  /** getopt answers EOF exactly at the end of the options: no argument
      left, an argument not starting with '-', a lone "-", or "--"; only
      "--" is consumed. */
  lemma GetOptEnd(st: OptState, argv: seq<string>, opts: string)
    requires ValidOpt(st, argv) && CStrings(argv) && IsCString(opts)
    ensures GetOptSpec(st, argv, opts).c == EOF <==> AtEnd(st, argv)
    ensures AtEnd(st, argv) ==>
              GetOptSpec(st, argv, opts).state
                == if st.optind < |argv| && argv[st.optind] == "--" then st.(optind := st.optind + 1) else st
  {
  }

  /** Every answer other than EOF moves getopt forward: to a later argument,
      or further into the same one. With GetOptKeepsValid this bounds the
      number of calls before EOF. */
  lemma GetOptAdvances(st: OptState, argv: seq<string>, opts: string)
    requires ValidOpt(st, argv) && CStrings(argv) && IsCString(opts)
    ensures var r := GetOptSpec(st, argv, opts);
            r.c != EOF ==>
              r.state.optind > st.optind || (r.state.optind == st.optind && r.state.sp > st.sp)
  {
  }

  /** `-oVALUE` for an option declared with ':' gives VALUE and moves to
      the next argument. */
  lemma AttachedArgument(st: OptState, argv: seq<string>, opts: string, o: char, value: string)
    requires ValidOpt(st, argv) && CStrings(argv) && IsCString(opts) && st.sp == 1 && st.optind < |argv|
    requires o != ':' && o in opts && TakesArgument(opts, o)
    requires value != [] && IsCString(value) && argv[st.optind] == ['-', o] + value
    ensures GetOptSpec(st, argv, opts)
              == Opted(st.(optopt := o as int, optarg := Some(value), optind := st.optind + 1, sp := 1), o as int)
  {
    var arg := argv[st.optind];
    assert arg[0] == '-' && arg[1] == o && arg[2..] == value;
    assert At(arg, 2) == value[0] && value[0] in value;
    assert arg != "--";
  }

  /** `-o VALUE` gives VALUE and moves past both arguments; `-o` as the
      last argument is refused with a diagnostic. */
  lemma SeparateArgument(st: OptState, argv: seq<string>, opts: string, o: char)
    requires ValidOpt(st, argv) && CStrings(argv) && IsCString(opts) && st.sp == 1 && st.optind < |argv|
    requires o != ':' && o != '-' && o in opts && TakesArgument(opts, o)
    requires argv[st.optind] == ['-', o]
    ensures st.optind + 1 < |argv| ==>
              GetOptSpec(st, argv, opts)
                == Opted(st.(optopt := o as int, optarg := Some(argv[st.optind + 1]), optind := st.optind + 2, sp := 1),
                         o as int)
    ensures st.optind + 1 == |argv| ==>
              GetOptSpec(st, argv, opts)
                == Opted(WithComplaint(st.(optopt := o as int), argv, ": option requires an argument -- ", o)
                           .(optind := st.optind + 1, sp := 1), '?' as int)
  {
    var arg := argv[st.optind];
    assert arg[0] == '-' && arg[1] == o && At(arg, 2) == '\0';
    assert arg != "--";
  }

  /** `-ab` for two flags: `a` first, staying in the argument, then `b`,
      moving on to the next one. */
  lemma GroupedFlags(st: OptState, argv: seq<string>, opts: string, a: char, b: char)
    requires ValidOpt(st, argv) && CStrings(argv) && IsCString(opts) && st.sp == 1 && st.optind < |argv|
    requires a != ':' && a in opts && !TakesArgument(opts, a)
    requires b != ':' && b in opts && !TakesArgument(opts, b)
    requires argv[st.optind] == ['-', a, b]
    ensures var r1 := GetOptSpec(st, argv, opts);
            && r1 == Opted(st.(optopt := a as int, sp := 2, optarg := None), a as int)
            && GetOptSpec(r1.state, argv, opts)
                 == Opted(st.(optopt := b as int, sp := 1, optind := st.optind + 1, optarg := None), b as int)
  {
    var arg := argv[st.optind];
    assert arg[0] == '-' && arg[1] == a && arg[2] == b && At(arg, 3) == '\0';
    assert arg != "--";
  }
}
