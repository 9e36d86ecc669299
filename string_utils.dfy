/** The string utilities of the IDL compiler (string_utils.c): ASCII
    case-insensitive comparison, strsep, memdup/strdup and a POSIX-style
    getopt. A C string is modelled by its characters up to (not including)
    the terminating NUL; where the code writes into a buffer, the buffer is
    an array and a `char *` into it is an index. */
module StringUtils {
  import opened Wrappers

  // ---------------------------------------------------------------------
  // C strings
  // ---------------------------------------------------------------------

  /** The characters of a C string contain no NUL: the first NUL ends it. */
  predicate IsCString(s: string)
  {
    '\0' !in s
  }

  /** `s[i]` as C reads it: the terminator at and past the end. */
  function At(s: string, i: nat): char
  {
    if i < |s| then s[i] else '\0'
  }

  /** `tolower` in the C locale. */
  function Lower(c: char): (l: char)
    ensures l == '\0' <==> c == '\0'
    ensures 'A' <= c <= 'Z' ==> l as int == c as int + 32
    ensures !('A' <= c <= 'Z') ==> l == c
  {
    if 'A' <= c <= 'Z' then (c as int + 32) as char else c
  }

  /** `tolower(a) - tolower(b)` */
  function LowerDiff(a: char, b: char): int
  {
    Lower(a) as int - Lower(b) as int
  }

  /** Equal up to case: same length and the same lowered characters. */
  predicate SameIgnoringCase(s1: string, s2: string)
  {
    |s1| == |s2| && forall i :: 0 <= i < |s1| ==> Lower(s1[i]) == Lower(s2[i])
  }

  /** The length of the longest common prefix up to case. */
  function CaselessPrefix(s1: string, s2: string): (k: nat)
    ensures k <= |s1| && k <= |s2|
    ensures forall i :: 0 <= i < k ==> Lower(s1[i]) == Lower(s2[i])
    ensures k < |s1| && k < |s2| ==> Lower(s1[k]) != Lower(s2[k])
  {
    if s1 == [] || s2 == [] || Lower(s1[0]) != Lower(s2[0]) then 0
    else 1 + CaselessPrefix(s1[1..], s2[1..])
  }

  // ---------------------------------------------------------------------
  // idl_strcasecmp and idl_strncasecmp
  // ---------------------------------------------------------------------

  /** What idl_strcasecmp returns, one character at a time: the lowered
      difference at the first place the strings differ up to case or one of
      them ends. */
  function CaseCmp(s1: string, s2: string): int
  {
    if s1 == [] || s2 == [] then LowerDiff(At(s1, 0), At(s2, 0))
    else if Lower(s1[0]) != Lower(s2[0]) then LowerDiff(s1[0], s2[0])
    else CaseCmp(s1[1..], s2[1..])
  }

  /** idl_strcasecmp: walk both strings while neither has ended. */
  method StrCaseCmp(s1: string, s2: string) returns (cr: int)
    requires IsCString(s1) && IsCString(s2)
    ensures cr == CaseCmp(s1, s2)
  {
    var i := 0;
    while i < |s1| && i < |s2|
      invariant i <= |s1| && i <= |s2|
      invariant CaseCmp(s1[i..], s2[i..]) == CaseCmp(s1, s2)
    {
      cr := LowerDiff(s1[i], s2[i]);
      if cr != 0 {
        return;
      }
      assert s1[i..][1..] == s1[i + 1..] && s2[i..][1..] == s2[i + 1..];
      i := i + 1;
    }
    cr := LowerDiff(At(s1, i), At(s2, i));
  }

  /** The first `n` characters, or all of a shorter string. */
  function Take(s: string, n: nat): string
  {
    if n <= |s| then s[..n] else s
  }

  /** What idl_strncasecmp returns: as CaseCmp, but giving up after `n`
      equal characters. */
  function NCaseCmp(s1: string, s2: string, n: nat): int
  {
    if n == 0 then 0
    else if s1 == [] || s2 == [] then LowerDiff(At(s1, 0), At(s2, 0))
    else if Lower(s1[0]) != Lower(s2[0]) then LowerDiff(s1[0], s2[0])
    else NCaseCmp(s1[1..], s2[1..], n - 1)
  }

  /** idl_strncasecmp */
  method StrNCaseCmp(s1: string, s2: string, n: nat) returns (cr: int)
    requires IsCString(s1) && IsCString(s2)
    ensures cr == NCaseCmp(s1, s2, n)
  {
    cr := 0;
    var i, left := 0, n;
    while i < |s1| && i < |s2| && left != 0
      invariant i <= |s1| && i <= |s2| && i + left == n
      invariant cr == 0
      invariant NCaseCmp(s1[i..], s2[i..], left) == NCaseCmp(s1, s2, n)
    {
      cr := LowerDiff(s1[i], s2[i]);
      if cr != 0 {
        return;
      }
      assert s1[i..][1..] == s1[i + 1..] && s2[i..][1..] == s2[i + 1..];
      i, left := i + 1, left - 1;
    }
    if left != 0 {
      cr := LowerDiff(At(s1, i), At(s2, i));
    }
  }

  // ---------------------------------------------------------------------
  // idl_strsep
  // ---------------------------------------------------------------------

  /** A C string starts at `pos` of the memory `m`: a NUL follows it. */
  predicate Terminated(m: seq<char>, pos: nat)
  {
    pos <= |m| && '\0' in m[pos..]
  }

  /** The position of the first NUL at or after `pos`. */
  function NulFrom(m: seq<char>, pos: nat): (e: nat)
    requires Terminated(m, pos)
    ensures pos <= e < |m| && m[e] == '\0'
    ensures forall i :: pos <= i < e ==> m[i] != '\0'
    decreases |m| - pos
  {
    if m[pos] == '\0' then pos
    else
      assert m[pos..] == [m[pos]] + m[pos + 1..];
      NulFrom(m, pos + 1)
  }

  /** The C string a pointer to `pos` designates. */
  function CStringAt(m: seq<char>, pos: nat): (s: string)
    requires Terminated(m, pos)
    ensures IsCString(s)
  {
    m[pos..NulFrom(m, pos)]
  }

  /** Where the token starting at `pos` ends: the first separator or the
      terminator. */
  function TokenEnd(m: seq<char>, pos: nat, sep: string): (e: nat)
    requires Terminated(m, pos)
    ensures pos <= e <= NulFrom(m, pos)
    ensures e == NulFrom(m, pos) || m[e] in sep
    ensures forall i :: pos <= i < e ==> m[i] !in sep
    decreases |m| - pos
  {
    if m[pos] == '\0' || m[pos] in sep then pos
    else
      assert m[pos..] == [m[pos]] + m[pos + 1..];
      TokenEnd(m, pos + 1, sep)
  }

  /** The outcome of idl_strsep: the token pointer returned (None for NULL),
      the new `*str` and the memory afterwards. */
  datatype Split = Split(token: Option<nat>, next: nat, memory: seq<char>)

  function StrSepSpec(m: seq<char>, pos: nat, sep: string): Split
    requires Terminated(m, pos)
  {
    if m[pos] == '\0' then Split(None, pos, m)
    else
      var e := TokenEnd(m, pos, sep);
      if m[e] != '\0' then Split(Some(pos), e + 1, m[e := '\0'])
      else Split(Some(pos), e, m)
  }

  /** idl_strsep: `*str` is the index `pos` into `buf`. */
  method StrSep(buf: array<char>, pos: nat, sep: string) returns (token: Option<nat>, next: nat)
    requires Terminated(buf[..], pos) && IsCString(sep)
    modifies buf
    ensures Split(token, next, buf[..]) == StrSepSpec(old(buf[..]), pos, sep)
  {
    if buf[pos] == '\0' {
      return None, pos;
    }
    token := Some(pos);
    next := pos;
    while buf[next] != '\0' && buf[next] !in sep
      invariant pos <= next <= TokenEnd(buf[..], pos, sep)
      decreases TokenEnd(buf[..], pos, sep) - next
    {
      next := next + 1;
    }
    if buf[next] != '\0' {
      buf[next] := '\0';
      next := next + 1;
    }
  }

  // ---------------------------------------------------------------------
  // idl_memdup and idl_strdup
  // ---------------------------------------------------------------------

  /** The length of the C string in `m`. */
  function StrLen(m: seq<char>): (n: nat)
    requires Terminated(m, 0)
    ensures n < |m| && m[n] == '\0' && IsCString(m[..n])
  {
    NulFrom(m, 0)
  }

  /** idl_memdup: NULL for zero bytes, otherwise a new block holding the
      first `n` bytes of `src`. */
  method MemDup(src: array<char>, n: nat) returns (dest: array?<char>)
    requires n <= src.Length
    ensures n == 0 <==> dest == null
    ensures dest != null ==> fresh(dest) && dest[..] == src[..n]
  {
    if n == 0 {
      return null;
    }
    var block := new char[n];
    var i := 0;
    while i < n
      invariant i <= n
      invariant block[..i] == src[..i]
    {
      block[i] := src[i];
      i := i + 1;
    }
    assert block[..] == block[..n];
    dest := block;
  }

  /** idl_strdup: a copy of the string and its terminator. */
  method StrDup(str: array<char>) returns (dup: array?<char>)
    requires Terminated(str[..], 0)
    ensures dup != null && fresh(dup)
    ensures dup[..] == str[..StrLen(str[..]) + 1]
    ensures CStringAt(dup[..], 0) == CStringAt(str[..], 0)
  {
    var n := StrLen(str[..]);
    dup := MemDup(str, n + 1);
    assert dup[..] == str[..][..n + 1];
    assert dup[..][..n] == str[..][..n];
    assert Terminated(dup[..], 0) && NulFrom(dup[..], 0) == n by {
      assert dup[n] == '\0';
      assert dup[..][0..] == dup[..];
      NulFromFirst(dup[..], n);
    }
    NulFromFirst(str[..], n);
  }

  /** NulFrom(m, 0) is the first NUL. */
  lemma NulFromFirst(m: seq<char>, n: nat)
    requires n < |m| && m[n] == '\0' && forall i :: 0 <= i < n ==> m[i] != '\0'
    ensures Terminated(m, 0) && NulFrom(m, 0) == n
  {
    assert m[0..] == m;
    assert m[n] in m;
  }

  // ---------------------------------------------------------------------
  // idl_getopt
  // ---------------------------------------------------------------------

  /** The value getopt returns when the options are exhausted. */
  const EOF: int := -1

  /** The global state of getopt: `opterr`, `optind`, `optopt`, `optarg`,
      the static `sp` (the position in the current argument) and what has
      been written to stderr. */
  datatype OptState = OptState(
    opterr: bool,
    optind: int,
    optopt: int,
    optarg: Option<string>,
    sp: int,
    stderr: string)

  datatype Opted = Opted(state: OptState, c: int)

  /** What getopt needs between calls: `sp` points inside the current
      argument whenever it is not at the start of one. */
  predicate ValidOpt(st: OptState, argv: seq<string>)
  {
    && st.optind >= 0 && st.sp >= 1
    && (st.sp > 1 ==> st.optind < |argv| && st.sp < |argv[st.optind]|)
  }

  predicate CStrings(argv: seq<string>)
  {
    forall i :: 0 <= i < |argv| ==> IsCString(argv[i])
  }

  /** `strchr(opts, c)` for a character that is in `opts`. */
  function IndexOf(opts: string, c: char): (i: nat)
    requires c in opts
    ensures i < |opts| && opts[i] == c
    ensures forall j :: 0 <= j < i ==> opts[j] != c
  {
    if opts[0] == c then 0 else 1 + IndexOf(opts[1..], c)
  }

  /** The ERR macro: `argv[0]`, the message and the option character on a
      line of stderr, unless `opterr` is cleared. */
  function WithComplaint(st: OptState, argv: seq<string>, text: string, c: char): OptState
    requires |argv| > 0
  {
    if st.opterr then st.(stderr := st.stderr + argv[0] + text + [c, '\n']) else st
  }

  /** True when `opts` lists `c` followed by ':'. */
  predicate TakesArgument(opts: string, c: char)
    requires c in opts
  {
    At(opts, IndexOf(opts, c) + 1) == ':'
  }

  /** The end of options: no argument left, an argument that is not an
      option (`-` alone included), or `--`. */
  predicate AtEnd(st: OptState, argv: seq<string>)
    requires ValidOpt(st, argv)
  {
    st.sp == 1 && (st.optind >= |argv| || At(argv[st.optind], 0) != '-' || At(argv[st.optind], 1) == '\0'
                   || argv[st.optind] == "--")
  }

  /** One call of idl_getopt. */
  function GetOptSpec(st: OptState, argv: seq<string>, opts: string): Opted
    requires ValidOpt(st, argv) && CStrings(argv) && IsCString(opts)
  {
    if st.sp == 1 && (st.optind >= |argv| || At(argv[st.optind], 0) != '-' || At(argv[st.optind], 1) == '\0') then
      Opted(st, EOF)
    else if st.sp == 1 && argv[st.optind] == "--" then
      Opted(st.(optind := st.optind + 1), EOF)
    else
      var arg := argv[st.optind];
      var c := arg[st.sp];
      var st1 := st.(optopt := c as int);
      if c == ':' || c !in opts then
        var st2 := WithComplaint(st1, argv, ": illegal option -- ", c);
        if At(arg, st.sp + 1) == '\0' then Opted(st2.(optind := st.optind + 1, sp := 1), '?' as int)
        else Opted(st2.(sp := st.sp + 1), '?' as int)
      else if TakesArgument(opts, c) then
        if At(arg, st.sp + 1) != '\0' then
          Opted(st1.(optarg := Some(arg[st.sp + 1..]), optind := st.optind + 1, sp := 1), c as int)
        else if st.optind + 1 >= |argv| then
          var st2 := WithComplaint(st1, argv, ": option requires an argument -- ", c);
          Opted(st2.(optind := st.optind + 1, sp := 1), '?' as int)
        else
          Opted(st1.(optarg := Some(argv[st.optind + 1]), optind := st.optind + 2, sp := 1), c as int)
      else if At(arg, st.sp + 1) == '\0' then
        Opted(st1.(sp := 1, optind := st.optind + 1, optarg := None), c as int)
      else
        Opted(st1.(sp := st.sp + 1, optarg := None), c as int)
  }

  /** The globals of getopt with their initial values. */
  class OptParser {
    var opterr: bool
    var optind: int
    var optopt: int
    var optarg: Option<string>
    var sp: int
    var stderr: string

    function Snapshot(): OptState
      reads this
    {
      OptState(opterr, optind, optopt, optarg, sp, stderr)
    }

    constructor ()
      ensures Snapshot() == OptState(true, 1, 0, None, 1, [])
    {
      opterr := true;
      optind := 1;
      optopt := 0;
      optarg := None;
      sp := 1;
      stderr := [];
    }

    /** ERR */
    method Complain(argv: seq<string>, text: string, c: char)
      requires |argv| > 0
      modifies this
      ensures Snapshot() == WithComplaint(old(Snapshot()), argv, text, c)
    {
      if opterr {
        stderr := stderr + argv[0] + text + [c, '\n'];
      }
    }

    /** The option character is not in `opts` (or is ':'). */
    method Illegal(argv: seq<string>, opts: string) returns (c: int)
      requires ValidOpt(Snapshot(), argv) && CStrings(argv) && IsCString(opts) && !AtEnd(Snapshot(), argv)
      requires argv[optind][sp] == ':' || argv[optind][sp] !in opts
      modifies this
      ensures Opted(Snapshot(), c) == GetOptSpec(old(Snapshot()), argv, opts)
    {
      var arg := argv[optind];
      var ch := arg[sp];
      optopt := ch as int;
      Complain(argv, ": illegal option -- ", ch);
      sp := sp + 1;
      if At(arg, sp) == '\0' {
        optind := optind + 1;
        sp := 1;
      }
      c := '?' as int;
    }

    /** The option character is listed with ':' after it. */
    method WithArgument(argv: seq<string>, opts: string) returns (c: int)
      requires ValidOpt(Snapshot(), argv) && CStrings(argv) && IsCString(opts) && !AtEnd(Snapshot(), argv)
      requires argv[optind][sp] != ':' && argv[optind][sp] in opts && TakesArgument(opts, argv[optind][sp])
      modifies this
      ensures Opted(Snapshot(), c) == GetOptSpec(old(Snapshot()), argv, opts)
    {
      var arg := argv[optind];
      var ch := arg[sp];
      optopt := ch as int;
      c := ch as int;
      if At(arg, sp + 1) != '\0' {
        optarg := Some(arg[sp + 1..]);
        optind := optind + 1;
      } else {
        optind := optind + 1;
        if optind >= |argv| {
          Complain(argv, ": option requires an argument -- ", ch);
          sp := 1;
          return '?' as int;
        }
        optarg := Some(argv[optind]);
        optind := optind + 1;
      }
      sp := 1;
    }

    /** The option character is a flag. */
    method Flag(argv: seq<string>, opts: string) returns (c: int)
      requires ValidOpt(Snapshot(), argv) && CStrings(argv) && IsCString(opts) && !AtEnd(Snapshot(), argv)
      requires argv[optind][sp] != ':' && argv[optind][sp] in opts && !TakesArgument(opts, argv[optind][sp])
      modifies this
      ensures Opted(Snapshot(), c) == GetOptSpec(old(Snapshot()), argv, opts)
    {
      var arg := argv[optind];
      var ch := arg[sp];
      optopt := ch as int;
      sp := sp + 1;
      if At(arg, sp) == '\0' {
        sp := 1;
        optind := optind + 1;
      }
      optarg := None;
      c := ch as int;
    }

    /** idl_getopt */
    method GetOpt(argv: seq<string>, opts: string) returns (c: int)
      requires ValidOpt(Snapshot(), argv) && CStrings(argv) && IsCString(opts)
      modifies this
      ensures Opted(Snapshot(), c) == GetOptSpec(old(Snapshot()), argv, opts)
    {
      if sp == 1 {
        if optind >= |argv| || At(argv[optind], 0) != '-' || At(argv[optind], 1) == '\0' {
          return EOF;
        } else if argv[optind] == "--" {
          optind := optind + 1;
          return EOF;
        }
      }
      var ch := argv[optind][sp];
      if ch == ':' || ch !in opts {
        c := Illegal(argv, opts);
      } else if TakesArgument(opts, ch) {
        c := WithArgument(argv, opts);
      } else {
        c := Flag(argv, opts);
      }
    }
  }
}
