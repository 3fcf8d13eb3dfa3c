/** `DFAconstruct`: reading a DFA from its table text (wlp4scanner.cc:289-381
    and mipsscanner.cc:267-359 are the same function).

    The text is given as the lines `getline` returns, each without its line
    break. A `.STATES` line comes first, after blank lines only; then state
    words, read with `>>` across line breaks, up to the word `.TRANSITIONS`,
    whose line is then skipped to its end; then transition lines up to the end
    of the text or a `.INPUT` line. Table text is byte text: `char` is a signed
    8-bit type on the platforms the code targets, which the range expansion
    reproduces. */
module DfaLoader {
  import opened Outcomes
  import opened Text
  import opened Escapes
  import opened Automaton

  const STATES := ".STATES"
  const TRANSITIONS := ".TRANSITIONS"
  const INPUT := ".INPUT"

  /** The DFA of a default-constructed object. */
  const EmptyMachine := Machine([], [], StateEntry("", false))

  predicate IsChar(s: string)
  {
    |s| == 1
  }

  predicate IsRange(s: string)
  {
    |s| == 3 && s[1] == '-'
  }

  // ---------------------------------------------------------------------
  // Signed characters

  /** The bytes with signed values `a..b`, both included, in increasing order. */
  function Span(a: int, b: int): (r: seq<char>)
    requires -128 <= a && b < 128
    ensures IsByteString(r)
    decreases b - a
  {
    if a > b then [] else Span(a, b - 1) + [ByteChar(b)]
  }

  lemma {:induction false} SpanContents(a: int, b: int)
    requires -128 <= a && b < 128
    ensures |Span(a, b)| == if a <= b then b - a + 1 else 0
    ensures forall k :: 0 <= k < |Span(a, b)| ==> Signed(Span(a, b)[k]) == a + k
    decreases b - a
  {
    if a <= b {
      SpanContents(a, b - 1);
    }
  }

  /** The loop `for (char c = lo; lo <= c && c <= hi; ++c)`: the signed range
      `lo..hi`, or nothing when `lo > hi`. With `lo` = -128 and `hi` = 127 the
      increment wraps from 127 back to -128 and the loop never ends. */
  function CharRange(lo: char, hi: char): Result<seq<char>>
    requires lo as int < 256 && hi as int < 256
  {
    if Signed(lo) == -128 && Signed(hi) == 127 then Err(Unmodelled("the range loop wraps around and does not end"))
    else Ok(Span(Signed(lo), Signed(hi)))
  }

  /** A range adds one character per signed value from its first endpoint to
      its last, in order: none when the first is the greater. */
  lemma CharRangeContents(lo: char, hi: char)
    requires lo as int < 256 && hi as int < 256
    requires !(Signed(lo) == -128 && Signed(hi) == 127)
    ensures CharRange(lo, hi).Ok?
    ensures |CharRange(lo, hi).value| == if Signed(lo) <= Signed(hi) then Signed(hi) - Signed(lo) + 1 else 0
    ensures forall k :: 0 <= k < |CharRange(lo, hi).value| ==> Signed(CharRange(lo, hi).value[k]) == Signed(lo) + k
  {
    SpanContents(Signed(lo), Signed(hi));
  }

  // ---------------------------------------------------------------------
  // The three sections, as functions

  /** How a state word is declared: a trailing `!` on a word of two or more
      characters marks an accepting state and is not part of its name. */
  function StateOf(s: string): (e: StateEntry)
    ensures e.accepting <==> |s| > 1 && s[|s| - 1] == '!'
    ensures e.accepting ==> e.name + "!" == s
    ensures !e.accepting ==> e.name == s
  {
    if |s| > 1 && s[|s| - 1] == '!' then StateEntry(s[..|s| - 1], true) else StateEntry(s, false)
  }

  /** Skipping blank lines up to the `.STATES` line; the index after it. */
  function FindStates(lines: seq<string>, k: nat): (r: Result<nat>)
    requires k <= |lines|
    ensures r.Ok? ==> r.value <= |lines|
    decreases |lines| - k
  {
    if k == |lines| then Err(Runtime("Expected " + STATES + ", but found end of input."))
    else if Squished(lines[k]) == STATES then Ok(k + 1)
    else if Squished(lines[k]) != "" then Err(Runtime("Expected " + STATES + ", but found: " + Squished(lines[k])))
    else FindStates(lines, k + 1)
  }

  /** Declares the state words up to `.TRANSITIONS`. `ws` are the words of
      the current line not yet read and `k` is the next line; the result
      carries the index of the line after the `.TRANSITIONS` line. */
  function ReadStates(lines: seq<string>, k: nat, ws: seq<string>, m: Machine, first: bool): (r: Result<(Machine, nat)>)
    requires k <= |lines|
    ensures r.Ok? ==> r.value.1 <= |lines|
    decreases |lines| - k, |ws|
  {
    if |ws| > 0 then
      if ws[0] == TRANSITIONS then Ok((m, k))
      else
        var e := StateOf(ws[0]);
        ReadStates(lines, k, ws[1..], m.(states := m.states + [e], initial := if first then e else m.initial), false)
    else if k == |lines| then
      Err(Runtime("Unexpected end of input while reading state set: " + TRANSITIONS + "not found."))
    else ReadStates(lines, k + 1, Words(lines[k]), m, first)
  }

  /** The characters one middle word of a transition line stands for. */
  function ExpandToken(tok: string, line: string): Result<seq<char>>
    requires IsByteString(tok)
  {
    EscapedShape(tok);
    match Escaped(tok)
    case Err(e) => Err(e)
    case Ok(cr) =>
      assert IsByteString(cr);
      if IsChar(cr) then
        if cr[0] as int > 127 then
          Err(Runtime("Invalid (non-ASCII) character in transition line: " + line + "\n"
                      + "Character " + Unescaped([cr[0]]) + " is outside ASCII range"))
        else Ok([cr[0]])
      else if IsRange(cr) then CharRange(cr[0], cr[2])
      else Err(Runtime("Expected character or range, but found " + cr + " in transition line: " + line))
  }

  /** The characters of all middle words, in order; the first bad word fails. */
  function ExpandTokens(toks: seq<string>, line: string): Result<seq<char>>
    requires AllBytes(toks)
  {
    if |toks| == 0 then Ok([])
    else match ExpandToken(toks[0], line)
      case Err(e) => Err(e)
      case Ok(cs) => Prepend(cs, ExpandTokens(toks[1..], line))
  }

  /** One `addTransition(from, c, to)` per character, in order. */
  function AddTransitions(m: Machine, from: string, cs: seq<char>, to: string): Result<Machine>
    decreases |cs|
  {
    if |cs| == 0 then Ok(m)
    else if !(Declared(m.states, from) && Declared(m.states, to)) then Err(Runtime("Invalid state!"))
    else AddTransitions(m.(transitions := m.transitions + [Transition(from, cs[0], to)]), from, cs[1..], to)
  }

  /** One transition line that is neither blank nor `.INPUT`, squished. */
  function TransitionLine(s: string, m: Machine): Result<Machine>
    requires IsByteString(s)
  {
    var toks := Words(s);
    if |toks| < 3 then Err(Runtime("Incomplete transition line: " + s))
    else
      WordsBytes(s);
      match ExpandTokens(toks[1..|toks| - 1], s)
      case Err(e) => Err(e)
      case Ok(cs) => AddTransitions(m, toks[0], cs, toks[|toks| - 1])
  }

  /** The transition lines from line `k` on. */
  function ReadTransitions(lines: seq<string>, k: nat, m: Machine): Result<Machine>
    requires k <= |lines| && AllBytes(lines)
    decreases |lines| - k
  {
    if k == |lines| then Ok(m)
    else
      var s := Squished(lines[k]);
      if s == INPUT then Ok(m)
      else if Words(s) == [] then ReadTransitions(lines, k + 1, m)
      else
        WordsBytes(lines[k]);
        match TransitionLine(s, m)
        case Err(e) => Err(e)
        case Ok(m') => ReadTransitions(lines, k + 1, m')
  }

  /** What `DFAconstruct` returns or throws. */
  function Load(lines: seq<string>): Result<Machine>
    requires AllBytes(lines)
  {
    var k :- FindStates(lines, 0);
    var read :- ReadStates(lines, k, [], EmptyMachine, true);
    ReadTransitions(lines, read.1, read.0)
  }

  // ---------------------------------------------------------------------
  // Reference definitions and what the loader promises

  /** The words `>>` reads from line `k` to the end of the text. */
  function WordsFrom(lines: seq<string>, k: nat): seq<string>
    requires k <= |lines|
    decreases |lines| - k
  {
    if k == |lines| then [] else Words(lines[k]) + WordsFrom(lines, k + 1)
  }

  /** The position of the first `w` in `ws`, or `|ws|` when there is none. */
  function IndexOf(ws: seq<string>, w: string): (i: nat)
    ensures i <= |ws|
    ensures i < |ws| ==> ws[i] == w
    ensures forall j :: 0 <= j < i ==> ws[j] != w
  {
    if |ws| == 0 || ws[0] == w then 0 else 1 + IndexOf(ws[1..], w)
  }

  function Declarations(ws: seq<string>): seq<StateEntry>
  {
    seq(|ws|, i requires 0 <= i < |ws| => StateOf(ws[i]))
  }

  /** The state section read as one stream of words: every word before the
      first `.TRANSITIONS` is declared, in order, and the first of them (if
      any) becomes the initial state; without a `.TRANSITIONS` there is no
      DFA. */
  function DeclareAll(all: seq<string>, m: Machine, first: bool): Option<Machine>
  {
    var n := IndexOf(all, TRANSITIONS);
    if n == |all| then None
    else Some(m.(states := m.states + Declarations(all[..n]),
                 initial := if first && n > 0 then StateOf(all[0]) else m.initial))
  }

  lemma DeclareCons(w: string, rest: seq<string>, m: Machine, first: bool)
    requires w != TRANSITIONS
    ensures var e := StateOf(w);
            DeclareAll([w] + rest, m, first) ==
            DeclareAll(rest, m.(states := m.states + [e], initial := if first then e else m.initial), false)
  {
    var all := [w] + rest;
    assert all[0] == w && all[1..] == rest;
    var n' := IndexOf(rest, TRANSITIONS);
    assert IndexOf(all, TRANSITIONS) == n' + 1;
    if n' < |rest| {
      assert all[..n' + 1] == [w] + rest[..n'];
      assert Declarations(all[..n' + 1]) == [StateOf(w)] + Declarations(rest[..n']);
      assert m.states + ([StateOf(w)] + Declarations(rest[..n'])) == (m.states + [StateOf(w)]) + Declarations(rest[..n']);
    }
  }

  lemma DeclareAtMarker(rest: seq<string>, m: Machine, first: bool)
    ensures DeclareAll([TRANSITIONS] + rest, m, first) == Some(m)
  {
    var all := [TRANSITIONS] + rest;
    assert all[..0] == [];
    assert Declarations([]) == [];
    assert m.states + [] == m.states;
  }

  /** `ReadStates` is that stream reading: it fails exactly when no
      `.TRANSITIONS` follows, and otherwise builds the machine `DeclareAll`
      describes. */
  lemma {:induction false} ReadStatesStream(lines: seq<string>, k: nat, ws: seq<string>, m: Machine, first: bool)
    requires k <= |lines|
    ensures StreamAgrees(lines, k, ws, m, first)
    decreases |lines| - k, |ws|
  {
    if |ws| > 0 {
      if ws[0] != TRANSITIONS {
        var e := StateOf(ws[0]);
        var m' := m.(states := m.states + [e], initial := if first then e else m.initial);
        ReadStatesStream(lines, k, ws[1..], m', false);
        StreamCons(lines, k, ws, m, first);
      } else {
        StreamMarker(lines, k, ws, m, first);
      }
    } else if k < |lines| {
      ReadStatesStream(lines, k + 1, Words(lines[k]), m, first);
      StreamNextLine(lines, k, m, first);
    } else {
      StreamEnd(lines, k, ws, m, first);
    }
  }

  lemma StreamEnd(lines: seq<string>, k: nat, ws: seq<string>, m: Machine, first: bool)
    requires k == |lines| && |ws| == 0
    ensures StreamAgrees(lines, k, ws, m, first)
  {
    assert ws + WordsFrom(lines, k) == [];
  }

  lemma StreamCons(lines: seq<string>, k: nat, ws: seq<string>, m: Machine, first: bool)
    requires k <= |lines| && |ws| > 0 && ws[0] != TRANSITIONS
    requires var e := StateOf(ws[0]);
             StreamAgrees(lines, k, ws[1..], m.(states := m.states + [e], initial := if first then e else m.initial), false)
    ensures StreamAgrees(lines, k, ws, m, first)
  {
    var e := StateOf(ws[0]);
    var m' := m.(states := m.states + [e], initial := if first then e else m.initial);
    var rest := ws[1..] + WordsFrom(lines, k);
    assert ws == [ws[0]] + ws[1..];
    assert ([ws[0]] + ws[1..]) + WordsFrom(lines, k) == [ws[0]] + rest;
    DeclareCons(ws[0], rest, m, first);
    assert DeclareAll(ws + WordsFrom(lines, k), m, first) == DeclareAll(rest, m', false);
    assert ReadStates(lines, k, ws, m, first) == ReadStates(lines, k, ws[1..], m', false);
  }

  lemma StreamMarker(lines: seq<string>, k: nat, ws: seq<string>, m: Machine, first: bool)
    requires k <= |lines| && |ws| > 0 && ws[0] == TRANSITIONS
    ensures StreamAgrees(lines, k, ws, m, first)
  {
    var rest := ws[1..] + WordsFrom(lines, k);
    assert ws == [ws[0]] + ws[1..];
    assert ([ws[0]] + ws[1..]) + WordsFrom(lines, k) == [ws[0]] + rest;
    DeclareAtMarker(rest, m, first);
  }

  lemma StreamNextLine(lines: seq<string>, k: nat, m: Machine, first: bool)
    requires k < |lines|
    requires StreamAgrees(lines, k + 1, Words(lines[k]), m, first)
    ensures StreamAgrees(lines, k, [], m, first)
  {
    assert [] + WordsFrom(lines, k) == Words(lines[k]) + WordsFrom(lines, k + 1);
  }

  predicate StreamAgrees(lines: seq<string>, k: nat, ws: seq<string>, m: Machine, first: bool)
    requires k <= |lines|
  {
    var r := ReadStates(lines, k, ws, m, first);
    var d := DeclareAll(ws + WordsFrom(lines, k), m, first);
    (r.Ok? <==> d.Some?) &&
    (r.Err? ==> r.error == Runtime("Unexpected end of input while reading state set: .TRANSITIONSnot found.")) &&
    (r.Ok? ==> r.value.0 == d.value)
  }

  lemma {:induction false} AddTransitionsKeeps(m: Machine, from: string, cs: seq<char>, to: string)
    ensures var r := AddTransitions(m, from, cs, to);
            (r.Ok? <==> |cs| == 0 || (Declared(m.states, from) && Declared(m.states, to))) &&
            (r.Err? ==> r.error == Runtime("Invalid state!")) &&
            (r.Ok? ==> r.value.states == m.states && r.value.initial == m.initial &&
                       r.value.transitions == m.transitions + seq(|cs|, i requires 0 <= i < |cs| => Transition(from, cs[i], to)) &&
                       (WellFormed(m) ==> WellFormed(r.value)))
    decreases |cs|
  {
    if |cs| > 0 && Declared(m.states, from) && Declared(m.states, to) {
      var m' := m.(transitions := m.transitions + [Transition(from, cs[0], to)]);
      AddTransitionsKeeps(m', from, cs[1..], to);
      var fan := seq(|cs|, i requires 0 <= i < |cs| => Transition(from, cs[i], to));
      var fan' := seq(|cs| - 1, i requires 0 <= i < |cs| - 1 => Transition(from, cs[1..][i], to));
      assert fan == [Transition(from, cs[0], to)] + fan';
    }
  }

  /** The loader's three refusals of a transition line's shape: a line of
      fewer than three words, a middle word that decodes to neither one
      character nor a range, and a single decoded byte above 127. */
  lemma TransitionLineErrors(s: string, m: Machine, tok: string)
    requires IsByteString(s) && IsByteString(tok)
    ensures |Words(s)| < 3 ==> TransitionLine(s, m) == Err(Runtime("Incomplete transition line: " + s))
    ensures var e := Escaped(tok);
            e.Ok? && !IsChar(e.value) && !IsRange(e.value) ==>
              ExpandToken(tok, s) ==
                Err(Runtime("Expected character or range, but found " + e.value + " in transition line: " + s))
    ensures var e := Escaped(tok);
            e.Ok? && IsChar(e.value) && 127 < e.value[0] as int < 256 ==>
              ExpandToken(tok, s) ==
                Err(Runtime("Invalid (non-ASCII) character in transition line: " + s + "\n"
                            + "Character " + Unescaped([e.value[0]]) + " is outside ASCII range"))
  {
  }

  /** A transition line adds, for its endpoints, one transition per character
      its middle words stand for, or fails when it adds any while an endpoint
      is undeclared. */
  lemma TransitionLineKeeps(s: string, m: Machine)
    requires IsByteString(s)
    ensures var r := TransitionLine(s, m);
            r.Ok? ==> r.value.states == m.states && r.value.initial == m.initial &&
                      |r.value.transitions| >= |m.transitions| &&
                      r.value.transitions[..|m.transitions|] == m.transitions &&
                      (WellFormed(m) ==> WellFormed(r.value))
  {
    var toks := Words(s);
    if |toks| >= 3 {
      WordsBytes(s);
      var cs := ExpandTokens(toks[1..|toks| - 1], s);
      if cs.Ok? {
        AddTransitionsKeeps(m, toks[0], cs.value, toks[|toks| - 1]);
      }
    }
  }

  /** The transition section keeps the declared states and the initial state,
      and every transition it adds joins two declared states. */
  lemma {:induction false} ReadTransitionsKeeps(lines: seq<string>, k: nat, m: Machine)
    requires k <= |lines| && AllBytes(lines)
    requires WellFormed(m)
    ensures var r := ReadTransitions(lines, k, m);
            r.Ok? ==> r.value.states == m.states && r.value.initial == m.initial && WellFormed(r.value) &&
                      |r.value.transitions| >= |m.transitions| &&
                      r.value.transitions[..|m.transitions|] == m.transitions
    decreases |lines| - k
  {
    if k < |lines| {
      var s := Squished(lines[k]);
      if s != INPUT && Words(s) == [] {
        ReadTransitionsKeeps(lines, k + 1, m);
      } else if s != INPUT {
        WordsBytes(lines[k]);
        TransitionLineKeeps(s, m);
        var a := TransitionLine(s, m);
        if a.Ok? {
          ReadTransitionsKeeps(lines, k + 1, a.value);
          var t := ReadTransitions(lines, k + 1, a.value);
          if t.Ok? {
            assert t.value.transitions[..|m.transitions|] == t.value.transitions[..|a.value.transitions|][..|m.transitions|];
          }
        }
      }
    }
  }

  /** A loaded DFA: every transition joins declared states, and its initial
      state is its first declared state, or the default pair when it has none. */
  lemma LoadShape(lines: seq<string>)
    requires AllBytes(lines)
    ensures var r := Load(lines);
            r.Ok? ==> WellFormed(r.value) &&
                      (if |r.value.states| == 0 then r.value.initial == StateEntry("", false)
                       else r.value.initial == r.value.states[0])
  {
    var k := FindStates(lines, 0);
    if k.Ok? {
      ReadStatesStream(lines, k.value, [], EmptyMachine, true);
      var read := ReadStates(lines, k.value, [], EmptyMachine, true);
      if read.Ok? {
        ReadTransitionsKeeps(lines, read.value.1, read.value.0);
      }
    }
  }

  /** A transition line with a plain single character adds that one
      transition when both endpoints are declared. */
  lemma ExpandPlainChar(c: char, line: string)
    requires c as int < 128 && c != '\\'
    ensures IsByteString([c])
    ensures ExpandToken([c], line) == Ok([c])
  {
    EscapePlain([c]);
  }

  // ---------------------------------------------------------------------
  // The loops of `DFAconstruct`

  method ReadHeader(lines: seq<string>) returns (r: Result<nat>)
    ensures r == FindStates(lines, 0)
  {
    var k := 0;
    while true
      invariant k <= |lines|
      invariant FindStates(lines, 0) == FindStates(lines, k)
      decreases |lines| - k
    {
      if k == |lines| {
        return Err(Runtime("Expected " + STATES + ", but found end of input."));
      }
      var s := Squish(lines[k]);
      if s == STATES {
        return Ok(k + 1);
      }
      if s != "" {
        return Err(Runtime("Expected " + STATES + ", but found: " + s));
      }
      k := k + 1;
    }
  }

  /** The state loop: one `>>` per word, across line breaks. */
  method ReadStateSection(dfa: DFA, lines: seq<string>, k0: nat) returns (r: Result<nat>)
    requires k0 <= |lines|
    requires dfa.Model() == EmptyMachine
    modifies dfa
    ensures var spec := ReadStates(lines, k0, [], EmptyMachine, true);
            (r.Ok? <==> spec.Ok?) &&
            (r.Err? ==> r.error == spec.error) &&
            (r.Ok? ==> r.value == spec.value.1 && dfa.Model() == spec.value.0)
  {
    var first := true;
    var k := k0;
    var ws: seq<string> := [];
    var j := 0;
    while true
      invariant k <= |lines| && j <= |ws|
      invariant ReadStates(lines, k0, [], EmptyMachine, true) == ReadStates(lines, k, ws[j..], dfa.Model(), first)
      decreases |lines| - k, |ws| - j
    {
      if j == |ws| {
        if k == |lines| {
          return Err(Runtime("Unexpected end of input while reading state set: " + TRANSITIONS + "not found."));
        }
        ws := SplitWords(lines[k]);
        j := 0;
        k := k + 1;
        assert ws[0..] == ws;
      } else {
        var s := ws[j];
        assert ws[j..][1..] == ws[j + 1..];
        j := j + 1;
        if s == TRANSITIONS {
          return Ok(k);
        }
        var accepting := false;
        if |s| > 1 && s[|s| - 1] == '!' {
          accepting := true;
          s := s[..|s| - 1];
        }
        dfa.AddState(s, accepting);
        if first {
          dfa.initial := StateEntry(s, accepting);
        }
        first := false;
      }
    }
  }

  /** The range loop on signed `char`, with its wrap from 127 to -128. */
  method PushRange(charVec: seq<char>, a: char, b: char) returns (r: Result<seq<char>>)
    requires a as int < 256 && b as int < 256
    ensures r == Prepend(charVec, CharRange(a, b))
  {
    var lo, hi := Signed(a), Signed(b);
    if lo == -128 && hi == 127 {
      return Err(Unmodelled("the range loop wraps around and does not end"));
    }
    var cv := charVec;
    var c := lo;
    // `n` is `c` without the wrap: 128 once `c` has wrapped to -128
    ghost var n := lo;
    while lo <= c && c <= hi
      invariant -128 <= c < 128
      invariant lo > hi ==> c == lo && cv == charVec
      invariant lo <= hi ==> lo <= n <= hi + 1 && cv == charVec + Span(lo, n - 1) &&
                             c == if n == 128 then -128 else n
      decreases if lo <= c <= hi then hi - c + 1 else 0
    {
      assert c == n;
      assert Span(lo, n) == Span(lo, n - 1) + [ByteChar(c)];
      assert cv + [ByteChar(c)] == charVec + Span(lo, n);
      cv := cv + [ByteChar(c)];
      c := if c == 127 then -128 else c + 1;
      n := n + 1;
    }
    if lo <= hi {
      assert n == hi + 1;
    } else {
      assert Span(lo, hi) == [];
    }
    assert cv == charVec + Span(lo, hi);
    return Ok(cv);
  }

  /** One middle word: `escape`, then a single character or a range. */
  method PushToken(charVec: seq<char>, tok: string, line: string) returns (r: Result<seq<char>>)
    requires IsByteString(tok)
    ensures r == Prepend(charVec, ExpandToken(tok, line))
  {
    var e := Escape(tok);
    if e.Err? {
      return Err(e.error);
    }
    EscapedShape(tok);
    var charOrRange := e.value;
    if IsChar(charOrRange) {
      var c := charOrRange[0];
      if c as int > 127 {
        var u := Unescape([c]);
        return Err(Runtime("Invalid (non-ASCII) character in transition line: " + line + "\n"
                           + "Character " + u + " is outside ASCII range"));
      }
      return Ok(charVec + [c]);
    } else if IsRange(charOrRange) {
      r := PushRange(charVec, charOrRange[0], charOrRange[2]);
    } else {
      return Err(Runtime("Expected character or range, but found " + charOrRange + " in transition line: " + line));
    }
  }

  /** The `charVec` loop over the middle words of one transition line. */
  method ExpandLine(toks: seq<string>, line: string) returns (r: Result<seq<char>>)
    requires AllBytes(toks)
    ensures r == ExpandTokens(toks, line)
  {
    var charVec: seq<char> := [];
    assert toks[0..] == toks;
    assert ExpandTokens(toks, line).Ok? ==> [] + ExpandTokens(toks, line).value == ExpandTokens(toks, line).value;
    for i := 0 to |toks|
      invariant ExpandTokens(toks, line) == Prepend(charVec, ExpandTokens(toks[i..], line))
    {
      assert toks[i..][1..] == toks[i + 1..];
      var step := ExpandToken(toks[i], line);
      if step.Ok? {
        PrependAssoc(charVec, step.value, ExpandTokens(toks[i + 1..], line));
      }
      var pushed := PushToken(charVec, toks[i], line);
      if pushed.Err? {
        return pushed;
      }
      charVec := pushed.value;
    }
    assert toks[|toks|..] == [];
    assert charVec + [] == charVec;
    return Ok(charVec);
  }

  /** The transition loop: one line at a time, one `addTransition` per character. */
  method ReadTransitionSection(dfa: DFA, lines: seq<string>, k0: nat) returns (o: Outcome)
    requires k0 <= |lines| && AllBytes(lines)
    modifies dfa
    ensures var spec := ReadTransitions(lines, k0, old(dfa.Model()));
            (o.Pass? <==> spec.Ok?) &&
            (o.Fail? ==> o.error == spec.error) &&
            (o.Pass? ==> dfa.Model() == spec.value)
  {
    var k := k0;
    while k < |lines|
      invariant k0 <= k <= |lines|
      invariant ReadTransitions(lines, k0, old(dfa.Model())) == ReadTransitions(lines, k, dfa.Model())
      decreases |lines| - k
    {
      var s := Squish(lines[k]);
      if s == INPUT {
        return Pass;
      }
      var lineVec := SplitWords(s);
      if |lineVec| > 0 {
        if |lineVec| < 3 {
          return Fail(Runtime("Incomplete transition line: " + s));
        }
        WordsBytes(lines[k]);
        WordsBytes(s);
        var fromState, toState := lineVec[0], lineVec[|lineVec| - 1];
        var cv := ExpandLine(lineVec[1..|lineVec| - 1], s);
        if cv.Err? {
          return Fail(cv.error);
        }
        var charVec := cv.value;
        ghost var m0 := dfa.Model();
        assert charVec[0..] == charVec;
        for i := 0 to |charVec|
          invariant dfa.states == m0.states && dfa.initial == m0.initial
          invariant AddTransitions(m0, fromState, charVec, toState) == AddTransitions(dfa.Model(), fromState, charVec[i..], toState)
        {
          assert charVec[i..][1..] == charVec[i + 1..];
          var added := dfa.AddTransition(fromState, charVec[i], toState);
          if added.Fail? {
            return added;
          }
        }
        assert charVec[|charVec|..] == [];
      }
      k := k + 1;
    }
    return Pass;
  }

  /** `DFAconstruct`: a new DFA holding exactly what `Load` describes, or the
      error `Load` describes. */
  method DfaConstruct(lines: seq<string>) returns (r: Result<DFA>)
    requires AllBytes(lines)
    ensures r.Ok? <==> Load(lines).Ok?
    ensures r.Err? ==> r.error == Load(lines).error
    ensures r.Ok? ==> fresh(r.value) && r.value.Model() == Load(lines).value
  {
    var dfa := new DFA();
    var k := ReadHeader(lines);
    if k.Err? {
      return Err(k.error);
    }
    var after := ReadStateSection(dfa, lines, k.value);
    if after.Err? {
      return Err(after.error);
    }
    var o := ReadTransitionSection(dfa, lines, after.value);
    if o.Fail? {
      return Err(o.error);
    }
    return Ok(dfa);
  }
}
