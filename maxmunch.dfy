/** `maxmunch` and the scanners' line loops (wlp4scanner.cc:262-287 and
    mipsscanner.cc:240-265 are the same function; the drivers are
    wlp4scanner.cc:388-391 and mipsscanner.cc:366-369).

    The scanner follows DFA transitions as long as there is one for the next
    character. When there is none, it cuts the characters read so far as a
    lexeme if the current state accepts, and starts again from the initial
    state on the same character; otherwise it stops with an error. There is
    no backtracking. Each cut lexeme goes to `check_restrict` at once, so the
    output is the tokens printed before the first error, if there is one. */
module MaxMunch {
  import opened Outcomes
  import opened Text
  import opened Automaton
  import opened Restrict

  /** Whatever the DFA, the loop terminates only when the initial state does
      not accept: otherwise it would cut an empty lexeme forever. */
  predicate Startable(m: Machine)
  {
    AcceptOf(m.states, m.initial.name) != Ok(true)
  }

  /** The state `getNextState` leads to, with "novalidstate" read as none. */
  function Step(m: Machine, q: string, c: char): Option<string>
  {
    var n := NextStateName(m.transitions, q, c);
    if n == NoValidState then None else Some(n)
  }

  /** The lexemes cut from one line, each with the state that accepted it,
      and the error that ended the line, if any. */
  datatype Cut = Cut(pieces: seq<Token>, error: Option<Error>)

  function PrependCut(t: Token, c: Cut): Cut
  {
    Cut([t] + c.pieces, c.error)
  }

  /** All lexemes, in order. */
  function Concat(ps: seq<Token>): string
  {
    if |ps| == 0 then "" else ps[0].lexeme + Concat(ps[1..])
  }

  predicate ByteLexemes(ps: seq<Token>)
  {
    forall i :: 0 <= i < |ps| ==> IsByteString(ps[i].lexeme)
  }

  lemma PrefixAppend(a: string, b: string, c: string)
    requires b <= c
    ensures a + b <= a + c
  {
    assert (a + c)[..|a + b|] == a + b;
  }

  /** The loop of `maxmunch` from state `q` with `tok` read and `s` left. */
  function Cuts(m: Machine, q: string, tok: string, s: string): Cut
    requires Startable(m) && (tok == "" ==> q == m.initial.name)
    decreases 2 * |s| + (if tok == "" then 0 else 1)
  {
    if |s| > 0 then
      match Step(m, q, s[0])
      case Some(n) => Cuts(m, n, tok + [s[0]], s[1..])
      case None =>
        match AcceptOf(m.states, q)
        case Err(e) => Cut([], Some(e))
        case Ok(acc) =>
          if acc then PrependCut(Token(q, tok), Cuts(m, m.initial.name, "", s))
          else Cut([], Some(Runtime("invalid transition state")))
    else
      match AcceptOf(m.states, q)
      case Err(e) => Cut([], Some(e))
      case Ok(acc) =>
        if acc then Cut([Token(q, tok)], None)
        else Cut([], Some(Runtime("end of input not accepted")))
  }

  lemma ByteHalves(a: string, b: string)
    requires IsByteString(a + b)
    ensures IsByteString(a) && IsByteString(b)
  {
    assert forall i :: 0 <= i < |a| ==> a[i] == (a + b)[i];
    assert forall i :: 0 <= i < |b| ==> b[i] == (a + b)[|a| + i];
  }

  /** Together the lexemes the loop cuts read a prefix of the text: all of
      it when the line ends without error. */
  lemma {:induction false} CutsCover(m: Machine, q: string, tok: string, s: string)
    requires Startable(m) && (tok == "" ==> q == m.initial.name)
    ensures var r := Cuts(m, q, tok, s);
            Concat(r.pieces) <= tok + s && (r.error.None? ==> Concat(r.pieces) == tok + s)
    decreases 2 * |s| + (if tok == "" then 0 else 1)
  {
    if |s| > 0 {
      match Step(m, q, s[0])
      case Some(n) =>
        CutsCover(m, n, tok + [s[0]], s[1..]);
        assert (tok + [s[0]]) + s[1..] == tok + s;
      case None =>
        if AcceptOf(m.states, q) == Ok(true) {
          CutsCover(m, m.initial.name, "", s);
          var rest := Cuts(m, m.initial.name, "", s);
          assert "" + s == s;
          PrefixAppend(tok, Concat(rest.pieces), s);
          var r := PrependCut(Token(q, tok), rest);
          assert r.pieces[1..] == rest.pieces;
        }
    } else if AcceptOf(m.states, q) == Ok(true) {
      assert tok + s == tok && Concat([Token(q, tok)]) == tok + "";
    }
  }

  /** Every lexeme is non-empty and was read to an accepting state. */
  predicate AcceptedLexemes(m: Machine, ps: seq<Token>)
  {
    forall i :: 0 <= i < |ps| ==> ps[i].lexeme != "" && AcceptOf(m.states, ps[i].kind) == Ok(true)
  }

  /** Every lexeme the loop cuts is non-empty and was read to an accepting
      state. */
  lemma {:induction false} CutsAccepted(m: Machine, q: string, tok: string, s: string)
    requires Startable(m) && (tok == "" ==> q == m.initial.name)
    ensures AcceptedLexemes(m, Cuts(m, q, tok, s).pieces)
    decreases 2 * |s| + (if tok == "" then 0 else 1)
  {
    if |s| > 0 {
      match Step(m, q, s[0])
      case Some(n) =>
        CutsAccepted(m, n, tok + [s[0]], s[1..]);
      case None =>
        if AcceptOf(m.states, q) == Ok(true) {
          CutsAccepted(m, m.initial.name, "", s);
          var rest := Cuts(m, m.initial.name, "", s).pieces;
          assert tok != "";
          assert Cuts(m, q, tok, s).pieces == [Token(q, tok)] + rest;
          assert forall i :: 1 <= i < |rest| + 1 ==> ([Token(q, tok)] + rest)[i] == rest[i - 1];
        }
    } else if AcceptOf(m.states, q) == Ok(true) {
      assert tok != "";
    }
  }

  /** On byte-valued text every lexeme is byte-valued. */
  lemma {:induction false} CutsBytes(m: Machine, q: string, tok: string, s: string)
    requires Startable(m) && (tok == "" ==> q == m.initial.name)
    requires IsByteString(tok + s)
    ensures ByteLexemes(Cuts(m, q, tok, s).pieces)
    decreases 2 * |s| + (if tok == "" then 0 else 1)
  {
    if |s| > 0 {
      match Step(m, q, s[0])
      case Some(n) =>
        assert (tok + [s[0]]) + s[1..] == tok + s;
        CutsBytes(m, n, tok + [s[0]], s[1..]);
      case None =>
        if AcceptOf(m.states, q) == Ok(true) {
          ByteHalves(tok, s);
          assert "" + s == s;
          CutsBytes(m, m.initial.name, "", s);
          var rest := Cuts(m, m.initial.name, "", s);
          var r := PrependCut(Token(q, tok), rest);
          assert forall i :: 1 <= i < |r.pieces| ==> r.pieces[i] == rest.pieces[i - 1];
        }
    } else if AcceptOf(m.states, q) == Ok(true) {
      assert tok + s == tok;
    }
  }

  /** The lexemes the loop cuts are never empty, always accepted, and
      together read a prefix of the text: all of it when the line ends
      without error. */
  lemma CutsPartition(m: Machine, q: string, tok: string, s: string)
    requires Startable(m) && (tok == "" ==> q == m.initial.name)
    ensures var r := Cuts(m, q, tok, s);
            Concat(r.pieces) <= tok + s &&
            (r.error.None? ==> Concat(r.pieces) == tok + s) &&
            (forall i :: 0 <= i < |r.pieces| ==> r.pieces[i].lexeme != "" && AcceptOf(m.states, r.pieces[i].kind) == Ok(true)) &&
            (IsByteString(tok + s) ==> ByteLexemes(r.pieces))
  {
    CutsCover(m, q, tok, s);
    CutsAccepted(m, q, tok, s);
    assert AcceptedLexemes(m, Cuts(m, q, tok, s).pieces);
    if IsByteString(tok + s) {
      CutsBytes(m, q, tok, s);
    }
  }

  // ---------------------------------------------------------------------
  // Reference: cut the longest prefix the DFA can follow

  /** Following transitions from `q` along every character of `w`. */
  function Walk(m: Machine, q: string, w: string): Option<string>
    decreases |w|
  {
    if |w| == 0 then Some(q)
    else match Step(m, q, w[0])
      case None => None
      case Some(n) => Walk(m, n, w[1..])
  }

  /** Following transitions from `q` along `s` as far as they go: the state
      reached and the number of characters followed. */
  function Run(m: Machine, q: string, s: string): (r: (string, nat))
    ensures r.1 <= |s|
    ensures r.1 == 0 ==> r.0 == q
    decreases |s|
  {
    if |s| == 0 then (q, 0)
    else match Step(m, q, s[0])
      case None => (q, 0)
      case Some(n) =>
        var r := Run(m, n, s[1..]);
        (r.0, r.1 + 1)
  }

  /** Maximal munch without backtracking, stated on the whole line: the
      longest prefix the DFA follows from the initial state is cut when its
      state accepts; at the end of the line that state must accept, and
      elsewhere a state that does not accept is an error. */
  function Reference(m: Machine, s: string): Cut
    requires Startable(m)
    decreases |s|
  {
    var (q, n) := Run(m, m.initial.name, s);
    match AcceptOf(m.states, q)
    case Err(e) => Cut([], Some(e))
    case Ok(acc) =>
      if n == |s| then
        if acc then Cut([Token(q, s)], None) else Cut([], Some(Runtime("end of input not accepted")))
      else if acc then PrependCut(Token(q, s[..n]), Reference(m, s[n..]))
      else Cut([], Some(Runtime("invalid transition state")))
  }

  lemma {:induction false} WalkSnoc(m: Machine, q0: string, w: string, c: char, q: string)
    requires Walk(m, q0, w) == Some(q)
    ensures Walk(m, q0, w + [c]) == Step(m, q, c)
    decreases |w|
  {
    if |w| > 0 {
      assert (w + [c])[1..] == w[1..] + [c];
      WalkSnoc(m, Step(m, q0, w[0]).value, w[1..], c, q);
    } else {
      assert (w + [c])[1..] == [];
    }
  }

  lemma {:induction false} RunThrough(m: Machine, q0: string, w: string, s: string, q: string)
    requires Walk(m, q0, w) == Some(q)
    ensures Run(m, q0, w + s) == (Run(m, q, s).0, |w| + Run(m, q, s).1)
    decreases |w|
  {
    if |w| > 0 {
      assert (w + s)[0] == w[0] && (w + s)[1..] == w[1..] + s;
      RunThrough(m, Step(m, q0, w[0]).value, w[1..], s, q);
    } else {
      assert w + s == s;
    }
  }

  /** The loop computes the reference: from any point reached by a walk from
      the initial state, what remains to be cut is what `Reference` cuts from
      the whole text since the last cut. */
  lemma {:induction false} CutsReference(m: Machine, q: string, tok: string, s: string)
    requires Startable(m) && Walk(m, m.initial.name, tok) == Some(q)
    ensures tok == "" ==> q == m.initial.name
    ensures Cuts(m, q, tok, s) == Reference(m, tok + s)
    decreases 2 * |s| + (if tok == "" then 0 else 1)
  {
    var init := m.initial.name;
    if |s| > 0 && Step(m, q, s[0]).Some? {
      var n := Step(m, q, s[0]).value;
      WalkSnoc(m, init, tok, s[0], q);
      CutsReference(m, n, tok + [s[0]], s[1..]);
      assert (tok + [s[0]]) + s[1..] == tok + s;
    } else {
      RunThrough(m, init, tok, s, q);
      assert Run(m, q, s) == (q, 0);
      if |s| > 0 && AcceptOf(m.states, q) == Ok(true) {
        assert (tok + s)[..|tok|] == tok && (tok + s)[|tok|..] == s;
        CutsReference(m, init, "", s);
        assert "" + s == s;
      } else if |s| == 0 {
        assert tok + s == tok;
      }
    }
  }

  /** Splitting a line by the loop and by the reference gives the same cut. */
  lemma CutsIsReference(m: Machine, s: string)
    requires Startable(m)
    ensures Cuts(m, m.initial.name, "", s) == Reference(m, s)
  {
    CutsReference(m, m.initial.name, "", s);
    assert "" + s == s;
  }

  /** The run stops at a state from which no transition continues, and no
      longer prefix of the text can be followed at all. */
  lemma {:induction false} RunMaximal(m: Machine, q: string, s: string)
    ensures var (q', n) := Run(m, q, s);
            Walk(m, q, s[..n]) == Some(q') &&
            (n < |s| ==> Step(m, q', s[n]).None?) &&
            (forall j :: n < j <= |s| ==> Walk(m, q, s[..j]).None?)
    decreases |s|
  {
    if |s| > 0 && Step(m, q, s[0]).Some? {
      var n := Step(m, q, s[0]).value;
      RunMaximal(m, n, s[1..]);
      var k := Run(m, n, s[1..]).1;
      assert s[..k + 1][1..] == s[1..][..k];
      forall j | k + 1 < j <= |s| ensures Walk(m, q, s[..j]).None? {
        assert s[..j][1..] == s[1..][..j - 1];
      }
    } else if |s| > 0 {
      forall j | 0 < j <= |s| ensures Walk(m, q, s[..j]).None? {
        assert s[..j][0] == s[0];
      }
    }
  }

  /** Every lexeme is the longest prefix of the remaining text that the DFA
      can follow from the initial state, and that walk ends in the state that
      names the lexeme's kind, an accepting one. */
  predicate Munched(m: Machine, s: string, ps: seq<Token>)
    decreases |ps|
  {
    |ps| == 0 ||
    (var t := ps[0];
     var n := |t.lexeme|;
     0 < n <= |s| && s[..n] == t.lexeme &&
     Walk(m, m.initial.name, t.lexeme) == Some(t.kind) &&
     AcceptOf(m.states, t.kind) == Ok(true) &&
     (forall j :: n < j <= |s| ==> Walk(m, m.initial.name, s[..j]).None?) &&
     Munched(m, s[n..], ps[1..]))
  }

  /** The reference cuts by maximal munch. */
  lemma {:induction false} ReferenceMunched(m: Machine, s: string)
    requires Startable(m)
    ensures Munched(m, s, Reference(m, s).pieces)
    decreases |s|
  {
    var init := m.initial.name;
    var (q, n) := Run(m, init, s);
    RunMaximal(m, init, s);
    var r := Reference(m, s);
    if |r.pieces| > 0 {
      if n < |s| {
        ReferenceMunched(m, s[n..]);
        assert r.pieces[1..] == Reference(m, s[n..]).pieces;
      } else {
        assert s[..n] == s;
        assert r.pieces[1..] == [];
      }
    }
  }

  /** `maxmunch` on a line, as delivered to `check_restrict`: every lexeme is
      the longest prefix the DFA can follow, and without an error the lexemes
      put back together are the line. */
  lemma MaxMunchCuts(m: Machine, s: string)
    requires Startable(m)
    ensures var c := Cuts(m, m.initial.name, "", s);
            Munched(m, s, c.pieces) && Concat(c.pieces) <= s && (c.error.None? ==> Concat(c.pieces) == s)
  {
    CutsIsReference(m, s);
    ReferenceMunched(m, s);
    CutsPartition(m, m.initial.name, "", s);
    assert "" + s == s;
  }

  /** An empty line is refused: only the initial state is reached, and it
      does not accept. */
  lemma EmptyLine(m: Machine)
    requires Startable(m)
    ensures Cuts(m, m.initial.name, "", "").pieces == []
    ensures Cuts(m, m.initial.name, "", "").error ==
            Some(if AcceptOf(m.states, m.initial.name).Err? then Runtime("Invalid state!")
                 else Runtime("end of input not accepted"))
  {
    AcceptOfFirst(m.states, m.initial.name);
  }

  // ---------------------------------------------------------------------
  // Emission

  /** What a scanner prints before it stops: tokens, then the error. */
  datatype Scanned = Scanned(tokens: seq<Token>, error: Option<Error>)

  function PrependScan(ts: seq<Token>, r: Scanned): Scanned
  {
    Scanned(ts + r.tokens, r.error)
  }

  lemma PrependScanAssoc(a: seq<Token>, b: seq<Token>, r: Scanned)
    ensures PrependScan(a, PrependScan(b, r)) == PrependScan(a + b, r)
  {
    assert a + (b + r.tokens) == (a + b) + r.tokens;
  }

  /** `check_restrict` on each cut lexeme in turn; the first refusal stops the line. */
  function Emit(d: Dialect, ps: seq<Token>, err: Option<Error>): Scanned
    requires ByteLexemes(ps)
  {
    if |ps| == 0 then Scanned([], err)
    else match CheckRestrict(d, ps[0].kind, ps[0].lexeme)
      case Err(e) => Scanned([], Some(e))
      case Ok(ts) => PrependScan(ts, Emit(d, ps[1..], err))
  }

  /** What the rest of the loop prints from state `q` with `tok` read and
      `s` left. */
  function Rest(m: Machine, d: Dialect, q: string, tok: string, s: string): Scanned
    requires Startable(m) && (tok == "" ==> q == m.initial.name) && IsByteString(tok + s)
  {
    CutsPartition(m, q, tok, s);
    var c := Cuts(m, q, tok, s);
    Emit(d, c.pieces, c.error)
  }

  /** What `maxmunch` prints for one line, or throws. */
  function Tokenize(m: Machine, d: Dialect, line: string): Scanned
    requires Startable(m) && IsByteString(line)
  {
    assert "" + line == line;
    Rest(m, d, m.initial.name, "", line)
  }

  lemma RestAdvance(m: Machine, d: Dialect, q: string, tok: string, s: string, n: string)
    requires Startable(m) && (tok == "" ==> q == m.initial.name) && IsByteString(tok + s)
    requires |s| > 0 && Step(m, q, s[0]) == Some(n)
    ensures IsByteString((tok + [s[0]]) + s[1..])
    ensures Rest(m, d, q, tok, s) == Rest(m, d, n, tok + [s[0]], s[1..])
  {
    assert (tok + [s[0]]) + s[1..] == tok + s;
  }

  lemma RestCut(m: Machine, d: Dialect, q: string, tok: string, s: string)
    requires Startable(m) && (tok == "" ==> q == m.initial.name) && IsByteString(tok + s)
    requires |s| > 0 && Step(m, q, s[0]).None? && AcceptOf(m.states, q) == Ok(true)
    ensures IsByteString(tok) && IsByteString(s) && IsByteString("" + s)
    ensures Rest(m, d, q, tok, s) ==
            match CheckRestrict(d, q, tok)
            case Err(e) => Scanned([], Some(e))
            case Ok(ts) => PrependScan(ts, Rest(m, d, m.initial.name, "", s))
  {
    ByteHalves(tok, s);
    assert "" + s == s;
    var rest := Cuts(m, m.initial.name, "", s);
    CutsPartition(m, m.initial.name, "", s);
    var c := PrependCut(Token(q, tok), rest);
    assert c.pieces[1..] == rest.pieces;
  }

  lemma RestEnd(m: Machine, d: Dialect, q: string, tok: string)
    requires Startable(m) && (tok == "" ==> q == m.initial.name) && IsByteString(tok)
    requires AcceptOf(m.states, q) == Ok(true)
    ensures IsByteString(tok + "")
    ensures Rest(m, d, q, tok, "") ==
            match CheckRestrict(d, q, tok)
            case Err(e) => Scanned([], Some(e))
            case Ok(ts) => Scanned(ts, None)
  {
    assert tok + "" == tok;
    var c := Cuts(m, q, tok, "");
    assert c == Cut([Token(q, tok)], None);
    CutsPartition(m, q, tok, "");
    assert c.pieces[1..] == [];
    assert Emit(d, c.pieces[1..], None) == Scanned([], None);
    var ts := CheckRestrict(d, q, tok);
    if ts.Ok? {
      assert ts.value + [] == ts.value;
    }
  }

  /** Whitespace and comments aside, every printed token has the lexeme of
      one cut, in order, so the printed lexemes never exceed the line. */
  lemma {:induction false} EmitLexemes(d: Dialect, ps: seq<Token>, err: Option<Error>)
    requires ByteLexemes(ps)
    ensures |Emit(d, ps, err).tokens| <= |ps|
    ensures Emit(d, ps, err).error.None? ==> err.None?
  {
    if |ps| > 0 {
      RestrictShape(d, ps[0].kind, ps[0].lexeme);
      EmitLexemes(d, ps[1..], err);
    }
  }

  /** The `maxmunch` loop: `token` grows while there is a transition, and a
      lexeme is passed on at each cut. */
  method MaxMunch(dfa: DFA, line: string, d: Dialect) returns (r: Scanned)
    requires Startable(dfa.Model()) && IsByteString(line)
    ensures r == Tokenize(dfa.Model(), d, line)
  {
    ghost var m := dfa.Model();
    var state := dfa.initial.name;
    var token := "";
    var s := line;
    var out: seq<Token> := [];
    assert "" + line == line;
    assert out + Tokenize(m, d, line).tokens == Tokenize(m, d, line).tokens;
    while |s| > 0
      invariant token == "" ==> state == m.initial.name
      invariant IsByteString(token + s)
      invariant Tokenize(m, d, line) == PrependScan(out, Rest(m, d, state, token, s))
      decreases 2 * |s| + (if token == "" then 0 else 1)
    {
      var c := s[0];
      var next := dfa.GetNextState(state, c);
      if next != NoValidState {
        RestAdvance(m, d, state, token, s, next);
        token := token + [c];
        s := s[1..];
        state := next;
      } else {
        var acc := dfa.GetAccept(state);
        if acc.Err? {
          assert out + [] == out;
          return Scanned(out, Some(acc.error));
        }
        if acc.value {
          RestCut(m, d, state, token, s);
          var emitted := CheckRestrict(d, state, token);
          if emitted.Err? {
            assert out + [] == out;
            return Scanned(out, Some(emitted.error));
          }
          PrependScanAssoc(out, emitted.value, Rest(m, d, m.initial.name, "", s));
          out := out + emitted.value;
          state := dfa.initial.name;
          token := "";
          assert token + s == s;
        } else {
          assert out + [] == out;
          return Scanned(out, Some(Runtime("invalid transition state")));
        }
      }
    }
    assert out + [] == out;
    var acc := dfa.GetAccept(state);
    if acc.Err? {
      return Scanned(out, Some(acc.error));
    }
    if !acc.value {
      return Scanned(out, Some(Runtime("end of input not accepted")));
    }
    assert token + s == token;
    RestEnd(m, d, state, token);
    var emitted := CheckRestrict(d, state, token);
    if emitted.Err? {
      return Scanned(out, Some(emitted.error));
    }
    return Scanned(out + emitted.value, None);
  }

  // ---------------------------------------------------------------------
  // The drivers

  const Newline := Token("NEWLINE", "")

  /** What `main` prints for the lines of its input: the C-like scanner skips
      empty lines; the assembly scanner scans every line and follows each
      line's tokens with a NEWLINE token. */
  function ScanLines(m: Machine, d: Dialect, lines: seq<string>): Scanned
    requires Startable(m) && AllBytes(lines)
  {
    if |lines| == 0 then Scanned([], None)
    else if d == Wlp4 && |lines[0]| == 0 then ScanLines(m, d, lines[1..])
    else
      var r := Tokenize(m, d, lines[0]);
      if r.error.Some? then r
      else PrependScan(r.tokens + (if d == Mips then [Newline] else []), ScanLines(m, d, lines[1..]))
  }

  /** The per-line loop of `main`. */
  method ScanProgram(dfa: DFA, lines: seq<string>, d: Dialect) returns (r: Scanned)
    requires Startable(dfa.Model()) && AllBytes(lines)
    ensures r == ScanLines(dfa.Model(), d, lines)
  {
    ghost var m := dfa.Model();
    var out: seq<Token> := [];
    assert lines[0..] == lines;
    assert out + ScanLines(m, d, lines).tokens == ScanLines(m, d, lines).tokens;
    for i := 0 to |lines|
      invariant ScanLines(m, d, lines) == PrependScan(out, ScanLines(m, d, lines[i..]))
    {
      assert lines[i..][1..] == lines[i + 1..];
      var input := lines[i];
      if !(d == Wlp4 && |input| == 0) {
        var t := MaxMunch(dfa, input, d);
        if t.error.Some? {
          return Scanned(out + t.tokens, t.error);
        }
        var nl := if d == Mips then [Newline] else [];
        PrependScanAssoc(out, t.tokens + nl, ScanLines(m, d, lines[i + 1..]));
        out := out + (t.tokens + nl);
      }
    }
    assert lines[|lines|..] == [];
    assert out + [] == out;
    return Scanned(out, None);
  }

  /** The C-like driver ignores empty lines entirely. */
  lemma {:induction false} Wlp4SkipsEmpty(m: Machine, a: seq<string>, b: seq<string>)
    requires Startable(m) && AllBytes(a + [""] + b)
    ensures AllBytes(a + b)
    ensures ScanLines(m, Wlp4, a + [""] + b) == ScanLines(m, Wlp4, a + b)
  {
    assert AllBytes(a + b) by {
      forall i | 0 <= i < |a + b| ensures IsByteString((a + b)[i]) {
        if i < |a| { assert (a + b)[i] == (a + [""] + b)[i]; }
        else { assert (a + b)[i] == (a + [""] + b)[i + 1]; }
      }
    }
    if |a| == 0 {
      assert (a + [""] + b)[1..] == b && a + b == b;
    } else {
      assert (a + [""] + b)[0] == (a + b)[0] == a[0];
      assert (a + [""] + b)[1..] == a[1..] + [""] + b;
      assert (a + b)[1..] == a[1..] + b;
      Wlp4SkipsEmpty(m, a[1..], b);
    }
  }

  /** One line of the assembly driver. */
  lemma ScanMipsCons(m: Machine, lines: seq<string>)
    requires Startable(m) && AllBytes(lines) && |lines| > 0
    ensures AllBytes(lines[1..])
    ensures var t := Tokenize(m, Mips, lines[0]);
            ScanLines(m, Mips, lines) ==
              if t.error.Some? then t else PrependScan(t.tokens + [Newline], ScanLines(m, Mips, lines[1..]))
  {
    assert AllBytes(lines[1..]) by {
      forall i | 0 <= i < |lines[1..]| ensures IsByteString(lines[1..][i]) { assert lines[1..][i] == lines[i + 1]; }
    }
  }

  /** A line's own tokens never include the NEWLINE token. */
  lemma NoNewlineToken(m: Machine, line: string)
    requires Startable(m) && IsByteString(line)
    ensures multiset(Tokenize(m, Mips, line).tokens)[Newline] == 0
  {
    NoEmptyLexeme(m, Mips, line);
    var ts := Tokenize(m, Mips, line).tokens;
    assert forall i | 0 <= i < |ts| :: ts[i] != Newline;
    assert Newline !in ts;
  }

  /** The assembly driver prints one NEWLINE per line: on a text scanned
      without error the NEWLINE tokens are as many as the lines, since a
      line's own tokens never have an empty lexeme. */
  lemma {:induction false} MipsNewlines(m: Machine, lines: seq<string>)
    requires Startable(m) && AllBytes(lines)
    ensures var r := ScanLines(m, Mips, lines);
            r.error.None? ==> multiset(r.tokens)[Newline] == |lines|
  {
    if |lines| > 0 {
      ScanMipsCons(m, lines);
      var t := Tokenize(m, Mips, lines[0]);
      if t.error.None? {
        MipsNewlines(m, lines[1..]);
        NoNewlineToken(m, lines[0]);
        var rest := ScanLines(m, Mips, lines[1..]);
        assert multiset(t.tokens + [Newline] + rest.tokens) ==
               multiset(t.tokens) + multiset{Newline} + multiset(rest.tokens);
      }
    }
  }

  /** On a non-empty text scanned without error, the last token the
      assembly driver prints is a NEWLINE. */
  lemma {:induction false} MipsEndsNewline(m: Machine, lines: seq<string>)
    requires Startable(m) && AllBytes(lines) && |lines| > 0
    ensures var r := ScanLines(m, Mips, lines);
            r.error.None? ==> |r.tokens| > 0 && r.tokens[|r.tokens| - 1] == Newline
  {
    ScanMipsCons(m, lines);
    var t := Tokenize(m, Mips, lines[0]);
    if t.error.None? {
      var rest := ScanLines(m, Mips, lines[1..]);
      var all := t.tokens + [Newline] + rest.tokens;
      if |lines| == 1 {
        assert lines[1..] == [] && rest.tokens == [];
        assert all[|all| - 1] == Newline;
      } else {
        MipsEndsNewline(m, lines[1..]);
        if rest.error.None? {
          assert all[|all| - 1] == rest.tokens[|rest.tokens| - 1];
        }
      }
    }
  }

  /** Tokens printed for a line carry the non-empty lexemes of its cuts. */
  lemma NoEmptyLexeme(m: Machine, d: Dialect, line: string)
    requires Startable(m) && IsByteString(line)
    ensures forall i :: 0 <= i < |Tokenize(m, d, line).tokens| ==> Tokenize(m, d, line).tokens[i].lexeme != ""
  {
    assert "" + line == line;
    var c := Cuts(m, m.initial.name, "", line);
    CutsPartition(m, m.initial.name, "", line);
    EmitNonEmpty(d, c.pieces, c.error);
  }

  lemma {:induction false} EmitNonEmpty(d: Dialect, ps: seq<Token>, err: Option<Error>)
    requires ByteLexemes(ps)
    requires forall i :: 0 <= i < |ps| ==> ps[i].lexeme != ""
    ensures forall i :: 0 <= i < |Emit(d, ps, err).tokens| ==> Emit(d, ps, err).tokens[i].lexeme != ""
  {
    if |ps| > 0 {
      RestrictShape(d, ps[0].kind, ps[0].lexeme);
      EmitNonEmpty(d, ps[1..], err);
    }
  }
}
