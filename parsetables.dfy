/** The parser's grammar and LR tables (wlp4parser.cc:13-24, 65-87, 91-148).

    The data text holds a `.CFG` line, one rule per line up to a
    `.TRANSITIONS` line, goto lines `state symbol state` up to a `.REDUCTIONS`
    line, and reduction lines `state rule lookahead` to the end. Section
    markers are compared with whole lines, without squishing. Lookups take the
    first entry that matches, in insertion order, and answer `INT_MIN` when
    none does: an entry whose own value is `INT_MIN` reads the same as none. */
module ParseTables {
  import opened Outcomes
  import opened Text
  import opened Restrict
  import DfaLoader

  const CFG := ".CFG"
  const TR := ".TRANSITIONS"
  const RD := ".REDUCTIONS"
  const EMPTY := ".EMPTY"

  /** A grammar rule: its left-hand side and its right-hand side symbols. */
  datatype Rule = Rule(lhs: string, rhs: seq<string>)

  /** `(state, symbol) -> state`. */
  datatype GotoEntry = GotoEntry(from: int, symbol: string, to: int)

  /** `(state, lookahead) -> rule`, read from a line `state rule lookahead`. */
  datatype ReduceEntry = ReduceEntry(state: int, rule: int, lookahead: string)

  /** The contents of `cfg` and of the global `dfa` after `getDATA`. */
  datatype Data = Data(cfg: seq<Rule>, transitions: seq<GotoEntry>, reductions: seq<ReduceEntry>)

  // ---------------------------------------------------------------------
  // Rules

  /** The symbols other than `.EMPTY`, in order. */
  function DropEmpty(ws: seq<string>): seq<string>
  {
    if |ws| == 0 then [] else (if ws[0] == EMPTY then [] else [ws[0]]) + DropEmpty(ws[1..])
  }

  /** What `Rule(line)` builds from the words of its line. */
  function RuleOf(ws: seq<string>): Rule
  {
    if |ws| == 0 then Rule("", []) else Rule(ws[0], DropEmpty(ws[1..]))
  }

  /** Dropping `.EMPTY` removes every `.EMPTY` and keeps every other symbol,
      as often as it occurs. */
  lemma {:induction false} DropEmptyCounts(ws: seq<string>)
    ensures multiset(DropEmpty(ws))[EMPTY] == 0
    ensures forall w :: w != EMPTY ==> multiset(DropEmpty(ws))[w] == multiset(ws)[w]
    ensures |DropEmpty(ws)| + multiset(ws)[EMPTY] == |ws|
  {
    if |ws| > 0 {
      DropEmptyCounts(ws[1..]);
      assert ws == [ws[0]] + ws[1..];
      var h := if ws[0] == EMPTY then [] else [ws[0]];
      assert DropEmpty(ws) == h + DropEmpty(ws[1..]);
      assert multiset(DropEmpty(ws)) == multiset(h) + multiset(DropEmpty(ws[1..]));
    }
  }

  /** Dropping `.EMPTY` keeps a sequence of words a sequence of words. */
  lemma {:induction false} DropEmptyWords(ws: seq<string>)
    requires AllWords(ws)
    ensures AllWords(DropEmpty(ws))
  {
    if |ws| > 0 {
      assert AllWords(ws[1..]) by {
        forall i | 0 <= i < |ws[1..]| ensures IsWord(ws[1..][i]) { assert ws[1..][i] == ws[i + 1]; }
      }
      DropEmptyWords(ws[1..]);
      var h := if ws[0] == EMPTY then [] else [ws[0]];
      var d := DropEmpty(ws);
      assert d == h + DropEmpty(ws[1..]);
      forall i | 0 <= i < |d| ensures IsWord(d[i]) {
        if i >= |h| { assert d[i] == DropEmpty(ws[1..])[i - |h|]; }
      }
    }
  }

  /** A rule line: the first word is the left-hand side, the later words
      other than `.EMPTY` are the right-hand side, and an empty line gives an
      empty rule. */
  lemma RuleShape(line: string)
    ensures var ws := Words(line);
            var r := RuleOf(ws);
            r.lhs == (if |ws| == 0 then "" else ws[0]) &&
            EMPTY !in r.rhs && AllWords(r.rhs) &&
            (|ws| > 0 ==> forall w :: w != EMPTY ==> multiset(r.rhs)[w] == multiset(ws[1..])[w])
  {
    var ws := Words(line);
    if |ws| > 0 {
      assert AllWords(ws[1..]) by {
        forall i | 0 <= i < |ws[1..]| ensures IsWord(ws[1..][i]) { assert ws[1..][i] == ws[i + 1]; }
      }
      DropEmptyCounts(ws[1..]);
      DropEmptyWords(ws[1..]);
    }
  }

  /** The `Rule` constructor: `>>` the left-hand side, then every further word. */
  method ReadRule(line: string) returns (r: Rule)
    ensures r == RuleOf(Words(line))
  {
    var ws := SplitWords(line);
    if |ws| == 0 {
      return Rule("", []);
    }
    var rhs: seq<string> := [];
    assert ws[1..][0..] == ws[1..];
    for i := 1 to |ws|
      invariant DropEmpty(ws[1..]) == rhs + DropEmpty(ws[i..])
    {
      assert ws[i..][1..] == ws[i + 1..];
      if ws[i] != EMPTY {
        rhs := rhs + [ws[i]];
      }
    }
    assert ws[|ws|..] == [];
    assert rhs + [] == rhs;
    return Rule(ws[0], rhs);
  }

  // ---------------------------------------------------------------------
  // Lookups

  /** The value of the first goto entry for `(state, symbol)`, if any. */
  function FirstGoto(ts: seq<GotoEntry>, state: int, symbol: string): Option<int>
  {
    if |ts| == 0 then None
    else if ts[0].from == state && ts[0].symbol == symbol then Some(ts[0].to)
    else FirstGoto(ts[1..], state, symbol)
  }

  /** The rule of the first reduction entry for `(state, lookahead)`, if any. */
  function FirstReduction(rs: seq<ReduceEntry>, state: int, lookahead: string): Option<int>
  {
    if |rs| == 0 then None
    else if rs[0].state == state && rs[0].lookahead == lookahead then Some(rs[0].rule)
    else FirstReduction(rs[1..], state, lookahead)
  }

  /** What `getTransition` answers, `INT_MIN` read as no transition. */
  function TransitionOf(ts: seq<GotoEntry>, state: int, symbol: string): Option<int>
  {
    match FirstGoto(ts, state, symbol)
    case Some(v) => if v == IntMin then None else Some(v)
    case None => None
  }

  /** What `getReduction` answers, `INT_MIN` read as no reduction. */
  function ReductionOf(rs: seq<ReduceEntry>, state: int, lookahead: string): Option<int>
  {
    match FirstReduction(rs, state, lookahead)
    case Some(v) => if v == IntMin then None else Some(v)
    case None => None
  }

  /** `getTransition` answers with the first entry for its key, in insertion
      order, and with nothing exactly when there is no entry or that entry
      holds `INT_MIN`. */
  lemma {:induction false} TransitionFirst(ts: seq<GotoEntry>, state: int, symbol: string)
    ensures TransitionOf(ts, state, symbol).Some? <==>
            exists i :: 0 <= i < |ts| && ts[i].from == state && ts[i].symbol == symbol && ts[i].to != IntMin &&
                        forall j :: 0 <= j < i ==> !(ts[j].from == state && ts[j].symbol == symbol)
    ensures forall i :: 0 <= i < |ts| && ts[i].from == state && ts[i].symbol == symbol && ts[i].to != IntMin &&
                        (forall j :: 0 <= j < i ==> !(ts[j].from == state && ts[j].symbol == symbol)) ==>
                        TransitionOf(ts, state, symbol) == Some(ts[i].to)
  {
    if |ts| > 0 && !(ts[0].from == state && ts[0].symbol == symbol) {
      TransitionFirst(ts[1..], state, symbol);
      var t := ts[1..];
      if TransitionOf(ts, state, symbol).Some? {
        var i :| 0 <= i < |t| && t[i].from == state && t[i].symbol == symbol && t[i].to != IntMin &&
                 forall j :: 0 <= j < i ==> !(t[j].from == state && t[j].symbol == symbol);
        assert forall j :: 0 <= j < i + 1 ==> !(ts[j].from == state && ts[j].symbol == symbol) by {
          forall j | 0 <= j < i + 1 ensures !(ts[j].from == state && ts[j].symbol == symbol) {
            if j > 0 { assert ts[j] == t[j - 1]; }
          }
        }
        assert ts[i + 1] == t[i];
      }
      forall i | 0 <= i < |ts| && ts[i].from == state && ts[i].symbol == symbol && ts[i].to != IntMin &&
                 (forall j :: 0 <= j < i ==> !(ts[j].from == state && ts[j].symbol == symbol))
        ensures TransitionOf(ts, state, symbol) == Some(ts[i].to)
      {
        assert i > 0 && ts[i] == t[i - 1];
        assert forall j :: 0 <= j < i - 1 ==> t[j] == ts[j + 1];
      }
    } else if |ts| > 0 {
      forall i | 0 <= i < |ts| && ts[i].from == state && ts[i].symbol == symbol &&
                 (forall j :: 0 <= j < i ==> !(ts[j].from == state && ts[j].symbol == symbol))
        ensures i == 0
      {
      }
    }
  }

  /** `getReduction` keys on state and lookahead and answers with the rule of
      the first such entry, and with nothing exactly when there is none or it
      holds `INT_MIN`. */
  lemma {:induction false} ReductionFirst(rs: seq<ReduceEntry>, state: int, lookahead: string)
    ensures ReductionOf(rs, state, lookahead).Some? <==>
            exists i :: 0 <= i < |rs| && rs[i].state == state && rs[i].lookahead == lookahead && rs[i].rule != IntMin &&
                        forall j :: 0 <= j < i ==> !(rs[j].state == state && rs[j].lookahead == lookahead)
    ensures forall i :: 0 <= i < |rs| && rs[i].state == state && rs[i].lookahead == lookahead && rs[i].rule != IntMin &&
                        (forall j :: 0 <= j < i ==> !(rs[j].state == state && rs[j].lookahead == lookahead)) ==>
                        ReductionOf(rs, state, lookahead) == Some(rs[i].rule)
  {
    if |rs| > 0 && !(rs[0].state == state && rs[0].lookahead == lookahead) {
      ReductionFirst(rs[1..], state, lookahead);
      var t := rs[1..];
      if ReductionOf(rs, state, lookahead).Some? {
        var i :| 0 <= i < |t| && t[i].state == state && t[i].lookahead == lookahead && t[i].rule != IntMin &&
                 forall j :: 0 <= j < i ==> !(t[j].state == state && t[j].lookahead == lookahead);
        assert forall j :: 0 <= j < i + 1 ==> !(rs[j].state == state && rs[j].lookahead == lookahead) by {
          forall j | 0 <= j < i + 1 ensures !(rs[j].state == state && rs[j].lookahead == lookahead) {
            if j > 0 { assert rs[j] == t[j - 1]; }
          }
        }
        assert rs[i + 1] == t[i];
      }
      forall i | 0 <= i < |rs| && rs[i].state == state && rs[i].lookahead == lookahead && rs[i].rule != IntMin &&
                 (forall j :: 0 <= j < i ==> !(rs[j].state == state && rs[j].lookahead == lookahead))
        ensures ReductionOf(rs, state, lookahead) == Some(rs[i].rule)
      {
        assert i > 0 && rs[i] == t[i - 1];
        assert forall j :: 0 <= j < i - 1 ==> t[j] == rs[j + 1];
      }
    } else if |rs| > 0 {
      forall i | 0 <= i < |rs| && rs[i].state == state && rs[i].lookahead == lookahead &&
                 (forall j :: 0 <= j < i ==> !(rs[j].state == state && rs[j].lookahead == lookahead))
        ensures i == 0
      {
      }
    }
  }

  /** An answer as the C++ lookups return it, `INT_MIN` for none. */
  function Raw(o: Option<int>): int
  {
    match o
    case Some(v) => v
    case None => IntMin
  }

  /** `INT_MIN` stands for no reduction, and any other answer is the rule. */
  lemma ReductionRaw(rs: seq<ReduceEntry>, state: int, lookahead: string)
    ensures var o := ReductionOf(rs, state, lookahead);
            (Raw(o) == IntMin <==> o.None?) && (Raw(o) != IntMin ==> o == Some(Raw(o)))
  {
  }

  /** The global `dfa` of the parser. */
  class DFA {
    var transitions: seq<GotoEntry>
    var reductions: seq<ReduceEntry>

    constructor (d: Data)
      ensures transitions == d.transitions && reductions == d.reductions
    {
      transitions := d.transitions;
      reductions := d.reductions;
    }

    method GetTransition(state: int, symbol: string) returns (r: int)
      ensures r == Raw(TransitionOf(transitions, state, symbol))
    {
      for i := 0 to |transitions|
        invariant FirstGoto(transitions, state, symbol) == FirstGoto(transitions[i..], state, symbol)
      {
        assert transitions[i..][1..] == transitions[i + 1..];
        if transitions[i].from == state && transitions[i].symbol == symbol {
          return transitions[i].to;
        }
      }
      assert transitions[|transitions|..] == [];
      return IntMin;
    }

    method GetReduction(state: int, lookahead: string) returns (r: int)
      ensures r == Raw(ReductionOf(reductions, state, lookahead))
    {
      for i := 0 to |reductions|
        invariant FirstReduction(reductions, state, lookahead) == FirstReduction(reductions[i..], state, lookahead)
      {
        assert reductions[i..][1..] == reductions[i + 1..];
        if reductions[i].state == state && reductions[i].lookahead == lookahead {
          return reductions[i].rule;
        }
      }
      assert reductions[|reductions|..] == [];
      return IntMin;
    }
  }

  // ---------------------------------------------------------------------
  // `getDATA`

  /** A word `>>` reads completely into an `int`: an optional sign, decimal
      digits, and a value that fits. */
  function IntWord(w: string): Option<int>
  {
    var j := if |w| > 0 && (w[0] == '+' || w[0] == '-') then 1 else 0;
    var digits := w[j..];
    if |digits| == 0 || !AllDigits(digits) then None
    else
      var m: int := DecimalValue(digits);
      var v := if j == 1 && w[0] == '-' then -m else m;
      if IntMin <= v <= IntMax then Some(v) else None
  }

  function Shape(): Error
  {
    Unmodelled("a table line that is not `int word int` or `int int word`")
  }

  /** An `int` written in decimal, as `operator<<` writes it. */
  function IntText(v: int): string
  {
    if v < 0 then "-" + Decimal(-v) else Decimal(v)
  }

  lemma IntTextWord(v: int)
    requires IntMin <= v <= IntMax
    ensures IsWord(IntText(v)) && IntWord(IntText(v)) == Some(v)
  {
    var w := IntText(v);
    if v < 0 {
      assert w[1..] == Decimal(-v);
      assert forall i :: 1 <= i < |w| ==> w[i] == Decimal(-v)[i - 1];
    } else {
      assert w[0..] == w;
      assert IsDigit(w[0]);
    }
  }

  /** The words `a b c`. */
  lemma WordsOfThree(a: string, b: string, c: string)
    requires IsWord(a) && IsWord(b) && IsWord(c)
    ensures Words(a + " " + b + " " + c) == [a, b, c]
  {
    WordsAppend(a + " " + b, c);
    WordsAppend(a, b);
    WordsOfWord(a);
  }

  /** A goto entry as a line of the table text. */
  function GotoText(g: GotoEntry): string
  {
    IntText(g.from) + " " + g.symbol + " " + IntText(g.to)
  }

  /** A reduction entry as a line of the table text. */
  function ReduceText(e: ReduceEntry): string
  {
    IntText(e.state) + " " + IntText(e.rule) + " " + e.lookahead
  }

  /** A goto line `state0 symbol state1`. */
  function GotoLine(s: string): Result<GotoEntry>
  {
    var ws := Words(s);
    if |ws| < 3 then Err(Shape())
    else match (IntWord(ws[0]), IntWord(ws[2]))
      case (Some(a), Some(b)) => Ok(GotoEntry(a, ws[1], b))
      case _ => Err(Shape())
  }

  /** A reduction line `state0 rule lookahead`. */
  function ReduceLine(s: string): Result<ReduceEntry>
  {
    var ws := Words(s);
    if |ws| < 3 then Err(Shape())
    else match (IntWord(ws[0]), IntWord(ws[1]))
      case (Some(a), Some(b)) => Ok(ReduceEntry(a, b, ws[2]))
      case _ => Err(Shape())
  }

  /** Writing a goto entry and reading it back gives the same entry. */
  lemma GotoRoundTrip(g: GotoEntry)
    requires IntMin <= g.from <= IntMax && IntMin <= g.to <= IntMax && IsWord(g.symbol)
    ensures GotoLine(GotoText(g)) == Ok(g)
  {
    IntTextWord(g.from);
    IntTextWord(g.to);
    WordsOfThree(IntText(g.from), g.symbol, IntText(g.to));
  }

  /** Writing a reduction entry and reading it back gives the same entry. */
  lemma ReduceRoundTrip(e: ReduceEntry)
    requires IntMin <= e.state <= IntMax && IntMin <= e.rule <= IntMax && IsWord(e.lookahead)
    ensures ReduceLine(ReduceText(e)) == Ok(e)
  {
    IntTextWord(e.state);
    IntTextWord(e.rule);
    WordsOfThree(IntText(e.state), IntText(e.rule), e.lookahead);
  }

  /** A table line is read only when it has at least three words, and the
      words it keeps are its first three. */
  lemma TableLineWords(s: string)
    ensures GotoLine(s).Ok? ==> var ws := Words(s);
              |ws| >= 3 && GotoLine(s).value.symbol == ws[1] &&
              IntWord(ws[0]) == Some(GotoLine(s).value.from) && IntWord(ws[2]) == Some(GotoLine(s).value.to)
    ensures ReduceLine(s).Ok? ==> var ws := Words(s);
              |ws| >= 3 && ReduceLine(s).value.lookahead == ws[2] &&
              IntWord(ws[0]) == Some(ReduceLine(s).value.state) && IntWord(ws[1]) == Some(ReduceLine(s).value.rule)
  {
  }

  function FindCfg(lines: seq<string>, k: nat): (r: Result<nat>)
    requires k <= |lines|
    ensures r.Ok? ==> k < r.value <= |lines| && lines[r.value - 1] == CFG
    decreases |lines| - k
  {
    if k == |lines| then Err(Runtime("Expected " + CFG + ", but found end of input."))
    else if lines[k] == CFG then Ok(k + 1)
    else if lines[k] != "" then Err(Runtime("Expected " + CFG + ", but found: " + lines[k]))
    else FindCfg(lines, k + 1)
  }

  /** Only blank lines come before the `.CFG` line. */
  lemma {:induction false} CfgHeader(lines: seq<string>, k: nat)
    requires k <= |lines|
    ensures FindCfg(lines, k).Ok? ==> forall i :: k <= i < FindCfg(lines, k).value - 1 ==> lines[i] == ""
    decreases |lines| - k
  {
    if k < |lines| && lines[k] != CFG && lines[k] == "" {
      CfgHeader(lines, k + 1);
    }
  }

  function ReadRules(lines: seq<string>, k: nat, acc: seq<Rule>): (r: Result<(seq<Rule>, int)>)
    requires k <= |lines|
    ensures r.Ok? ==> k < r.value.1 <= |lines|
    decreases |lines| - k
  {
    if k == |lines| then Err(Runtime("Unexpected end of input while reading CFG set: " + TR + "not found."))
    else if lines[k] == TR then Ok((acc, k + 1))
    else ReadRules(lines, k + 1, acc + [RuleOf(Words(lines[k]))])
  }

  function ReadGotos(lines: seq<string>, k: nat, acc: seq<GotoEntry>): (r: Result<(seq<GotoEntry>, int)>)
    requires k <= |lines|
    ensures r.Ok? ==> k <= r.value.1 <= |lines|
    decreases |lines| - k
  {
    if k == |lines| then Ok((acc, k))
    else if lines[k] == RD then Ok((acc, k + 1))
    else match GotoLine(lines[k])
      case Err(e) => Err(e)
      case Ok(g) => ReadGotos(lines, k + 1, acc + [g])
  }

  function ReadReductions(lines: seq<string>, k: nat, acc: seq<ReduceEntry>): Result<seq<ReduceEntry>>
    requires k <= |lines|
    decreases |lines| - k
  {
    if k == |lines| then Ok(acc)
    else match ReduceLine(lines[k])
      case Err(e) => Err(e)
      case Ok(g) => ReadReductions(lines, k + 1, acc + [g])
  }

  /** What `getDATA` stores, or throws. */
  function ReadData(lines: seq<string>): Result<Data>
  {
    var k :- FindCfg(lines, 0);
    var rules :- ReadRules(lines, k, []);
    var gotos :- ReadGotos(lines, rules.1, []);
    var reds :- ReadReductions(lines, gotos.1, []);
    Ok(Data(rules.0, gotos.0, reds))
  }

  /** The rule section: it fails exactly when no `.TRANSITIONS` line follows,
      and otherwise holds one rule per line before the first one, in order. */
  lemma {:induction false} ReadRulesSection(lines: seq<string>, k: nat, acc: seq<Rule>)
    requires k <= |lines|
    ensures var n := DfaLoader.IndexOf(lines[k..], TR);
            var r := ReadRules(lines, k, acc);
            (r.Ok? <==> n < |lines| - k) &&
            (r.Ok? ==> r.value.1 == k + n + 1 &&
                       r.value.0 == acc + seq(n, i requires 0 <= i < n => RuleOf(Words(lines[k + i]))))
    decreases |lines| - k
  {
    var n := DfaLoader.IndexOf(lines[k..], TR);
    if k < |lines| {
      assert lines[k..][0] == lines[k];
      if lines[k] != TR {
        assert lines[k..][1..] == lines[k + 1..];
        ReadRulesSection(lines, k + 1, acc + [RuleOf(Words(lines[k]))]);
        var n' := DfaLoader.IndexOf(lines[k + 1..], TR);
        assert n == n' + 1;
        var f := seq(n, i requires 0 <= i < n => RuleOf(Words(lines[k + i])));
        var f' := seq(n', i requires 0 <= i < n' => RuleOf(Words(lines[k + 1 + i])));
        assert f == [RuleOf(Words(lines[k]))] + f';
      } else {
        assert n == 0;
      }
    }
  }

  /** A rule section that reads ends at a `.TRANSITIONS` line. */
  lemma ReadRulesEnd(lines: seq<string>, k: nat, acc: seq<Rule>)
    requires k <= |lines| && ReadRules(lines, k, acc).Ok?
    ensures var n := DfaLoader.IndexOf(lines[k..], TR);
            k + n < |lines| && lines[k + n] == TR
  {
    ReadRulesSection(lines, k, acc);
    var n := DfaLoader.IndexOf(lines[k..], TR);
    assert lines[k..][n] == lines[k + n];
  }

  /** A successful `getDATA` found `.CFG`, read a rule section after it,
      and keeps that section's rules. */
  lemma ReadDataOk(lines: seq<string>)
    requires ReadData(lines).Ok?
    ensures FindCfg(lines, 0).Ok?
    ensures ReadRules(lines, FindCfg(lines, 0).value, []).Ok?
    ensures ReadData(lines).value.cfg == ReadRules(lines, FindCfg(lines, 0).value, []).value.0
  {
  }

  /** A successful `getDATA` found only blank lines before `.CFG` and a
      `.TRANSITIONS` line after it. */
  lemma ReadDataMarkers(lines: seq<string>)
    requires ReadData(lines).Ok?
    ensures FindCfg(lines, 0).Ok?
    ensures var k := FindCfg(lines, 0).value;
            var n := DfaLoader.IndexOf(lines[k..], TR);
            lines[k - 1] == CFG && (forall i :: 0 <= i < k - 1 ==> lines[i] == "") &&
            k + n < |lines| && lines[k + n] == TR
  {
    ReadDataOk(lines);
    ReadRulesEnd(lines, FindCfg(lines, 0).value, []);
    CfgHeader(lines, 0);
  }

  /** A successful `getDATA` holds one rule per line between `.CFG` and the
      first `.TRANSITIONS` after it, in order. */
  lemma ReadDataRules(lines: seq<string>)
    requires ReadData(lines).Ok?
    ensures FindCfg(lines, 0).Ok?
    ensures var k := FindCfg(lines, 0).value;
            var n := DfaLoader.IndexOf(lines[k..], TR);
            ReadData(lines).value.cfg == seq(n, i requires 0 <= i < n => RuleOf(Words(lines[k + i])))
  {
    ReadDataOk(lines);
    ReadRulesSection(lines, FindCfg(lines, 0).value, []);
  }

  // The loops of `getDATA`, one method per section.

  method SkipToCfg(lines: seq<string>) returns (r: Result<nat>)
    ensures r == FindCfg(lines, 0)
  {
    var k := 0;
    while true
      invariant k <= |lines| && FindCfg(lines, 0) == FindCfg(lines, k)
      decreases |lines| - k
    {
      if k == |lines| {
        return Err(Runtime("Expected " + CFG + ", but found end of input."));
      }
      var s := lines[k];
      if s == CFG {
        return Ok(k + 1);
      }
      if s != "" {
        return Err(Runtime("Expected " + CFG + ", but found: " + s));
      }
      k := k + 1;
    }
  }

  method ReadCfg(lines: seq<string>, k0: nat) returns (r: Result<(seq<Rule>, int)>)
    requires k0 <= |lines|
    ensures r == ReadRules(lines, k0, [])
  {
    var k := k0;
    var cfg: seq<Rule> := [];
    while true
      invariant k <= |lines| && ReadRules(lines, k0, []) == ReadRules(lines, k, cfg)
      decreases |lines| - k
    {
      if k == |lines| {
        return Err(Runtime("Unexpected end of input while reading CFG set: " + TR + "not found."));
      }
      var s := lines[k];
      if s == TR {
        return Ok((cfg, k + 1));
      }
      var rule := ReadRule(s);
      cfg := cfg + [rule];
      k := k + 1;
    }
  }

  method ReadTransitionLines(lines: seq<string>, k0: nat) returns (r: Result<(seq<GotoEntry>, int)>)
    requires k0 <= |lines|
    ensures r == ReadGotos(lines, k0, [])
  {
    var k := k0;
    var transitions: seq<GotoEntry> := [];
    while true
      invariant k <= |lines| && ReadGotos(lines, k0, []) == ReadGotos(lines, k, transitions)
      decreases |lines| - k
    {
      if k == |lines| || lines[k] == RD {
        return Ok((transitions, if k == |lines| then k else k + 1));
      }
      var g := GotoLine(lines[k]);
      if g.Err? {
        return Err(g.error);
      }
      transitions := transitions + [g.value];
      k := k + 1;
    }
  }

  method ReadReductionLines(lines: seq<string>, k0: nat) returns (r: Result<seq<ReduceEntry>>)
    requires k0 <= |lines|
    ensures r == ReadReductions(lines, k0, [])
  {
    var k := k0;
    var reductions: seq<ReduceEntry> := [];
    while k < |lines|
      invariant k <= |lines| && ReadReductions(lines, k0, []) == ReadReductions(lines, k, reductions)
      decreases |lines| - k
    {
      var g := ReduceLine(lines[k]);
      if g.Err? {
        return Err(g.error);
      }
      reductions := reductions + [g.value];
      k := k + 1;
    }
    return Ok(reductions);
  }

  /** `getDATA`: the tables it builds are returned rather than pushed onto
      globals. */
  method GetData(lines: seq<string>) returns (r: Result<Data>)
    ensures r == ReadData(lines)
  {
    var k := SkipToCfg(lines);
    if k.Err? {
      return Err(k.error);
    }
    var rules := ReadCfg(lines, k.value);
    if rules.Err? {
      return Err(rules.error);
    }
    var gotos := ReadTransitionLines(lines, rules.value.1);
    if gotos.Err? {
      return Err(gotos.error);
    }
    var reds := ReadReductionLines(lines, gotos.value.1);
    if reds.Err? {
      return Err(reds.error);
    }
    return Ok(Data(rules.value.0, gotos.value.0, reds.value));
  }
}
