/** The shift-reduce parser (wlp4parser.cc:150-256).

    The parser keeps a stack of LR states, starting from state 0, and a
    stack of trees. For each input token it first applies every reduction
    the table gives for the top state and the token's kind: the rule's
    right-hand side is folded into one node on the tree stack, that many
    states are popped, and the goto of the uncovered state on the rule's
    left-hand side is pushed. Then it shifts the token. After shifting
    `EOF` it folds the tree stack once more by rule 0 and stops. The
    program then prints the bottom tree. */
module ShiftReduce {
  import opened Outcomes
  import opened Text
  import opened Restrict
  import opened ParseTables
  import opened ParseTree

  /** The two global stacks. */
  datatype Stacks = Stacks(states: seq<int>, trees: seq<Tree>)

  const Start := Stacks([0], [])
  const BOF := Token("BOF", "BOF")
  const EOF := Token("EOF", "EOF")

  function EmptyStack(): Error
  {
    Unmodelled("the top of an empty state stack")
  }

  function OutOfFuel(): Error
  {
    Unmodelled("a reduction loop running past the fuel bound")
  }

  function BadRule(): Error
  {
    Unmodelled("a reduction naming a rule outside the grammar")
  }

  function NoStartRule(): Error
  {
    Unmodelled("rule 0 of an empty grammar")
  }

  function NoTree(): Error
  {
    Unmodelled("the bottom of an empty tree stack")
  }

  /** One state more than trees: the shape every complete step keeps. */
  predicate Lockstep(st: Stacks)
  {
    |st.states| == |st.trees| + 1
  }

  /** The errors that the stack discipline rules out. */
  predicate StackError(e: Error)
  {
    e == Runtime("Invalid state stack") || e == EmptyStack() || e == NoTree()
  }

  /** `reducetrees`: the top `|rhs|` trees, in order, become the children of
      one new node. */
  function ReduceTreesF(trees: seq<Tree>, r: Rule): Result<seq<Tree>>
  {
    var index := |trees| - |r.rhs|;
    if index < 0 then Err(Runtime("Invalid tree stack"))
    else Ok(trees[..index] + [Node(r.lhs, r.rhs, trees[index..])])
  }

  /** `reducestates`: pop `|rhs|` states and push the goto on the left-hand
      side from the state uncovered. */
  function ReduceStatesF(ts: seq<GotoEntry>, states: seq<int>, r: Rule): Result<seq<int>>
  {
    if |r.rhs| > |states| then Err(Runtime("Invalid state stack"))
    else
      var popped := states[..|states| - |r.rhs|];
      if |popped| == 0 then Err(EmptyStack())
      else match TransitionOf(ts, popped[|popped| - 1], r.lhs)
        case None => Err(Runtime("No transition"))
        case Some(n) => Ok(popped + [n])
  }

  /** `shift`: push a leaf for the token and the goto on its kind. */
  function ShiftF(ts: seq<GotoEntry>, st: Stacks, tok: Token): Result<Stacks>
  {
    if |st.states| == 0 then Err(EmptyStack())
    else match TransitionOf(ts, st.states[|st.states| - 1], tok.kind)
      case None => Err(Runtime("No transition"))
      case Some(n) => Ok(Stacks(st.states + [n], st.trees + [Leaf(tok)]))
  }

  /** One reduction by rule number `rule`: trees first, then states. */
  function Reduce(d: Data, st: Stacks, rule: int): Result<Stacks>
  {
    if !(0 <= rule < |d.cfg|) then Err(BadRule())
    else
      match ReduceTreesF(st.trees, d.cfg[rule])
      case Err(e) => Err(e)
      case Ok(trees) =>
        match ReduceStatesF(d.transitions, st.states, d.cfg[rule])
        case Err(e) => Err(e)
        case Ok(states) => Ok(Stacks(states, trees))
  }

  /** The inner loop of `beginparse`: reduce while the table has a reduction
      for the top state and the token kind, at most `fuel` times. */
  function ReduceLoop(d: Data, st: Stacks, kind: string, fuel: nat): Result<Stacks>
    decreases fuel
  {
    if |st.states| == 0 then Err(EmptyStack())
    else match ReductionOf(d.reductions, st.states[|st.states| - 1], kind)
      case None => Ok(st)
      case Some(rule) =>
        if fuel == 0 then Err(OutOfFuel())
        else
          match Reduce(d, st, rule)
          case Err(e) => Err(e)
          case Ok(next) => ReduceLoop(d, next, kind, fuel - 1)
  }

  lemma ReduceLoopStep(d: Data, st: Stacks, kind: string, fuel: nat, rule: int)
    requires |st.states| > 0 && fuel > 0
    requires ReductionOf(d.reductions, st.states[|st.states| - 1], kind) == Some(rule)
    ensures ReduceLoop(d, st, kind, fuel) ==
            match Reduce(d, st, rule)
            case Ok(next) => ReduceLoop(d, next, kind, fuel - 1)
            case Err(e) => Err(e)
  {
  }

  /** A reduction that succeeds leaves a state on the stack. */
  lemma ReduceKeepsState(d: Data, st: Stacks, rule: int)
    ensures Reduce(d, st, rule).Ok? ==> |Reduce(d, st, rule).value.states| > 0
  {
  }

  /** Out of fuel where a reduction is due. */
  lemma ReduceLoopEmpty(d: Data, st: Stacks, kind: string, rule: int)
    requires |st.states| > 0
    requires ReductionOf(d.reductions, st.states[|st.states| - 1], kind) == Some(rule)
    ensures ReduceLoop(d, st, kind, 0) == Err(OutOfFuel())
  {
  }

  /** The loop stops where the table has no reduction. */
  lemma ReduceLoopDone(d: Data, st: Stacks, kind: string, fuel: nat)
    requires |st.states| > 0
    requires ReductionOf(d.reductions, st.states[|st.states| - 1], kind).None?
    ensures ReduceLoop(d, st, kind, fuel) == Ok(st)
  {
  }

  /** The reduction loop read through `getReduction`'s raw answer: `INT_MIN`
      stops it, and any other answer is the rule reduced next. */
  lemma ReduceLoopRaw(d: Data, st: Stacks, kind: string, fuel: nat, raw: int)
    requires |st.states| > 0
    requires raw == Raw(ReductionOf(d.reductions, st.states[|st.states| - 1], kind))
    ensures raw == IntMin ==> ReduceLoop(d, st, kind, fuel) == Ok(st)
    ensures raw != IntMin && fuel == 0 ==> ReduceLoop(d, st, kind, fuel) == Err(OutOfFuel())
    ensures raw != IntMin && fuel > 0 ==>
              ReduceLoop(d, st, kind, fuel) ==
                match Reduce(d, st, raw)
                case Ok(next) => ReduceLoop(d, next, kind, fuel - 1)
                case Err(e) => Err(e)
  {
    ReductionRaw(d.reductions, st.states[|st.states| - 1], kind);
    if raw == IntMin {
      ReduceLoopDone(d, st, kind, fuel);
    } else if fuel == 0 {
      ReduceLoopEmpty(d, st, kind, raw);
    } else {
      ReduceLoopStep(d, st, kind, fuel, raw);
    }
  }

  /** The outer loop of `beginparse` over the remaining input. */
  function ParseFrom(d: Data, st: Stacks, input: seq<Token>, fuel: nat): Result<Stacks>
    decreases |input|
  {
    if |input| == 0 then Ok(st)
    else
      match Advance(d, st, input[0], fuel)
      case Err(e) => Err(e)
      case Ok(shifted) =>
        if input[0].kind == "EOF" then Finish(d, shifted)
        else ParseFrom(d, shifted, input[1..], fuel)
  }

  /** One token: reduce while the table says so, then shift the token. */
  function Advance(d: Data, st: Stacks, tok: Token, fuel: nat): Result<Stacks>
  {
    match ReduceLoop(d, st, tok.kind, fuel)
    case Err(e) => Err(e)
    case Ok(reduced) => ShiftF(d.transitions, reduced, tok)
  }

  /** After `EOF` is shifted: the trees are reduced by the start rule
      `cfg[0]`, and the states are left as they are. */
  function Finish(d: Data, st: Stacks): Result<Stacks>
  {
    if |d.cfg| == 0 then Err(NoStartRule())
    else
      match ReduceTreesF(st.trees, d.cfg[0])
      case Err(e) => Err(e)
      case Ok(trees) => Ok(Stacks(st.states, trees))
  }

  /** `beginparse` from the initial stacks, then `treestack[0]->print()`. */
  function Parse(d: Data, input: seq<Token>, fuel: nat): Result<seq<string>>
  {
    match ParseFrom(d, Start, input, fuel)
    case Err(e) => Err(e)
    case Ok(st) => if |st.trees| == 0 then Err(NoTree()) else Ok(Render(st.trees[0]))
  }

  // ---------------------------------------------------------------------
  // `getINPUT`

  /** Tokens of the remaining lines. `ss >> kind >> lexeme` leaves a string
      unchanged when there is no word left for it, so a blank line repeats
      the previous token and a one-word line keeps the previous lexeme. */
  function InputFrom(lines: seq<string>, kind: string, lexeme: string): seq<Token>
    decreases |lines|
  {
    if |lines| == 0 then [EOF]
    else
      var ws := Words(lines[0]);
      var k := if |ws| >= 1 then ws[0] else kind;
      var l := if |ws| >= 2 then ws[1] else lexeme;
      [Token(k, l)] + InputFrom(lines[1..], k, l)
  }

  /** The `Input` list: `BOF`, one token per line, `EOF`. */
  function ReadInput(lines: seq<string>): seq<Token>
  {
    [BOF] + InputFrom(lines, "", "")
  }

  lemma {:induction false} InputFromShape(lines: seq<string>, kind: string, lexeme: string)
    ensures var t := InputFrom(lines, kind, lexeme);
            |t| == |lines| + 1 && t[|lines|] == EOF &&
            forall i :: 0 <= i < |lines| && |Words(lines[i])| >= 2 ==>
              t[i] == Token(Words(lines[i])[0], Words(lines[i])[1])
    decreases |lines|
  {
    if |lines| > 0 {
      var ws := Words(lines[0]);
      var k := if |ws| >= 1 then ws[0] else kind;
      var l := if |ws| >= 2 then ws[1] else lexeme;
      InputFromShape(lines[1..], k, l);
      var t := InputFrom(lines, kind, lexeme);
      forall i | 1 <= i < |lines| && |Words(lines[i])| >= 2
        ensures t[i] == Token(Words(lines[i])[0], Words(lines[i])[1])
      {
        assert lines[1..][i - 1] == lines[i];
      }
    }
  }

  /** `getINPUT` yields `BOF`, a token per line and `EOF`; a line of at
      least two words yields its first two words. */
  lemma ReadInputShape(lines: seq<string>)
    ensures var t := ReadInput(lines);
            |t| == |lines| + 2 && t[0] == BOF && t[|lines| + 1] == EOF &&
            forall i :: 0 <= i < |lines| && |Words(lines[i])| >= 2 ==>
              t[i + 1] == Token(Words(lines[i])[0], Words(lines[i])[1])
  {
    InputFromShape(lines, "", "");
  }

  method GetInput(lines: seq<string>) returns (input: seq<Token>)
    ensures input == ReadInput(lines)
  {
    input := [BOF];
    var kind := "";
    var lexeme := "";
    for i := 0 to |lines|
      invariant ReadInput(lines) == input + InputFrom(lines[i..], kind, lexeme)
    {
      assert lines[i..][0] == lines[i] && lines[i..][1..] == lines[i + 1..];
      var ws := SplitWords(lines[i]);
      if |ws| >= 1 {
        kind := ws[0];
        if |ws| >= 2 {
          lexeme := ws[1];
        }
      }
      input := input + [Token(kind, lexeme)];
    }
    assert lines[|lines|..] == [];
    input := input + [EOF];
  }

  // ---------------------------------------------------------------------
  // The global state and its operations

  class Parser {
    const cfg: seq<Rule>
    const dfa: DFA
    var states: seq<int>
    var treestack: seq<Tree>

    function Tables(): Data
      reads dfa
    {
      Data(cfg, dfa.transitions, dfa.reductions)
    }

    function Stack(): Stacks
      reads this
    {
      Stacks(states, treestack)
    }

    /** The globals after `states.push_back(0)` and `getDATA`. */
    constructor (cfg: seq<Rule>, dfa: DFA)
      ensures this.cfg == cfg && this.dfa == dfa
      ensures Stack() == Start
    {
      this.cfg := cfg;
      this.dfa := dfa;
      states := [0];
      treestack := [];
    }

    method ReduceStates(r: Rule) returns (o: Outcome)
      modifies this
      ensures treestack == old(treestack)
      ensures match ReduceStatesF(dfa.transitions, old(states), r)
              case Ok(s) => o == Pass && states == s
              case Err(e) => o == Fail(e)
    {
      var len := |r.rhs|;
      if len > |states| {
        return Fail(Runtime("Invalid state stack"));
      }
      for i := 0 to len
        invariant states == old(states)[..|old(states)| - i]
        invariant treestack == old(treestack)
      {
        states := states[..|states| - 1];
      }
      if |states| == 0 {
        return Fail(EmptyStack());
      }
      var n := dfa.GetTransition(states[|states| - 1], r.lhs);
      if n != IntMin {
        states := states + [n];
        return Pass;
      }
      return Fail(Runtime("No transition"));
    }

    method ReduceTrees(r: Rule) returns (o: Outcome)
      modifies this
      ensures states == old(states)
      ensures match ReduceTreesF(old(treestack), r)
              case Ok(t) => o == Pass && treestack == t
              case Err(e) => o == Fail(e) && treestack == old(treestack)
    {
      var len := |r.rhs|;
      var index := |treestack| - len;
      if index < 0 {
        return Fail(Runtime("Invalid tree stack"));
      }
      var children: seq<Tree> := [];
      for i := 0 to len
        invariant children == treestack[index..index + i]
      {
        children := children + [treestack[index + i]];
      }
      for i := 0 to len
        invariant treestack == old(treestack)[..|old(treestack)| - i]
        invariant states == old(states)
      {
        treestack := treestack[..|treestack| - 1];
      }
      treestack := treestack + [Node(r.lhs, r.rhs, children)];
      return Pass;
    }

    /** The leaf is pushed before the goto is looked up, so it stays on the
        tree stack when the shift fails. */
    method Shift(t: Token) returns (o: Outcome)
      modifies this
      ensures treestack == old(treestack) + [Leaf(t)]
      ensures match ShiftF(dfa.transitions, old(Stack()), t)
              case Ok(st) => o == Pass && states == st.states
              case Err(e) => o == Fail(e) && states == old(states)
    {
      treestack := treestack + [Leaf(t)];
      if |states| == 0 {
        return Fail(EmptyStack());
      }
      var n := dfa.GetTransition(states[|states| - 1], t.kind);
      if n != IntMin {
        states := states + [n];
        return Pass;
      }
      return Fail(Runtime("No transition"));
    }

    /** One pass of the reduction loop's body. */
    method ReduceBy(rule: int) returns (o: Outcome)
      modifies this
      ensures match Reduce(Tables(), old(Stack()), rule)
              case Ok(st) => o == Pass && Stack() == st
              case Err(e) => o == Fail(e)
    {
      if !(0 <= rule < |cfg|) {
        return Fail(BadRule());
      }
      o := ReduceTrees(cfg[rule]);
      if o.Fail? {
        return;
      }
      o := ReduceStates(cfg[rule]);
    }

    /** One pass of the reduction loop: reduce, then look up the next rule. */
    method ReduceNext(kind: string, rule: int) returns (o: Outcome, next: int)
      modifies this
      ensures match Reduce(Tables(), old(Stack()), rule)
              case Ok(st) => o == Pass && Stack() == st && |states| > 0 &&
                             next == Raw(ReductionOf(dfa.reductions, states[|states| - 1], kind))
              case Err(e) => o == Fail(e)
    {
      ReduceKeepsState(Tables(), Stack(), rule);
      next := IntMin;
      o := ReduceBy(rule);
      if o.Pass? {
        next := dfa.GetReduction(states[|states| - 1], kind);
      }
    }

    /** The reduction loop for one token. */
    method ReduceAll(kind: string, fuel: nat) returns (o: Outcome)
      modifies this
      ensures match ReduceLoop(Tables(), old(Stack()), kind, fuel)
              case Ok(st) => o == Pass && Stack() == st
              case Err(e) => o == Fail(e)
    {
      ghost var d := Tables();
      ghost var goal := ReduceLoop(d, Stack(), kind, fuel);
      if |states| == 0 {
        return Fail(EmptyStack());
      }
      var newrule := dfa.GetReduction(states[|states| - 1], kind);
      var f := fuel;
      while newrule != IntMin
        invariant Tables() == d
        invariant |states| > 0
        invariant newrule == Raw(ReductionOf(d.reductions, states[|states| - 1], kind))
        invariant goal == ReduceLoop(d, Stack(), kind, f)
        decreases f
      {
        ReduceLoopRaw(d, Stack(), kind, f, newrule);
        if f == 0 {
          return Fail(OutOfFuel());
        }
        o, newrule := ReduceNext(kind, newrule);
        if o.Fail? {
          return;
        }
        f := f - 1;
      }
      ReduceLoopRaw(d, Stack(), kind, f, newrule);
      return Pass;
    }

    /** `beginparse`. */
    method BeginParse(input: seq<Token>, fuel: nat) returns (o: Outcome)
      modifies this
      ensures match ParseFrom(Tables(), old(Stack()), input, fuel)
              case Ok(st) => o == Pass && Stack() == st
              case Err(e) => o == Fail(e)
    {
      var k := 0;
      while k < |input|
        invariant 0 <= k <= |input|
        invariant ParseFrom(Tables(), old(Stack()), input, fuel) == ParseFrom(Tables(), Stack(), input[k..], fuel)
      {
        var i := input[k];
        assert input[k..][0] == i && input[k..][1..] == input[k + 1..];
        o := ReduceAll(i.kind, fuel);
        if o.Fail? {
          return;
        }
        o := Shift(i);
        if o.Fail? {
          return;
        }
        if i.kind == "EOF" {
          if |cfg| == 0 {
            return Fail(NoStartRule());
          }
          o := ReduceTrees(cfg[0]);
          return;
        }
        k := k + 1;
      }
      return Pass;
    }
  }

  /** Everything `main` does: read the tables, read the tokens, parse, and
      print the bottom tree, or the error it reports. */
  function Program(data: seq<string>, lines: seq<string>, fuel: nat): Result<seq<string>>
  {
    match ReadData(data)
    case Err(e) => Err(e)
    case Ok(d) => Parse(d, ReadInput(lines), fuel)
  }

  method RunParser(data: seq<string>, lines: seq<string>, fuel: nat) returns (r: Result<seq<string>>)
    ensures r == Program(data, lines, fuel)
  {
    var d := GetData(data);
    if d.Err? {
      return Err(d.error);
    }
    var dfa := new DFA(d.value);
    var p := new Parser(d.value.cfg, dfa);
    var input := GetInput(lines);
    var o := p.BeginParse(input, fuel);
    if o.Fail? {
      return Err(o.error);
    }
    if |p.treestack| == 0 {
      return Err(NoTree());
    }
    var out := Print(p.treestack[0]);
    return Ok(out);
  }

  // ---------------------------------------------------------------------
  // Properties

  /** The input up to and including the first `EOF`: what `beginparse`
      shifts. */
  function Consumed(input: seq<Token>): seq<Token>
  {
    if |input| == 0 then []
    else if input[0].kind == "EOF" then [input[0]]
    else [input[0]] + Consumed(input[1..])
  }

  predicate HasEof(input: seq<Token>)
  {
    exists i :: 0 <= i < |input| && input[i].kind == "EOF"
  }

  lemma HasEofCons(input: seq<Token>)
    requires |input| > 0
    ensures HasEof(input) <==> input[0].kind == "EOF" || HasEof(input[1..])
  {
    if HasEof(input) && input[0].kind != "EOF" {
      var i :| 0 <= i < |input| && input[i].kind == "EOF";
      assert input[1..][i - 1] == input[i];
    }
    if HasEof(input[1..]) {
      var i :| 0 <= i < |input[1..]| && input[1..][i].kind == "EOF";
      assert input[i + 1] == input[1..][i];
    }
  }

  /** Folding the top of the tree stack into a node keeps the leaves in
      order and leaves at least one tree. */
  lemma FoldFrontier(trees: seq<Tree>, r: Rule)
    ensures var t := ReduceTreesF(trees, r);
            t.Ok? ==> |t.value| == |trees| - |r.rhs| + 1 && FrontierAll(t.value) == FrontierAll(trees)
  {
    var index := |trees| - |r.rhs|;
    if index >= 0 {
      var pre := trees[..index];
      var suf := trees[index..];
      var node := Node(r.lhs, r.rhs, suf);
      assert trees == pre + suf;
      FrontierAllAppend(pre, [node]);
      FrontierAllAppend(pre, suf);
      assert FrontierAll([node]) == Frontier(node) + FrontierAll([]);
    }
  }

  /** A reduction keeps the stacks in lockstep, keeps the tokens at the
      leaves, and never finds the state stack too short. */
  lemma ReduceSafe(d: Data, st: Stacks, rule: int)
    requires Lockstep(st)
    ensures var r := Reduce(d, st, rule);
            (r.Err? ==> !StackError(r.error)) &&
            (r.Ok? ==> Lockstep(r.value) && FrontierAll(r.value.trees) == FrontierAll(st.trees))
  {
    if 0 <= rule < |d.cfg| {
      FoldFrontier(st.trees, d.cfg[rule]);
    }
  }

  /** A shift keeps the stacks in lockstep, adds its token at the right of
      the leaves, and can fail only for want of a transition. */
  lemma ShiftSafe(ts: seq<GotoEntry>, st: Stacks, tok: Token)
    requires Lockstep(st)
    ensures var r := ShiftF(ts, st, tok);
            (r.Err? ==> r.error == Runtime("No transition")) &&
            (r.Ok? ==> Lockstep(r.value) && FrontierAll(r.value.trees) == FrontierAll(st.trees) + [tok])
  {
    FrontierAllAppend(st.trees, [Leaf(tok)]);
    assert FrontierAll([Leaf(tok)]) == [tok] + FrontierAll([]);
  }

  /** The reduction loop keeps the stacks in lockstep and never finds the
      state stack short or empty. */
  lemma {:induction false} ReduceLoopSafe(d: Data, st: Stacks, kind: string, fuel: nat)
    requires Lockstep(st)
    ensures var r := ReduceLoop(d, st, kind, fuel);
            (r.Err? ==> !StackError(r.error)) && (r.Ok? ==> Lockstep(r.value))
    decreases fuel
  {
    match ReductionOf(d.reductions, st.states[|st.states| - 1], kind)
    case None =>
      ReduceLoopDone(d, st, kind, fuel);
    case Some(rule) =>
      if fuel == 0 {
        ReduceLoopEmpty(d, st, kind, rule);
      } else {
        ReduceLoopStep(d, st, kind, fuel, rule);
        ReduceSafe(d, st, rule);
        var next := Reduce(d, st, rule);
        if next.Ok? {
          ReduceLoopSafe(d, next.value, kind, fuel - 1);
        }
      }
  }

  /** When the reduction loop succeeds it has kept the leaves as they
      were. */
  lemma {:induction false} ReduceLoopLeaves(d: Data, st: Stacks, kind: string, fuel: nat)
    requires Lockstep(st)
    ensures var r := ReduceLoop(d, st, kind, fuel);
            r.Ok? ==> FrontierAll(r.value.trees) == FrontierAll(st.trees)
    decreases fuel
  {
    match ReductionOf(d.reductions, st.states[|st.states| - 1], kind)
    case None =>
      ReduceLoopDone(d, st, kind, fuel);
    case Some(rule) =>
      if fuel > 0 {
        ReduceLoopStep(d, st, kind, fuel, rule);
        ReduceSafe(d, st, rule);
        var next := Reduce(d, st, rule);
        if next.Ok? {
          ReduceLoopLeaves(d, next.value, kind, fuel - 1);
        }
      }
  }

  /** The reduction loop stops only where the table has no reduction for
      the top state and the token kind. */
  lemma {:induction false} ReduceLoopStops(d: Data, st: Stacks, kind: string, fuel: nat)
    requires |st.states| > 0
    ensures var r := ReduceLoop(d, st, kind, fuel);
            r.Ok? ==> |r.value.states| > 0 &&
                      ReductionOf(d.reductions, r.value.states[|r.value.states| - 1], kind).None?
    decreases fuel
  {
    match ReductionOf(d.reductions, st.states[|st.states| - 1], kind)
    case None =>
      ReduceLoopDone(d, st, kind, fuel);
    case Some(rule) =>
      if fuel > 0 {
        ReduceLoopStep(d, st, kind, fuel, rule);
        ReduceKeepsState(d, st, rule);
        var next := Reduce(d, st, rule);
        if next.Ok? {
          ReduceLoopStops(d, next.value, kind, fuel - 1);
        }
      }
  }

  /** One token keeps the stacks in lockstep and adds the token at the right
      of the leaves. */
  lemma AdvanceSafe(d: Data, st: Stacks, tok: Token, fuel: nat)
    requires Lockstep(st)
    ensures var r := Advance(d, st, tok, fuel);
            (r.Err? ==> !StackError(r.error)) &&
            (r.Ok? ==> Lockstep(r.value) && FrontierAll(r.value.trees) == FrontierAll(st.trees) + [tok])
  {
    ReduceLoopSafe(d, st, tok.kind, fuel);
    ReduceLoopLeaves(d, st, tok.kind, fuel);
    var reduced := ReduceLoop(d, st, tok.kind, fuel);
    if reduced.Ok? {
      ShiftSafe(d.transitions, reduced.value, tok);
    }
  }

  /** The final reduction by the start rule keeps the leaves and leaves at
      least one tree. */
  lemma FinishSafe(d: Data, st: Stacks)
    ensures var r := Finish(d, st);
            (r.Err? ==> !StackError(r.error)) &&
            (r.Ok? ==> FrontierAll(r.value.trees) == FrontierAll(st.trees) && |r.value.trees| > 0)
  {
    if |d.cfg| > 0 {
      FoldFrontier(st.trees, d.cfg[0]);
    }
  }

  /** Parsing from stacks in lockstep never meets a short or empty state
      stack. */
  lemma {:induction false} ParseFromSafe(d: Data, st: Stacks, input: seq<Token>, fuel: nat)
    requires Lockstep(st)
    ensures ParseFrom(d, st, input, fuel).Err? ==> !StackError(ParseFrom(d, st, input, fuel).error)
    decreases |input|
  {
    if |input| > 0 {
      var tok := input[0];
      AdvanceSafe(d, st, tok, fuel);
      var shifted := Advance(d, st, tok, fuel);
      if shifted.Ok? {
        if tok.kind == "EOF" {
          FinishSafe(d, shifted.value);
        } else {
          ParseFromSafe(d, shifted.value, input[1..], fuel);
        }
      }
    }
  }

  /** When parsing from stacks in lockstep succeeds, the leaves gain exactly
      the tokens up to the first `EOF`; after `EOF` the tree stack is not
      empty, and before it the stacks stay in lockstep. */
  lemma {:induction false} ParseFromLeaves(d: Data, st: Stacks, input: seq<Token>, fuel: nat)
    requires Lockstep(st)
    ensures var r := ParseFrom(d, st, input, fuel);
            r.Ok? ==> FrontierAll(r.value.trees) == FrontierAll(st.trees) + Consumed(input) &&
                      (HasEof(input) ==> |r.value.trees| > 0) &&
                      (!HasEof(input) ==> Lockstep(r.value))
    decreases |input|
  {
    if |input| > 0 {
      var tok := input[0];
      HasEofCons(input);
      AdvanceSafe(d, st, tok, fuel);
      var shifted := Advance(d, st, tok, fuel);
      if shifted.Ok? {
        if tok.kind == "EOF" {
          assert Consumed(input) == [tok];
          FinishSafe(d, shifted.value);
        } else {
          assert Consumed(input) == [tok] + Consumed(input[1..]);
          ParseFromLeaves(d, shifted.value, input[1..], fuel);
        }
      }
    } else {
      assert !HasEof(input);
    }
  }

  /** From the initial stacks: the state stack is never found short, and on
      success the leaves of the tree stack are the consumed tokens in input
      order; when a single tree remains, its leaves are those tokens and the
      output is its preorder listing. */
  lemma Accepted(d: Data, input: seq<Token>, fuel: nat)
    ensures var r := ParseFrom(d, Start, input, fuel);
            (r.Err? ==> !StackError(r.error)) &&
            (r.Ok? ==> FrontierAll(r.value.trees) == Consumed(input)) &&
            (r.Ok? && |r.value.trees| == 1 ==>
               Frontier(r.value.trees[0]) == Consumed(input) &&
               Parse(d, input, fuel) == Ok(Render(r.value.trees[0])))
    ensures HasEof(input) && Parse(d, input, fuel).Err? ==> !StackError(Parse(d, input, fuel).error)
  {
    ParseFromSafe(d, Start, input, fuel);
    ParseFromLeaves(d, Start, input, fuel);
    var r := ParseFrom(d, Start, input, fuel);
    if r.Ok? && |r.value.trees| == 1 {
      assert FrontierAll(r.value.trees) == Frontier(r.value.trees[0]) + FrontierAll(r.value.trees[1..]);
    }
    if r.Ok? {
      assert Parse(d, input, fuel) == if |r.value.trees| == 0 then Err(NoTree()) else Ok(Render(r.value.trees[0]));
    } else {
      assert Parse(d, input, fuel) == Err(r.error);
    }
  }

  lemma {:induction false} ConsumedEof(input: seq<Token>)
    requires HasEof(input)
    ensures |Consumed(input)| > 0 && Consumed(input)[|Consumed(input)| - 1].kind == "EOF"
    ensures forall i :: 0 <= i < |Consumed(input)| - 1 ==> Consumed(input)[i].kind != "EOF"
  {
    HasEofCons(input);
    if input[0].kind == "EOF" {
      assert Consumed(input) == [input[0]];
    } else {
      ConsumedEof(input[1..]);
      var c, c' := Consumed(input), Consumed(input[1..]);
      assert c == [input[0]] + c';
      assert c[|c| - 1] == c'[|c'| - 1];
      forall i | 0 <= i < |c| - 1 ensures c[i].kind != "EOF" {
        if i > 0 { assert c[i] == c'[i - 1]; }
      }
    }
  }

  /** Once the tables are read, the program never reports a short state
      stack, an empty state stack or an empty tree stack, and when parsing
      succeeds the leaves of all the trees left start with `BOF` and end
      with the first `EOF` token. */
  lemma ProgramSafe(data: seq<string>, lines: seq<string>, fuel: nat)
    ensures var r := Program(data, lines, fuel);
            ReadData(data).Ok? && r.Err? ==> !StackError(r.error)
    ensures var d := ReadData(data);
            d.Ok? ==> var p := ParseFrom(d.value, Start, ReadInput(lines), fuel);
                      p.Ok? ==> var f := FrontierAll(p.value.trees);
                                |f| >= 2 && f[0] == BOF && f[|f| - 1].kind == "EOF" &&
                                forall i :: 0 <= i < |f| - 1 ==> f[i].kind != "EOF"
  {
    var input := ReadInput(lines);
    ReadInputShape(lines);
    assert input[|lines| + 1].kind == "EOF";
    assert HasEof(input);
    ConsumedEof(input);
    var d := ReadData(data);
    if d.Ok? {
      assert Program(data, lines, fuel) == Parse(d.value, input, fuel);
      Accepted(d.value, input, fuel);
      assert input[0].kind != "EOF";
      assert Consumed(input) == [BOF] + Consumed(input[1..]);
      HasEofCons(input);
      ConsumedEof(input[1..]);
    }
  }
}
