/** The DFA engine of the two scanners (wlp4scanner.cc:86-123 and
    mipsscanner.cc:66-103 are the same class).

    A DFA is a list of `(name, accepting)` states and a list of
    `(from, char, to)` transitions, both kept in insertion order. Lookups scan
    the lists and take the first entry that matches. */
module Automaton {
  import opened Outcomes

  datatype StateEntry = StateEntry(name: string, accepting: bool)
  datatype Transition = Transition(from: string, on: char, to: string)

  /** The value held by a `DFA` object: its two lists and its initial state. */
  datatype Machine = Machine(states: seq<StateEntry>, transitions: seq<Transition>, initial: StateEntry)

  /** What `getNextState` returns when no transition matches. */
  const NoValidState := "novalidstate"

  predicate Declared(states: seq<StateEntry>, q: string)
  {
    exists i :: 0 <= i < |states| && states[i].name == q
  }

  /** Every transition joins two declared states: what `addTransition` keeps. */
  predicate WellFormed(m: Machine)
  {
    forall i :: 0 <= i < |m.transitions| ==>
      Declared(m.states, m.transitions[i].from) && Declared(m.states, m.transitions[i].to)
  }

  /** Entry `i` is the first state named `q`. */
  predicate FirstNamed(states: seq<StateEntry>, q: string, i: int)
  {
    0 <= i < |states| && states[i].name == q &&
    forall j :: 0 <= j < i ==> states[j].name != q
  }

  /** Entry `i` is the first transition out of `q` on `c`. */
  predicate FirstOn(ts: seq<Transition>, q: string, c: char, i: int)
  {
    0 <= i < |ts| && ts[i].from == q && ts[i].on == c &&
    forall j :: 0 <= j < i ==> !(ts[j].from == q && ts[j].on == c)
  }

  /** What `getAccept(q)` returns or throws. */
  function AcceptOf(states: seq<StateEntry>, q: string): Result<bool>
  {
    if |states| == 0 then Err(Runtime("Invalid state!"))
    else if states[0].name == q then Ok(states[0].accepting)
    else AcceptOf(states[1..], q)
  }

  /** The target of the first transition out of `q` on `c`, if any. */
  function FindNext(ts: seq<Transition>, q: string, c: char): Option<string>
  {
    if |ts| == 0 then None
    else if ts[0].from == q && ts[0].on == c then Some(ts[0].to)
    else FindNext(ts[1..], q, c)
  }

  /** What `getNextState(q, c)` returns. */
  function NextStateName(ts: seq<Transition>, q: string, c: char): string
  {
    match FindNext(ts, q, c)
    case Some(t) => t
    case None => NoValidState
  }

  /** `getAccept` answers with the flag of the first state of that name and
      fails exactly when no state has that name. */
  lemma {:induction false} AcceptOfFirst(states: seq<StateEntry>, q: string)
    ensures AcceptOf(states, q).Ok? <==> Declared(states, q)
    ensures AcceptOf(states, q).Err? ==> AcceptOf(states, q).error == Runtime("Invalid state!")
    ensures forall i :: FirstNamed(states, q, i) ==> AcceptOf(states, q) == Ok(states[i].accepting)
  {
    if |states| > 0 && states[0].name != q {
      AcceptOfFirst(states[1..], q);
      forall i | FirstNamed(states, q, i) ensures AcceptOf(states, q) == Ok(states[i].accepting) {
        assert FirstNamed(states[1..], q, i - 1);
      }
      if Declared(states, q) {
        var i :| 0 <= i < |states| && states[i].name == q;
        assert states[1..][i - 1].name == q;
      }
      if Declared(states[1..], q) {
        var i :| 0 <= i < |states[1..]| && states[1..][i].name == q;
        assert states[i + 1].name == q;
      }
    } else if |states| > 0 {
      assert states[0].name == q;
      forall i | FirstNamed(states, q, i) ensures i == 0 { }
    }
  }

  /** `getNextState`'s scan finds the first matching transition, and finds
      none exactly when no transition leaves `q` on `c`. */
  lemma {:induction false} FindNextFirst(ts: seq<Transition>, q: string, c: char)
    ensures FindNext(ts, q, c).None? <==> forall j :: 0 <= j < |ts| ==> !(ts[j].from == q && ts[j].on == c)
    ensures forall i :: FirstOn(ts, q, c, i) ==> FindNext(ts, q, c) == Some(ts[i].to)
    ensures FindNext(ts, q, c).Some? ==> exists i :: FirstOn(ts, q, c, i) && FindNext(ts, q, c) == Some(ts[i].to)
  {
    if |ts| > 0 && !(ts[0].from == q && ts[0].on == c) {
      FindNextFirst(ts[1..], q, c);
      forall i | FirstOn(ts, q, c, i) ensures FindNext(ts, q, c) == Some(ts[i].to) {
        assert FirstOn(ts[1..], q, c, i - 1);
      }
      if FindNext(ts, q, c).Some? {
        var i :| FirstOn(ts[1..], q, c, i) && FindNext(ts[1..], q, c) == Some(ts[1..][i].to);
        assert FirstOn(ts, q, c, i + 1);
      }
      forall j | 0 <= j < |ts[1..]| ensures ts[1..][j] == ts[j + 1] { }
    } else if |ts| > 0 {
      assert FirstOn(ts, q, c, 0);
      forall i | FirstOn(ts, q, c, i) ensures i == 0 { }
    }
  }

  /** The C++ `DFA` object; `Model()` is its value. */
  class DFA {
    var states: seq<StateEntry>
    var transitions: seq<Transition>
    var initial: StateEntry

    function Model(): Machine
      reads this
    {
      Machine(states, transitions, initial)
    }

    /** A default-constructed `DFA`: no states, no transitions, and the
        default `pair<string,bool>` as initial state. */
    constructor ()
      ensures Model() == Machine([], [], StateEntry("", false))
    {
      states := [];
      transitions := [];
      initial := StateEntry("", false);
    }

    method GetAccept(q: string) returns (r: Result<bool>)
      ensures r == AcceptOf(states, q)
      ensures r.Ok? <==> Declared(states, q)
    {
      AcceptOfFirst(states, q);
      for i := 0 to |states|
        invariant forall j :: 0 <= j < i ==> states[j].name != q
      {
        if states[i].name == q {
          assert FirstNamed(states, q, i);
          return Ok(states[i].accepting);
        }
      }
      return Err(Runtime("Invalid state!"));
    }

    method AddState(q: string, accept: bool)
      modifies this
      ensures states == old(states) + [StateEntry(q, accept)]
      ensures transitions == old(transitions) && initial == old(initial)
      ensures WellFormed(old(Model())) ==> WellFormed(Model())
    {
      states := states + [StateEntry(q, accept)];
      assert forall p :: Declared(old(states), p) ==> Declared(states, p) by {
        forall p | Declared(old(states), p) ensures Declared(states, p) {
          var i :| 0 <= i < |old(states)| && old(states)[i].name == p;
          assert states[i].name == p;
        }
      }
    }

    /** Appends one transition if both endpoints are declared, else throws. */
    method AddTransition(s1: string, c: char, s2: string) returns (o: Outcome)
      modifies this
      ensures states == old(states) && initial == old(initial)
      ensures Declared(states, s1) && Declared(states, s2) ==>
                o == Pass && transitions == old(transitions) + [Transition(s1, c, s2)]
      ensures !(Declared(states, s1) && Declared(states, s2)) ==>
                o == Fail(Runtime("Invalid state!")) && transitions == old(transitions)
      ensures WellFormed(old(Model())) ==> WellFormed(Model())
    {
      var check1 := false;
      var check2 := false;
      for i := 0 to |states|
        invariant check1 <==> exists j :: 0 <= j < i && states[j].name == s1
        invariant check2 <==> exists j :: 0 <= j < i && states[j].name == s2
      {
        if states[i].name == s1 { check1 := true; }
        if states[i].name == s2 { check2 := true; }
      }
      if !(check1 && check2) {
        return Fail(Runtime("Invalid state!"));
      }
      transitions := transitions + [Transition(s1, c, s2)];
      o := Pass;
    }

    method GetNextState(q: string, c: char) returns (r: string)
      ensures r == NextStateName(transitions, q, c)
    {
      FindNextFirst(transitions, q, c);
      for i := 0 to |transitions|
        invariant forall j :: 0 <= j < i ==> !(transitions[j].from == q && transitions[j].on == c)
      {
        if transitions[i].from == q && transitions[i].on == c {
          assert FirstOn(transitions, q, c, i);
          return transitions[i].to;
        }
      }
      return NoValidState;
    }
  }
}
