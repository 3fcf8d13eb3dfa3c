/** Parse trees and their printed form (wlp4parser.cc:26-50, 166-173).

    A leaf holds the token it was shifted for; an inner node holds the rule
    it was reduced by and its children, left to right. `Tree::print` writes
    a node's pair `first second`, with `.EMPTY` in place of an empty second,
    and then its children in order: a preorder listing. */
module ParseTree {
  import opened Outcomes
  import opened Text
  import opened ParseTables

  datatype Tree = Leaf(token: Token) | Node(lhs: string, rhs: seq<string>, children: seq<Tree>)

  /** `RHScreate`: every right-hand side symbol followed by one space. */
  function RhsText(rhs: seq<string>): string
  {
    if |rhs| == 0 then "" else rhs[0] + " " + RhsText(rhs[1..])
  }

  lemma {:induction false} RhsTextSnoc(rhs: seq<string>, w: string)
    ensures RhsText(rhs + [w]) == RhsText(rhs) + w + " "
  {
    if |rhs| > 0 {
      assert (rhs + [w])[1..] == rhs[1..] + [w];
      RhsTextSnoc(rhs[1..], w);
    }
  }

  method RHSCreate(r: Rule) returns (s: string)
    ensures s == RhsText(r.rhs)
  {
    s := "";
    for i := 0 to |r.rhs|
      invariant s == RhsText(r.rhs[..i])
    {
      assert r.rhs[..i + 1] == r.rhs[..i] + [r.rhs[i]];
      RhsTextSnoc(r.rhs[..i], r.rhs[i]);
      s := s + r.rhs[i];
      s := s + " ";
    }
    assert r.rhs[..|r.rhs|] == r.rhs;
  }

  /** `Words(" " + t)` skips the space. */
  lemma WordsSpace(t: string)
    ensures Words(" " + t) == Words(t)
  {
    assert (" " + t)[1..] == t;
  }

  /** A word, a space and more text split into that word and the rest. */
  lemma WordsCons(w: string, t: string)
    requires IsWord(w)
    ensures Words(w + " " + t) == [w] + Words(t)
  {
    var s := w + " " + t;
    WordLengthIs(s, |w|);
    assert s[..|w|] == w;
    assert s[|w|..] == " " + t;
    WordsSpace(t);
  }

  /** The text `RHScreate` builds splits back into the right-hand side, and is
      empty exactly for an empty right-hand side. */
  lemma {:induction false} RhsTextWords(rhs: seq<string>)
    requires AllWords(rhs)
    ensures Words(RhsText(rhs)) == rhs
    ensures RhsText(rhs) == "" <==> rhs == []
  {
    if |rhs| > 0 {
      assert AllWords(rhs[1..]) by {
        forall i | 0 <= i < |rhs[1..]| ensures IsWord(rhs[1..][i]) { assert rhs[1..][i] == rhs[i + 1]; }
      }
      RhsTextWords(rhs[1..]);
      WordsCons(rhs[0], RhsText(rhs[1..]));
    }
  }

  /** The pair a tree node holds: a leaf's token, or a rule's left-hand side
      and its `RHScreate` text. */
  function Pair(t: Tree): (string, string)
  {
    match t
    case Leaf(tok) => (tok.kind, tok.lexeme)
    case Node(lhs, rhs, _) => (lhs, RhsText(rhs))
  }

  /** The line `print` writes for a node. */
  function Line(t: Tree): string
  {
    var p := Pair(t);
    p.0 + " " + (if p.1 == "" then EMPTY else p.1)
  }

  /** The lines `print` writes for a tree: root first, then each child's
      lines, left to right. */
  function Render(t: Tree): seq<string>
    decreases t
  {
    match t
    case Leaf(_) => [Line(t)]
    case Node(_, _, children) => [Line(t)] + RenderAll(children)
  }

  function RenderAll(ts: seq<Tree>): seq<string>
    decreases ts
  {
    if |ts| == 0 then [] else Render(ts[0]) + RenderAll(ts[1..])
  }

  lemma {:induction false} RenderAllSnoc(ts: seq<Tree>, t: Tree)
    ensures RenderAll(ts + [t]) == RenderAll(ts) + Render(t)
  {
    if |ts| > 0 {
      assert (ts + [t])[1..] == ts[1..] + [t];
      RenderAllSnoc(ts[1..], t);
    }
  }

  /** `Tree::print`. */
  method Print(t: Tree) returns (out: seq<string>)
    ensures out == Render(t)
    decreases t
  {
    out := [Line(t)];
    if t.Node? {
      for i := 0 to |t.children|
        invariant out == [Line(t)] + RenderAll(t.children[..i])
      {
        assert t.children[i] in t.children;
        var sub := Print(t.children[i]);
        assert t.children[..i + 1] == t.children[..i] + [t.children[i]];
        RenderAllSnoc(t.children[..i], t.children[i]);
        out := out + sub;
      }
      assert t.children[..|t.children|] == t.children;
    }
  }

  /** The number of nodes of a tree. */
  function Size(t: Tree): nat
    decreases t
  {
    match t
    case Leaf(_) => 1
    case Node(_, _, children) => 1 + SizeAll(children)
  }

  function SizeAll(ts: seq<Tree>): nat
    decreases ts
  {
    if |ts| == 0 then 0 else Size(ts[0]) + SizeAll(ts[1..])
  }

  /** `print` writes one line per node. */
  lemma {:induction false} RenderSize(t: Tree)
    ensures |Render(t)| == Size(t)
    decreases t, 1
  {
    if t.Node? {
      RenderAllSize(t.children);
    }
  }

  lemma {:induction false} RenderAllSize(ts: seq<Tree>)
    ensures |RenderAll(ts)| == SizeAll(ts)
    decreases ts, 0
  {
    if |ts| > 0 {
      RenderSize(ts[0]);
      RenderAllSize(ts[1..]);
    }
  }

  /** The tokens at the leaves, left to right. */
  function Frontier(t: Tree): seq<Token>
    decreases t
  {
    match t
    case Leaf(tok) => [tok]
    case Node(_, _, children) => FrontierAll(children)
  }

  function FrontierAll(ts: seq<Tree>): seq<Token>
    decreases ts
  {
    if |ts| == 0 then [] else Frontier(ts[0]) + FrontierAll(ts[1..])
  }

  lemma {:induction false} FrontierAllAppend(a: seq<Tree>, b: seq<Tree>)
    ensures FrontierAll(a + b) == FrontierAll(a) + FrontierAll(b)
  {
    if |a| > 0 {
      assert (a + b)[0] == a[0] && (a + b)[1..] == a[1..] + b;
      FrontierAllAppend(a[1..], b);
      assert FrontierAll(a + b) == Frontier(a[0]) + FrontierAll(a[1..] + b);
    } else {
      assert a + b == b;
    }
  }

  lemma DropEmptyKeeps(ws: seq<string>)
    requires EMPTY !in ws
    ensures DropEmpty(ws) == ws
  {
    if |ws| > 0 {
      assert ws[0] in ws;
      assert forall w :: w in ws[1..] ==> w in ws;
      DropEmptyKeeps(ws[1..]);
    }
  }

  /** Read back with the `Rule` constructor, the line printed for a node
      gives the node's rule: for an empty right-hand side the printed
      `.EMPTY` is dropped again. */
  lemma PrintedRule(lhs: string, rhs: seq<string>, children: seq<Tree>)
    requires IsWord(lhs) && AllWords(rhs) && EMPTY !in rhs
    ensures RuleOf(Words(Line(Node(lhs, rhs, children)))) == Rule(lhs, rhs)
  {
    var text := RhsText(rhs);
    RhsTextWords(rhs);
    DropEmptyKeeps(rhs);
    if rhs == [] {
      assert Line(Node(lhs, rhs, children)) == lhs + " " + EMPTY;
      assert DropEmpty([EMPTY]) == [];
      assert IsWord(EMPTY);
      WordsAppend(lhs, EMPTY);
      WordsOfWord(lhs);
      assert [lhs, EMPTY][1..] == [EMPTY];
    } else {
      WordsCons(lhs, text);
      assert ([lhs] + rhs)[1..] == rhs;
    }
  }
}
