/** Character classes and whitespace splitting shared by the table loaders.

    The C++ code reads whitespace-separated words with `stream >> word` and
    normalises lines with `squish`. `Words` is that split as a function;
    `SplitWords` and `Squish` are the loops that compute it. Characters are
    Dafny `char`s standing for bytes; the C locale is assumed for `isspace`,
    `isgraph` and `isxdigit`. */
module Text {
  import opened Outcomes

  /** `isspace` in the C locale: space, and TAB through CR. */
  predicate IsSpace(c: char)
  {
    c == ' ' || ('\t' <= c <= '\r')
  }

  /** `isgraph` in the C locale: printable and not a space. */
  predicate IsGraph(c: char)
  {
    '!' <= c <= '~'
  }

  predicate IsDigit(c: char)
  {
    '0' <= c <= '9'
  }

  predicate IsXDigit(c: char)
  {
    IsDigit(c) || ('a' <= c <= 'f') || ('A' <= c <= 'F')
  }

  /** Text the C++ side can hold: every character is a byte. */
  predicate IsByteString(s: string)
  {
    forall i :: 0 <= i < |s| ==> s[i] as int < 256
  }

  /** The value of a byte read as a signed `char`. */
  function Signed(c: char): int
    requires c as int < 256
  {
    if c as int < 128 then c as int else c as int - 256
  }

  /** The byte whose signed value is `v`. */
  function ByteChar(v: int): (c: char)
    requires -128 <= v < 128
    ensures c as int < 256 && Signed(c) == v
  {
    (if v < 0 then v + 256 else v) as char
  }

  /** A word as `>>` extracts it: non-empty, without whitespace. */
  predicate IsWord(w: string)
  {
    |w| > 0 && forall i :: 0 <= i < |w| ==> !IsSpace(w[i])
  }

  predicate AllWords(ws: seq<string>)
  {
    forall i :: 0 <= i < |ws| ==> IsWord(ws[i])
  }

  /** Length of the leading run of non-space characters. */
  function WordLength(s: string): (n: nat)
    ensures n <= |s|
    ensures forall i :: 0 <= i < n ==> !IsSpace(s[i])
    ensures n < |s| ==> IsSpace(s[n])
  {
    if |s| == 0 || IsSpace(s[0]) then 0 else 1 + WordLength(s[1..])
  }

  /** The words that repeated `>>` extraction reads from `s`, in order. */
  function Words(s: string): (ws: seq<string>)
    ensures AllWords(ws)
    decreases |s|
  {
    if |s| == 0 then []
    else if IsSpace(s[0]) then Words(s[1..])
    else
      var n := WordLength(s);
      [s[..n]] + Words(s[n..])
  }

  /** The words separated by single spaces, as `squish` assembles them. */
  function Join(ws: seq<string>): string
  {
    if |ws| == 0 then ""
    else if |ws| == 1 then ws[0]
    else Join(ws[..|ws| - 1]) + " " + ws[|ws| - 1]
  }

  /** What `squish` returns. */
  function Squished(s: string): string
  {
    Join(Words(s))
  }

  predicate AllBytes(ws: seq<string>)
  {
    forall i :: 0 <= i < |ws| ==> IsByteString(ws[i])
  }

  /** The words of a byte string, and the squished line, are byte strings. */
  lemma {:induction false} WordsBytes(s: string)
    requires IsByteString(s)
    ensures AllBytes(Words(s))
    ensures IsByteString(Squished(s))
    decreases |s|
  {
    if |s| > 0 {
      if IsSpace(s[0]) {
        WordsBytes(s[1..]);
      } else {
        WordsBytes(s[WordLength(s)..]);
      }
    }
    JoinBytes(Words(s));
  }

  lemma {:induction false} JoinBytes(ws: seq<string>)
    requires AllBytes(ws)
    ensures IsByteString(Join(ws))
  {
    if |ws| > 1 {
      JoinBytes(ws[..|ws| - 1]);
    }
  }

  lemma {:induction false} WordLengthIs(t: string, n: nat)
    requires n <= |t|
    requires forall k :: 0 <= k < n ==> !IsSpace(t[k])
    requires n == |t| || IsSpace(t[n])
    ensures WordLength(t) == n
  {
    if n > 0 {
      WordLengthIs(t[1..], n - 1);
    }
  }

  lemma WordsOfWord(w: string)
    requires IsWord(w)
    ensures Words(w) == [w]
  {
    WordLengthIs(w, |w|);
    assert w[..|w|] == w;
    assert w[|w|..] == "";
  }

  /** Appending a space and a word to a text adds exactly that word. */
  lemma {:induction false} WordsAppend(x: string, w: string)
    requires IsWord(w)
    ensures Words(x + " " + w) == Words(x) + [w]
    decreases |x|
  {
    var t := x + " " + w;
    if |x| == 0 {
      assert t[1..] == w;
      WordsOfWord(w);
    } else if IsSpace(x[0]) {
      assert t[1..] == x[1..] + " " + w;
      WordsAppend(x[1..], w);
    } else {
      var n := WordLength(x);
      WordLengthIs(t, n);
      assert t[..n] == x[..n];
      assert t[n..] == x[n..] + " " + w;
      WordsAppend(x[n..], w);
    }
  }

  /** Splitting a squished text gives back its words. */
  lemma {:induction false} WordsOfJoin(ws: seq<string>)
    requires AllWords(ws)
    ensures Words(Join(ws)) == ws
  {
    if |ws| == 0 {
    } else if |ws| == 1 {
      WordsOfWord(ws[0]);
    } else {
      var init := ws[..|ws| - 1];
      WordsOfJoin(init);
      WordsAppend(Join(init), ws[|ws| - 1]);
      assert init + [ws[|ws| - 1]] == ws;
    }
  }

  lemma {:induction false} JoinEmpty(ws: seq<string>)
    requires AllWords(ws)
    ensures Join(ws) == "" <==> ws == []
  {
    if |ws| > 1 {
      var j := Join(ws[..|ws| - 1]) + " " + ws[|ws| - 1];
      assert j[|j| - 1] == ws[|ws| - 1][|ws[|ws| - 1]| - 1];
    }
  }

  /** Squishing keeps the words and nothing else. */
  lemma SquishedWords(s: string)
    ensures Words(Squished(s)) == Words(s)
  {
    WordsOfJoin(Words(s));
  }

  /** Comparing a squished line with a one-word marker such as `.STATES`
      is comparing its words with that single word; comparing it with ""
      is asking whether the line is blank. */
  lemma SquishedIsWord(s: string, w: string)
    requires IsWord(w)
    ensures Squished(s) == w <==> Words(s) == [w]
    ensures Squished(s) == "" <==> Words(s) == []
  {
    SquishedWords(s);
    WordsOfWord(w);
    JoinEmpty(Words(s));
  }

  /** A space at position `i` is skipped. */
  lemma WordsSkipSpace(s: string, i: nat)
    requires i < |s| && IsSpace(s[i])
    ensures Words(s[i..]) == Words(s[i + 1..])
  {
    assert s[i..][1..] == s[i + 1..];
  }

  /** A run of non-space characters from `i` to a space or the end of the
      line is the next word. */
  lemma WordsTakeWord(s: string, i: nat, j: nat)
    requires i < j <= |s|
    requires forall k :: i <= k < j ==> !IsSpace(s[k])
    requires j == |s| || IsSpace(s[j])
    ensures Words(s[i..]) == [s[i..j]] + Words(s[j..])
  {
    var t := s[i..];
    assert forall k :: 0 <= k < j - i ==> t[k] == s[i + k];
    WordLengthIs(t, j - i);
    assert t[..j - i] == s[i..j];
    assert t[j - i..] == s[j..];
  }

  /** The end of the word that starts at `i`: the next space, or the end
      of the line. */
  method WordEnd(s: string, i: nat) returns (j: nat)
    requires i < |s| && !IsSpace(s[i])
    ensures i < j <= |s|
    ensures forall k :: i <= k < j ==> !IsSpace(s[k])
    ensures j == |s| || IsSpace(s[j])
  {
    j := i;
    while j < |s| && !IsSpace(s[j])
      invariant i <= j <= |s|
      invariant forall k :: i <= k < j ==> !IsSpace(s[k])
    {
      j := j + 1;
    }
  }

  /** The word-extraction loop of `stream >> word`. */
  method SplitWords(s: string) returns (ws: seq<string>)
    ensures ws == Words(s)
  {
    ws := [];
    var i := 0;
    while i < |s|
      invariant 0 <= i <= |s|
      invariant Words(s) == ws + Words(s[i..])
    {
      if IsSpace(s[i]) {
        WordsSkipSpace(s, i);
        i := i + 1;
      } else {
        var j := WordEnd(s, i);
        WordsTakeWord(s, i, j);
        assert ws + Words(s[i..]) == (ws + [s[i..j]]) + Words(s[j..]);
        ws := ws + [s[i..j]];
        i := j;
      }
    }
  }

  /** `squish`: the words of `s` separated by single spaces. */
  method Squish(s: string) returns (r: string)
    ensures r == Squished(s)
    ensures Words(r) == Words(s)
  {
    var ws := SplitWords(s);
    r := "";
    var space := "";
    for i := 0 to |ws|
      invariant r == Join(ws[..i])
      invariant space == if i == 0 then "" else " "
    {
      assert ws[..i + 1][..i] == ws[..i];
      r := r + space + ws[i];
      space := " ";
    }
    assert ws[..|ws|] == ws;
    SquishedWords(s);
  }

  /** `hexToNum`: the value of a hexadecimal digit, or the source's error. */
  function HexToNum(c: char): (r: Result<int>)
    ensures r.Ok? <==> IsXDigit(c)
    ensures r.Ok? ==> 0 <= r.value < 16
  {
    if '0' <= c <= '9' then Ok(c as int - '0' as int)
    else if 'a' <= c <= 'f' then Ok(10 + (c as int - 'a' as int))
    else if 'A' <= c <= 'F' then Ok(10 + (c as int - 'A' as int))
    else Err(Runtime("Invalid hex digit!"))
  }

  /** `numToHex`: the upper-case digit of a value below 16; it decodes back. */
  function NumToHex(d: int): (c: char)
    requires 0 <= d < 16
    ensures IsXDigit(c) && !('a' <= c <= 'f')
    ensures HexToNum(c) == Ok(d)
  {
    if d < 10 then (d + '0' as int) as char else (d - 10 + 'A' as int) as char
  }
}
