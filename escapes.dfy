/** `escape` and `unescape`: the character notation of DFA table files
    (wlp4scanner.cc and mipsscanner.cc carry identical copies).

    `escape` decodes `\s`, `\n`, `\r`, `\t` and `\xHH`; any other escaped
    character stands for itself and a trailing lone backslash is kept.
    `unescape` writes a byte in that notation. Characters stand for bytes:
    `\x80` to `\x8F` decode to the codes 128 to 143. */
module Escapes {
  import opened Outcomes
  import opened Text

  function Prepend(p: string, r: Result<string>): Result<string>
  {
    match r
    case Ok(t) => Ok(p + t)
    case Err(e) => Err(e)
  }

  /** The character that `\c` stands for, for every `c` except a decoded `x`. */
  function EscapedChar(c: char): char
  {
    if c == 's' then ' '
    else if c == 'n' then '\n'
    else if c == 'r' then '\r'
    else if c == 't' then '\t'
    else c
  }

  function HexValue(c: char): int
    requires IsXDigit(c)
  {
    HexToNum(c).value
  }

  /** The error `escape` raises for `\xHH` whose first digit is above 8. */
  function EscapeRangeError(h1: char, h2: char): Error
  {
    Runtime("Invalid escape sequence \\x" + [h1, h2] + ": not in ASCII range (0x00 to 0x7F)")
  }

  /** What `escape(s)` returns or throws, read from the front. */
  function Escaped(s: string): Result<string>
    decreases |s|
  {
    if |s| == 0 then Ok("")
    else if s[0] == '\\' && |s| >= 2 then
      if s[1] == 'x' && |s| >= 4 && IsXDigit(s[2]) && IsXDigit(s[3]) then
        if HexValue(s[2]) > 8 then Err(EscapeRangeError(s[2], s[3]))
        else Prepend([(16 * HexValue(s[2]) + HexValue(s[3])) as char], Escaped(s[4..]))
      else Prepend([EscapedChar(s[1])], Escaped(s[2..]))
    else Prepend([s[0]], Escaped(s[1..]))
  }

  /** Decoding never lengthens the text and keeps it byte-valued. */
  lemma {:induction false} EscapedShape(s: string)
    ensures Escaped(s).Ok? ==> |Escaped(s).value| <= |s|
    ensures IsByteString(s) && Escaped(s).Ok? ==> IsByteString(Escaped(s).value)
    decreases |s|
  {
    if |s| > 0 {
      var rest := if s[0] == '\\' && |s| >= 2 then
                    (if s[1] == 'x' && |s| >= 4 && IsXDigit(s[2]) && IsXDigit(s[3]) then s[4..] else s[2..])
                  else s[1..];
      EscapedShape(rest);
      if IsByteString(s) {
        assert IsByteString(rest) by {
          forall i | 0 <= i < |rest| ensures rest[i] as int < 256 {
            assert rest[i] == s[|s| - |rest| + i];
          }
        }
      }
      if Escaped(s).Ok? && IsByteString(s) {
        var v := Escaped(s).value;
        assert v == [v[0]] + Escaped(rest).value;
        if s[0] == '\\' && |s| >= 4 && s[1] == 'x' && IsXDigit(s[2]) && IsXDigit(s[3]) {
          assert HexValue(s[2]) <= 8;
        }
        forall i | 0 <= i < |v| ensures v[i] as int < 256 {
          if i > 0 { assert v[i] == Escaped(rest).value[i - 1]; }
        }
      }
    }
  }

  /** How `unescape` writes one byte: a printable word. */
  function UnescapedChar(c: char): (r: string)
    requires c as int < 256
    ensures |r| > 0 && forall i :: 0 <= i < |r| ==> IsGraph(r[i])
  {
    if c == ' ' then "\\s"
    else if c == '\n' then "\\n"
    else if c == '\r' then "\\r"
    else if c == '\t' then "\\t"
    else if !IsGraph(c) then "\\x" + [NumToHex(c as int / 16), NumToHex(c as int % 16)]
    else [c]
  }

  /** What `unescape(s)` returns: only printable characters, so a single
      table word whenever `s` is not empty. */
  function Unescaped(s: string): (r: string)
    requires IsByteString(s)
    ensures |r| >= |s|
    ensures forall i :: 0 <= i < |r| ==> IsGraph(r[i])
  {
    if |s| == 0 then ""
    else
      var u, w := UnescapedChar(s[0]), Unescaped(s[1..]);
      assert forall i :: 0 <= i < |u + w| ==> (u + w)[i] == if i < |u| then u[i] else w[i - |u|];
      u + w
  }

  lemma PrependAssoc(p: string, q: string, r: Result<string>)
    ensures Prepend(p, Prepend(q, r)) == Prepend(p + q, r)
  {
    if r.Ok? {
      assert p + (q + r.value) == (p + q) + r.value;
    }
  }

  lemma {:induction false} UnescapedAppend(a: string, b: string)
    requires IsByteString(a) && IsByteString(b)
    ensures IsByteString(a + b)
    ensures Unescaped(a + b) == Unescaped(a) + Unescaped(b)
  {
    assert IsByteString(a + b) by {
      forall i | 0 <= i < |a + b| ensures (a + b)[i] as int < 256 {
        if i >= |a| { assert (a + b)[i] == b[i - |a|]; }
      }
    }
    if |a| > 0 {
      assert (a + b)[0] == a[0];
      assert (a + b)[1..] == a[1..] + b;
      UnescapedAppend(a[1..], b);
      assert Unescaped(a + b) == UnescapedChar(a[0]) + (Unescaped(a[1..]) + Unescaped(b));
    } else {
      assert a + b == b;
    }
  }

  // One step of `Escaped` at position `i` of `s`, case by case.

  lemma EscapedPlainStep(s: string, i: nat)
    requires i < |s| && !(s[i] == '\\' && i + 1 < |s|)
    ensures Escaped(s[i..]) == Prepend([s[i]], Escaped(s[i + 1..]))
  {
    assert s[i..][0] == s[i] && s[i..][1..] == s[i + 1..];
  }

  lemma EscapedCharStep(s: string, i: nat)
    requires i + 1 < |s| && s[i] == '\\'
    requires !(s[i + 1] == 'x' && i + 3 < |s| && IsXDigit(s[i + 2]) && IsXDigit(s[i + 3]))
    ensures Escaped(s[i..]) == Prepend([EscapedChar(s[i + 1])], Escaped(s[i + 2..]))
  {
    var t := s[i..];
    assert t[0] == s[i] && t[1] == s[i + 1] && t[2..] == s[i + 2..];
  }

  lemma EscapedHexStep(s: string, i: nat)
    requires i + 3 < |s| && s[i] == '\\' && s[i + 1] == 'x' && IsXDigit(s[i + 2]) && IsXDigit(s[i + 3])
    ensures HexValue(s[i + 2]) > 8 ==> Escaped(s[i..]) == Err(EscapeRangeError(s[i + 2], s[i + 3]))
    ensures HexValue(s[i + 2]) <= 8 ==>
              Escaped(s[i..]) == Prepend([(16 * HexValue(s[i + 2]) + HexValue(s[i + 3])) as char], Escaped(s[i + 4..]))
  {
    var t := s[i..];
    assert t[0] == s[i] && t[1] == s[i + 1] && t[2] == s[i + 2] && t[3] == s[i + 3] && t[4..] == s[i + 4..];
  }

  /** `escape`: the decoding loop, `i` bumped by hand past each escape. */
  method Escape(s: string) returns (r: Result<string>)
    ensures r == Escaped(s)
  {
    var p := "";
    var i := 0;
    assert s[0..] == s;
    assert Escaped(s).Ok? ==> "" + Escaped(s).value == Escaped(s).value;
    while i < |s|
      invariant 0 <= i <= |s|
      invariant Escaped(s) == Prepend(p, Escaped(s[i..]))
    {
      if s[i] == '\\' && i + 1 < |s| {
        var c := s[i + 1];
        ghost var j := i;
        ghost var q := p;
        ghost var hex := c == 'x' && j + 3 < |s| && IsXDigit(s[j + 2]) && IsXDigit(s[j + 3]);
        i := i + 1;
        if c == 's' {
          p := p + [' '];
        } else if c == 'n' {
          p := p + ['\n'];
        } else if c == 'r' {
          p := p + ['\r'];
        } else if c == 't' {
          p := p + ['\t'];
        } else if c == 'x' {
          if i + 2 < |s| && IsXDigit(s[i + 1]) && IsXDigit(s[i + 2]) {
            EscapedHexStep(s, j);
            var h1 := HexToNum(s[i + 1]);
            var h2 := HexToNum(s[i + 2]);
            if h1.value > 8 {
              return Err(EscapeRangeError(s[i + 1], s[i + 2]));
            }
            PrependAssoc(q, [(h1.value * 16 + h2.value) as char], Escaped(s[j + 4..]));
            p := p + [(h1.value * 16 + h2.value) as char];
            i := i + 2;
            assert i + 1 == j + 4 && Escaped(s) == Prepend(p, Escaped(s[j + 4..]));
          } else {
            p := p + [c];
          }
        } else if IsGraph(c) {
          p := p + [c];
        } else {
          p := p + [s[i]];
        }
        if !hex {
          assert p == q + [EscapedChar(c)] && i == j + 1;
          EscapedCharStep(s, j);
          PrependAssoc(q, [EscapedChar(c)], Escaped(s[j + 2..]));
          assert Escaped(s) == Prepend(p, Escaped(s[j + 2..]));
        }
        assert Escaped(s) == Prepend(p, Escaped(s[i + 1..]));
      } else {
        EscapedPlainStep(s, i);
        PrependAssoc(p, [s[i]], Escaped(s[i + 1..]));
        p := p + [s[i]];
        assert Escaped(s) == Prepend(p, Escaped(s[i + 1..]));
      }
      i := i + 1;
    }
    assert s[i..] == "" && p + "" == p;
    r := Ok(p);
  }

  /** Unescaping one more byte of `s` appends its written form. */
  lemma UnescapedSnoc(s: string, i: nat)
    requires IsByteString(s) && i < |s|
    ensures IsByteString(s[..i]) && IsByteString(s[..i + 1])
    ensures Unescaped(s[..i + 1]) == Unescaped(s[..i]) + UnescapedChar(s[i])
  {
    assert s[..i + 1] == s[..i] + [s[i]];
    UnescapedAppend(s[..i], [s[i]]);
    assert Unescaped([s[i]]) == UnescapedChar(s[i]) + Unescaped([s[i]][1..]);
    assert [s[i]][1..] == "";
  }

  /** `unescape`: one written form per byte, appended in order. */
  method Unescape(s: string) returns (p: string)
    requires IsByteString(s)
    ensures p == Unescaped(s)
  {
    p := "";
    for i := 0 to |s|
      invariant p == Unescaped(s[..i])
    {
      var c := s[i];
      UnescapedSnoc(s, i);
      ghost var q := p;
      if c == ' ' {
        p := p + "\\s";
      } else if c == '\n' {
        p := p + "\\n";
      } else if c == '\r' {
        p := p + "\\r";
      } else if c == '\t' {
        p := p + "\\t";
      } else if !IsGraph(c) {
        var hex := "\\x";
        p := p + hex + [NumToHex(c as int / 16), NumToHex(c as int % 16)];
      } else {
        p := p + [c];
      }
      assert p == q + UnescapedChar(c);
    }
    assert s[..|s|] == s;
  }

  /** Escaping the written form of a byte below 0x90 gives the byte back,
      whatever follows, provided a lone backslash is not followed by more. */
  lemma EscapeUnit(c: char, t: string)
    requires c as int < 144
    requires c == '\\' ==> t == ""
    ensures Escaped(UnescapedChar(c) + t) == Prepend([c], Escaped(t))
  {
    var u := UnescapedChar(c) + t;
    if c == ' ' || c == '\n' || c == '\r' || c == '\t' {
      assert u[2..] == t;
    } else if !IsGraph(c) {
      var h1, h2 := NumToHex(c as int / 16), NumToHex(c as int % 16);
      assert u[2] == h1 && u[3] == h2;
      assert HexValue(h1) == c as int / 16 && HexValue(h2) == c as int % 16;
      assert (16 * HexValue(h1) + HexValue(h2)) as char == c;
      assert u[4..] == t;
    } else {
      assert u[1..] == t;
    }
  }

  /** The round trip of the table notation on one byte holds exactly for the
      bytes below 0x90: `\x90` to `\xFF` are refused by `escape`. */
  lemma RoundTripChar(c: char)
    requires c as int < 256
    ensures IsByteString([c])
    ensures Escaped(Unescaped([c])) == Ok([c]) <==> c as int < 144
  {
    assert [c][1..] == "";
    assert Unescaped([c]) == UnescapedChar(c) + "" == UnescapedChar(c);
    if c as int < 144 {
      EscapeUnit(c, "");
      assert [c] + "" == [c];
    } else {
      var h1 := NumToHex(c as int / 16);
      assert UnescapedChar(c)[2] == h1;
      assert HexValue(h1) > 8;
    }
  }

  /** A byte string without backslashes and without bytes above 0x8F survives
      `unescape` followed by `escape`. */
  lemma {:induction false} RoundTrip(s: string)
    requires forall i :: 0 <= i < |s| ==> s[i] as int < 144 && s[i] != '\\'
    ensures IsByteString(s)
    ensures Escaped(Unescaped(s)) == Ok(s)
  {
    if |s| > 0 {
      RoundTrip(s[1..]);
      EscapeUnit(s[0], Unescaped(s[1..]));
      assert [s[0]] + s[1..] == s;
    }
  }

  /** With no backslash in it, `escape` returns its argument unchanged. */
  lemma {:induction false} EscapePlain(s: string)
    requires forall i :: 0 <= i < |s| ==> s[i] != '\\'
    ensures Escaped(s) == Ok(s)
  {
    if |s| > 0 {
      EscapePlain(s[1..]);
      assert [s[0]] + s[1..] == s;
    }
  }
}
