/** `check_restrict`: the per-kind checks a scanner applies to each lexeme
    that maximal munch cuts (wlp4scanner.cc:236-260 for the C-like language,
    mipsscanner.cc:216-238 for the assembly language).

    A check either rejects the lexeme with an error, emits nothing (for
    whitespace and comments), or emits one token, possibly relabelled. The
    numeric checks read the lexeme with `std::stoul` and store the result in a
    `signed long`, which wraps values of 2^63 and above to negative numbers;
    `NumCheckAsWritten` and `DecintCheckAsWritten` keep that reading, while
    `NumCheck` and `DecintCheck` compare the value the lexeme denotes. */
module Restrict {
  import opened Outcomes
  import opened Text

  const TwoTo63: int := 0x8000_0000_0000_0000
  const TwoTo64: int := 0x1_0000_0000_0000_0000
  const ULongMax: int := TwoTo64 - 1
  const IntMin: int := -2147483648
  const IntMax: int := 2147483647
  const UIntMax: int := 4294967295

  predicate AllDigits(s: string)
  {
    forall i :: 0 <= i < |s| ==> IsDigit(s[i])
  }

  // ---------------------------------------------------------------------
  // Reading a number the way `stoul` does

  function SpaceRun(s: string): (n: nat)
    ensures n <= |s|
    ensures forall i :: 0 <= i < n ==> IsSpace(s[i])
    ensures n < |s| ==> !IsSpace(s[n])
  {
    if |s| == 0 || !IsSpace(s[0]) then 0 else 1 + SpaceRun(s[1..])
  }

  function DigitRun(s: string): (n: nat)
    ensures n <= |s|
    ensures forall i :: 0 <= i < n ==> IsDigit(s[i])
    ensures n < |s| ==> !IsDigit(s[n])
  {
    if |s| == 0 || !IsDigit(s[0]) then 0 else 1 + DigitRun(s[1..])
  }

  /** The value of a string of decimal digits. */
  function DecimalValue(s: string): nat
    requires AllDigits(s)
  {
    if |s| == 0 then 0 else 10 * DecimalValue(s[..|s| - 1]) + (s[|s| - 1] as int - '0' as int)
  }

  /** The decimal numeral of `v`: digits only, no leading zero, and it reads
      back as `v`. */
  function Decimal(v: nat): (s: string)
    ensures |s| > 0 && AllDigits(s)
    ensures |s| > 1 ==> s[0] != '0'
    ensures DecimalValue(s) == v
  {
    if v < 10 then [(v + '0' as int) as char]
    else
      var p := Decimal(v / 10);
      var s := p + [(v % 10 + '0' as int) as char];
      assert s[..|s| - 1] == p;
      s
  }

  /** A sign and a magnitude, as `strtoul` reads them. */
  datatype Numeral = Numeral(negative: bool, magnitude: nat)

  /** What `strtoul` reads as a number: leading whitespace, an optional sign,
      then a run of decimal digits; nothing when there are no digits. The rest
      of the text is ignored. */
  function ReadNumeral(s: string): Option<Numeral>
  {
    var t := s[SpaceRun(s)..];
    var j := if |t| > 0 && (t[0] == '+' || t[0] == '-') then 1 else 0;
    var n := DigitRun(t[j..]);
    if n == 0 then None else Some(Numeral(j == 1 && t[0] == '-', DecimalValue(t[j..][..n])))
  }

  /** The value a numeral denotes. */
  function SignedValue(n: Numeral): int
  {
    var m: int := n.magnitude;
    if n.negative then -m else m
  }

  /** `std::stoul`: an `unsigned long`, a negative numeral being negated
      modulo 2^64; it throws (outside `runtime_error`) without digits or when
      the magnitude exceeds 2^64 - 1. */
  function Stoul(s: string): (r: Result<int>)
    ensures r.Ok? <==> ReadNumeral(s).Some? && ReadNumeral(s).value.magnitude <= ULongMax
    ensures r.Ok? ==> 0 <= r.value <= ULongMax && (r.value - SignedValue(ReadNumeral(s).value)) % TwoTo64 == 0
  {
    match ReadNumeral(s)
    case None => Err(Uncaught("stoul: invalid argument"))
    case Some(n) =>
      if n.magnitude > ULongMax then Err(Uncaught("stoul: out of range"))
      else if n.negative then Ok((TwoTo64 - n.magnitude) % TwoTo64)
      else Ok(n.magnitude)
  }

  /** Converting an `unsigned long` to `signed long`: two's complement. */
  function SignedLong(u: int): (d: int)
    requires 0 <= u <= ULongMax
    ensures -TwoTo63 <= d < TwoTo63
    ensures (d - u) % TwoTo64 == 0
  {
    if u >= TwoTo63 then u - TwoTo64 else u
  }

  /** Reading a lexeme through `stoul` into a `signed long` gives the value
      it denotes exactly when that value fits a `signed long`. */
  lemma StoulSignedLong(s: string)
    requires Stoul(s).Ok?
    ensures var v := SignedValue(ReadNumeral(s).value);
            SignedLong(Stoul(s).value) == v <==> -TwoTo63 <= v < TwoTo63
  {
  }

  lemma {:induction false} DigitRunAll(s: string)
    requires AllDigits(s)
    ensures DigitRun(s) == |s|
  {
    if |s| > 0 {
      DigitRunAll(s[1..]);
    }
  }

  /** A lexeme of digits reads as its decimal value, without a sign. */
  lemma ReadDigits(s: string)
    requires |s| > 0 && AllDigits(s)
    ensures ReadNumeral(s) == Some(Numeral(false, DecimalValue(s)))
  {
    assert IsDigit(s[0]);
    assert SpaceRun(s) == 0;
    var t := s[SpaceRun(s)..];
    assert t == s;
    assert t[0] != '+' && t[0] != '-';
    assert t[0..] == s;
    DigitRunAll(s);
    var n := DigitRun(t[0..]);
    assert n == |s|;
    assert t[0..][..n] == s;
  }

  // ---------------------------------------------------------------------
  // The checks

  /** The NUM check as written: the `stoul` result, wrapped to `signed long`,
      is compared with 2^31 - 1. */
  function NumCheckAsWritten(lex: string): Outcome
  {
    match Stoul(lex)
    case Err(e) => Fail(e)
    case Ok(u) =>
      if SignedLong(u) > IntMax then Fail(Runtime("NUM out of range"))
      else if |lex| > 1 && lex[0] == '0' then Fail(Runtime("NUM has leading zeroes"))
      else Pass
  }

  /** The NUM check comparing the value the lexeme denotes. */
  function NumCheck(lex: string): Outcome
  {
    match Stoul(lex)
    case Err(e) => Fail(e)
    case Ok(_) =>
      if SignedValue(ReadNumeral(lex).value) > IntMax then Fail(Runtime("NUM out of range"))
      else if |lex| > 1 && lex[0] == '0' then Fail(Runtime("NUM has leading zeroes"))
      else Pass
  }

  /** The DECINT check as written: the wrapped `signed long` is compared with
      -2^31 and 2^32 - 1. */
  function DecintCheckAsWritten(lex: string): Outcome
  {
    match Stoul(lex)
    case Err(e) => Fail(e)
    case Ok(u) =>
      if !(IntMin <= SignedLong(u) <= UIntMax) then Fail(Runtime("decint out of range")) else Pass
  }

  /** The DECINT check comparing the value the lexeme denotes. */
  function DecintCheck(lex: string): Outcome
  {
    match Stoul(lex)
    case Err(e) => Fail(e)
    case Ok(_) =>
      var v := SignedValue(ReadNumeral(lex).value);
      if !(IntMin <= v <= UIntMax) then Fail(Runtime("decint out of range")) else Pass
  }

  /** The REGISTER check: the first character is dropped and at most two
      digit characters remain, giving a number from 0 to 31. Characters are
      signed; with nothing left the code reads past the end of the string. */
  function RegisterCheck(lex: string): Outcome
    requires IsByteString(lex)
  {
    var copy := if |lex| == 0 then "" else lex[1..];
    if |copy| > 2 then Fail(Runtime("register out of range"))
    else if |copy| == 0 then Fail(Unmodelled("register lexeme without digits: copy[1] is read past the end"))
    else
      var c := if |copy| == 1 then Signed(copy[0]) - '0' as int
               else (Signed(copy[0]) - '0' as int) * 10 + (Signed(copy[1]) - '0' as int);
      if 0 <= c <= 31 then Pass else Fail(Runtime("register out of range"))
  }

  function HexintCheck(lex: string): Outcome
  {
    if |lex| > 10 then Fail(Runtime("hexint out of range")) else Pass
  }

  function UpperChar(c: char): char
  {
    if 'a' <= c <= 'z' then (c as int - 32) as char else c
  }

  /** ASCII upper case. */
  function Upper(s: string): string
  {
    seq(|s|, i requires 0 <= i < |s| => UpperChar(s[i]))
  }

  predicate IsReserved(lex: string)
  {
    lex in {"int", "if", "wain", "else", "while", "println", "return", "new", "delete", "NULL"}
  }

  /** The relabelling chain for IDs of the C-like language. */
  function IdKind(lex: string): string
  {
    if lex == "int" then "INT"
    else if lex == "if" then "IF"
    else if lex == "wain" then "WAIN"
    else if lex == "else" then "ELSE"
    else if lex == "while" then "WHILE"
    else if lex == "println" then "PRINTLN"
    else if lex == "return" then "RETURN"
    else if lex == "new" then "NEW"
    else if lex == "delete" then "DELETE"
    else if lex == "NULL" then "NULL"
    else "ID"
  }

  lemma UpperReserved()
    ensures Upper("int") == "INT" && Upper("if") == "IF" && Upper("wain") == "WAIN"
    ensures Upper("else") == "ELSE" && Upper("while") == "WHILE" && Upper("println") == "PRINTLN"
    ensures Upper("return") == "RETURN" && Upper("new") == "NEW" && Upper("delete") == "DELETE"
    ensures Upper("NULL") == "NULL"
  {
  }

  /** A reserved word is emitted with its own spelling in upper case as kind;
      every other ID keeps the kind ID. */
  lemma IdKindUpper(lex: string)
    ensures IdKind(lex) == if IsReserved(lex) then Upper(lex) else "ID"
  {
    UpperReserved();
  }

  datatype Dialect = Wlp4 | Mips

  predicate Discarded(kind: string)
  {
    kind == "?WHITESPACE" || kind == "?COMMENT"
  }

  function Emit(o: Outcome, t: Token): Result<seq<Token>>
  {
    match o
    case Fail(e) => Err(e)
    case Pass => Ok([t])
  }

  /** What `check_restrict(kind, lex)` prints, as tokens, or throws. */
  function CheckRestrict(d: Dialect, kind: string, lex: string): Result<seq<Token>>
    requires IsByteString(lex)
  {
    if Discarded(kind) then Ok([])
    else match d
      case Wlp4 =>
        if kind == "NUM" then Emit(NumCheck(lex), Token(kind, lex))
        else if kind == "ID" then Ok([Token(IdKind(lex), lex)])
        else Ok([Token(kind, lex)])
      case Mips =>
        if kind == "REGISTER" then Emit(RegisterCheck(lex), Token(kind, lex))
        else if kind == "DECINT" then Emit(DecintCheck(lex), Token(kind, lex))
        else if kind == "HEXINT" then Emit(HexintCheck(lex), Token(kind, lex))
        else if kind == "ZERO" then Ok([Token("DECINT", lex)])
        else Ok([Token(kind, lex)])
  }

  // ---------------------------------------------------------------------
  // What the checks promise

  /** Whitespace and comments emit nothing. Any other lexeme that passes is
      emitted once, unchanged, and keeps its kind unless it is a C-like ID or
      an assembly ZERO. Only NUM, REGISTER, DECINT and HEXINT can be refused. */
  lemma RestrictShape(d: Dialect, kind: string, lex: string)
    requires IsByteString(lex)
    ensures var r := CheckRestrict(d, kind, lex);
            (Discarded(kind) ==> r == Ok([])) &&
            (!Discarded(kind) && r.Ok? ==> |r.value| == 1 && r.value[0].lexeme == lex) &&
            (r.Ok? && |r.value| == 1 && r.value[0].kind != kind ==>
               (d == Wlp4 && kind == "ID") || (d == Mips && kind == "ZERO" && r.value[0].kind == "DECINT")) &&
            (r.Err? ==> kind in (if d == Wlp4 then {"NUM"} else {"REGISTER", "DECINT", "HEXINT"}))
  {
  }

  /** The C-like NUM check on a lexeme of digits: it passes exactly when its
      value is at most 2^31 - 1 and it has no leading zero, and says which
      limit it broke otherwise. */
  lemma NumDigits(lex: string)
    requires IsByteString(lex) && |lex| > 0 && AllDigits(lex) && DecimalValue(lex) <= ULongMax
    ensures var r := CheckRestrict(Wlp4, "NUM", lex);
            (r.Ok? <==> DecimalValue(lex) <= IntMax && (|lex| == 1 || lex[0] != '0')) &&
            (r.Ok? ==> r.value == [Token("NUM", lex)]) &&
            (DecimalValue(lex) > IntMax ==> r == Err(Runtime("NUM out of range"))) &&
            (DecimalValue(lex) <= IntMax && |lex| > 1 && lex[0] == '0' ==> r == Err(Runtime("NUM has leading zeroes")))
  {
    assert CheckRestrict(Wlp4, "NUM", lex) == Emit(NumCheck(lex), Token("NUM", lex));
    ReadDigits(lex);
    assert Stoul(lex) == Ok(DecimalValue(lex));
    assert SignedValue(ReadNumeral(lex).value) == DecimalValue(lex);
  }

  /** The C-like ID check relabels exactly the ten reserved words. */
  lemma IdRelabel(lex: string)
    requires IsByteString(lex)
    ensures CheckRestrict(Wlp4, "ID", lex) == Ok([Token(if IsReserved(lex) then Upper(lex) else "ID", lex)])
  {
    IdKindUpper(lex);
  }

  /** The value of the digits after the `$` of a register lexeme. */
  lemma {:induction false} RegisterDigits(r: char, digits: string)
    requires r as int < 256 && |digits| > 0 && AllDigits(digits)
    ensures IsByteString([r] + digits)
    ensures var res := CheckRestrict(Mips, "REGISTER", [r] + digits);
            (res.Ok? <==> |digits| <= 2 && DecimalValue(digits) <= 31) &&
            (res.Ok? ==> res.value == [Token("REGISTER", [r] + digits)]) &&
            (res.Err? ==> res.error == Runtime("register out of range"))
  {
    var lex := [r] + digits;
    assert lex[1..] == digits;
    if |digits| == 1 {
      assert digits[..0] == "";
      assert DecimalValue(digits) == digits[0] as int - '0' as int;
    } else if |digits| == 2 {
      assert digits[..1][..0] == "";
      assert digits[..1][0] == digits[0];
      assert DecimalValue(digits[..1]) == digits[0] as int - '0' as int;
      assert DecimalValue(digits) == 10 * (digits[0] as int - '0' as int) + (digits[1] as int - '0' as int);
    }
  }

  /** The assembly DECINT check passes exactly when the signed value of the
      lexeme lies from -2^31 to 2^32 - 1. */
  lemma DecintRange(lex: string)
    requires IsByteString(lex) && Stoul(lex).Ok?
    ensures var r := CheckRestrict(Mips, "DECINT", lex);
            var v := SignedValue(ReadNumeral(lex).value);
            (r.Ok? <==> IntMin <= v <= UIntMax) &&
            (r.Ok? ==> r.value == [Token("DECINT", lex)]) &&
            (r.Err? ==> r.error == Runtime("decint out of range"))
  {
  }

  /** The assembly HEXINT check refuses exactly the lexemes longer than ten
      characters, `0x` included. */
  lemma HexintLength(lex: string)
    requires IsByteString(lex)
    ensures var r := CheckRestrict(Mips, "HEXINT", lex);
            (r.Ok? <==> |lex| <= 10) && (r.Err? ==> r.error == Runtime("hexint out of range"))
  {
  }

  // ---------------------------------------------------------------------
  // The two wrap-arounds

  /** Within `signed long` the written checks and the corrected ones agree. */
  lemma AsWrittenAgrees(lex: string)
    requires Stoul(lex).Ok?
    requires -TwoTo63 <= SignedValue(ReadNumeral(lex).value) < TwoTo63
    ensures NumCheckAsWritten(lex) == NumCheck(lex)
    ensures DecintCheckAsWritten(lex) == DecintCheck(lex)
  {
    StoulSignedLong(lex);
  }

  /** The numeral of 2^64 - 1 reads through `stoul` as -1: the written NUM
      check accepts it and the written DECINT check accepts it, although its
      value exceeds both limits. */
  lemma WrapAccepted()
    ensures var lex := Decimal(ULongMax);
            DecimalValue(lex) > UIntMax &&
            NumCheckAsWritten(lex) == Pass && NumCheck(lex) == Fail(Runtime("NUM out of range")) &&
            DecintCheckAsWritten(lex) == Pass && DecintCheck(lex) == Fail(Runtime("decint out of range"))
  {
    var lex := Decimal(ULongMax);
    ReadDigits(lex);
  }
}
