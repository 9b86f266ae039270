/** The CPU list parser and printer of src/pincpu.c.

Tokens are cut by strtok with the comma as the only separator (section 7.24.5.8 of
ISO/IEC 9899:2011) and converted by strtol in base 10 (section 7.22.1.4), with a 64-bit
long that saturates and a 32-bit int that wraps.
*/
module PinCpu {
  import opened CInts

  const LONG_MAX: int := 0x7fff_ffff_ffff_ffff
  const LONG_MIN: int := -0x8000_0000_0000_0000

  // ----- strtok -----

  /** The length of the run of s before the first comma. */
  function RunLength(s: string): (n: nat)
    ensures n <= |s| && (forall k | 0 <= k < n :: s[k] != ',') && (n < |s| ==> s[n] == ',')
  {
    if s == [] || s[0] == ',' then 0 else 1 + RunLength(s[1..])
  }

  /** The tokens that successive calls of strtok return. */
  function Tokens(s: string): seq<string>
    decreases |s|
  {
    if s == [] then []
    else if s[0] == ',' then Tokens(s[1..])
    else [s[..RunLength(s)]] + Tokens(s[RunLength(s)..])
  }

  /** One call of strtok that continues at position at: the next token, if any, and where to go on. */
  method StrTok(s: string, at: nat) returns (found: bool, tok: string, next: nat)
    requires at <= |s|
    ensures at <= next <= |s|
    ensures found == (Tokens(s[at..]) != [])
    ensures found ==> next > at && Tokens(s[at..]) == [tok] + Tokens(s[next..])
  {
    var start := at;
    while start < |s| && s[start] == ','
      invariant at <= start <= |s| && Tokens(s[start..]) == Tokens(s[at..])
    {
      SkipComma(s, start);
      start := start + 1;
    }
    next := start;
    while next < |s| && s[next] != ','
      invariant start <= next <= |s| && forall k | start <= k < next :: s[k] != ','
    {
      next := next + 1;
    }
    found, tok := start < |s|, s[start..next];
    if found { FirstToken(s, start, next); }
  }

  lemma SkipComma(s: string, start: nat)
    requires start < |s| && s[start] == ','
    ensures Tokens(s[start..]) == Tokens(s[start + 1..])
  {
    assert s[start..][1..] == s[start + 1..];
  }

  lemma FirstToken(s: string, start: nat, next: nat)
    requires start < next <= |s| && (forall k | start <= k < next :: s[k] != ',') && (next < |s| ==> s[next] == ',')
    ensures Tokens(s[start..]) == [s[start..next]] + Tokens(s[next..])
  {
    var rest := s[start..];
    RunLengthIs(rest, next - start);
    assert rest[next - start..] == s[next..] && rest[..next - start] == s[start..next];
  }

  lemma {:induction false} RunLengthIs(s: string, n: nat)
    requires n <= |s| && (forall k | 0 <= k < n :: s[k] != ',') && (n < |s| ==> s[n] == ',')
    ensures RunLength(s) == n
  {
    if n > 0 { RunLengthIs(s[1..], n - 1); }
  }

  /** A text without commas is its only token, unless it is empty. */
  lemma TokenAlone(s: string)
    requires forall k | 0 <= k < |s| :: s[k] != ','
    ensures Tokens(s) == if s == [] then [] else [s]
  {
    if s != [] {
      FirstToken(s, 0, |s|);
      assert s[0..] == s && s[0..|s|] == s && s[|s|..] == "";
    }
  }

  lemma CutBeforeComma(a: string, b: string, n: nat)
    requires n <= |a|
    ensures (a + "," + b)[0..n] == a[..n] && (a + "," + b)[n..] == a[n..] + "," + b
  {
  }

  /** The tokens of two texts with a comma between them are those of the one and then those of the other. */
  lemma {:induction false} TokensConcat(a: string, b: string)
    ensures Tokens(a + "," + b) == Tokens(a) + Tokens(b)
    decreases |a|
  {
    var s := a + "," + b;
    if a == [] {
      assert s[0] == ',' && s[1..] == b;
    } else if a[0] == ',' {
      TokensConcat(a[1..], b);
      CutBeforeComma(a, b, 1);
    } else {
      var n := RunLength(a);
      TokensConcat(a[n..], b);
      CutBeforeComma(a, b, n);
      FirstToken(s, 0, n);
      assert s[0..] == s;
    }
  }

  // ----- strtol -----

  predicate IsSpace(c: char) {
    c == ' ' || '\t' <= c <= '\r'
  }

  predicate IsDigit(c: char) {
    '0' <= c <= '9'
  }

  function DigitValue(c: char): (d: nat)
    requires IsDigit(c)
    ensures d <= 9
  {
    (c as int) - ('0' as int)
  }

  function SpaceRun(s: string): (n: nat)
    ensures n <= |s|
  {
    if s == [] || !IsSpace(s[0]) then 0 else 1 + SpaceRun(s[1..])
  }

  function DigitRun(s: string): (n: nat)
    ensures n <= |s| && forall k | 0 <= k < n :: IsDigit(s[k])
  {
    if s == [] || !IsDigit(s[0]) then 0 else 1 + DigitRun(s[1..])
  }

  /** The number a run of digits denotes. */
  function DigitsValue(s: string): nat
    requires forall k | 0 <= k < |s| :: IsDigit(s[k])
  {
    if s == [] then 0 else 10 * DigitsValue(s[..|s| - 1]) + DigitValue(s[|s| - 1])
  }

  function Saturate(v: int): int {
    if v > LONG_MAX then LONG_MAX else if v < LONG_MIN then LONG_MIN else v
  }

  /** strtol: the value and the offset of *endptr. */
  function StrToL(s: string): (r: (int, nat))
    ensures r.1 <= |s|
  {
    var sign := SpaceRun(s);
    var digits := if sign < |s| && (s[sign] == '-' || s[sign] == '+') then sign + 1 else sign;
    var n := DigitRun(s[digits..]);
    if n == 0 then (0, 0)
    else
      var v: int := DigitsValue(s[digits..][..n]);
      (Saturate(if digits > sign && s[sign] == '-' then -v else v), digits + n)
  }

  // ----- pincpu_parse -----

  /** A token without its leading spaces, and without its sign. */
  function Trimmed(tok: string): string {
    tok[SpaceRun(tok)..]
  }

  function Unsigned(tok: string): string {
    var t := Trimmed(tok);
    if t != [] && (t[0] == '-' || t[0] == '+') then t[1..] else t
  }

  predicate AllDigits(s: string) {
    forall k | 0 <= k < |s| :: IsDigit(s[k])
  }

  /** A token that strtol takes as a whole: spaces, a sign or none, digits. */
  predicate IsNumeral(tok: string) {
    Unsigned(tok) != [] && AllDigits(Unsigned(tok))
  }

  /** What becomes of a token: its number, if the parser takes it. */
  predicate Accepted(tok: string, limit: int) {
    ToInt(StrToL(tok).0) < limit && StrToL(tok).1 == |tok|
  }

  ghost predicate AllAccepted(toks: seq<string>, limit: int) {
    forall k | 0 <= k < |toks| :: Accepted(toks[k], limit)
  }

  function CpuOf(tok: string): int {
    ToInt(StrToL(tok).0)
  }

  /** How many tokens are taken before the first that is not. */
  function AcceptedRun(toks: seq<string>, limit: int): (n: nat)
    ensures n <= |toks| && (forall k | 0 <= k < n :: Accepted(toks[k], limit))
    ensures n < |toks| ==> !Accepted(toks[n], limit)
  {
    if toks == [] || !Accepted(toks[0], limit) then 0 else 1 + AcceptedRun(toks[1..], limit)
  }

  /** The checks of pincpu_parse on one token. */
  method ParseToken(tok: string, limit: int) returns (taken: bool, cpu: int)
    ensures taken == Accepted(tok, limit) && cpu == CpuOf(tok)
  {
    var (value, end) := StrToL(tok);
    cpu := ToInt(value);
    if cpu >= limit {
      taken := false;
    } else if end < |tok| {
      taken := false;
    } else {
      taken := true;
    }
  }

  /** struct pincpu. */
  class CpuSet {
    var nrcpus: nat
    var cpus: array<int>

    constructor ()
      ensures nrcpus == 0 && fresh(cpus) && cpus.Length == 0
    {
      nrcpus, cpus := 0, new int[0];
    }

    /** The first loop of pincpu_parse. */
    method CountTokens(input: string)
      modifies this`nrcpus
      ensures nrcpus == old(nrcpus) + |Tokens(input)|
    {
      var found, tok, at := StrTok(input, 0);
      assert input[0..] == input;
      while found
        invariant at <= |input|
        invariant nrcpus + (if found then 1 + |Tokens(input[at..])| else 0) == old(nrcpus) + |Tokens(input)|
        decreases if found then |input| - at + 1 else 0
      {
        nrcpus := nrcpus + 1;
        found, tok, at := StrTok(input, at);
      }
    }

    /** pincpu_parse, with limit CPUs online. The result is 0 if every token is taken, -1 otherwise; the
        array has a cell for every token counted, and the numbers of the tokens taken are in its first
        cells, in order. */
    method Parse(input: string, limit: int) returns (ret: int)
      modifies this
      ensures nrcpus == old(nrcpus) + |Tokens(input)| && fresh(cpus) && cpus.Length == nrcpus
      ensures ret == 0 || ret == -1
      ensures ret == 0 <==> AllAccepted(Tokens(input), limit)
      ensures var n := AcceptedRun(Tokens(input), limit);
        && (forall k | 0 <= k < n :: cpus[k] == CpuOf(Tokens(input)[k]))
        && forall k | n <= k < cpus.Length :: cpus[k] == 0
    {
      CountTokens(input);
      cpus := new int[nrcpus](_ => 0);
      ret := FillCells(input, limit, Tokens(input));
    }

    /** The second loop of pincpu_parse. */
    method FillCells(input: string, limit: int, ghost toks: seq<string>) returns (ret: int)
      requires toks == Tokens(input) && cpus.Length >= |toks| && forall k | 0 <= k < cpus.Length :: cpus[k] == 0
      modifies cpus
      ensures ret == 0 || ret == -1
      ensures ret == 0 <==> AllAccepted(toks, limit)
      ensures var n := AcceptedRun(toks, limit);
        && (forall k | 0 <= k < n :: cpus[k] == CpuOf(toks[k]))
        && forall k | n <= k < cpus.Length :: cpus[k] == 0
    {
      assert input[0..] == input && toks[0..] == toks;
      ret := 0;
      var i := 0;
      var found, tok, at := StrTok(input, 0);
      while found
        invariant at <= |input| && i <= |toks| && ret == 0
        invariant toks[i..] == if found then [tok] + Tokens(input[at..]) else []
        invariant forall k | 0 <= k < i :: Accepted(toks[k], limit) && cpus[k] == CpuOf(toks[k])
        invariant forall k | i <= k < cpus.Length :: cpus[k] == 0
        decreases if found then |input| - at + 1 else 0
      {
        NextToken(toks, i, tok, Tokens(input[at..]));
        var taken, cpu := ParseToken(tok, limit);
        if !taken {
          ret := -1;
          break;
        }
        cpus[i] := cpu;
        i := i + 1;
        found, tok, at := StrTok(input, at);
      }
      assert ret == 0 <==> i == |toks|;
      AcceptedRunEnds(toks, limit, i);
    }

    /** The loop of dump_cpuset. */
    method DumpList() returns (list: string)
      requires nrcpus <= cpus.Length
      ensures list == Join(cpus[..nrcpus])
    {
      list := "";
      ghost var all := cpus[..nrcpus];
      for i := 0 to nrcpus
        invariant list + Join(all[i..]) == Join(all)
      {
        JoinRound(list, all, i);
        list := list + Decimal(cpus[i]);
        if i != nrcpus - 1 {
          list := list + ",";
        }
      }
      assert all[nrcpus..] == [];
    }

    /** dump_cpuset. */
    method Dump() returns (text: string)
      requires nrcpus <= cpus.Length
      ensures text == "cpuset: [" + Join(cpus[..nrcpus]) + "]\n"
      ensures nrcpus == 0 ==> text == "cpuset: []\n"
    {
      var list := DumpList();
      text := "cpuset: [" + list + "]\n";
    }
  }

  /** A loop over the tokens that stops at the first one that is not accepted. */
  lemma AcceptedRunEnds(toks: seq<string>, limit: int, n: nat)
    requires n <= |toks| && (forall k | 0 <= k < n :: Accepted(toks[k], limit))
    requires n < |toks| ==> !Accepted(toks[n], limit)
    ensures AcceptedRun(toks, limit) == n && (AllAccepted(toks, limit) <==> n == |toks|)
  {
    AcceptedRunIs(toks, limit, n);
  }

  lemma NextToken(toks: seq<string>, i: nat, tok: string, rest: seq<string>)
    requires i <= |toks| && toks[i..] == [tok] + rest
    ensures i < |toks| && toks[i] == tok && toks[i + 1..] == rest
  {
    assert toks[i..][0] == tok && toks[i..][1..] == rest;
  }

  lemma {:induction false} AcceptedRunIs(toks: seq<string>, limit: int, n: nat)
    requires n <= |toks| && (forall k | 0 <= k < n :: Accepted(toks[k], limit))
    requires n < |toks| ==> !Accepted(toks[n], limit)
    ensures AcceptedRun(toks, limit) == n
  {
    if n > 0 { AcceptedRunIs(toks[1..], limit, n - 1); }
  }

  // ----- Printing -----

  function Digits(n: nat): (s: string)
    ensures |s| >= 1 && forall k | 0 <= k < |s| :: IsDigit(s[k])
  {
    var last := ['0' + (n % 10) as char];
    if n < 10 then last else Digits(n / 10) + last
  }

  /** What printf writes for %d. */
  function Decimal(v: int): string {
    if v < 0 then "-" + Digits(-v) else Digits(v)
  }

  function Join(cpus: seq<int>): string {
    if cpus == [] then ""
    else if |cpus| == 1 then Decimal(cpus[0])
    else Decimal(cpus[0]) + "," + Join(cpus[1..])
  }

  lemma JoinRound(list: string, cpus: seq<int>, i: nat)
    requires i < |cpus|
    ensures list + Join(cpus[i..]) ==
      if i == |cpus| - 1 then list + Decimal(cpus[i]) + Join(cpus[i + 1..])
      else list + Decimal(cpus[i]) + "," + Join(cpus[i + 1..])
  {
    assert cpus[i..][1..] == cpus[i + 1..] && cpus[i..][0] == cpus[i];
  }

  function Decimals(cpus: seq<int>): (toks: seq<string>)
    ensures |toks| == |cpus| && forall k | 0 <= k < |cpus| :: toks[k] == Decimal(cpus[k])
  {
    if cpus == [] then [] else [Decimal(cpus[0])] + Decimals(cpus[1..])
  }

  function Commas(s: string): nat {
    if s == [] then 0 else Commas(s[..|s| - 1]) + if s[|s| - 1] == ',' then 1 else 0
  }

  lemma {:induction false} CommasConcat(a: string, b: string)
    ensures Commas(a + b) == Commas(a) + Commas(b)
    decreases |b|
  {
    if b == [] {
      assert a + b == a;
    } else {
      CommasConcat(a, b[..|b| - 1]);
      assert (a + b)[..|a + b| - 1] == a + b[..|b| - 1];
    }
  }

  lemma {:induction false} NoCommas(s: string)
    requires forall k | 0 <= k < |s| :: s[k] != ','
    ensures Commas(s) == 0
  {
    if s != [] { NoCommas(s[..|s| - 1]); }
  }

  /** The dumped list has one comma fewer than numbers, and none at either end. */
  lemma {:induction false} JoinCommas(cpus: seq<int>)
    requires cpus != []
    ensures Commas(Join(cpus)) == |cpus| - 1
    ensures Join(cpus) != [] && Join(cpus)[0] != ',' && Join(cpus)[|Join(cpus)| - 1] != ','
  {
    DecimalIsNumeral(cpus[0]);
    NoCommas(Decimal(cpus[0]));
    if |cpus| > 1 {
      JoinCommas(cpus[1..]);
      CommasConcat(Decimal(cpus[0]), ",");
      CommasConcat(Decimal(cpus[0]) + ",", Join(cpus[1..]));
      assert ","[..0] == "";
    }
  }

  /** No zero in front, unless it is the only digit. */
  predicate NoLeadingZero(s: string) {
    |s| >= 2 ==> s[0] != '0'
  }

  lemma {:induction false} DigitsHaveNoLeadingZero(n: nat)
    ensures NoLeadingZero(Digits(n)) && (n < 10 ==> |Digits(n)| == 1) && (n > 0 ==> Digits(n)[0] != '0')
  {
    if n >= 10 { DigitsHaveNoLeadingZero(n / 10); }
  }

  lemma {:induction false} ValueIsPositive(s: string)
    requires |s| >= 1 && AllDigits(s) && s[0] != '0'
    ensures DigitsValue(s) >= 1
  {
    if |s| == 1 {
      assert s[..0] == [];
    } else {
      ValueIsPositive(s[..|s| - 1]);
    }
  }

  /** Digits without a zero in front are what is printed for the number they denote. */
  lemma {:induction false} DigitsUnique(s: string)
    requires |s| >= 1 && AllDigits(s) && NoLeadingZero(s)
    ensures Digits(DigitsValue(s)) == s
  {
    var init, last := s[..|s| - 1], s[|s| - 1];
    assert '0' + DigitValue(last) as char == last;
    if |s| == 1 {
      assert init == [] && DigitsValue(s) == DigitValue(last);
    } else {
      DigitsUnique(init);
      ValueIsPositive(init);
      assert DigitsValue(s) / 10 == DigitsValue(init) && DigitsValue(s) % 10 == DigitValue(last);
    }
    assert s == init + [last];
  }

  /** The one text that %d writes for a number: digits without a zero in front, after a minus if the number
      is negative. */
  predicate IsDecimal(s: string) {
    var d := if s != [] && s[0] == '-' then s[1..] else s;
    d != [] && AllDigits(d) && NoLeadingZero(d) && s != "-0"
  }

  /** Decimal prints v in this form, and nothing else in this form denotes v. */
  lemma DecimalIff(s: string, v: int)
    ensures s == Decimal(v) <==> IsDecimal(s) && IsNumeral(s) && NumeralValue(s) == v
    ensures Decimal(0) == "0" && Decimal(907) == "907" && Decimal(-12) == "-12"
  {
    DecimalIsNumeral(v);
    DecimalForm(v);
    if IsDecimal(s) && IsNumeral(s) && NumeralValue(s) == v { FormIsDecimal(s, v); }
  }

  lemma DecimalForm(v: int)
    ensures IsDecimal(Decimal(v))
    ensures Decimal(0) == "0" && Decimal(907) == "907" && Decimal(-12) == "-12"
  {
    DigitsHaveNoLeadingZero(if v < 0 then -v else v);
    assert v < 0 ==> Decimal(v)[1..] == Digits(-v);
    assert Digits(9) == "9" && Digits(90) == "90" && Digits(1) == "1";
  }

  lemma SameDigits(d: string, e: string)
    requires |d| >= 1 && |e| >= 1 && AllDigits(d) && AllDigits(e) && NoLeadingZero(d) && NoLeadingZero(e)
    requires DigitsValue(d) == DigitsValue(e)
    ensures d == e
  {
    DigitsUnique(d);
    DigitsUnique(e);
  }

  lemma FormIsDecimal(s: string, v: int)
    requires IsDecimal(s) && IsNumeral(s) && NumeralValue(s) == v
    ensures s == Decimal(v)
  {
    assert SpaceRun(s) == 0 && s[0..] == s;
    var n := if v < 0 then -v else v;
    DigitsAndBack(n);
    DigitsHaveNoLeadingZero(n);
    if s[0] == '-' {
      assert s == "-" + s[1..];
      assert s[1..] != "0";
      MinusIsNegative(s[1..]);
      SameDigits(s[1..], Digits(n));
    } else {
      SameDigits(s, Digits(n));
    }
  }

  lemma MinusIsNegative(d: string)
    requires |d| >= 1 && AllDigits(d) && NoLeadingZero(d) && d != "0"
    ensures DigitsValue(d) >= 1
  {
    ValueIsPositive(d);
  }

  // ----- Main results -----

  /** The number a numeral denotes, without any limit. */
  function NumeralValue(tok: string): int
    requires IsNumeral(tok)
  {
    var v: int := DigitsValue(Unsigned(tok));
    if Trimmed(tok)[0] == '-' then -v else v
  }

  lemma {:induction false} AllDigitsRun(s: string)
    ensures DigitRun(s) == |s| <==> AllDigits(s)
  {
    if s != [] && IsDigit(s[0]) {
      AllDigitsRun(s[1..]);
      assert AllDigits(s) ==> AllDigits(s[1..]);
      if AllDigits(s[1..]) {
        forall k | 0 <= k < |s| ensures IsDigit(s[k]) { if k > 0 { assert s[k] == s[1..][k - 1]; } }
      }
    }
  }

  /** A blank of the C locale: space, tab, newline, vertical tab, form feed, carriage return. */
  predicate AllBlank(s: string) {
    forall k | 0 <= k < |s| :: s[k] as int == 32 || 9 <= s[k] as int <= 13
  }

  /** A token that is blanks, a sign or none, and digits. */
  predicate HasParts(tok: string, blanks: string, sign: string, digits: string) {
    && tok == blanks + sign + digits && AllBlank(blanks) && (sign == "" || sign == "-" || sign == "+")
    && digits != [] && AllDigits(digits)
  }

  lemma {:induction false} SpaceRunIs(s: string, n: nat)
    requires n <= |s| && AllBlank(s[..n]) && (n < |s| ==> !IsSpace(s[n]))
    ensures SpaceRun(s) == n
  {
    if n > 0 {
      assert s[..n][0] == s[0] && s[..n][1..] == s[1..][..n - 1];
      SpaceRunIs(s[1..], n - 1);
    }
  }

  lemma {:induction false} SpaceRunIsBlank(s: string)
    ensures AllBlank(s[..SpaceRun(s)])
  {
    if s != [] && IsSpace(s[0]) {
      SpaceRunIsBlank(s[1..]);
      assert s[..SpaceRun(s)] == [s[0]] + s[1..][..SpaceRun(s[1..])];
    }
  }

  lemma TrimmedParts(blanks: string, rest: string)
    requires AllBlank(blanks) && rest != [] && !IsSpace(rest[0])
    ensures SpaceRun(blanks + rest) == |blanks| && Trimmed(blanks + rest) == rest
  {
    var tok := blanks + rest;
    assert tok[..|blanks|] == blanks && tok[|blanks|..] == rest;
    SpaceRunIs(tok, |blanks|);
  }

  lemma PartsMakeNumeral(tok: string, blanks: string, sign: string, digits: string)
    requires HasParts(tok, blanks, sign, digits)
    ensures var v: int := DigitsValue(digits);
      IsNumeral(tok) && NumeralValue(tok) == if sign == "-" then -v else v
  {
    var rest := sign + digits;
    assert tok == blanks + rest;
    assert IsDigit(digits[0]) && rest[0] == if sign == "" then digits[0] else sign[0];
    TrimmedParts(blanks, rest);
    assert Unsigned(tok) == digits;
  }

  /** A token is a numeral exactly if it is blanks, then a sign or none, then one digit or more. */
  lemma NumeralIff(tok: string)
    ensures IsNumeral(tok) <==> exists blanks, sign, digits :: HasParts(tok, blanks, sign, digits)
  {
    if IsNumeral(tok) {
      var n, u := SpaceRun(tok), Unsigned(tok);
      SpaceRunIsBlank(tok);
      var t := tok[n..];
      var sign := if t[0] == '-' || t[0] == '+' then t[..1] else "";
      assert t == sign + u && tok == tok[..n] + t;
      assert HasParts(tok, tok[..n], sign, u);
    }
    if blanks, sign, digits :| HasParts(tok, blanks, sign, digits) {
      PartsMakeNumeral(tok, blanks, sign, digits);
    }
  }

  /** Blanks in front of a printed number change nothing. */
  lemma BlanksAreSkipped(blanks: string, v: int, limit: int)
    requires AllBlank(blanks)
    ensures Accepted(blanks + Decimal(v), limit) <==> Accepted(Decimal(v), limit)
    ensures CpuOf(blanks + Decimal(v)) == CpuOf(Decimal(v)) == ToInt(Saturate(v))
  {
    var tok := blanks + Decimal(v);
    var sign, digits := if v < 0 then "-" else "", Digits(if v < 0 then -v else v);
    assert tok == blanks + sign + digits;
    PartsMakeNumeral(tok, blanks, sign, digits);
    DigitsAndBack(if v < 0 then -v else v);
    StrToLIff(tok);
    PrintedNumberTakenIff(v, limit);
  }

  /** strtol takes a token as a whole exactly when it is a numeral, and then yields its saturated value. */
  lemma StrToLIff(tok: string)
    requires tok != []
    ensures StrToL(tok).1 == |tok| <==> IsNumeral(tok)
    ensures IsNumeral(tok) ==> StrToL(tok).0 == Saturate(NumeralValue(tok))
  {
    var sign, u := SpaceRun(tok), Unsigned(tok);
    var digits := if sign < |tok| && (tok[sign] == '-' || tok[sign] == '+') then sign + 1 else sign;
    assert u == tok[digits..];
    AllDigitsRun(u);
    assert u[..|u|] == u;
  }

  /** A token is taken exactly when it is a numeral whose value, saturated and wrapped to an int, is below
      the limit; for a value in the range of int, exactly when the value itself is. */
  lemma AcceptedIff(tok: string, limit: int)
    requires tok != []
    ensures Accepted(tok, limit) <==> IsNumeral(tok) && ToInt(Saturate(NumeralValue(tok))) < limit
    ensures IsNumeral(tok) && INT_MIN <= NumeralValue(tok) <= INT_MAX ==>
      (Accepted(tok, limit) <==> NumeralValue(tok) < limit) && CpuOf(tok) == NumeralValue(tok)
  {
    StrToLIff(tok);
  }

  /** A printed number is taken exactly when it is below the limit after wrapping to an int. */
  lemma PrintedNumberTakenIff(v: int, limit: int)
    ensures Accepted(Decimal(v), limit) <==> ToInt(Saturate(v)) < limit
    ensures CpuOf(Decimal(v)) == ToInt(Saturate(v))
  {
    DecimalIsNumeral(v);
    StrToLIff(Decimal(v));
  }

  /** Whether the last 32 bits of a number, read as a signed int, are below the limit. */
  predicate LowBitsBelow(v: int, limit: int) {
    var m := v % 0x1_0000_0000;
    if limit >= 0 then m < limit || m > INT_MAX else INT_MAX < m < 0x1_0000_0000 + limit
  }

  /** When the verdict on a printed number is right. Always in the range of int; a larger number is rejected
      as it should be exactly if long holds it and its low bits are not below the limit, or for a negative
      limit; a smaller one is taken as it should be exactly if its low bits are below the limit or, where
      long does not hold it, if there is a CPU. */
  lemma PrintedNumberRightIff(v: int, limit: int)
    requires INT_MIN <= limit <= INT_MAX
    ensures (Accepted(Decimal(v), limit) <==> v < limit) <==>
      if INT_MIN <= v <= INT_MAX then true
      else if v > LONG_MAX then limit < 0
      else if v < LONG_MIN then limit >= 1
      else if v > INT_MAX then !LowBitsBelow(v, limit)
      else LowBitsBelow(v, limit)
  {
    PrintedNumberTakenIff(v, limit);
    assert ToInt(LONG_MAX) == -1 && ToInt(LONG_MIN) == 0;
    LowBits(v, limit);
  }

  lemma LowBits(v: int, limit: int)
    requires INT_MIN <= limit <= INT_MAX
    ensures ToInt(v) < limit <==> LowBitsBelow(v, limit)
  {
    var m := v % 0x1_0000_0000;
    assert ToInt(v) == if m > INT_MAX then m - 0x1_0000_0000 else m;
  }

  /** Outside the range of int the parser takes numbers that are too large: 2^32 passes for CPU 0. */
  lemma WrappedNumberIsTaken()
    ensures exists v :: v >= 1 && Accepted(Decimal(v), 1) && CpuOf(Decimal(v)) == 0
  {
    var v: int :| v >= 1 && ToInt(Saturate(v)) == 0 by { assert ToInt(Saturate(0x1_0000_0000)) == 0; }
    PrintedNumberTakenIff(v, 1);
  }

  lemma {:induction false} TokensNonEmpty(s: string)
    ensures forall k | 0 <= k < |Tokens(s)| :: Tokens(s)[k] != []
    decreases |s|
  {
    if s == [] {
    } else if s[0] == ',' {
      TokensNonEmpty(s[1..]);
    } else {
      TokensNonEmpty(s[RunLength(s)..]);
    }
  }

  /** The parser fails exactly when some token is malformed or names a CPU beyond the limit, for input whose
      numerals are in the range of int. */
  lemma ParseFailsIff(input: string, limit: int)
    requires forall k | 0 <= k < |Tokens(input)| && IsNumeral(Tokens(input)[k]) ::
      INT_MIN <= NumeralValue(Tokens(input)[k]) <= INT_MAX
    ensures AllAccepted(Tokens(input), limit)
      <==> forall k | 0 <= k < |Tokens(input)| ::
             IsNumeral(Tokens(input)[k]) && NumeralValue(Tokens(input)[k]) < limit
  {
    TokensNonEmpty(input);
    forall k | 0 <= k < |Tokens(input)|
      ensures Accepted(Tokens(input)[k], limit)
        <==> IsNumeral(Tokens(input)[k]) && NumeralValue(Tokens(input)[k]) < limit
    {
      AcceptedIff(Tokens(input)[k], limit);
    }
  }

  // ----- Round trip -----

  lemma {:induction false} DigitsAndBack(n: nat)
    ensures DigitsValue(Digits(n)) == n
  {
    var last := ['0' + (n % 10) as char];
    assert DigitValue(last[0]) == n % 10;
    if n < 10 {
      assert last[..0] == [];
    } else {
      DigitsAndBack(n / 10);
      assert Digits(n)[..|Digits(n)| - 1] == Digits(n / 10);
    }
  }

  /** A printed number is a numeral with its own value. */
  lemma DecimalIsNumeral(v: int)
    ensures IsNumeral(Decimal(v)) && NumeralValue(Decimal(v)) == v
    ensures Decimal(v) != [] && forall k | 0 <= k < |Decimal(v)| :: Decimal(v)[k] != ','
  {
    var s := Decimal(v);
    assert SpaceRun(s) == 0 && s[0..] == s;
    DigitsAndBack(if v < 0 then -v else v);
  }

  lemma TokenFirst(d: string, rest: string)
    requires d != [] && forall k | 0 <= k < |d| :: d[k] != ','
    ensures Tokens(d) == [d] && Tokens(d + "," + rest) == [d] + Tokens(rest)
  {
    FirstToken(d, 0, |d|);
    assert d[0..] == d && d[0..|d|] == d && Tokens(d[|d|..]) == [];
    var s := d + "," + rest;
    FirstToken(s, 0, |d|);
    assert s[0..] == s && s[0..|d|] == d && s[|d|..] == "," + rest && ("," + rest)[1..] == rest;
  }

  lemma {:induction false} TokensOfJoin(cpus: seq<int>)
    ensures Tokens(Join(cpus)) == Decimals(cpus)
  {
    if cpus != [] {
      DecimalIsNumeral(cpus[0]);
      TokenFirst(Decimal(cpus[0]), if |cpus| == 1 then "" else Join(cpus[1..]));
      if |cpus| > 1 { TokensOfJoin(cpus[1..]); }
    }
  }

  /** The printed list parses exactly when all its numbers are below the limit, and then to itself. */
  lemma PrintedListParses(cpus: seq<int>, limit: int)
    requires forall k | 0 <= k < |cpus| :: INT_MIN <= cpus[k] <= INT_MAX
    ensures var toks := Tokens(Join(cpus));
      && |toks| == |cpus|
      && (forall k | 0 <= k < |cpus| :: CpuOf(toks[k]) == cpus[k] && (Accepted(toks[k], limit) <==> cpus[k] < limit))
  {
    TokensOfJoin(cpus);
    forall k | 0 <= k < |cpus|
      ensures CpuOf(Decimal(cpus[k])) == cpus[k] && (Accepted(Decimal(cpus[k]), limit) <==> cpus[k] < limit)
    {
      DecimalIsNumeral(cpus[k]);
      AcceptedIff(Decimal(cpus[k]), limit);
    }
  }

  lemma Between(pre: string, mid: string, post: string)
    ensures (pre + mid + post)[|pre|..|pre| + |mid|] == mid
  {
  }

  /** The list between the brackets of dump_cpuset. */
  method PrintList(cpuset: CpuSet) returns (list: string)
    requires cpuset.nrcpus <= cpuset.cpus.Length
    ensures list == Join(cpuset.cpus[..cpuset.nrcpus])
  {
    var text := cpuset.Dump();
    ghost var inner := Join(cpuset.cpus[..cpuset.nrcpus]);
    ghost var pre, post := "cpuset: [", "]\n";
    Between(pre, inner, post);
    assert |pre| == 9 && |post| == 2 && text == pre + inner + post;
    list := text[9..|text| - 2];
  }

  /** dump_cpuset, then pincpu_parse of the printed list. */
  method ReadBack(cpuset: CpuSet, limit: int) returns (copy: CpuSet, ret: int)
    requires cpuset.nrcpus == cpuset.cpus.Length
    requires forall k | 0 <= k < cpuset.cpus.Length :: INT_MIN <= cpuset.cpus[k] <= INT_MAX
    ensures ret == 0 <==> forall k | 0 <= k < cpuset.cpus.Length :: cpuset.cpus[k] < limit
    ensures ret == 0 ==> copy.nrcpus == cpuset.nrcpus && copy.cpus[..] == cpuset.cpus[..]
  {
    var list := PrintList(cpuset);
    ghost var cpus := cpuset.cpus[..cpuset.nrcpus];
    copy := new CpuSet();
    ret := copy.Parse(list, limit);
    ParsedBack(cpus, limit);
    assert cpuset.cpus[..] == cpus;
    if ret == 0 {
      forall k | 0 <= k < |cpus| ensures copy.cpus[k] == cpus[k] { assert CpuOf(Tokens(list)[k]) == cpus[k]; }
      assert copy.cpus[..] == cpus;
    }
  }

  lemma ParsedBack(cpus: seq<int>, limit: int)
    requires forall k | 0 <= k < |cpus| :: INT_MIN <= cpus[k] <= INT_MAX
    ensures var toks := Tokens(Join(cpus));
      && |toks| == |cpus|
      && (AllAccepted(toks, limit) <==> forall k | 0 <= k < |cpus| :: cpus[k] < limit)
      && (AllAccepted(toks, limit) ==> AcceptedRun(toks, limit) == |cpus|)
      && forall k | 0 <= k < |cpus| :: CpuOf(toks[k]) == cpus[k]
  {
    PrintedListParses(cpus, limit);
    var toks := Tokens(Join(cpus));
    if AllAccepted(toks, limit) { AcceptedRunIs(toks, limit, |cpus|); }
  }
}
