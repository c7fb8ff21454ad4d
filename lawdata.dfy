// Statute metadata (LawData, ReikiData) and the numbering of statute elements
// (ElementNumber): jstatutree/lawdata.py.
module Lawdata {
  import opened Errors
  import opened Strings

  // ---------------------------------------------------------------------------
  // ElementNumber
  // ---------------------------------------------------------------------------

  /** Python's Decimal quantize(Decimal('1')) under the default context: round half to even. */
  function RoundHalfEven(x: real): int
  {
    var f := x.Floor;
    var d := x - f as real;
    if d < 0.5 then f
    else if d > 0.5 then f + 1
    else if f % 2 == 0 then f
    else f + 1
  }

  lemma RoundHalfEvenBounds(x: real)
    ensures -0.5 <= x - RoundHalfEven(x) as real <= 0.5
    ensures x - (x.Floor as real) < 0.5 ==> RoundHalfEven(x) == x.Floor
    ensures x == (x.Floor as real) ==> RoundHalfEven(x) as real == x
  {
  }

  /** What is left after rounding always rounds to zero. */
  lemma RoundResidual(x: real)
    ensures RoundHalfEven(x - RoundHalfEven(x) as real) == 0
  {
    RoundHalfEvenBounds(x);
    var d := x - RoundHalfEven(x) as real;
    if d >= 0.0 {
      assert d.Floor == 0;
    } else {
      assert d.Floor == -1;
    }
  }

  /** The numbers the branch_nums loop collects when it starts from remainder r:
    * while r does not round to zero, scale it by 100, record the rounded value
    * and keep the residue. */
  function BranchNumsFrom(r: real): seq<int>
    decreases if RoundHalfEven(r) == 0 then 0 else 1
  {
    if RoundHalfEven(r) == 0 then []
    else
      var scaled := r * 100.0;
      RoundResidual(scaled);
      [RoundHalfEven(scaled)] + BranchNumsFrom(scaled - RoundHalfEven(scaled) as real)
  }

  /** The number of a statute element. */
  datatype ElementNumber = ElementNumber(num: real)
  {
    /** main_num: the number rounded half to even. */
    function MainNum(): int
    {
      RoundHalfEven(num)
    }

    /** branch_nums: the loop started from num - main_num. */
    function BranchNums(): seq<int>
    {
      BranchNumsFrom(num - MainNum() as real)
    }
  }

  /** The branch_nums loop runs at most once from any start, and never from num - main_num. */
  lemma BranchNumsFromAtMostOne(r: real)
    ensures |BranchNumsFrom(r)| <= 1
  {
    if RoundHalfEven(r) != 0 {
      RoundResidual(r * 100.0);
    }
  }

  lemma BranchNumsAlwaysEmpty(e: ElementNumber)
    ensures e.BranchNums() == []
  {
    RoundResidual(e.num);
  }

  /** The while loop of ElementNumber.branch_nums, over a remainder. */
  method BranchNumsLoop(remainder: real) returns (branchNums: seq<int>)
    ensures branchNums == BranchNumsFrom(remainder)
  {
    branchNums := [];
    var num := remainder;
    while RoundHalfEven(num) != 0
      invariant branchNums + BranchNumsFrom(num) == BranchNumsFrom(remainder)
      decreases if RoundHalfEven(num) == 0 then 0 else 1
    {
      num := num * 100.0;
      RoundResidual(num);
      branchNums := branchNums + [RoundHalfEven(num)];
      num := num - RoundHalfEven(num) as real;
    }
  }

  /** The accepted numbering strings: ^[0-9]+(?:_[0-9]+)*$ under re.match, whose $
    * also matches in front of one final newline. */
  predicate NumberFormat(s: string)
  {
    UnderscoredDigits(s) || (|s| > 1 && s[|s| - 1] == '\n' && UnderscoredDigits(s[..|s| - 1]))
  }

  /** Decimal() ignores surrounding whitespace; a token here can only carry a final newline. */
  function DropNewline(t: string): string
  {
    if |t| > 0 && t[|t| - 1] == '\n' then t[..|t| - 1] else t
  }

  predicate ValidToken(t: string)
  {
    |DropNewline(t)| > 0 && AllDigits(DropNewline(t))
  }

  /** Decimal(t) for a token. */
  function TokenValue(t: string): nat
  {
    DigitsValue(DropNewline(t))
  }

  function TokenValues(ts: seq<string>): (vs: seq<nat>)
  {
    seq(|ts|, k requires 0 <= k < |ts| => TokenValue(ts[k]))
  }

  /** The value of tokens t0_t1_t2...: t0 + t1/1000 + t2/1000^2 + ... */
  function Horner(vs: seq<nat>): real
  {
    if vs == [] then 0.0 else vs[0] as real + Horner(vs[1..]) / 1000.0
  }

  lemma {:induction false} SplitUnderscored(s: string)
    requires UnderscoredDigits(s)
    ensures forall k :: 0 <= k < |Split(s, '_')| ==> |Split(s, '_')[k]| > 0 && AllDigits(Split(s, '_')[k])
    decreases |s|
  {
    var r := Split(s, '_');
    assert s == [s[0]] + s[1..];
    SplitCons(s[0], s[1..], '_');
    if |s| == 1 {
      assert r == [s];
    } else if s[1] == '_' {
      var u := s[2..];
      assert |u| > 0 by { assert s[|s| - 1] != '_'; }
      assert UnderscoredDigits(u) by {
        assert s[2] != '_';
        forall i | 0 <= i < |u| - 1 && u[i] == '_' ensures u[i + 1] != '_' {
          assert s[i + 2] == '_';
        }
      }
      SplitUnderscored(u);
      assert s[1..] == ['_'] + u;
      SplitCons('_', u, '_');
      var rest := Split(s[1..], '_');
      assert rest[1..] == Split(u, '_');
      assert [s[0]] + rest[0] == [s[0]];
      assert r == [[s[0]]] + Split(u, '_');
    } else {
      var u := s[1..];
      assert UnderscoredDigits(u) by {
        forall i | 0 <= i < |u| - 1 && u[i] == '_' ensures u[i + 1] != '_' {
          assert s[i + 1] == '_';
        }
      }
      SplitUnderscored(u);
      var rest := Split(u, '_');
      assert r == [[s[0]] + rest[0]] + rest[1..];
      assert AllDigits([s[0]] + rest[0]);
    }
  }

  lemma {:induction false} SplitAppendChar(u: string, c: char)
    requires c != '_'
    ensures var R := Split(u, '_');
      Split(u + [c], '_') == R[..|R| - 1] + [R[|R| - 1] + [c]]
    decreases |u|
  {
    var R := Split(u, '_');
    if u == [] {
      SplitCons(c, [], '_');
      assert u + [c] == [c] + [];
    } else {
      var v := u[1..];
      assert u == [u[0]] + v;
      assert u + [c] == [u[0]] + (v + [c]);
      SplitCons(u[0], v, '_');
      SplitCons(u[0], v + [c], '_');
      SplitAppendChar(v, c);
      var S := Split(v, '_');
      if u[0] == '_' {
        assert R == [""] + S;
      } else {
        assert R == [[u[0]] + S[0]] + S[1..];
        if |S| == 1 {
          assert Split(v + [c], '_') == [S[0] + [c]];
          assert [u[0]] + S[0] + [c] == [u[0]] + (S[0] + [c]);
          assert R[..|R| - 1] == [];
        } else {
          assert Split(v + [c], '_') == S[..|S| - 1] + [S[|S| - 1] + [c]];
        }
      }
    }
  }

  /** Every piece of an accepted numbering string is a decimal token. */
  lemma FormatTokens(s: string)
    requires NumberFormat(s)
    ensures forall k :: 0 <= k < |Split(s, '_')| ==> ValidToken(Split(s, '_')[k])
  {
    if UnderscoredDigits(s) {
      SplitUnderscored(s);
      forall k | 0 <= k < |Split(s, '_')| ensures ValidToken(Split(s, '_')[k]) {
        var t := Split(s, '_')[k];
        assert t[|t| - 1] != '\n';
      }
    } else {
      var u := s[..|s| - 1];
      SplitUnderscored(u);
      assert s == u + ['\n'];
      SplitAppendChar(u, '\n');
      var R := Split(u, '_');
      forall k | 0 <= k < |Split(s, '_')| ensures ValidToken(Split(s, '_')[k]) {
        if k < |R| - 1 {
          var t := R[k];
          assert Split(s, '_')[k] == t;
          assert t[|t| - 1] != '\n';
        } else {
          assert Split(s, '_')[k] == R[|R| - 1] + ['\n'];
          assert DropNewline(R[|R| - 1] + ['\n']) == R[|R| - 1];
        }
      }
    }
  }

  /** str_to_decimal as a value: "" is 1, a malformed string is an error, otherwise
    * the tokens between underscores weighted by powers of 1/1000. */
  function Decode(s: string): Result<real>
  {
    if s == "" then Ok(1.0)
    else if !NumberFormat(s) then Err(LawElementNumberError("Invalid Format " + s))
    else Ok(Horner(TokenValues(Split(s, '_'))))
  }

  /** ElementNumber.str_to_decimal: the empty string, the format check, then the loop
    * that adds each token times a multiplier that is divided by 1000 per token. */
  method StrToDecimal(strnum: string) returns (r: Result<real>)
    ensures r == Decode(strnum)
  {
    if strnum == "" {
      return Ok(1.0);
    }
    if !NumberFormat(strnum) {
      return Err(LawElementNumberError("Invalid Format " + strnum));
    }
    var num := SumTokens(Split(strnum, '_'));
    return Ok(num);
  }

  /** The multiplier in force for token i: 1/1000^i. */
  function Weight(i: nat): real
  {
    if i == 0 then 1.0 else Weight(i - 1) / 1000.0
  }

  /** Appending a token to the digits read so far adds its value at the next weight. */
  lemma {:induction false} HornerAppend(vs: seq<nat>, v: nat)
    ensures Horner(vs + [v]) == Horner(vs) + v as real * Weight(|vs|)
    decreases |vs|
  {
    if vs != [] {
      assert (vs + [v])[1..] == vs[1..] + [v];
      HornerAppend(vs[1..], v);
      var w := Weight(|vs| - 1);
      assert (v as real * w) / 1000.0 == v as real * (w / 1000.0);
    }
  }

  /** The for loop of str_to_decimal: num accumulates each token times mul, and mul
    * is divided by 1000 after every token. */
  method SumTokens(tokens: seq<string>) returns (num: real)
    ensures num == Horner(TokenValues(tokens))
  {
    ghost var values := TokenValues(tokens);
    num := 0.0;
    var mul := 1.0;
    var i := 0;
    while i < |tokens|
      invariant 0 <= i <= |tokens|
      invariant num == Horner(values[..i]) && mul == Weight(i)
    {
      var v := TokenValue(tokens[i]);
      assert num + v as real * mul == Horner(values[..i + 1]) by {
        assert values[..i + 1] == values[..i] + [values[i]];
        HornerAppend(values[..i], v);
      }
      num := num + v as real * mul;
      mul := mul / 1000.0;
      i := i + 1;
    }
    assert values[..i] == values;
  }

  /** The argument forms the ElementNumber constructor accepts. */
  datatype NumberArg =
    | IntArg(i: int)
    | StrArg(s: string)
    | DecimalArg(d: real)
    | ElementNumberArg(n: ElementNumber)
    | OtherArg(typeName: string)

  /** ElementNumber(arg), as ElementNumber.__init__ dispatches on the type of arg. */
  function NewElementNumber(arg: NumberArg): Result<ElementNumber>
  {
    match arg
    case IntArg(i) => Ok(ElementNumber(i as real))
    case StrArg(s) =>
      var v :- Decode(s);
      Ok(ElementNumber(v))
    case DecimalArg(d) => Ok(ElementNumber(d))
    case ElementNumberArg(n) => Ok(ElementNumber(n.num))
    case OtherArg(t) => Err(TypeError("Invalid type for init ElementNumber: " + t))
  }

  lemma DecodeEmptyIsOne()
    ensures NewElementNumber(StrArg("")) == Ok(ElementNumber(1.0))
  {
  }

  /** A single token decodes to its decimal value. */
  lemma DecodeSingleToken(n: nat)
    ensures NewElementNumber(StrArg(NatToString(n))) == Ok(ElementNumber(n as real))
  {
    var s := NatToString(n);
    assert IsAsciiDigit(s[0]) && IsAsciiDigit(s[|s| - 1]);
    assert UnderscoredDigits(s);
    assert NumberFormat(s);
    SplitUnderscoredSingle(s);
    DigitsValueOfNatToString(n);
    assert DropNewline(s) == s;
    assert TokenValues([s]) == [n];
    assert Horner([n]) == n as real;
  }

  /** The other argument forms: an int and its decimal string give the same number, a
    * Decimal is kept, an ElementNumber is copied, and any other type is a TypeError. */
  lemma ArgumentForms(n: nat, d: real, e: ElementNumber, typeName: string)
    ensures NewElementNumber(IntArg(n)) == NewElementNumber(StrArg(NatToString(n)))
    ensures NewElementNumber(DecimalArg(d)) == Ok(ElementNumber(d))
    ensures NewElementNumber(ElementNumberArg(e)) == Ok(e)
    ensures NewElementNumber(OtherArg(typeName)).Err?
    ensures NewElementNumber(OtherArg(typeName)).error.TypeError?
  {
    DecodeSingleToken(n);
  }

  lemma {:induction false} SplitUnderscoredSingle(s: string)
    requires AllDigits(s)
    ensures Split(s, '_') == [s]
    decreases |s|
  {
    if s != [] {
      assert s == [s[0]] + s[1..];
      SplitCons(s[0], s[1..], '_');
      SplitUnderscoredSingle(s[1..]);
    }
  }

  /** Strings outside the numbering grammar are rejected with LawElementNumberError. */
  lemma DecodeRejects(s: string)
    ensures NewElementNumber(StrArg(s)).Err? <==> s != "" && !NumberFormat(s)
    ensures NewElementNumber(StrArg(s)).Err? ==> NewElementNumber(StrArg(s)).error.LawElementNumberError?
  {
  }

  /** With every branch token below 1000, the branch part is in [0, 1000). */
  lemma {:induction false} HornerBounds(vs: seq<nat>)
    requires forall k :: 0 <= k < |vs| ==> vs[k] < 1000
    ensures 0.0 <= Horner(vs) < 1000.0
    ensures |vs| > 0 ==> Horner(vs) < vs[0] as real + 1.0
  {
    if vs != [] {
      HornerBounds(vs[1..]);
    }
  }

  /** The tokens can be read back from the value: with every token after the first below
    * 1000, two lists of the same length with the same value are the same list (the
    * first token is the integral part, the rest the fraction scaled by 1000). */
  lemma {:induction false} HornerInjective(vs: seq<nat>, ws: seq<nat>)
    requires |vs| == |ws|
    requires forall k :: 1 <= k < |vs| ==> vs[k] < 1000
    requires forall k :: 1 <= k < |ws| ==> ws[k] < 1000
    requires Horner(vs) == Horner(ws)
    ensures vs == ws
    decreases |vs|
  {
    if vs != [] {
      var rv, rw := vs[1..], ws[1..];
      HornerBounds(rv);
      HornerBounds(rw);
      assert (vs[0] as real + Horner(rv) / 1000.0).Floor == vs[0];
      assert (ws[0] as real + Horner(rw) / 1000.0).Floor == ws[0];
      assert vs[0] == ws[0];
      HornerInjective(rv, rw);
      assert vs == [vs[0]] + rv && ws == [ws[0]] + rw;
    }
  }

  /** main_num of a decoded number is its leading token when the first branch token is
    * below 500 (so "3_12" has main number 3) and every branch token is below 1000. */
  lemma MainNumIsLeadingToken(vs: seq<nat>)
    requires |vs| > 0
    requires forall k :: 1 <= k < |vs| ==> vs[k] < 1000
    requires |vs| > 1 ==> vs[1] < 500
    ensures ElementNumber(Horner(vs)).MainNum() == vs[0]
  {
    var rest := vs[1..];
    HornerBounds(rest);
    var x := Horner(vs);
    assert 0.0 <= Horner(rest) < 500.0;
    assert vs[0] as real <= x < vs[0] as real + 0.5;
    assert x.Floor == vs[0];
  }

  /** re.match's $ lets one final newline through and Decimal() drops it. */
  lemma DecodeTrailingNewline(u: string)
    requires UnderscoredDigits(u)
    ensures Decode(u + "\n") == Decode(u)
  {
    var s := u + "\n";
    assert s[..|s| - 1] == u;
    assert NumberFormat(s);
    SplitAppendChar(u, '\n');
    SplitUnderscored(u);
    SameTokenValues(Split(u, '_'), Split(s, '_'));
  }

  lemma SameTokenValues(R: seq<string>, T: seq<string>)
    requires |R| > 0 && T == R[..|R| - 1] + [R[|R| - 1] + ['\n']]
    requires forall k :: 0 <= k < |R| ==> |R[k]| > 0 && AllDigits(R[k])
    requires forall k :: 0 <= k < |R| ==> ValidToken(R[k])
    requires forall k :: 0 <= k < |T| ==> ValidToken(T[k])
    ensures TokenValues(T) == TokenValues(R)
  {
    var n := |R| - 1;
    assert |T| == |R|;
    forall k | 0 <= k < |R| ensures TokenValue(T[k]) == TokenValue(R[k]) {
      if k < n {
        assert T[k] == R[k];
      } else {
        var last := R[n];
        assert T[k] == last + ['\n'];
        assert last[|last| - 1] != '\n';
        assert (last + ['\n'])[..|last|] == last;
        assert DropNewline(T[k]) == last;
      }
    }
  }

  // ---------------------------------------------------------------------------
  // LawData and ReikiData
  // ---------------------------------------------------------------------------

  /** is_reiki on a law number: it names an ordinance (条例) or a rule (規則). */
  predicate IsReikiNumber(lawnum: string)
  {
    Contains(lawnum, "条例") || Contains(lawnum, "規則")
  }

  lemma IsReikiNumberIff(lawnum: string)
    ensures IsReikiNumber(lawnum) <==>
              (exists i :: OccursAt(lawnum, "条例", i)) || (exists i :: OccursAt(lawnum, "規則", i))
  {
    ContainsIff(lawnum, "条例");
    ContainsIff(lawnum, "規則");
  }

  /** Any law number carrying 条例 or 規則 somewhere is a reiki number. */
  lemma IsReikiNumberOfInfix(pre: string, word: string, post: string)
    requires word == "条例" || word == "規則"
    ensures IsReikiNumber(pre + word + post)
  {
    var s := pre + word + post;
    assert s[|pre|..|pre| + |word|] == word;
    assert OccursAt(s, word, |pre|);
    IsReikiNumberIff(s);
  }

  /** The default law number and a notice number (告示) are not reiki numbers. */
  lemma NotReikiNumbers()
    ensures !IsReikiNumber("UNK")
    ensures !IsReikiNumber("告示")
  {
    assert "UNK"[1..] == "NK" && "NK"[1..] == "K" && "K"[1..] == "";
    assert !Contains("", "条例") && !Contains("", "規則");
    assert !Contains("K", "条例") && !Contains("K", "規則");
    assert !Contains("NK", "条例") && !Contains("NK", "規則") by {
      assert "NK"[..2][0] == 'N';
    }
    assert !Contains("UNK", "条例") && !Contains("UNK", "規則") by {
      assert "UNK"[..2][0] == 'U';
    }
    assert "告示"[1..] == "示" && "示"[1..] == "";
    assert !Contains("示", "条例") && !Contains("示", "規則");
    assert !Contains("告示", "条例") && !Contains("告示", "規則") by {
      assert "告示"[..2][0] == '告';
    }
  }

  /** The metadata of a statute: name and law number, "UNK" while unset. The builder
    * also assigns a title attribute, which this class models as an optional field. */
  class LawData {
    var name: Option<string>
    var lawnum: Option<string>
    var title: Option<string>

    constructor()
      ensures name == None && lawnum == None && title == None
    {
      name := None;
      lawnum := None;
      title := None;
    }

    /** The name property: "UNK" until a name is set. */
    function Name(): (r: string)
      reads this
      ensures name.None? ==> r == "UNK"
      ensures name.Some? ==> r == name.value
    {
      name.GetOr("UNK")
    }

    /** The lawnum property: "UNK" until a law number is set. */
    function Lawnum(): (r: string)
      reads this
      ensures lawnum.None? ==> r == "UNK"
      ensures lawnum.Some? ==> r == lawnum.value
    {
      lawnum.GetOr("UNK")
    }

    method SetName(n: Option<string>)
      modifies this
      ensures name == n && lawnum == old(lawnum) && title == old(title)
    {
      name := n;
    }

    method SetLawnum(n: Option<string>)
      modifies this`lawnum
      ensures lawnum == n && name == old(name) && title == old(title)
    {
      lawnum := n;
    }

    method SetTitle(t: Option<string>)
      modifies this`title
      ensures title == t && name == old(name) && lawnum == old(lawnum)
    {
      title := t;
    }

    predicate IsReiki()
      reads this
    {
      IsReikiNumber(Lawnum())
    }

    /** The code of plain metadata is its law number. */
    function Code(): (r: string)
      reads this
      ensures r == Lawnum()
    {
      Lawnum()
    }
  }

  /** Unset metadata reads "UNK" and is not a reiki. */
  lemma FreshLawDataIsNotReiki(d: LawData)
    requires d.name == None && d.lawnum == None
    ensures d.Name() == "UNK" && d.Lawnum() == "UNK" && d.Code() == "UNK"
    ensures !d.IsReiki()
  {
    NotReikiNumbers();
  }

  /** Arguments of the code setters: isinstance(val, (str, int)) admits these two. */
  datatype CodeArg = IntCode(i: int) | StrCode(s: string) | OtherCode(repr: string)

  const DefaultCode := "00/000000/0000"

  function ArgText(val: CodeArg): string
  {
    match val
    case IntCode(i) => IntToString(i)
    case StrCode(s) => s
    case OtherCode(r) => r
  }

  /** The shared body of the three setters: the type assertion, int(val), the range
    * assertion lo <= int(val) < hi, and "{0:0<width>}".format(int(val)). */
  function CheckedCode(field: string, val: CodeArg, lo: int, hi: int, width: nat): (r: Result<string>)
    ensures r.Ok? ==> AllDigits(r.value)
    ensures r.Ok? && 0 < width && hi <= Pow10(width) ==> |r.value| == width
    ensures val.IntCode? && 0 <= lo <= val.i < hi ==> r == Ok(ZeroPadded(val.i, width))
    ensures val.OtherCode? ==> r == Err(AssertionError("invalid " + field + ArgText(val)))
  {
    var n :- match val
      case IntCode(i) => Ok(i)
      case StrCode(s) => PyInt(s)
      case OtherCode(_) => Err(AssertionError("invalid " + field + ArgText(val)));
    if lo <= n < hi && n >= 0 then
      (if 0 < width && hi <= Pow10(width) then ZeroPaddedLength(n, width); Ok(ZeroPadded(n, width))
       else Ok(ZeroPadded(n, width)))
    else Err(AssertionError("invalid " + field + ArgText(val)))
  }

  /** The setters accept exactly the in-range values, whether given as int or as a
    * digit string, and read them back through int(). */
  lemma CheckedCodeRoundTrip(field: string, n: nat, lo: nat, hi: int, width: nat)
    ensures CheckedCode(field, IntCode(n), lo, hi, width).Ok? <==> lo <= n < hi
    ensures CheckedCode(field, StrCode(ZeroPadded(n, width)), lo, hi, width).Ok? <==> lo <= n < hi
    ensures lo <= n < hi ==>
              CheckedCode(field, StrCode(ZeroPadded(n, width)), lo, hi, width) == Ok(ZeroPadded(n, width))
    ensures lo <= n < hi ==> PyInt(CheckedCode(field, IntCode(n), lo, hi, width).value) == Ok(n)
  {
    PyIntOfZeroPadded(n, width);
  }

  /** The joined code "pp/mmmmmm/ffff". */
  function JoinCodes(pref: string, muni: string, file: string): string
  {
    pref + "/" + muni + "/" + file
  }

  /** The joined code splits back into its three parts. */
  lemma JoinCodesSplit(pref: string, muni: string, file: string)
    requires AllDigits(pref) && AllDigits(muni) && AllDigits(file)
    ensures Split(JoinCodes(pref, muni, file), '/') == [pref, muni, file]
  {
    assert JoinCodes(pref, muni, file) == pref + ['/'] + (muni + ['/'] + file);
    SplitSeparated(pref, '/', muni + ['/'] + file);
    SplitSeparated(muni, '/', file);
    SplitNoSeparator(file, '/');
  }

  /** int(municipality_code) * 10000 + int(file_code) on digit fields. */
  function IdOf(muni: string, file: string): nat
  {
    DigitsValue(muni) * 10000 + DigitsValue(file)
  }

  /** On non-empty digit fields both int() calls succeed and IdOf is their combination. */
  lemma IdOfIsInt(muni: string, file: string)
    requires |muni| > 0 && AllDigits(muni) && |file| > 0 && AllDigits(file)
    ensures PyInt(muni).Ok? && PyInt(file).Ok?
    ensures IdOf(muni, file) == PyInt(muni).value * 10000 + PyInt(file).value
  {
    PyIntOfDigits(muni);
    PyIntOfDigits(file);
  }

  /** id recovers the municipality and file numbers that were set. */
  lemma IdOfPadded(m: nat, f: nat)
    requires f < 10000
    ensures IdOf(ZeroPadded(m, 6), ZeroPadded(f, 4)) == m * 10000 + f
    ensures IdOf(ZeroPadded(m, 6), ZeroPadded(f, 4)) / 10000 == m
    ensures IdOf(ZeroPadded(m, 6), ZeroPadded(f, 4)) % 10000 == f
  {
    ZeroPaddedValue(m, 6);
    ZeroPaddedValue(f, 4);
  }

  /** The metadata of a municipal regulation (reiki): prefecture, municipality and
    * file codes, with the code and the id memoised. ReikiData extends LawData; the
    * inherited part is the base object. */
  class ReikiData {
    const base: LawData
    var prefectureCode: string
    var municipalityCode: string
    var fileCode: string
    var cachedCode: string
    var cachedId: int

    /** Every code field is a digit string of its fixed width. */
    predicate Valid()
      reads this
    {
      |prefectureCode| == 2 && AllDigits(prefectureCode)
      && |municipalityCode| == 6 && AllDigits(municipalityCode)
      && |fileCode| == 4 && AllDigits(fileCode)
    }

    constructor()
      ensures fresh(base) && base.name == None && base.lawnum == None && base.title == None
      ensures prefectureCode == "00" && municipalityCode == "000000" && fileCode == "0000"
      ensures cachedCode == DefaultCode && cachedId == 0
      ensures Valid()
    {
      base := new LawData();
      prefectureCode := "00";
      municipalityCode := "000000";
      fileCode := "0000";
      cachedCode := DefaultCode;
      cachedId := 0;
    }

    /** The prefecture_code setter: 0 < int(val) <= 47, stored with width 2. */
    method SetPrefectureCode(val: CodeArg) returns (r: Result<()>)
      modifies this
      ensures var c := CheckedCode("prefecture_code", val, 1, 48, 2);
              (c.Ok? ==> r == Ok(()) && prefectureCode == c.value)
              && (c.Err? ==> r == Err(c.error) && prefectureCode == old(prefectureCode))
      ensures municipalityCode == old(municipalityCode) && fileCode == old(fileCode)
      ensures cachedCode == old(cachedCode) && cachedId == old(cachedId)
      ensures old(Valid()) ==> Valid()
    {
      var c := CheckedCode("prefecture_code", val, 1, 48, 2);
      if c.Err? {
        return Err(c.error);
      }
      prefectureCode := c.value;
      r := Ok(());
    }

    /** The municipality_code setter: 10000 <= int(val) < 480000, stored with width 6. */
    method SetMunicipalityCode(val: CodeArg) returns (r: Result<()>)
      modifies this
      ensures var c := CheckedCode("municipality_code", val, 10000, 480000, 6);
              (c.Ok? ==> r == Ok(()) && municipalityCode == c.value)
              && (c.Err? ==> r == Err(c.error) && municipalityCode == old(municipalityCode))
      ensures prefectureCode == old(prefectureCode) && fileCode == old(fileCode)
      ensures cachedCode == old(cachedCode) && cachedId == old(cachedId)
      ensures old(Valid()) ==> Valid()
    {
      var c := CheckedCode("municipality_code", val, 10000, 480000, 6);
      if c.Err? {
        return Err(c.error);
      }
      municipalityCode := c.value;
      r := Ok(());
    }

    /** The file_code setter: 0 <= int(val) < 10000, stored with width 4. */
    method SetFileCode(val: CodeArg) returns (r: Result<()>)
      modifies this
      ensures var c := CheckedCode("file_code", val, 0, 10000, 4);
              (c.Ok? ==> r == Ok(()) && fileCode == c.value)
              && (c.Err? ==> r == Err(c.error) && fileCode == old(fileCode))
      ensures prefectureCode == old(prefectureCode) && municipalityCode == old(municipalityCode)
      ensures cachedCode == old(cachedCode) && cachedId == old(cachedId)
      ensures old(Valid()) ==> Valid()
    {
      var c := CheckedCode("file_code", val, 0, 10000, 4);
      if c.Err? {
        return Err(c.error);
      }
      fileCode := c.value;
      r := Ok(());
    }

    /** What the code property returns in the current state: the memo, unless it
      * still holds the default, in which case the freshly joined fields. */
    function CodeNow(): string
      reads this
    {
      if cachedCode == DefaultCode then JoinCodes(prefectureCode, municipalityCode, fileCode)
      else cachedCode
    }

    /** The code property. Once memoised, later setter calls no longer change it. */
    method Code() returns (r: string)
      modifies this
      ensures r == old(CodeNow()) && cachedCode == r
      ensures CodeNow() == r
      ensures prefectureCode == old(prefectureCode) && municipalityCode == old(municipalityCode)
      ensures fileCode == old(fileCode) && cachedId == old(cachedId)
    {
      if cachedCode == DefaultCode {
        cachedCode := JoinCodes(prefectureCode, municipalityCode, fileCode);
      }
      r := cachedCode;
    }

    /** What the id property returns in the current state. */
    function IdNow(): int
      reads this
    {
      if cachedId == 0 then IdOf(municipalityCode, fileCode) else cachedId
    }

    /** The id property: int(municipality_code) * 10000 + int(file_code), memoised
      * once non-zero. */
    method Id() returns (r: int)
      requires Valid()
      modifies this`cachedId
      ensures r == old(IdNow())
      ensures cachedId == r
      ensures IdNow() == r
    {
      if cachedId == 0 {
        cachedId := IdOf(municipalityCode, fileCode);
      }
      r := cachedId;
    }

    /** __eq__ against a ReikiData (Some) or any other object (None): both codes are read,
      * which memoises them, and compared. */
    method Equals(other: Option<ReikiData>) returns (b: bool)
      modifies this, if other.Some? then {other.value} else {}
      ensures other.None? ==> !b && cachedCode == old(cachedCode)
      ensures other.Some? ==> b == (old(CodeNow()) == old(other.value.CodeNow()))
      ensures other.Some? ==> cachedCode == old(CodeNow()) && other.value.cachedCode == old(other.value.CodeNow())
      ensures prefectureCode == old(prefectureCode) && municipalityCode == old(municipalityCode)
      ensures fileCode == old(fileCode) && cachedId == old(cachedId)
    {
      if other.None? {
        return false;
      }
      var o := other.value;
      var mine := Code();
      var theirs := o.Code();
      b := mine == theirs;
    }
  }

  /** The three codes set in range give the code "pp/mmmmmm/ffff" of the padded values,
    * which differs from the default, and its parts parse back to the numbers that were set. */
  lemma ReikiCodeOfSetValues(p: nat, m: nat, f: nat)
    requires 0 < p <= 47 && 10000 <= m < 480000 && f < 10000
    ensures var code := JoinCodes(ZeroPadded(p, 2), ZeroPadded(m, 6), ZeroPadded(f, 4));
            |code| == 14 && code != DefaultCode
            && Split(code, '/') == [ZeroPadded(p, 2), ZeroPadded(m, 6), ZeroPadded(f, 4)]
            && PyInt(Split(code, '/')[0]) == Ok(p) && PyInt(Split(code, '/')[1]) == Ok(m)
            && PyInt(Split(code, '/')[2]) == Ok(f)
  {
    PaddedParts(p, m, f);
    CodeOfParts(ZeroPadded(p, 2), ZeroPadded(m, 6), ZeroPadded(f, 4));
  }

  lemma CodeOfParts(pp: string, mm: string, ff: string)
    requires AllDigits(pp) && AllDigits(mm) && AllDigits(ff)
    requires |pp| == 2 && |mm| == 6 && |ff| == 4 && DigitsValue(pp) > 0
    ensures |JoinCodes(pp, mm, ff)| == 14 && JoinCodes(pp, mm, ff) != DefaultCode
    ensures Split(JoinCodes(pp, mm, ff), '/') == [pp, mm, ff]
  {
    JoinCodesSplit(pp, mm, ff);
    var code := JoinCodes(pp, mm, ff);
    assert code[..2] == pp;
    assert DefaultCode[..2] == Repeat('0', 2);
    ZerosValue(2);
  }

  lemma PaddedParts(p: nat, m: nat, f: nat)
    requires 0 < p <= 47 && 10000 <= m < 480000 && f < 10000
    ensures |ZeroPadded(p, 2)| == 2 && |ZeroPadded(m, 6)| == 6 && |ZeroPadded(f, 4)| == 4
    ensures PyInt(ZeroPadded(p, 2)) == Ok(p) && PyInt(ZeroPadded(m, 6)) == Ok(m)
    ensures PyInt(ZeroPadded(f, 4)) == Ok(f)
    ensures DigitsValue(ZeroPadded(p, 2)) == p
  {
    assert Pow10(2) == 100 && Pow10(4) == 10000;
    assert Pow10(6) == 1000000;
    ZeroPaddedLength(p, 2);
    ZeroPaddedLength(m, 6);
    ZeroPaddedLength(f, 4);
    PyIntOfZeroPadded(p, 2);
    PyIntOfZeroPadded(m, 6);
    PyIntOfZeroPadded(f, 4);
    ZeroPaddedValue(p, 2);
  }
}
