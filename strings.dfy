// Text helpers shared by the model: decimal rendering and parsing, Python's
// whitespace stripping, substring tests, joining, splitting and template filling.
module Strings {
  import opened Errors

  predicate IsAsciiDigit(c: char)
  {
    '0' <= c <= '9'
  }

  predicate AllDigits(s: string)
  {
    forall i :: 0 <= i < |s| ==> IsAsciiDigit(s[i])
  }

  /** The value of a decimal digit (0 for any other character). */
  function DigitValue(c: char): (d: nat)
    ensures d < 10
  {
    if IsAsciiDigit(c) then (c as int) - ('0' as int) else 0
  }

  function DigitChar(d: nat): (c: char)
    requires d < 10
    ensures IsAsciiDigit(c) && DigitValue(c) == d
  {
    (('0' as int) + d) as char
  }

  /** The value of a string of decimal digits, most significant first. */
  function DigitsValue(s: string): nat
  {
    if s == [] then 0 else 10 * DigitsValue(s[..|s| - 1]) + DigitValue(s[|s| - 1])
  }

  /** Python's str(n) for a non-negative integer. */
  function NatToString(n: nat): (s: string)
    ensures |s| > 0 && AllDigits(s)
    ensures n > 0 ==> s[0] != '0'
  {
    if n < 10 then [DigitChar(n)] else NatToString(n / 10) + [DigitChar(n % 10)]
  }

  /** Python's str(i) for any integer. */
  function IntToString(i: int): string
  {
    if i < 0 then "-" + NatToString(-i) else NatToString(i)
  }

  lemma {:induction false} DigitsValueOfNatToString(n: nat)
    ensures DigitsValue(NatToString(n)) == n
  {
    if n >= 10 {
      var s := NatToString(n / 10) + [DigitChar(n % 10)];
      assert s[..|s| - 1] == NatToString(n / 10);
      DigitsValueOfNatToString(n / 10);
    }
  }

  lemma NatToStringInjective(a: nat, b: nat)
    requires NatToString(a) == NatToString(b)
    ensures a == b
  {
    DigitsValueOfNatToString(a);
    DigitsValueOfNatToString(b);
  }

  lemma IntToStringInjective(a: int, b: int)
    requires IntToString(a) == IntToString(b)
    ensures a == b
  {
    if a < 0 && b < 0 {
      assert IntToString(a)[1..] == NatToString(-a);
      assert IntToString(b)[1..] == NatToString(-b);
      NatToStringInjective(-a, -b);
    } else if a >= 0 && b >= 0 {
      NatToStringInjective(a, b);
    }
  }

  function Repeat(c: char, n: nat): (s: string)
    ensures |s| == n && forall i :: 0 <= i < n ==> s[i] == c
  {
    if n == 0 then [] else [c] + Repeat(c, n - 1)
  }

  /** "{0:0w}".format(n): the decimal digits of n left-padded with zeros to width w. */
  function ZeroPadded(n: nat, width: nat): (s: string)
    ensures AllDigits(s)
  {
    var digits := NatToString(n);
    (if |digits| < width then Repeat('0', width - |digits|) else []) + digits
  }

  lemma {:induction false} DigitsValueLeadingZeros(k: nat, s: string)
    requires AllDigits(s)
    ensures AllDigits(Repeat('0', k) + s) && DigitsValue(Repeat('0', k) + s) == DigitsValue(s)
  {
    if s != [] {
      var t := Repeat('0', k) + s;
      assert t[..|t| - 1] == Repeat('0', k) + s[..|s| - 1];
      DigitsValueLeadingZeros(k, s[..|s| - 1]);
    } else {
      ZerosValue(k);
      assert Repeat('0', k) + s == Repeat('0', k);
    }
  }

  lemma {:induction false} ZerosValue(k: nat)
    ensures DigitsValue(Repeat('0', k)) == 0
  {
    if k > 0 {
      var z := Repeat('0', k);
      assert z[..k - 1] == Repeat('0', k - 1);
      ZerosValue(k - 1);
    }
  }

  lemma ZeroPaddedValue(n: nat, width: nat)
    ensures DigitsValue(ZeroPadded(n, width)) == n
    ensures |ZeroPadded(n, width)| == if |NatToString(n)| < width then width else |NatToString(n)|
  {
    var digits := NatToString(n);
    DigitsValueOfNatToString(n);
    if |digits| < width {
      DigitsValueLeadingZeros(width - |digits|, digits);
    } else {
      assert ZeroPadded(n, width) == digits;
    }
  }

  lemma {:induction false} NatToStringLength(n: nat, k: nat)
    requires n < Pow10(k)
    ensures |NatToString(n)| <= if k == 0 then 1 else k
  {
    if n >= 10 {
      NatToStringLength(n / 10, k - 1);
    }
  }

  /** A number with at most width digits is padded to exactly width characters. */
  lemma ZeroPaddedLength(n: nat, width: nat)
    requires 0 < width && n < Pow10(width)
    ensures |ZeroPadded(n, width)| == width
  {
    ZeroPaddedValue(n, width);
    NatToStringLength(n, width);
  }

  function Pow10(k: nat): nat
  {
    if k == 0 then 1 else 10 * Pow10(k - 1)
  }

  predicate StartsWith(s: string, p: string)
  {
    |p| <= |s| && s[..|p|] == p
  }

  /** p occurs in s starting at index i. */
  predicate OccursAt(s: string, p: string, i: int)
  {
    0 <= i && i + |p| <= |s| && s[i..i + |p|] == p
  }

  /** Python's `p in s` for strings. */
  predicate Contains(s: string, p: string)
    decreases |s|
  {
    StartsWith(s, p) || (|s| > 0 && Contains(s[1..], p))
  }

  /** A string shorter than p does not contain it. */
  lemma {:induction false} ShortNoContains(s: string, p: string)
    requires |s| < |p|
    ensures !Contains(s, p)
    decreases |s|
  {
    if s != [] {
      ShortNoContains(s[1..], p);
    }
  }

  lemma {:induction false} ContainsIff(s: string, p: string)
    ensures Contains(s, p) <==> exists i :: OccursAt(s, p, i)
    decreases |s|
  {
    if StartsWith(s, p) {
      assert OccursAt(s, p, 0);
    } else if |s| > 0 {
      ContainsIff(s[1..], p);
      if Contains(s[1..], p) {
        var i :| OccursAt(s[1..], p, i);
        assert s[1..][i..i + |p|] == s[i + 1..i + 1 + |p|];
        assert OccursAt(s, p, i + 1);
      } else {
        forall i | OccursAt(s, p, i) ensures false {
          if i > 0 {
            assert s[1..][i - 1..i - 1 + |p|] == s[i..i + |p|];
            assert OccursAt(s[1..], p, i - 1);
          }
        }
      }
    } else {
      forall i | OccursAt(s, p, i) ensures false {
      }
    }
  }

  /** sep.join(parts) */
  function Join(sep: string, parts: seq<string>): string
  {
    if parts == [] then "" else if |parts| == 1 then parts[0] else parts[0] + sep + Join(sep, parts[1..])
  }

  /** "".join(parts) */
  function Concat(parts: seq<string>): string
  {
    if parts == [] then "" else parts[0] + Concat(parts[1..])
  }

  /** s.split(c) for a one-character separator: the maximal runs between occurrences of c. */
  function Split(s: string, c: char): (r: seq<string>)
    ensures |r| > 0
  {
    if s == [] then [""]
    else
      var rest := Split(s[1..], c);
      if s[0] == c then [""] + rest else [[s[0]] + rest[0]] + rest[1..]
  }

  /** The pieces hold no separator, and joining them with it gives back the string. */
  lemma {:induction false} SplitJoin(s: string, c: char)
    ensures forall k, j :: 0 <= k < |Split(s, c)| && 0 <= j < |Split(s, c)[k]| ==> Split(s, c)[k][j] != c
    ensures Join([c], Split(s, c)) == s
    decreases |s|
  {
    if s != [] {
      SplitJoin(s[1..], c);
      var rest := Split(s[1..], c);
      if s[0] == c {
        assert Split(s, c) == [""] + rest;
        assert Join([c], [""] + rest) == "" + [c] + Join([c], rest);
      } else {
        var r := Split(s, c);
        assert r == [[s[0]] + rest[0]] + rest[1..];
        forall k, j | 0 <= k < |r| && 0 <= j < |r[k]| ensures r[k][j] != c {
          if k == 0 {
            if j > 0 { assert r[0][j] == rest[0][j - 1]; }
          } else {
            assert r[k] == rest[k];
          }
        }
        JoinHeadPrefix(s[0], rest, c);
      }
    }
  }

  lemma SplitCons(x: char, t: string, c: char)
    ensures Split([x] + t, c) == if x == c then [""] + Split(t, c)
                                 else [[x] + Split(t, c)[0]] + Split(t, c)[1..]
  {
    assert ([x] + t)[1..] == t;
  }

  /** A string without the separator splits into itself. */
  lemma {:induction false} SplitNoSeparator(a: string, c: char)
    requires forall j :: 0 <= j < |a| ==> a[j] != c
    ensures Split(a, c) == [a]
    decreases |a|
  {
    if a != [] {
      assert a == [a[0]] + a[1..];
      SplitCons(a[0], a[1..], c);
      SplitNoSeparator(a[1..], c);
    }
  }

  /** A separator-free head followed by the separator splits off as the first piece. */
  lemma {:induction false} SplitSeparated(a: string, c: char, b: string)
    requires forall j :: 0 <= j < |a| ==> a[j] != c
    ensures Split(a + [c] + b, c) == [a] + Split(b, c)
    decreases |a|
  {
    if a == [] {
      assert a + [c] + b == [c] + b;
      SplitCons(c, b, c);
    } else {
      assert a + [c] + b == [a[0]] + (a[1..] + [c] + b);
      SplitCons(a[0], a[1..] + [c] + b, c);
      SplitSeparated(a[1..], c, b);
      assert [a[0]] + a[1..] == a;
    }
  }

  lemma {:induction false} JoinHeadPrefix(x: char, parts: seq<string>, c: char)
    requires |parts| > 0
    ensures Join([c], [[x] + parts[0]] + parts[1..]) == [x] + Join([c], parts)
  {
    var h := [x] + parts[0];
    var ps := [h] + parts[1..];
    assert ps[0] == h && ps[1..] == parts[1..];
    if |parts| == 1 {
      assert |ps| == 1;
    } else {
      var rest := Join([c], parts[1..]);
      assert Join([c], ps) == h + [c] + rest;
      assert Join([c], parts) == parts[0] + [c] + rest;
      assert h + [c] + rest == [x] + (parts[0] + [c] + rest);
    }
  }

  /** Python's str.isspace for a single character. */
  predicate IsSpace(c: char)
  {
    c == ' ' || ('\t' <= c <= '\r') || ('\U{1c}' <= c <= '\U{1f}') || c == '\U{85}' || c == '\U{a0}'
    || c == '\U{1680}' || ('\U{2000}' <= c <= '\U{200a}') || c == '\U{2028}' || c == '\U{2029}'
    || c == '\U{202f}' || c == '\U{205f}' || c == '\U{3000}'
  }

  predicate AllSpace(t: string)
  {
    forall j :: 0 <= j < |t| ==> IsSpace(t[j])
  }

  function StripLeft(s: string): (r: string)
    ensures |r| <= |s| && r == s[|s| - |r|..]
    ensures r != [] ==> !IsSpace(r[0])
    ensures AllSpace(s[..|s| - |r|])
  {
    if s != [] && IsSpace(s[0]) then
      var r := StripLeft(s[1..]);
      assert s[..|s| - |r|] == [s[0]] + s[1..][..|s| - 1 - |r|];
      r
    else s
  }

  function StripRight(s: string): (r: string)
    ensures |r| <= |s| && r == s[..|r|]
    ensures r != [] ==> !IsSpace(r[|r| - 1])
    ensures AllSpace(s[|r|..])
  {
    if s != [] && IsSpace(s[|s| - 1]) then
      var r := StripRight(s[..|s| - 1]);
      assert s[|r|..] == s[..|s| - 1][|r|..] + [s[|s| - 1]];
      r
    else s
  }

  /** Python's str.strip() with no argument. */
  function Strip(s: string): string
  {
    StripRight(StripLeft(s))
  }

  /** r is s with the whitespace prefix s[..i] and a whitespace suffix removed. */
  predicate StrippedAt(s: string, r: string, i: int)
  {
    OccursAt(s, r, i) && AllSpace(s[..i]) && AllSpace(s[i + |r|..])
  }

  lemma StripShape(s: string)
    ensures exists i :: StrippedAt(s, Strip(s), i)
    ensures var r := Strip(s); r != [] ==> !IsSpace(r[0]) && !IsSpace(r[|r| - 1])
  {
    StripWitness(s);
    StripEnds(s);
  }

  /** strip() cuts s at |s| - |StripLeft(s)|. */
  lemma StripWitness(s: string)
    ensures StrippedAt(s, Strip(s), |s| - |StripLeft(s)|)
  {
    var l := StripLeft(s);
    StrippedOfParts(s, l, StripRight(l));
  }

  /** A non-empty stripped string neither starts nor ends with whitespace. */
  lemma StripEnds(s: string)
    ensures var r := Strip(s); r != [] ==> !IsSpace(r[0]) && !IsSpace(r[|r| - 1])
  {
    var l := StripLeft(s);
    var r := StripRight(l);
    if r != [] {
      assert r[0] == l[0];
    }
  }

  /** A prefix r of the suffix l of s, with whitespace around both cuts, is s stripped at |s| - |l|. */
  lemma StrippedOfParts(s: string, l: string, r: string)
    requires |l| <= |s| && l == s[|s| - |l|..] && AllSpace(s[..|s| - |l|])
    requires |r| <= |l| && r == l[..|r|] && AllSpace(l[|r|..])
    ensures StrippedAt(s, r, |s| - |l|)
  {
    var i := |s| - |l|;
    assert s[i..i + |r|] == l[..|r|];
    assert s[i + |r|..] == l[|r|..];
  }

  /** The text preprocessing applied to every piece of statute text:
    * Unicode NFKC normalisation (a parameter) followed by strip(). */
  function Preprocess(normalize: string -> string, s: string): string
  {
    Strip(normalize(s))
  }

  /** os.path.split(p)[1] on POSIX: everything after the last '/'. */
  function LastSegment(p: string): string
  {
    if p == [] || p[|p| - 1] == '/' then [] else LastSegment(p[..|p| - 1]) + [p[|p| - 1]]
  }

  /** The last segment is the longest suffix without a slash: a slash precedes it
    * unless it is the whole path. */
  lemma {:induction false} LastSegmentShape(p: string)
    ensures |LastSegment(p)| <= |p| && LastSegment(p) == p[|p| - |LastSegment(p)|..]
    ensures forall i :: 0 <= i < |LastSegment(p)| ==> LastSegment(p)[i] != '/'
    ensures |LastSegment(p)| < |p| ==> p[|p| - |LastSegment(p)| - 1] == '/'
  {
    if p != [] && p[|p| - 1] != '/' {
      var init := p[..|p| - 1];
      LastSegmentShape(init);
      var r := LastSegment(p);
      assert r == LastSegment(init) + [p[|p| - 1]];
      assert init[|init| - |LastSegment(init)|..] + [p[|p| - 1]] == p[|p| - |r|..];
    }
  }

  /** Replaces every occurrence of pat in s, scanning left to right. */
  function Replace(s: string, pat: string, v: string): string
    requires |pat| > 0
    decreases |s|
  {
    if s == [] then []
    else if StartsWith(s, pat) then v + Replace(s[|pat|..], pat, v)
    else [s[0]] + Replace(s[1..], pat, v)
  }

  /** str.format for a template whose only field is {key}. */
  function Fill(template: string, key: string, v: string): string
  {
    Replace(template, "{" + key + "}", v)
  }

  lemma {:induction false} ReplaceBraceFree(s: string, pat: string, v: string)
    requires |pat| > 0 && pat[0] == '{'
    requires forall i :: 0 <= i < |s| ==> s[i] != '{'
    ensures Replace(s, pat, v) == s
    decreases |s|
  {
    if s != [] {
      assert !StartsWith(s, pat) by { assert s[0] != pat[0]; }
      ReplaceBraceFree(s[1..], pat, v);
    }
  }

  lemma {:induction false} ReplaceAppend(pre: string, rest: string, pat: string, v: string)
    requires |pat| > 0 && pat[0] == '{'
    requires forall i :: 0 <= i < |pre| ==> pre[i] != '{'
    ensures Replace(pre + rest, pat, v) == pre + Replace(rest, pat, v)
    decreases |pre|
  {
    if pre != [] {
      var s := pre + rest;
      assert !StartsWith(s, pat) by { assert s[0] != pat[0]; }
      assert s[1..] == pre[1..] + rest;
      ReplaceAppend(pre[1..], rest, pat, v);
      calc {
        Replace(s, pat, v);
        [s[0]] + Replace(s[1..], pat, v);
        [pre[0]] + (pre[1..] + Replace(rest, pat, v));
        { assert [pre[0]] + pre[1..] == pre; }
        pre + Replace(rest, pat, v);
      }
    } else {
      assert pre + rest == rest;
    }
  }

  /** str(i) holds no brace. */
  lemma IntToStringBraceFree(i: int)
    ensures forall j :: 0 <= j < |IntToString(i)| ==> IntToString(i)[j] != '{'
  {
    var s := NatToString(if i < 0 then -i else i);
    assert AllDigits(s);
    if i < 0 {
      assert IntToString(i) == "-" + s;
    }
  }

  /** Filling a template pre{key}post whose fixed parts hold no brace. */
  lemma FillTemplate(pre: string, key: string, post: string, v: string)
    requires forall i :: 0 <= i < |pre| ==> pre[i] != '{'
    requires forall i :: 0 <= i < |post| ==> post[i] != '{'
    ensures Fill(pre + "{" + key + "}" + post, key, v) == pre + v + post
  {
    var pat := "{" + key + "}";
    assert pre + "{" + key + "}" + post == pre + (pat + post);
    ReplaceAppend(pre, pat + post, pat, v);
    assert StartsWith(pat + post, pat);
    assert (pat + post)[|pat|..] == post;
    ReplaceBraceFree(post, pat, v);
  }

  /** Python's digit grammar [0-9]+(_[0-9]+)*: digits, single underscores between them. */
  predicate UnderscoredDigits(s: string)
  {
    |s| > 0 && IsAsciiDigit(s[0]) && IsAsciiDigit(s[|s| - 1])
    && (forall i :: 0 <= i < |s| ==> IsAsciiDigit(s[i]) || s[i] == '_')
    && (forall i :: 0 <= i < |s| - 1 ==> s[i] == '_' ==> s[i + 1] != '_')
  }

  function DropUnderscores(s: string): (r: string)
    requires forall i :: 0 <= i < |s| ==> IsAsciiDigit(s[i]) || s[i] == '_'
    ensures AllDigits(r)
  {
    if s == [] then [] else (if s[0] == '_' then [] else [s[0]]) + DropUnderscores(s[1..])
  }

  /** Python's int(s) for a str argument, restricted to ASCII digits: surrounding
    * whitespace, an optional sign, digits with single underscores between them. */
  function PyInt(s: string): Result<int>
  {
    var t := Strip(s);
    var negative := |t| > 0 && t[0] == '-';
    var body := if |t| > 0 && (t[0] == '-' || t[0] == '+') then t[1..] else t;
    if UnderscoredDigits(body) then
      var n: int := DigitsValue(DropUnderscores(body));
      Ok(if negative then -n else n)
    else
      Err(ValueError("invalid literal for int() with base 10"))
  }

  lemma {:induction false} DropUnderscoresOfDigits(s: string)
    requires AllDigits(s)
    ensures DropUnderscores(s) == s
  {
    if s != [] {
      DropUnderscoresOfDigits(s[1..]);
    }
  }

  lemma DigitIsNotSpace(c: char)
    requires IsAsciiDigit(c)
    ensures !IsSpace(c)
  {
  }

  lemma StripDigits(s: string)
    requires AllDigits(s)
    ensures Strip(s) == s
  {
    if s != [] {
      DigitIsNotSpace(s[0]);
      DigitIsNotSpace(s[|s| - 1]);
    }
  }

  lemma PyIntOfDigits(s: string)
    requires |s| > 0 && AllDigits(s)
    ensures PyInt(s) == Ok(DigitsValue(s))
  {
    StripDigits(s);
    DropUnderscoresOfDigits(s);
    var t := Strip(s);
    assert t == s;
    assert t[0] != '-' && t[0] != '+' by { assert IsAsciiDigit(t[0]); }
    assert UnderscoredDigits(s) by {
      assert IsAsciiDigit(s[0]) && IsAsciiDigit(s[|s| - 1]);
      assert forall i :: 0 <= i < |s| ==> s[i] != '_';
    }
  }

  /** int() reads back every zero-padded rendering of a non-negative integer. */
  lemma PyIntOfZeroPadded(n: nat, width: nat)
    ensures PyInt(ZeroPadded(n, width)) == Ok(n)
  {
    ZeroPaddedValue(n, width);
    PyIntOfDigits(ZeroPadded(n, width));
  }
}
