/** String helpers with Python semantics: `str.startswith`, `in` on strings,
    `sep.join`, `str.split(sep)`, `str.split()`, `str(int)` and `int(str)`. */
module Text {

  datatype Option<+T> = None | Some(value: T)

  /** Python `s.startswith(p)`. */
  predicate StartsWith(s: string, p: string) {
    |p| <= |s| && s[..|p|] == p
  }

  /** Python `sub in s` for strings. */
  predicate Contains(s: string, sub: string)
    decreases |s|
  {
    StartsWith(s, sub) || (|s| > 0 && Contains(s[1..], sub))
  }

  /** Python `sep.join(parts)`. */
  function Join(parts: seq<string>, sep: string): string
    decreases |parts|
  {
    if |parts| == 0 then ""
    else if |parts| == 1 then parts[0]
    else parts[0] + sep + Join(parts[1..], sep)
  }

  /** Python `s.split(c)` for a one-character separator: always at least one field. */
  function Split(s: string, c: char): (r: seq<string>)
    ensures |r| >= 1
    decreases |s|
  {
    if |s| == 0 then [""]
    else
      var rest := Split(s[1..], c);
      if s[0] == c then [""] + rest else [[s[0]] + rest[0]] + rest[1..]
  }

  /** The characters Python's `str.split()` and `int()` treat as white space (ASCII only). */
  predicate IsSpace(c: char) {
    c == ' ' || c == '\t' || c == '\n' || c == '\r' || c == '\U{000B}' || c == '\U{000C}'
  }

  /** A word of `str.split()`: non-empty, without white space. */
  predicate IsWord(w: string) {
    |w| > 0 && forall j :: 0 <= j < |w| ==> !IsSpace(w[j])
  }

  /** Python `s.split()`: the maximal runs of non-space characters, in order. */
  function Words(s: string): (r: seq<string>)
    ensures forall k :: 0 <= k < |r| ==> IsWord(r[k])
    ensures |r| <= |s|
  {
    WordsFrom(s, "")
  }

  /** Words of `cur + s`, where `cur` is a partly read word. */
  function WordsFrom(s: string, cur: string): (r: seq<string>)
    requires forall j :: 0 <= j < |cur| ==> !IsSpace(cur[j])
    ensures forall k :: 0 <= k < |r| ==> IsWord(r[k])
    ensures |r| <= |s| + (if cur == "" then 0 else 1)
    decreases |s|
  {
    if |s| == 0 then (if cur == "" then [] else [cur])
    else if IsSpace(s[0]) then (if cur == "" then [] else [cur]) + WordsFrom(s[1..], "")
    else WordsFrom(s[1..], cur + [s[0]])
  }

  /** A space between two texts separates their words: `(a + " " + b).split()` is
      `a.split() + b.split()`. */
  lemma WordsAppend(a: string, b: string)
    ensures Words(a + " " + b) == Words(a) + Words(b)
  {
    WordsFromAppend(a, b, "");
  }

  lemma {:induction false} WordsFromAppend(a: string, b: string, cur: string)
    requires forall j :: 0 <= j < |cur| ==> !IsSpace(cur[j])
    ensures WordsFrom(a + " " + b, cur) == WordsFrom(a, cur) + WordsFrom(b, "")
    decreases |a|
  {
    if |a| == 0 {
      assert a + " " + b == [' '] + b;
      assert ([' '] + b)[1..] == b;
    } else {
      assert (a + " " + b)[1..] == a[1..] + " " + b;
      assert (a + " " + b)[0] == a[0];
      if IsSpace(a[0]) {
        WordsFromAppend(a[1..], b, "");
      } else {
        WordsFromAppend(a[1..], b, cur + [a[0]]);
      }
    }
  }

  predicate IsDigit(c: char) {
    '0' <= c <= '9'
  }

  predicate AllDigits(s: string) {
    forall i :: 0 <= i < |s| ==> IsDigit(s[i])
  }

  /** The value of a string of decimal digits, most significant first. */
  function Value(d: string): nat
    requires AllDigits(d)
    decreases |d|
  {
    if |d| == 0 then 0 else Value(d[..|d| - 1]) * 10 + (d[|d| - 1] as int - '0' as int)
  }

  /** Decimal digits of `n` without leading zeros ("0" for zero). */
  function Digits(n: nat): (d: string)
    ensures |d| >= 1 && AllDigits(d)
    ensures |d| > 1 ==> d[0] != '0'
  {
    if n < 10 then ['0' + n as char]
    else Digits(n / 10) + ['0' + (n % 10) as char]
  }

  /** Python `str(v)` for an integer. */
  function Str(v: int): string {
    if v < 0 then "-" + Digits(-v) else Digits(v)
  }

  /** `s` without leading and trailing white space. */
  function Strip(s: string): (t: string)
    ensures |t| <= |s|
    ensures |t| > 0 ==> !IsSpace(t[0]) && !IsSpace(t[|t| - 1])
    decreases |s|
  {
    if |s| == 0 then s
    else if IsSpace(s[0]) then Strip(s[1..])
    else if IsSpace(s[|s| - 1]) then Strip(s[..|s| - 1])
    else s
  }

  /** Python 2 `int(s)`: optional surrounding white space, an optional sign, optional
      white space after the sign, then one or more decimal digits; anything else
      raises ValueError (`None`). */
  function ParseInt(s: string): (r: Option<int>)
    ensures r.Some? ==> exists i :: 0 <= i < |s| && IsDigit(s[i])
  {
    var t := Strip(s);
    if |t| > 0 && (t[0] == '-' || t[0] == '+') then
      var d := Strip(t[1..]);
      if |d| > 0 && AllDigits(d) then
        assert exists i :: 0 <= i < |s| && IsDigit(s[i]) by {
          var c := StripIndex(t[1..], 0);
          var i :| 0 <= i < |t[1..]| && t[1..][i] == c;
          var c' := StripIndex(s, i + 1);
        }
        var n: int := Value(d);
        Some(if t[0] == '-' then -n else n)
      else None
    else if |t| > 0 && AllDigits(t) then
      assert IsDigit(StripIndex(s, 0));
      Some(Value(t))
    else None
  }

  /** `[int(j) for j in texts]`: `None` when some text is not an integer. */
  function Ints(texts: seq<string>): (r: Option<seq<int>>)
    ensures r.Some? <==> forall i :: 0 <= i < |texts| ==> ParseInt(texts[i]).Some?
    ensures r.Some? ==> |r.value| == |texts|
    ensures r.Some? ==> forall i :: 0 <= i < |texts| ==> r.value[i] == ParseInt(texts[i]).value
    decreases |texts|
  {
    if |texts| == 0 then Some([])
    else
      match ParseInt(texts[0])
      case None => None
      case Some(v) =>
        match Ints(texts[1..])
        case None => None
        case Some(vs) => Some([v] + vs)
  }

  /** Character `k` of `Strip(s)`, which is a character of `s`. */
  function StripIndex(s: string, k: nat): (c: char)
    requires k < |Strip(s)|
    ensures c == Strip(s)[k]
    ensures exists i :: 0 <= i < |s| && s[i] == c
    decreases |s|
  {
    if IsSpace(s[0]) then
      var c := StripIndex(s[1..], k);
      assert forall i :: 0 <= i < |s| - 1 ==> s[1..][i] == s[i + 1];
      c
    else if IsSpace(s[|s| - 1]) then
      var c := StripIndex(s[..|s| - 1], k);
      assert forall i :: 0 <= i < |s| - 1 ==> s[..|s| - 1][i] == s[i];
      c
    else
      assert s[k] == Strip(s)[k];
      s[k]
  }

  // ---------------------------------------------------------------------------
  // Round trips

  lemma {:induction false} ValueOfDigits(n: nat)
    ensures Value(Digits(n)) == n
  {
    if n >= 10 {
      var d := Digits(n);
      assert d[..|d| - 1] == Digits(n / 10);
      ValueOfDigits(n / 10);
    }
  }

  lemma {:induction false} StripNoSpace(s: string)
    requires |s| > 0 && !IsSpace(s[0]) && !IsSpace(s[|s| - 1])
    ensures Strip(s) == s
  {
  }

  /** `int(str(v)) == v`: the decimal form written by the crawler reads back as the same integer. */
  lemma {:induction false} ParseStr(v: int)
    ensures ParseInt(Str(v)) == Some(v)
  {
    if v < 0 {
      ParseNegative(-v);
    } else {
      var d := Digits(v);
      ValueOfDigits(v);
      assert !IsSpace(d[0]) && !IsSpace(d[|d| - 1]);
      StripNoSpace(d);
    }
  }

  /** A minus sign before the digits of `n` reads back as `-n`. */
  lemma {:induction false} ParseNegative(n: nat)
    requires n > 0
    ensures ParseInt("-" + Digits(n)) == Some(-(n as int))
  {
    var d := Digits(n);
    var s := "-" + d;
    ValueOfDigits(n);
    assert s[0] == '-' && s[|s| - 1] == d[|d| - 1] && !IsSpace(d[|d| - 1]);
    StripNoSpace(s);
    assert s[1..] == d;
    assert !IsSpace(d[0]);
    StripNoSpace(d);
  }

  /** A string without the separator splits into itself. */
  lemma {:induction false} SplitNoSep(s: string, c: char)
    requires c !in s
    ensures Split(s, c) == [s]
    decreases |s|
  {
    if |s| > 0 {
      SplitNoSep(s[1..], c);
      assert [s[0]] + s[1..] == s;
    }
  }

  /** Splitting `x + y` when `x` has no separator glues `x` onto the first field of `y`. */
  lemma {:induction false} SplitPrefix(x: string, y: string, c: char)
    requires c !in x
    ensures Split(x + y, c) == [x + Split(y, c)[0]] + Split(y, c)[1..]
    decreases |x|
  {
    if |x| > 0 {
      assert (x + y)[1..] == x[1..] + y;
      SplitPrefix(x[1..], y, c);
      assert [x[0]] + (x[1..] + Split(y, c)[0]) == x + Split(y, c)[0];
    } else {
      var r := Split(y, c);
      assert x + y == y && x + r[0] == r[0];
      assert [r[0]] + r[1..] == r;
    }
  }

  /** `s.split(c)` undoes `c.join(parts)` when no part contains `c`. */
  lemma {:induction false} SplitJoin(parts: seq<string>, c: char)
    requires |parts| >= 1
    requires forall i :: 0 <= i < |parts| ==> c !in parts[i]
    ensures Split(Join(parts, [c]), c) == parts
    decreases |parts|
  {
    if |parts| == 1 {
      SplitNoSep(parts[0], c);
      assert parts == [parts[0]];
    } else {
      var rest := Join(parts[1..], [c]);
      SplitJoin(parts[1..], c);
      assert Join(parts, [c]) == parts[0] + ([c] + rest);
      var cr := [c] + rest;
      assert cr[0] == c && cr[1..] == rest;
      assert Split(cr, c) == [""] + parts[1..];
      SplitPrefix(parts[0], cr, c);
      assert parts[0] + "" == parts[0];
      assert parts == [parts[0]] + parts[1..];
    }
  }

  /** No separator occurs in `c.join(parts)` beyond those the join put there:
      the joined text is free of any character absent from all parts and from `sep`. */
  lemma {:induction false} JoinFree(parts: seq<string>, sep: string, x: char)
    requires forall i :: 0 <= i < |parts| ==> x !in parts[i]
    requires x !in sep
    ensures x !in Join(parts, sep)
    decreases |parts|
  {
    if |parts| > 1 {
      JoinFree(parts[1..], sep, x);
    }
  }

  /** Stripping keeps a first character that is not white space. */
  lemma {:induction false} StripFirst(s: string)
    requires |s| > 0 && !IsSpace(s[0])
    ensures |Strip(s)| > 0 && Strip(s)[0] == s[0]
    decreases |s|
  {
    if IsSpace(s[|s| - 1]) {
      var t := s[..|s| - 1];
      assert |s| > 1 && t[0] == s[0];
      StripFirst(t);
    }
  }

  predicate AllSpace(x: string) {
    forall k :: 0 <= k < |x| ==> IsSpace(x[k])
  }

  lemma AllSpaceAppend(x: string, y: string)
    requires AllSpace(x) && AllSpace(y)
    ensures AllSpace(x + y)
  {
    forall k | 0 <= k < |x + y| ensures IsSpace((x + y)[k]) {
      if k < |x| {
        assert (x + y)[k] == x[k];
      } else {
        assert (x + y)[k] == y[k - |x|];
      }
    }
  }

  /** Stripping removes white space from both ends and nothing else: `s` is the
      stripped text with only white space before and after it. */
  lemma {:induction false} StripSurrounding(s: string)
    ensures exists a, b :: AllSpace(a) && AllSpace(b) && s == a + Strip(s) + b
    decreases |s|
  {
    if |s| == 0 || (!IsSpace(s[0]) && !IsSpace(s[|s| - 1])) {
      assert AllSpace("") && s == "" + Strip(s) + "";
    } else if IsSpace(s[0]) {
      StripSurrounding(s[1..]);
      var a, b :| AllSpace(a) && AllSpace(b) && s[1..] == a + Strip(s[1..]) + b;
      PadFront(s, a, Strip(s), b);
    } else {
      StripSurrounding(s[..|s| - 1]);
      var a, b :| AllSpace(a) && AllSpace(b) && s[..|s| - 1] == a + Strip(s[..|s| - 1]) + b;
      PadBack(s, a, Strip(s), b);
    }
  }

  lemma PadFront(s: string, a: string, t: string, b: string)
    requires |s| > 0 && IsSpace(s[0]) && AllSpace(a) && s[1..] == a + t + b
    ensures AllSpace([s[0]] + a) && s == ([s[0]] + a) + t + b
  {
    AllSpaceAppend([s[0]], a);
    assert s == [s[0]] + s[1..];
  }

  lemma PadBack(s: string, a: string, t: string, b: string)
    requires |s| > 0 && IsSpace(s[|s| - 1]) && AllSpace(b) && s[..|s| - 1] == a + t + b
    ensures AllSpace(b + [s[|s| - 1]]) && s == a + t + (b + [s[|s| - 1]])
  {
    AllSpaceAppend(b, [s[|s| - 1]]);
    assert s == s[..|s| - 1] + [s[|s| - 1]];
  }

  lemma {:induction false} StripSpaces(b: string)
    requires AllSpace(b)
    ensures Strip(b) == ""
    decreases |b|
  {
    if |b| > 0 {
      StripSpaces(b[1..]);
    }
  }

  /** White space before a text changes nothing `Strip` returns. */
  lemma {:induction false} StripLeft(a: string, s: string)
    requires AllSpace(a)
    ensures Strip(a + s) == Strip(s)
    decreases |a|
  {
    if |a| > 0 {
      var x := a + s;
      assert x[0] == a[0] && x[1..] == a[1..] + s;
      StripLeft(a[1..], s);
    } else {
      assert a + s == s;
    }
  }

  /** White space after a text changes nothing `Strip` returns. */
  lemma {:induction false} StripRight(s: string, b: string)
    requires AllSpace(b)
    ensures Strip(s + b) == Strip(s)
    decreases |s| + |b|
  {
    var x := s + b;
    if |s| == 0 {
      assert x == b;
      StripSpaces(b);
    } else if IsSpace(s[0]) {
      assert x[0] == s[0] && x[1..] == s[1..] + b;
      StripRight(s[1..], b);
    } else if |b| > 0 {
      assert x[0] == s[0];
      assert x[|x| - 1] == b[|b| - 1];
      assert x[..|x| - 1] == s + b[..|b| - 1];
      StripRight(s, b[..|b| - 1]);
    } else {
      assert x == s;
    }
  }

  /** `int()` ignores white space around its text. */
  lemma ParseIntPadded(a: string, s: string, b: string)
    requires AllSpace(a) && AllSpace(b)
    ensures ParseInt(a + s + b) == ParseInt(s)
  {
    assert a + s + b == a + (s + b);
    StripLeft(a, s + b);
    StripRight(s, b);
  }

  /** White space between a sign and the digits is skipped. */
  lemma SignedDigits(sign: char, n: nat)
    requires sign == '-' || sign == '+'
    ensures var d := Digits(n);
            Strip([sign, ' '] + d) == [sign, ' '] + d && Strip(([sign, ' '] + d)[1..]) == d
  {
    var d := Digits(n);
    var m := [sign, ' '] + d;
    assert !IsSpace(d[0]) && !IsSpace(d[|d| - 1]);
    StripNoSpace(d);
    assert m[|m| - 1] == d[|d| - 1];
    StripNoSpace(m);
    assert m[1..] == " " + d;
    assert AllSpace(" ");
    StripLeft(" ", d);
  }

  /** `int()` accepts white space between the sign and the digits, as Python 2's does. */
  lemma ParseSpacedSign(sign: char, n: nat)
    requires sign == '-' || sign == '+'
    ensures ParseInt([sign, ' '] + Digits(n)) == Some(if sign == '-' then -(n as int) else n)
  {
    var d := Digits(n);
    var m := [sign, ' '] + d;
    assert Value(d) == n && |d| > 0 && AllDigits(d) by {
      ValueOfDigits(n);
    }
    assert Strip(m)[0] == sign && Strip(Strip(m)[1..]) == d by {
      SignedDigits(sign, n);
    }
    ParseIntSigned(m, d);
  }

  /** A stripped text that opens with a sign followed, after white space, by digits. */
  lemma ParseIntSigned(s: string, d: string)
    requires |Strip(s)| > 0 && (Strip(s)[0] == '-' || Strip(s)[0] == '+')
    requires d == Strip(Strip(s)[1..]) && |d| > 0 && AllDigits(d)
    ensures ParseInt(s) == Some(if Strip(s)[0] == '-' then -(Value(d) as int) else Value(d) as int)
  {
  }

  /** `int(s)` raises when the text opens with a character that is neither white space,
      a sign nor a digit. */
  lemma ParseIntLetter(s: string)
    requires |s| > 0 && !IsSpace(s[0]) && !IsDigit(s[0]) && s[0] != '-' && s[0] != '+'
    ensures ParseInt(s).None?
  {
    StripFirst(s);
  }
}
