/** The record selection of `load_data`: the reader of the crawler's output,
    working on lines already split into `;`-separated fields. */
module Loader {
  import opened Text
  import opened Errors

  type Line = seq<string>

  /** `int(lines[0][3])` decides whether the first line is a header: it is dropped
      when its fourth field is not an integer. An empty file or a first line with
      fewer than four fields raises IndexError. */
  function Body(lines: seq<Line>): (r: Result<seq<Line>>)
    ensures r.Ok? <==> |lines| > 0 && |lines[0]| > 3
    ensures r.Ok? ==> r.value == lines[1..] || r.value == lines
    ensures r.Ok? ==> (r.value == lines[1..] <==> ParseInt(lines[0][3]).None?)
  {
    if |lines| == 0 || |lines[0]| <= 3 then Err(MissingField)
    else if ParseInt(lines[0][3]).None? then Ok(lines[1..])
    else Ok(lines)
  }

  /** `filter(lambda x: region in x[0], lines)`, applied only when `region` is non-empty. */
  function ByRegion(lines: seq<Line>, region: string): (r: Result<seq<Line>>)
    ensures r.Ok? <==> region == "" || forall i :: 0 <= i < |lines| ==> |lines[i]| > 0
    ensures r.Ok? ==> |r.value| <= |lines|
    decreases |lines|
  {
    if region == "" || |lines| == 0 then Ok(lines)
    else if |lines[0]| == 0 then Err(MissingField)
    else
      assert forall i :: 0 < i < |lines| ==> lines[i] == lines[1..][i - 1];
      match ByRegion(lines[1..], region)
      case Err(f) => Err(f)
      case Ok(rest) => Ok(if Contains(lines[0][0], region) then [lines[0]] + rest else rest)
  }

  /** The region filter keeps exactly the lines whose first field contains `region`. */
  predicate RegionMatch(x: Line, region: string) {
    region == "" || (|x| > 0 && Contains(x[0], region))
  }

  lemma {:induction false} ByRegionMembers(lines: seq<Line>, region: string)
    requires ByRegion(lines, region).Ok?
    ensures forall x :: x in ByRegion(lines, region).value <==> x in lines && RegionMatch(x, region)
    decreases |lines|
  {
    if region != "" && |lines| > 0 {
      assert ByRegion(lines[1..], region).Ok?;
      ByRegionMembers(lines[1..], region);
      ByRegionStep(lines, region);
      assert lines == [lines[0]] + lines[1..];
    }
  }

  /** `filter` keeps the order and the repetitions of the lines: the lines kept from two
      runs of lines are those kept from the first run followed by those from the second. */
  lemma {:induction false} ByRegionAppend(a: seq<Line>, b: seq<Line>, region: string)
    requires ByRegion(a, region).Ok? && ByRegion(b, region).Ok?
    ensures ByRegion(a + b, region) == Ok(ByRegion(a, region).value + ByRegion(b, region).value)
    decreases |a|
  {
    if region != "" && |a| > 0 {
      assert ByRegion(a[1..], region).Ok?;
      ByRegionAppend(a[1..], b, region);
      ByRegionCons(a, b, region);
    } else if |a| == 0 {
      assert a + b == b && ByRegion(a, region).value == [];
      assert [] + ByRegion(b, region).value == ByRegion(b, region).value;
    }
  }

  /** One step of the filter: the first line is kept or dropped in front of the rest. */
  lemma ByRegionStep(x: seq<Line>, region: string)
    requires region != "" && |x| > 0 && |x[0]| > 0 && ByRegion(x[1..], region).Ok?
    ensures ByRegion(x, region) == Ok((if Contains(x[0][0], region) then [x[0]] else []) + ByRegion(x[1..], region).value)
  {
    if !(Contains(x[0][0], region)) {
      assert [] + ByRegion(x[1..], region).value == ByRegion(x[1..], region).value;
    }
  }

  /** The step of `ByRegionAppend`. */
  lemma ByRegionCons(a: seq<Line>, b: seq<Line>, region: string)
    requires region != "" && |a| > 0
    requires ByRegion(a, region).Ok? && ByRegion(b, region).Ok? && ByRegion(a[1..], region).Ok?
    requires ByRegion(a[1..] + b, region) == Ok(ByRegion(a[1..], region).value + ByRegion(b, region).value)
    ensures ByRegion(a + b, region) == Ok(ByRegion(a, region).value + ByRegion(b, region).value)
  {
    var ra := ByRegion(a[1..], region).value;
    var rb := ByRegion(b, region).value;
    var head := if Contains(a[0][0], region) then [a[0]] else [];
    assert ByRegion(a, region) == Ok(head + ra) by {
      ByRegionStep(a, region);
    }
    assert ByRegion(a + b, region) == Ok(head + (ra + rb)) by {
      var x := a + b;
      TailOfAppend(a, b);
      ByRegionStep(x, region);
    }
    AppendAssoc(head, ra, rb);
  }

  /** One line is kept exactly when there is no region or its first field contains the
      region; a line without fields fails the non-empty filter. */
  lemma ByRegionOne(x: Line, region: string)
    ensures ByRegion([x], region) ==
            if region == "" then Ok([x])
            else if |x| == 0 then Err(MissingField)
            else Ok(if Contains(x[0], region) then [x] else [])
  {
    assert [x][1..] == [] && [x] + [] == [x];
  }

  lemma TailOfAppend(a: seq<Line>, b: seq<Line>)
    requires |a| > 0
    ensures (a + b)[0] == a[0] && (a + b)[1..] == a[1..] + b
  {
  }

  lemma AppendAssoc(x: seq<Line>, y: seq<Line>, z: seq<Line>)
    ensures x + (y + z) == (x + y) + z
  {
  }

  /** The precinct number of a line: `int(x[1].split()[1][1:])`, the second word of the
      second field without its first character (the `№` of "УИК №123"). */
  function PrecinctNumber(x: Line): (r: Result<int>)
    ensures r.Ok? ==> |x| >= 2 && |Words(x[1])| >= 2 && |Words(x[1])[1]| > 1
  {
    if |x| < 2 then Err(MissingField)
    else
      var ws := Words(x[1]);
      if |ws| < 2 then Err(MissingField)
      else if |ws[1]| == 0 then Err(MissingField)
      else
        match ParseInt(ws[1][1..])
        case None => Err(NotAnInteger)
        case Some(n) => Ok(n)
  }

  /** `filter(lambda x: int(x[1].split()[1][1:]) in uics, lines)`, applied only when
      `uics` is non-empty; a line whose number cannot be read fails the whole load. */
  function ByPrecinct(lines: seq<Line>, uics: set<int>): (r: Result<seq<Line>>)
    ensures r.Ok? <==> |uics| == 0 || forall i :: 0 <= i < |lines| ==> PrecinctNumber(lines[i]).Ok?
    ensures r.Ok? ==> |r.value| <= |lines|
    decreases |lines|
  {
    if |uics| == 0 || |lines| == 0 then Ok(lines)
    else
      assert forall i :: 0 < i < |lines| ==> lines[i] == lines[1..][i - 1];
      match PrecinctNumber(lines[0])
      case Err(f) => Err(f)
      case Ok(n) =>
        match ByPrecinct(lines[1..], uics)
        case Err(f) => Err(f)
        case Ok(rest) => Ok(if n in uics then [lines[0]] + rest else rest)
  }

  /** The precinct filter keeps exactly the lines whose precinct number is in `uics`. */
  predicate PrecinctMatch(x: Line, uics: set<int>) {
    |uics| == 0 || (PrecinctNumber(x).Ok? && PrecinctNumber(x).value in uics)
  }

  lemma {:induction false} ByPrecinctMembers(lines: seq<Line>, uics: set<int>)
    requires ByPrecinct(lines, uics).Ok?
    ensures forall x :: x in ByPrecinct(lines, uics).value <==> x in lines && PrecinctMatch(x, uics)
    decreases |lines|
  {
    if |uics| > 0 && |lines| > 0 {
      assert ByPrecinct(lines[1..], uics).Ok?;
      ByPrecinctMembers(lines[1..], uics);
      ByPrecinctStep(lines, uics);
      assert lines == [lines[0]] + lines[1..];
    }
  }

  /** The precinct filter keeps the order and the repetitions of the lines. */
  lemma {:induction false} ByPrecinctAppend(a: seq<Line>, b: seq<Line>, uics: set<int>)
    requires ByPrecinct(a, uics).Ok? && ByPrecinct(b, uics).Ok?
    ensures ByPrecinct(a + b, uics) == Ok(ByPrecinct(a, uics).value + ByPrecinct(b, uics).value)
    decreases |a|
  {
    if |uics| > 0 && |a| > 0 {
      assert ByPrecinct(a[1..], uics).Ok?;
      ByPrecinctAppend(a[1..], b, uics);
      ByPrecinctCons(a, b, uics);
    } else if |a| == 0 {
      assert a + b == b && ByPrecinct(a, uics).value == [];
      assert [] + ByPrecinct(b, uics).value == ByPrecinct(b, uics).value;
    }
  }

  /** One step of the filter: the first line is kept or dropped in front of the rest. */
  lemma ByPrecinctStep(x: seq<Line>, uics: set<int>)
    requires |uics| > 0 && |x| > 0 && PrecinctNumber(x[0]).Ok? && ByPrecinct(x[1..], uics).Ok?
    ensures ByPrecinct(x, uics) == Ok((if PrecinctNumber(x[0]).value in uics then [x[0]] else []) + ByPrecinct(x[1..], uics).value)
  {
    if !(PrecinctNumber(x[0]).value in uics) {
      assert [] + ByPrecinct(x[1..], uics).value == ByPrecinct(x[1..], uics).value;
    }
  }

  /** The step of `ByPrecinctAppend`. */
  lemma ByPrecinctCons(a: seq<Line>, b: seq<Line>, uics: set<int>)
    requires |uics| > 0 && |a| > 0
    requires ByPrecinct(a, uics).Ok? && ByPrecinct(b, uics).Ok? && ByPrecinct(a[1..], uics).Ok?
    requires ByPrecinct(a[1..] + b, uics) == Ok(ByPrecinct(a[1..], uics).value + ByPrecinct(b, uics).value)
    ensures ByPrecinct(a + b, uics) == Ok(ByPrecinct(a, uics).value + ByPrecinct(b, uics).value)
  {
    var ra := ByPrecinct(a[1..], uics).value;
    var rb := ByPrecinct(b, uics).value;
    var head := if PrecinctNumber(a[0]).value in uics then [a[0]] else [];
    assert ByPrecinct(a, uics) == Ok(head + ra) by {
      ByPrecinctStep(a, uics);
    }
    assert ByPrecinct(a + b, uics) == Ok(head + (ra + rb)) by {
      var x := a + b;
      TailOfAppend(a, b);
      ByPrecinctStep(x, uics);
    }
    AppendAssoc(head, ra, rb);
  }

  /** One line is kept exactly when there are no precincts to select or its precinct
      number is one of them; a number that cannot be read fails the non-empty filter. */
  lemma ByPrecinctOne(x: Line, uics: set<int>)
    ensures ByPrecinct([x], uics) ==
            if |uics| == 0 then Ok([x])
            else if PrecinctNumber(x).Err? then Err(PrecinctNumber(x).error)
            else Ok(if PrecinctNumber(x).value in uics then [x] else [])
  {
    assert [x][1..] == [] && [x] + [] == [x];
  }

  /** Python `x[2:3] + x[-7:]`: field 2 (when there is one) and the last seven fields. */
  function Picked(x: Line): (r: seq<string>)
    ensures |r| <= 8
    ensures |x| >= 9 ==> |r| == 8 && r[0] == x[2] && r[1..] == x[|x| - 7..]
  {
    (if |x| >= 3 then [x[2]] else []) + x[if |x| >= 7 then |x| - 7 else 0..]
  }

  /** `list(map(int, x[2:3] + x[-7:]))`. */
  function Numbers(x: Line): (r: Result<seq<int>>)
    ensures r.Ok? <==> forall i :: 0 <= i < |Picked(x)| ==> ParseInt(Picked(x)[i]).Some?
    ensures r.Ok? ==> |r.value| == |Picked(x)|
    ensures r.Ok? ==> forall i :: 0 <= i < |r.value| ==> r.value[i] == ParseInt(Picked(x)[i]).value
  {
    match Ints(Picked(x))
    case None => Err(NotAnInteger)
    case Some(vs) => Ok(vs)
  }

  function AllNumbers(lines: seq<Line>): (r: Result<seq<seq<int>>>)
    ensures r.Ok? <==> forall i :: 0 <= i < |lines| ==> Numbers(lines[i]).Ok?
    ensures r.Ok? ==> |r.value| == |lines|
    ensures r.Ok? ==> forall i :: 0 <= i < |lines| ==> r.value[i] == Numbers(lines[i]).value
    decreases |lines|
  {
    if |lines| == 0 then Ok([])
    else
      match Numbers(lines[0])
      case Err(f) => Err(f)
      case Ok(v) =>
        match AllNumbers(lines[1..])
        case Err(f) =>
          assert exists i :: 0 <= i < |lines| - 1 && Numbers(lines[1..][i]).Err?;
          Err(f)
        case Ok(vs) =>
          assert forall i :: 0 <= i < |lines| - 1 ==> lines[1..][i] == lines[i + 1];
          Ok([v] + vs)
  }

  /** `load_data` on the file's lines split at `;`: an empty `region` or `uics`
      selects everything. */
  function LoadData(lines: seq<Line>, region: string, uics: set<int>): (r: Result<seq<seq<int>>>)
    ensures |lines| == 0 ==> r.Err?
    ensures r.Ok? ==> |r.value| <= |lines|
    ensures r.Ok? ==> forall k :: 0 <= k < |r.value| ==> |r.value[k]| <= 8
  {
    match Body(lines)
    case Err(f) => Err(f)
    case Ok(body) =>
      match ByRegion(body, region)
      case Err(f) => Err(f)
      case Ok(inRegion) =>
        match ByPrecinct(inRegion, uics)
        case Err(f) => Err(f)
        case Ok(selected) => AllNumbers(selected)
  }

  // ---------------------------------------------------------------------------

  /** Without filters every line of the body is kept, in order. */
  lemma {:induction false} NoFilterKeepsAll(lines: seq<Line>)
    ensures ByRegion(lines, "") == Ok(lines)
    ensures ByPrecinct(lines, {}) == Ok(lines)
  {
  }

  /** Lines that all match the region are all kept, in order. */
  lemma {:induction false} ByRegionAll(lines: seq<Line>, region: string)
    requires forall i :: 0 <= i < |lines| ==> |lines[i]| > 0 && Contains(lines[i][0], region)
    ensures ByRegion(lines, region) == Ok(lines)
    decreases |lines|
  {
    if region != "" && |lines| > 0 {
      assert forall i :: 0 <= i < |lines| - 1 ==> lines[1..][i] == lines[i + 1];
      ByRegionAll(lines[1..], region);
      assert [lines[0]] + lines[1..] == lines;
    }
  }

  /** Lines none of which matches a non-empty region are all dropped. */
  lemma {:induction false} ByRegionNone(lines: seq<Line>, region: string)
    requires region != ""
    requires forall i :: 0 <= i < |lines| ==> |lines[i]| > 0 && !Contains(lines[i][0], region)
    ensures ByRegion(lines, region) == Ok([])
    decreases |lines|
  {
    if |lines| > 0 {
      assert forall i :: 0 <= i < |lines| - 1 ==> lines[1..][i] == lines[i + 1];
      ByRegionNone(lines[1..], region);
    }
  }

  /** A word-free string followed by more non-space text reads as one word. */
  lemma {:induction false} WordsFromNoSpace(s: string, cur: string)
    requires forall i :: 0 <= i < |s| ==> !IsSpace(s[i])
    requires forall j :: 0 <= j < |cur| ==> !IsSpace(cur[j])
    requires |cur + s| > 0
    ensures WordsFrom(s, cur) == [cur + s]
    decreases |s|
  {
    if |s| > 0 {
      WordsFromNoSpace(s[1..], cur + [s[0]]);
      assert cur + [s[0]] + s[1..] == cur + s;
    } else {
      assert cur + s == cur;
    }
  }

  /** The precinct tag the site gives, "УИК №" followed by the number, yields that number. */
  lemma {:induction false} PrecinctNumberOfLabel(region: string, n: nat, rest: seq<string>)
    ensures PrecinctNumber([region, "УИК №" + Digits(n)] + rest) == Ok(n)
  {
    var d := Digits(n);
    LabelWords(d);
    assert ("№" + d)[1..] == d;
    ParseStr(n);
  }

  /** The label `УИК №` followed by digits splits into two words, `УИК` and `№` with
      the digits. */
  lemma LabelWords(d: string)
    requires AllDigits(d)
    ensures Words("УИК №" + d) == ["УИК", "№" + d]
  {
    var word := "№" + d;
    assert Words("УИК") == ["УИК"] by {
      WordsFromNoSpace("УИК", "");
      assert "" + "УИК" == "УИК";
    }
    assert Words(word) == [word] by {
      NumberSignNoSpace(d);
      WordsFromNoSpace(word, "");
      assert "" + word == word;
    }
    assert "УИК №" + d == "УИК" + " " + word;
    WordsAppend("УИК", word);
  }

  /** `№` followed by digits holds no white space. */
  lemma NumberSignNoSpace(d: string)
    requires AllDigits(d)
    ensures forall i :: 0 <= i < |"№" + d| ==> !IsSpace(("№" + d)[i])
  {
    forall i | 0 <= i < |"№" + d| ensures !IsSpace(("№" + d)[i]) {
      if i > 0 {
        assert ("№" + d)[i] == d[i - 1] && IsDigit(d[i - 1]);
      }
    }
  }
}
