/** The crawler's output file read back by `load_data`: the header names the 27
    fields of every record, the loader drops it, and each record yields the
    registered-voter count and the seven party counts it was written with. */
module Pipeline {
  import opened Text
  import opened Errors
  import opened Table
  import opened Crawl
  import opened Loader

  /** Python `text.splitlines()` for text whose only line break is `\n`: the lines,
      without a last empty piece after a final break. */
  function SplitLines(text: string): (r: seq<string>)
    ensures text == "" ==> r == []
    ensures forall i :: 0 <= i < |r| ==> '\n' !in r[i]
  {
    if text == "" then []
    else
      var p := Split(text, '\n');
      SplitFree(text, '\n');
      if p[|p| - 1] == "" then p[..|p| - 1] else p
  }

  /** `[i.split(';') for i in text.splitlines()]`: the file as `load_data` sees it. */
  function FileLines(text: string): (r: seq<Line>)
    ensures |r| == |SplitLines(text)|
    ensures forall i :: 0 <= i < |r| ==> r[i] == Split(SplitLines(text)[i], ';')
  {
    var ls := SplitLines(text);
    seq(|ls|, i requires 0 <= i < |ls| => Split(ls[i], ';'))
  }

  /** What `load_data` keeps of a record: field 2 and the last seven fields. */
  function Loaded(values: seq<int>): seq<int>
    requires |values| == MetricCount
  {
    [values[0]] + values[MetricCount - 7..]
  }

  // ---------------------------------------------------------------------------

  /** No field of `Split(s, c)` holds `c`. */
  lemma {:induction false} SplitFree(s: string, c: char)
    ensures forall i :: 0 <= i < |Split(s, c)| ==> c !in Split(s, c)[i]
    decreases |s|
  {
    if |s| > 0 {
      SplitFree(s[1..], c);
      var rest := Split(s[1..], c);
      if s[0] != c {
        assert c !in [s[0]] + rest[0];
        assert forall i :: 1 <= i < |Split(s, c)| ==> Split(s, c)[i] == rest[i];
      }
    }
  }

  /** Output written in one call reads back as its lines; no lines read back as one empty line. */
  lemma OutputLines(ls: seq<string>)
    requires forall i :: 0 <= i < |ls| ==> '\n' !in ls[i]
    ensures SplitLines(Output(ls)) == if ls == [] then [""] else ls
  {
    var parts := if ls == [] then [""] else ls;
    var all := parts + [""];
    assert Output(ls) == Join(all, "\n") by {
      JoinSnoc(parts, "\n");
    }
    assert forall i :: 0 <= i < |all| ==> '\n' !in all[i];
    SplitJoin(all, '\n');
    assert all[..|all| - 1] == parts;
  }

  /** `Join(parts + [""], sep)` ends the joined parts with one more separator. */
  lemma {:induction false} JoinSnoc(parts: seq<string>, sep: string)
    ensures Join(parts + [""], sep) == (if parts == [] then "" else Join(parts, sep) + sep)
    decreases |parts|
  {
    if |parts| == 1 {
      assert parts + [""] == [parts[0], ""];
      assert Join([parts[0], ""], sep) == parts[0] + sep + Join([""], sep);
    } else if |parts| > 1 {
      JoinSnoc(parts[1..], sep);
      assert (parts + [""])[1..] == parts[1..] + [""];
    }
  }

  /** Two outputs written one after the other read as one output of both. */
  lemma {:induction false} OutputAppend(a: seq<string>, b: seq<string>)
    requires |a| > 0 && |b| > 0
    ensures Output(a) + Output(b) == Output(a + b)
    decreases |a|
  {
    if |a| == 1 {
      assert a + b == [a[0]] + b;
      assert Join([a[0]] + b, "\n") == a[0] + "\n" + Join(b, "\n");
    } else {
      OutputAppend(a[1..], b);
      assert (a + b)[1..] == a[1..] + b;
      assert Output(a) == a[0] + "\n" + Output(a[1..]);
      assert Output(a + b) == a[0] + "\n" + Output(a[1..] + b);
    }
  }

  // ---------------------------------------------------------------------------
  // The header

  /** A column name that stays one field of one line: no `;` and no line break. */
  predicate OneField(s: string) {
    forall i :: 0 <= i < |s| ==> s[i] != ';' && s[i] != '\n'
  }

  lemma OneFieldAppend(a: string, b: string)
    requires OneField(a) && OneField(b)
    ensures OneField(a + b)
  {
  }

  /** The column names written as one literal: the region, the precinct and the seven
      party names. */
  lemma ShortColumnsOneField()
    ensures OneField(Columns[0]) && OneField(Columns[1])
    ensures forall k :: 20 <= k < 27 ==> OneField(Columns[k])
  {
  }

  // The count names, one at a time, piece by piece.

  lemma Column2OneField()
    ensures OneField(Columns[2])
  {
    var a, b, c := "Число избирателей, ", "внесенных в список ", "избирателей";
    OneFieldAppend(a, b);
    OneFieldAppend(a + b, c);
  }

  lemma Column3OneField()
    ensures OneField(Columns[3])
  {
    var a, b, c, d := "Число избирательных ", "бюллетеней, полученных ", "участковой ", "избирательной комиссией";
    OneFieldAppend(a, b);
    OneFieldAppend(a + b, c);
    OneFieldAppend(a + b + c, d);
  }

  lemma Column4OneField()
    ensures OneField(Columns[4])
  {
    var a, b, c, d := "Число избирательных ", "бюллетеней, выданных ", "избирателям, ", "проголосовавшим досрочно";
    OneFieldAppend(a, b);
    OneFieldAppend(a + b, c);
    OneFieldAppend(a + b + c, d);
  }

  lemma Column5OneField()
    ensures OneField(Columns[5])
  {
    var a, b, c, d := "Число избирательных ", "бюллетеней, выданных ", "избирателям в помещении ", "для голосования";
    OneFieldAppend(a, b);
    OneFieldAppend(a + b, c);
    OneFieldAppend(a + b + c, d);
  }

  lemma Column6OneField()
    ensures OneField(Columns[6])
  {
    var a, b, c, d, e := "Число избирательных ", "бюллетеней, выданных ", "избирателям вне ", "помещения для ", "голосования ";
    OneFieldAppend(a, b);
    OneFieldAppend(a + b, c);
    OneFieldAppend(a + b + c, d);
    OneFieldAppend(a + b + c + d, e);
  }

  lemma Column7OneField()
    ensures OneField(Columns[7])
  {
    var a, b := "Число погашенных ", "избирательных бюллетеней";
    OneFieldAppend(a, b);
  }

  lemma Column8OneField()
    ensures OneField(Columns[8])
  {
    var a, b, c := "Число избирательных ", "бюллетеней в переносных ", "ящиках для голосования";
    OneFieldAppend(a, b);
    OneFieldAppend(a + b, c);
  }

  lemma Column9OneField()
    ensures OneField(Columns[9])
  {
    var a, b, c, d := "Число избирательных ", "бюллетеней в ", "стационарных ящиках для ", "голосования";
    OneFieldAppend(a, b);
    OneFieldAppend(a + b, c);
    OneFieldAppend(a + b + c, d);
  }

  lemma Column10OneField()
    ensures OneField(Columns[10])
  {
    var a, b := "Число недействительных ", "избирательных бюллетеней";
    OneFieldAppend(a, b);
  }

  lemma Column11OneField()
    ensures OneField(Columns[11])
  {
    var a, b := "Число действительных ", "избирательных бюллетеней";
    OneFieldAppend(a, b);
  }

  lemma Column12OneField()
    ensures OneField(Columns[12])
  {
    var a, b, c, d := "Число открепительных ", "удостоверений, ", "полученных участковой ", "избирательной комиссией";
    OneFieldAppend(a, b);
    OneFieldAppend(a + b, c);
    OneFieldAppend(a + b + c, d);
  }

  lemma Column13OneField()
    ensures OneField(Columns[13])
  {
    var a, b, c, d := "Число открепительных ", "удостоверений, выданных ", "избирателям на ", "избирательном участке";
    OneFieldAppend(a, b);
    OneFieldAppend(a + b, c);
    OneFieldAppend(a + b + c, d);
  }

  lemma Column14OneField()
    ensures OneField(Columns[14])
  {
    var a, b, c, d, e := "Число избирателей, ", "проголосовавших по ", "открепительным ", "удостоверениям на ", "избирательном участке";
    OneFieldAppend(a, b);
    OneFieldAppend(a + b, c);
    OneFieldAppend(a + b + c, d);
    OneFieldAppend(a + b + c + d, e);
  }

  lemma Column15OneField()
    ensures OneField(Columns[15])
  {
    var a, b, c, d := "Число погашенных ", "неиспользованных ", "открепительных ", "удостоверений";
    OneFieldAppend(a, b);
    OneFieldAppend(a + b, c);
    OneFieldAppend(a + b + c, d);
  }

  lemma Column16OneField()
    ensures OneField(Columns[16])
  {
    var a, b, c, d, e := "Число открепительных ", "удостоверений, выданных ", "избирателям ", "территориальной ", "избирательной комиссией";
    OneFieldAppend(a, b);
    OneFieldAppend(a + b, c);
    OneFieldAppend(a + b + c, d);
    OneFieldAppend(a + b + c + d, e);
  }

  lemma Column17OneField()
    ensures OneField(Columns[17])
  {
    var a, b, c := "Число утраченных ", "открепительных ", "удостоверений";
    OneFieldAppend(a, b);
    OneFieldAppend(a + b, c);
  }

  lemma Column18OneField()
    ensures OneField(Columns[18])
  {
    var a, b := "Число утраченных ", "избирательных бюллетеней";
    OneFieldAppend(a, b);
  }

  lemma Column19OneField()
    ensures OneField(Columns[19])
  {
    var a, b, c := "Число избирательных ", "бюллетеней, не учтенных ", "при получении ";
    OneFieldAppend(a, b);
    OneFieldAppend(a + b, c);
  }
  /** No column name holds a `;` or a line break. */
  lemma ColumnsOneField()
    ensures forall k :: 0 <= k < |Columns| ==> OneField(Columns[k])
  {
    ShortColumnsOneField();
    Column2OneField(); Column3OneField(); Column4OneField(); Column5OneField(); Column6OneField();
    Column7OneField(); Column8OneField(); Column9OneField(); Column10OneField(); Column11OneField();
    Column12OneField(); Column13OneField(); Column14OneField(); Column15OneField(); Column16OneField();
    Column17OneField(); Column18OneField(); Column19OneField();
  }

  /** No column name holds a `;` or a line break, as `in` states it. */
  lemma ColumnsFree()
    ensures forall k :: 0 <= k < |Columns| ==> ';' !in Columns[k] && '\n' !in Columns[k]
  {
    ColumnsOneField();
    forall k | 0 <= k < |Columns| ensures ';' !in Columns[k] && '\n' !in Columns[k] {
      assert OneField(Columns[k]);
    }
  }

  /** The fourth column name opens with a letter, so it is not an integer. */
  lemma FourthColumnNotInt()
    ensures ParseInt(Columns[3]).None?
  {
    assert |Columns[3]| > 0 && Columns[3][0] == 'Ч';
    ParseIntLetter(Columns[3]);
  }

  /** The header line read back: one line whose 27 fields are the column names, the
      fourth of which is not an integer, so `load_data` drops it. */
  lemma HeaderFields()
    ensures Split(Join(Columns, ";"), ';') == Columns
    ensures |Columns| == 27 && ParseInt(Columns[3]).None?
    ensures '\n' !in Join(Columns, ";")
  {
    ColumnsFree();
    SplitJoin(Columns, ';');
    JoinFree(Columns, ";", '\n');
    FourthColumnNotInt();
  }

  // ---------------------------------------------------------------------------
  // Records

  /** A record line read back by `load_data` yields the registered-voter count and
      the seven party counts it was written with. */
  lemma RecordReadsBack(name: string, uic: string, values: seq<int>)
    requires ';' !in name && ';' !in uic && |values| == MetricCount
    ensures Numbers(Split(Record(name, uic, values), ';')) == Ok(Loaded(values))
  {
    RecordFields(name, uic, values);
    var x := Split(Record(name, uic, values), ';');
    var p := Picked(x);
    var want := Loaded(values);
    assert |p| == |want| == 8;
    forall i | 0 <= i < 8 ensures ParseInt(p[i]) == Some(want[i]) {
      if i == 0 {
        assert p[0] == x[2] == Str(values[0]);
        ParseStr(values[0]);
      } else {
        assert p[i] == x[19 + i] == Str(values[17 + i]);
        assert want[i] == values[17 + i];
        ParseStr(values[17 + i]);
      }
    }
    assert Ints(p).Some?;
    assert Ints(p).value == want;
  }

  /** A record line holds no line break when its name and label hold none. */
  lemma RecordOneLine(name: string, uic: string, values: seq<int>)
    requires '\n' !in name && '\n' !in uic
    ensures '\n' !in Record(name, uic, values)
  {
    var parts := [name, uic] + Strs(values);
    forall i | 0 <= i < |parts| ensures '\n' !in parts[i] {
      if i >= 2 {
        StrNoSeparator(values[i - 2]);
      }
    }
    JoinFree(parts, ";", '\n');
  }

  // ---------------------------------------------------------------------------
  // The file read back

  /** A first line `load_data` drops: one line whose fourth field is not an integer. */
  predicate DroppedHeader(h: string) {
    '\n' !in h && |Split(h, ';')| > 3 && ParseInt(Split(h, ';')[3]).None?
  }

  /** The crawler's header line is a line `load_data` drops. */
  lemma HeaderDropped()
    ensures DroppedHeader(Join(Columns, ";"))
    ensures Header() == Join(Columns, ";") + "\n"
  {
    HeaderFields();
  }

  /** A line written before an output joins that output as its first line. */
  lemma PrependLine(h: string, recs: seq<string>)
    requires |recs| > 0
    ensures h + "\n" + Output(recs) == Output([h] + recs)
  {
    assert h + "\n" == Output([h]);
    OutputAppend([h], recs);
  }

  /** The file of a header line and a run of record lines, as `load_data` splits it:
      the header's fields, then each record's fields, in order. */
  lemma RecordsFile(h: string, recs: seq<string>)
    requires '\n' !in h && |recs| > 0
    requires forall j :: 0 <= j < |recs| ==> '\n' !in recs[j]
    ensures var file := FileLines(h + "\n" + Output(recs));
            |file| == |recs| + 1 && file[0] == Split(h, ';') &&
            forall j :: 0 <= j < |recs| ==> file[j + 1] == Split(recs[j], ';')
  {
    var all := [h] + recs;
    PrependLine(h, recs);
    assert forall i :: 0 <= i < |all| ==> '\n' !in all[i];
    OutputLines(all);
    assert forall j :: 0 <= j < |recs| ==> all[j + 1] == recs[j];
  }

  /** `load_data` on a dropped header and lines of one region, with no precinct filter. */
  lemma LoadRegionLines(hdr: Line, name: string, rows: seq<Line>, want: seq<seq<int>>, region: string)
    requires |hdr| > 3 && ParseInt(hdr[3]).None?
    requires |rows| == |want|
    requires forall j :: 0 <= j < |rows| ==> |rows[j]| > 0 && rows[j][0] == name && Numbers(rows[j]) == Ok(want[j])
    ensures LoadData([hdr] + rows, region, {}) == if Contains(name, region) then Ok(want) else Ok([])
  {
    assert ([hdr] + rows)[1..] == rows;
    assert Body([hdr] + rows) == Ok(rows);
    if Contains(name, region) {
      ByRegionAll(rows, region);
      NoFilterKeepsAll(rows);
      assert AllNumbers(rows).Ok?;
      assert AllNumbers(rows).value == want;
    } else {
      ByRegionNone(rows, region);
    }
  }

  /** A header followed by one page's records reads back as each record's kept counts,
      in order, when the region filter matches the page's name, and as nothing otherwise. */
  lemma LoadRecords(h: string, name: string, labels: seq<string>, values: seq<seq<int>>, region: string)
    requires DroppedHeader(h)
    requires ';' !in name && '\n' !in name
    requires 0 < |labels| == |values|
    requires forall j :: 0 <= j < |labels| ==> ';' !in labels[j] && '\n' !in labels[j] && |values[j]| == MetricCount
    ensures LoadData(FileLines(h + "\n" + Output(Records(name, labels, values))), region, {}) ==
            if Contains(name, region) then Ok(seq(|values|, j requires 0 <= j < |values| => Loaded(values[j])))
            else Ok([])
  {
    var recs := Records(name, labels, values);
    forall j | 0 <= j < |recs| ensures '\n' !in recs[j] {
      RecordOneLine(name, labels[j], values[j]);
    }
    RecordsFile(h, recs);
    var file := FileLines(h + "\n" + Output(recs));
    var rows := file[1..];
    assert file == [file[0]] + rows;
    var want := seq(|values|, j requires 0 <= j < |values| => Loaded(values[j]));
    forall j | 0 <= j < |rows|
      ensures |rows[j]| > 0 && rows[j][0] == name && Numbers(rows[j]) == Ok(want[j])
    {
      assert rows[j] == file[j + 1] == Split(recs[j], ';');
      RecordFields(name, labels[j], values[j]);
      RecordReadsBack(name, labels[j], values[j]);
    }
    LoadRegionLines(file[0], name, rows, want, region);
  }

  /** The crawler's output for one page, header included, read back by `load_data`:
      each record's kept counts, in order, when the region filter matches the page's
      name, and nothing otherwise. */
  lemma LoadCrawlerOutput(name: string, labels: seq<string>, values: seq<seq<int>>, region: string)
    requires ';' !in name && '\n' !in name
    requires 0 < |labels| == |values|
    requires forall j :: 0 <= j < |labels| ==> ';' !in labels[j] && '\n' !in labels[j] && |values[j]| == MetricCount
    ensures LoadData(FileLines(Header() + Output(Records(name, labels, values))), region, {}) ==
            if Contains(name, region) then Ok(seq(|values|, j requires 0 <= j < |values| => Loaded(values[j])))
            else Ok([])
  {
    HeaderDropped();
    LoadRecords(Join(Columns, ";"), name, labels, values, region);
  }

  /** A page with no precinct columns writes a lone line break; read back, that empty
      line is not a record, and without a region filter to drop it the load fails. */
  lemma LoadEmptyPage(h: string, region: string)
    requires DroppedHeader(h)
    ensures LoadData(FileLines(h + "\n" + Output([])), region, {}) ==
            if region == "" then Err(NotAnInteger) else Ok([])
  {
    var file := FileLines(h + "\n" + Output([]));
    assert file == [Split(h, ';'), [""]] by {
      assert h + "\n" == Output([h]);
      assert Output([]) == Output([""]);
      OutputAppend([h], [""]);
      assert [h] + [""] == [h, ""];
      OutputLines([h, ""]);
    }
    assert Body(file) == Ok([[""]]);
    LoadBlankLine(file, region);
  }

  /** A body made of one empty line: the region filter drops it, and without one the
      load fails on `int('')`. */
  lemma LoadBlankLine(file: seq<Line>, region: string)
    requires Body(file) == Ok([[""]])
    ensures LoadData(file, region, {}) == if region == "" then Err(NotAnInteger) else Ok([])
  {
    if region == "" {
      assert Picked([""]) == [""];
      assert ParseInt("").None?;
    } else {
      assert !Contains("", region);
    }
  }
}
