/** The leaf-page table extractor: one attempt of `parse_uics`, from the fetched
    commission page to the `;`-separated precinct lines it writes. */
module Table {
  import opened Text
  import opened Errors

  /** A `tr` of the data table: the texts of `td/nobr` (precinct labels, used on row 0)
      and the texts of `td/nobr/b` (the bold numeric cells). */
  datatype Row = Row(labels: seq<string>, bold: seq<string>)

  /** A fetched commission page: every table matching the data-table selector,
      in document order, each as its rows. */
  datatype Doc = Doc(tables: seq<seq<Row>>)

  const RowCount: nat := 27
  /** The subtotal separator row, deleted before row 0. */
  const SubtotalRow: nat := 19
  const MetricCount: nat := 25

  /** The bold cells of every row as integers, `None` when any cell is not an integer. */
  function ParseRows(rows: seq<Row>): (r: Option<seq<seq<int>>>)
    ensures r.Some? <==> forall i :: 0 <= i < |rows| ==> Ints(rows[i].bold).Some?
    ensures r.Some? ==> |r.value| == |rows|
    ensures r.Some? ==> forall i :: 0 <= i < |rows| ==> r.value[i] == Ints(rows[i].bold).value
    decreases |rows|
  {
    if |rows| == 0 then Some([])
    else
      match Ints(rows[0].bold)
      case None => None
      case Some(v) =>
        match ParseRows(rows[1..])
        case None => None
        case Some(vs) => Some([v] + vs)
  }

  /** Python `del s[i]`. */
  function Delete<T>(s: seq<T>, i: nat): (r: seq<T>)
    requires i < |s|
  {
    s[..i] + s[i + 1..]
  }

  /** The 25 metric rows: row 19 deleted first, then row 0. */
  function Metrics<T>(data: seq<seq<T>>): seq<seq<T>>
    requires |data| == RowCount
  {
    Delete(Delete(data, SubtotalRow), 0)
  }

  /** The original row that becomes metric row `k`. */
  function Source(k: nat): nat {
    if k < SubtotalRow - 1 then k + 1 else k + 2
  }

  /** Because row 19 goes before row 0, metric row k is original row k + 1
      below 18 and original row k + 2 from 18 on. */
  lemma MetricsIndex<T>(data: seq<seq<T>>, k: nat)
    requires |data| == RowCount && k < MetricCount
    ensures |Metrics(data)| == MetricCount
    ensures Source(k) < RowCount && Source(k) != 0 && Source(k) != SubtotalRow
    ensures Metrics(data)[k] == data[Source(k)]
  {
    var d1 := Delete(data, SubtotalRow);
    assert |d1| == 26;
    assert d1[k + 1] == if k + 1 < SubtotalRow then data[k + 1] else data[k + 2];
  }

  /** Every original row other than 0 and 19 is some metric row. */
  lemma SourceOnto(i: nat)
    requires i < RowCount && i != 0 && i != SubtotalRow
    ensures exists k :: 0 <= k < MetricCount && Source(k) == i
  {
    var k := if i < SubtotalRow then i - 1 else i - 2;
    assert Source(k) == i;
  }

  predicate Uniform<T>(m: seq<seq<T>>, n: nat) {
    forall k :: 0 <= k < |m| ==> |m[k]| == n
  }

  /** Python `zip(*rows)`: tuples of the i-th elements, as many as the shortest row. */
  function Zip<T>(rows: seq<seq<T>>): (r: seq<seq<T>>)
    ensures forall k :: 0 <= k < |rows| ==> |r| <= |rows[k]|
    ensures forall j :: 0 <= j < |r| ==> |r[j]| == |rows|
    decreases if |rows| == 0 then 0 else |rows[0]|
  {
    if |rows| == 0 || exists k :: 0 <= k < |rows| && |rows[k]| == 0 then []
    else
      var tails := seq(|rows|, k requires 0 <= k < |rows| => rows[k][1..]);
      assert forall k :: 0 <= k < |rows| ==> |tails[k]| == |rows[k]| - 1;
      [seq(|rows|, k requires 0 <= k < |rows| => rows[k][0])] + Zip(tails)
  }

  /** Transposition: a non-empty matrix of rows of width n zips into n columns,
      column j holding element j of every row, in row order. */
  lemma {:induction false} ZipTransposes<T>(rows: seq<seq<T>>, n: nat)
    requires |rows| > 0 && Uniform(rows, n)
    ensures |Zip(rows)| == n
    ensures forall j, k :: 0 <= j < n && 0 <= k < |rows| ==>
              |Zip(rows)[j]| == |rows| && Zip(rows)[j][k] == rows[k][j]
    decreases n
  {
    if n == 0 {
      assert |rows[0]| == 0;
    } else {
      var heads := seq(|rows|, k requires 0 <= k < |rows| => rows[k][0]);
      var tails := seq(|rows|, k requires 0 <= k < |rows| => rows[k][1..]);
      assert |rows[0]| != 0;
      assert Zip(rows) == [heads] + Zip(tails);
      assert Uniform(tails, n - 1);
      ZipTransposes(tails, n - 1);
      forall j, k | 0 <= j < n && 0 <= k < |rows|
        ensures |Zip(rows)[j]| == |rows| && Zip(rows)[j][k] == rows[k][j]
      {
        if j > 0 {
          assert Zip(rows)[j] == Zip(tails)[j - 1];
          assert tails[k][j - 1] == rows[k][j];
        }
      }
    }
  }

  /** One output line: `';'.join([name, uic] + list(map(str, values)))`. Split at `;`
      it gives back the name, the label and the values, when name and label hold no `;`. */
  function Record(name: string, uic: string, values: seq<int>): (r: string)
    ensures ';' !in name && ';' !in uic ==> Split(r, ';') == [name, uic] + Strs(values)
  {
    RecordSplits(name, uic, values);
    Join([name, uic] + Strs(values), ";")
  }

  lemma RecordSplits(name: string, uic: string, values: seq<int>)
    ensures ';' !in name && ';' !in uic ==>
              Split(Join([name, uic] + Strs(values), ";"), ';') == [name, uic] + Strs(values)
  {
    if ';' !in name && ';' !in uic {
      var parts := [name, uic] + Strs(values);
      forall i | 0 <= i < |parts| ensures ';' !in parts[i] {
        if i >= 2 {
          StrNoSeparator(values[i - 2]);
        }
      }
      SplitJoin(parts, ';');
    }
  }

  function Strs(values: seq<int>): (r: seq<string>)
    ensures |r| == |values|
  {
    seq(|values|, i requires 0 <= i < |values| => Str(values[i]))
  }

  /** One line per column, the column's label taken by position. */
  function Records(name: string, labels: seq<string>, columns: seq<seq<int>>): seq<string>
    requires |columns| <= |labels|
  {
    seq(|columns|, i requires 0 <= i < |columns| => Record(name, labels[i], columns[i]))
  }

  /** What one successful attempt writes: `'\n'.join(lines) + '\n'`, always ending
      its last line. */
  function Output(lines: seq<string>): (r: string)
    ensures |r| > 0 && r[|r| - 1] == '\n'
  {
    Join(lines, "\n") + "\n"
  }

  /** One attempt of `parse_uics` on the fetched page `doc` (`None`: the fetch failed),
      with the checks in the order the source makes them. */
  function Attempt(doc: Option<Doc>, name: string): (r: Result<seq<string>>)
    ensures r.Ok? ==> HasRows(doc) && |r.value| == |RowsOf(doc)[0].labels|
  {
    if doc.None? then Err(FetchFailed)
    else if |doc.value.tables| == 0 then Err(NoTable)
    else
      var rows := doc.value.tables[0];
      if |rows| == 0 then Err(NoRows)
      else
        var labels := rows[0].labels;
        match ParseRows(rows)
        case None => Err(NotAnInteger)
        case Some(data) =>
          if |data| != RowCount then Err(WrongRowCount)
          else if |data[SubtotalRow]| != 0 then Err(NotASeparator(SubtotalRow))
          else if |data[0]| != 0 then Err(NotASeparator(0))
          else
            var m := Metrics(data);
            if !Uniform(m, |labels|) then Err(RaggedRow)
            else
              ZipTransposes(m, |labels|);
              Ok(Records(name, labels, Zip(m)))
  }

  // ---------------------------------------------------------------------------
  // What a successful attempt means, stated on the page itself

  /** The rows of the first data table, when there is one. */
  predicate HasRows(doc: Option<Doc>) {
    doc.Some? && |doc.value.tables| > 0 && |doc.value.tables[0]| > 0
  }

  function RowsOf(doc: Option<Doc>): seq<Row>
    requires HasRows(doc)
  {
    doc.value.tables[0]
  }

  /** The shape the extractor accepts: exactly 27 rows, every bold cell an integer,
      rows 0 and 19 without bold cells, every other row with one bold cell per label. */
  predicate WellFormed(doc: Option<Doc>) {
    HasRows(doc) &&
    var rows := RowsOf(doc);
    |rows| == RowCount &&
    (forall i, c :: 0 <= i < |rows| && 0 <= c < |rows[i].bold| ==> ParseInt(rows[i].bold[c]).Some?) &&
    |rows[0].bold| == 0 && |rows[SubtotalRow].bold| == 0 &&
    (forall i :: 0 < i < |rows| && i != SubtotalRow ==> |rows[i].bold| == |rows[0].labels|)
  }

  /** Precinct j's k-th metric: the value of bold cell j in metric row k's source row. */
  function Cell(doc: Option<Doc>, k: nat, j: nat): int
    requires WellFormed(doc) && k < MetricCount && j < |RowsOf(doc)[0].labels|
  {
    var rows := RowsOf(doc);
    ParseInt(rows[Source(k)].bold[j]).value
  }

  /** An attempt succeeds exactly on well-formed pages. */
  lemma AttemptOkIff(doc: Option<Doc>, name: string)
    ensures Attempt(doc, name).Ok? <==> WellFormed(doc)
  {
    if HasRows(doc) {
      var rows := RowsOf(doc);
      var parsed := ParseRows(rows);
      if parsed.Some? && |rows| == RowCount {
        var data := parsed.value;
        var n := |rows[0].labels|;
        if |data[SubtotalRow]| == 0 && |data[0]| == 0 {
          var m := Metrics(data);
          if WellFormed(doc) {
            forall k | 0 <= k < |m| ensures |m[k]| == n {
              MetricsIndex(data, k);
            }
          } else {
            var i :| 0 < i < |rows| && i != SubtotalRow && |rows[i].bold| != n;
            SourceOnto(i);
            var k :| 0 <= k < MetricCount && Source(k) == i;
            MetricsIndex(data, k);
          }
        }
      } else if parsed.None? {
        var i :| 0 <= i < |rows| && Ints(rows[i].bold).None?;
        var c :| 0 <= c < |rows[i].bold| && ParseInt(rows[i].bold[c]).None?;
      }
    }
  }

  /** Transposition and formatting: one line per precinct label, line j carrying
      the accumulated region name, label j and the 25 metrics of precinct j. */
  lemma AttemptLines(doc: Option<Doc>, name: string)
    requires WellFormed(doc)
    ensures Attempt(doc, name).Ok?
    ensures |Attempt(doc, name).value| == |RowsOf(doc)[0].labels|
    ensures forall j :: 0 <= j < |RowsOf(doc)[0].labels| ==>
              Attempt(doc, name).value[j] ==
              Record(name, RowsOf(doc)[0].labels[j], seq(MetricCount, k requires 0 <= k < MetricCount => Cell(doc, k, j)))
  {
    AttemptOkIff(doc, name);
    var rows := RowsOf(doc);
    var labels := rows[0].labels;
    var data := ParseRows(rows).value;
    var m := Metrics(data);
    forall k | 0 <= k < |m| ensures |m[k]| == |labels| {
      MetricsIndex(data, k);
    }
    MetricsIndex(data, 0);
    ZipTransposes(m, |labels|);
    var z := Zip(m);
    forall j | 0 <= j < |labels|
      ensures z[j] == seq(MetricCount, k requires 0 <= k < MetricCount => Cell(doc, k, j))
    {
      forall k | 0 <= k < MetricCount
        ensures z[j][k] == Cell(doc, k, j)
      {
        MetricsIndex(data, k);
      }
    }
  }

  /** Each precinct line has 2 + 25 = 27 `;`-separated fields: the name, the label
      and the decimal forms of the metrics, when name and uic hold no `;`. */
  lemma RecordFields(name: string, uic: string, values: seq<int>)
    requires ';' !in name && ';' !in uic
    requires |values| == MetricCount
    ensures Split(Record(name, uic, values), ';') == [name, uic] + Strs(values)
    ensures |Split(Record(name, uic, values), ';')| == 2 + MetricCount
  {
  }

  /** The decimal form of an integer holds no `;` and no newline. */
  lemma StrNoSeparator(v: int)
    ensures ';' !in Str(v) && '\n' !in Str(v)
  {
    var d := Digits(if v < 0 then -v else v);
    assert forall i :: 0 <= i < |d| ==> IsDigit(d[i]);
  }

  /** A page with no precinct labels writes a lone newline. */
  lemma NoLabelsWritesNewline(doc: Option<Doc>, name: string)
    requires WellFormed(doc) && |RowsOf(doc)[0].labels| == 0
    ensures Output(Attempt(doc, name).value) == "\n"
  {
    AttemptLines(doc, name);
  }

  // ---------------------------------------------------------------------------
  // The attempt as the source runs it: in-place deletions and a checking loop

  /** One attempt on the fetched page, with `del data[19]`, `del data[0]` and the
      loop that checks each remaining row's width. */
  method Extract(doc: Option<Doc>, name: string) returns (r: Result<seq<string>>)
    ensures r == Attempt(doc, name)
  {
    if doc.None? {
      return Err(FetchFailed);
    }
    if |doc.value.tables| == 0 {
      return Err(NoTable);
    }
    var rows := doc.value.tables[0];
    if |rows| == 0 {
      return Err(NoRows);
    }
    var labels := rows[0].labels;
    var parsed := ParseRows(rows);
    if parsed.None? {
      return Err(NotAnInteger);
    }
    var data := parsed.value;
    ghost var original := data;
    if |data| != RowCount {
      return Err(WrongRowCount);
    }
    if |data[SubtotalRow]| != 0 {
      return Err(NotASeparator(SubtotalRow));
    }
    data := Delete(data, SubtotalRow);
    if |data[0]| != 0 {
      return Err(NotASeparator(0));
    }
    data := Delete(data, 0);
    assert data == Metrics(original);
    var i := 0;
    while i < |data|
      invariant 0 <= i <= |data|
      invariant forall k :: 0 <= k < i ==> |data[k]| == |labels|
    {
      if |data[i]| != |labels| {
        return Err(RaggedRow);
      }
      i := i + 1;
    }
    ZipTransposes(data, |labels|);
    var columns := Zip(data);
    r := Ok(Records(name, labels, columns));
  }
}
