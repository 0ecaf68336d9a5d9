/** A table of named numeric columns over a common time axis: each row is an entry whose
    item holds one value per name. Columns are added by merging the table with a named
    series on instants, so only the instants the table and the series share survive. */
module MultipleDoubleSeries {
  import opened Failures
  import opened TimeSeries
  import DS = DoubleSeries

  type Row = Entry<seq<real>>

  /** The merge function of addSeries: the row list gains the series' value at its end. */
  function Extended(row: seq<real>, value: real): (r: seq<real>)
    ensures |r| == |row| + 1 && r[..|row|] == row && r[|row|] == value
  {
    row + [value]
  }

  /** Every row holds exactly `width` values. */
  predicate RowsOfWidth(rows: seq<Row>, width: nat)
  {
    forall k :: 0 <= k < |rows| ==> |rows[k].item| == width
  }

  /** The names of the given series, in order. */
  function NamesOf(series: seq<DS.DoubleSeries>): (r: seq<string>)
    ensures |r| == |series|
    ensures forall i :: 0 <= i < |series| ==> r[i] == series[i].name
  {
    if |series| == 0 then [] else NamesOf(series[..|series| - 1]) + [series[|series| - 1].name]
  }

  /** List.indexOf: the first position holding `name`, or -1 when there is none. */
  function FirstIndex(names: seq<string>, name: string): (r: int)
    ensures -1 <= r < |names|
    ensures r == -1 <==> name !in names
    ensures r >= 0 ==> names[r] == name && name !in names[..r]
  {
    if |names| == 0 then -1
    else if names[0] == name then 0
    else
      var rest := FirstIndex(names[1..], name);
      if rest == -1 then -1 else rest + 1
  }

  /** The stream over the rows that maps each to (row.get(index), instant): List.get fails
      on the first row that has no value at `index`. */
  function Column(rows: seq<Row>, index: int): (r: Result<seq<Entry<real>>>)
    ensures r.Err? <==> exists k :: 0 <= k < |rows| && !(0 <= index < |rows[k].item|)
    ensures r.Err? ==> r.fault == IndexOutOfBounds
    ensures r.Ok? ==> |r.value| == |rows|
    ensures r.Ok? ==> forall k :: 0 <= k < |rows| ==> r.value[k] == Entry(rows[k].item[index], rows[k].instant)
  {
    if |rows| == 0 then Ok([])
    else if !(0 <= index < |rows[0].item|) then
      assert rows[0] in rows;
      Err(IndexOutOfBounds)
    else
      assert forall k :: 1 <= k < |rows| ==> rows[k] == rows[1..][k - 1];
      match Column(rows[1..], index)
      case Err(e) => Err(e)
      case Ok(rest) => Ok([Entry(rows[0].item[index], rows[0].instant)] + rest)
  }

  /** getColumn(name) on a table with these rows and names. */
  function ColumnOf(rows: seq<Row>, names: seq<string>, name: string): Result<DS.DoubleSeries>
  {
    match Column(rows, FirstIndex(names, name))
    case Err(e) => Err(e)
    case Ok(entries) => Ok(DS.DoubleSeries(entries, name))
  }

  class MultipleDoubleSeries {
    var data: seq<Row>
    var names: seq<string>

    /** Every row has one value per name. */
    ghost predicate Valid()
      reads this
    {
      RowsOfWidth(data, |names|)
    }

    /** new MultipleDoubleSeries(names): no rows, the names copied in order. */
    constructor FromNames(names: seq<string>)
      ensures data == [] && this.names == names
      ensures Valid()
    {
      data := [];
      this.names := names;
    }

    /** The state the varargs constructor starts from: no rows and no names. */
    constructor Empty()
      ensures data == [] && names == []
      ensures Valid()
    {
      data := [];
      names := [];
    }

    /** new MultipleDoubleSeries(series...): addSeries for each series in turn, on a table
        that starts with no rows. Every merge is then against nothing: the table keeps no
        rows and collects the names, and it fails exactly when some series fails the
        direction check of merge. */
    static method OfSeries(series: seq<DS.DoubleSeries>) returns (r: Result<MultipleDoubleSeries>)
      ensures r.Err? <==> exists i :: 0 <= i < |series| && !HeadAscending(series[i].data)
      ensures r.Err? ==> r.fault == CheckFailed
      ensures r.Ok? ==> fresh(r.value) && r.value.data == [] && r.value.names == NamesOf(series)
      ensures r.Ok? ==> r.value.Valid()
    {
      var table := new MultipleDoubleSeries.Empty();
      for i := 0 to |series|
        invariant table.data == [] && table.names == NamesOf(series[..i])
        invariant forall j :: 0 <= j < i ==> HeadAscending(series[j].data)
        invariant fresh(table)
      {
        MergeWithEmpty(table.data, series[i].data, Extended);
        var added := table.AddSeries(series[i]);
        if added.Err? {
          return Err(added.fault);
        }
        assert series[..i + 1][..i] == series[..i];
      }
      assert series[..|series|] == series;
      return Ok(table);
    }

    /** initializeWithSeries(series): one single-value row per entry of the series, and
        the name appended. */
    method InitializeWithSeries(series: DS.DoubleSeries)
      modifies this
      ensures |data| == |series.data| && RowsOfWidth(data, 1)
      ensures forall k :: 0 <= k < |data| ==> data[k] == Entry([series.data[k].item], series.data[k].instant)
      ensures names == old(names) + [series.name]
      ensures old(names) == [] ==> Valid()
    {
      var entries: seq<Row> := [];
      for k := 0 to |series.data|
        invariant |entries| == k
        invariant forall j :: 0 <= j < k ==> entries[j] == Entry([series.data[j].item], series.data[j].instant)
      {
        entries := entries + [Entry([series.data[k].item], series.data[k].instant)];
      }
      data := entries;
      names := names + [series.name];
    }

    /** addSeries(series): the rows become the merge of the table with the series, each
        surviving row extended by the series' value at its instant, and the name is
        appended. When the merge raises, the table is left as it was. */
    method AddSeries(series: DS.DoubleSeries) returns (r: Result<()>)
      modifies this
      ensures Merged(old(data), series.data, Extended).Err? ==>
                r == Err(Merged(old(data), series.data, Extended).fault)
                && data == old(data) && names == old(names)
      ensures Merged(old(data), series.data, Extended).Ok? ==>
                r == Ok(()) && data == Merged(old(data), series.data, Extended).value
                && names == old(names) + [series.name]
      // Every row keeps one value per name.
      ensures old(Valid()) ==> Valid()
    {
      var mine := new TimeSeries.FromData(data);
      var theirs := new TimeSeries.FromData(series.data);
      var merged := Merge(mine, theirs, Extended);
      if merged.Err? {
        return Err(merged.fault);
      }
      if RowsOfWidth(data, |names|) {
        AddSeriesKeepsWidth(data, |names|, series);
      }
      data := merged.value.data;
      names := names + [series.name];
      r := Ok(());
    }

    /** getColumn(name): the values at the first position of `name`, with the rows'
        instants, as a series named `name`. */
    function GetColumn(name: string): (r: Result<DS.DoubleSeries>)
      reads this
      ensures Valid() && name in names ==>
                r.Ok? && r.value.name == name && |r.value.data| == |data|
                && forall k :: 0 <= k < |data| ==>
                     r.value.data[k] == Entry(data[k].item[IndexOf(name)], data[k].instant)
      ensures name !in names && |data| > 0 ==> r == Err(IndexOutOfBounds)
      ensures name !in names && |data| == 0 ==> r == Ok(DS.DoubleSeries([], name))
    {
      ColumnOf(data, names, name)
    }

    /** indexOf(name). */
    function IndexOf(name: string): (r: int)
      reads this
      ensures r == -1 <==> name !in names
      ensures r >= 0 ==> r < |names| && names[r] == name && name !in names[..r]
    {
      FirstIndex(names, name)
    }

    /** getNames(): a copy of the names. */
    function GetNames(): (r: seq<string>)
      reads this
      ensures r == names
    {
      names
    }
  }

  // ---------------------------------------------------------------------------
  // Properties
  // ---------------------------------------------------------------------------

  /** Each row that addSeries keeps is a row of the table with one value of the series
      appended, both at the same instant; no more rows than either side had survive. */
  lemma RowsGainOneValue(rows: seq<Row>, s: DS.DoubleSeries)
    ensures Merged(rows, s.data, Extended).Ok? ==>
              var out := Merged(rows, s.data, Extended).value;
              |out| <= |rows| && |out| <= |s.data|
              && forall n :: 0 <= n < |out| ==>
                   exists i, j :: 0 <= i < |rows| && 0 <= j < |s.data| && rows[i].instant == s.data[j].instant
                                  && out[n] == Entry(rows[i].item + [s.data[j].item], rows[i].instant)
  {
    if HeadAscending(rows) && HeadAscending(s.data) {
      MergeFromSound(rows, s.data, 0, 0, Extended);
    }
  }

  /** addSeries keeps every row one value per name: rows of width w become rows of
      width w + 1. */
  lemma AddSeriesKeepsWidth(rows: seq<Row>, width: nat, s: DS.DoubleSeries)
    requires RowsOfWidth(rows, width)
    ensures Merged(rows, s.data, Extended).Ok? ==> RowsOfWidth(Merged(rows, s.data, Extended).value, width + 1)
  {
    RowsGainOneValue(rows, s);
  }

  /** On a table with no rows, addSeries joins against nothing: it keeps no rows, or
      fails the direction check of the series. */
  lemma JoinAgainstNothing(s: DS.DoubleSeries)
    ensures Merged([], s.data, Extended) == if HeadAscending(s.data) then Ok([]) else Err(CheckFailed)
  {
    MergeWithEmpty([], s.data, Extended);
  }

  /** getColumn of a name the table holds, when every row has one value per name:
      the values at the first position of the name, at the rows' instants, in row order. */
  lemma KnownColumn(rows: seq<Row>, names: seq<string>, name: string)
    requires RowsOfWidth(rows, |names|) && name in names
    ensures ColumnOf(rows, names, name).Ok?
    ensures var c := ColumnOf(rows, names, name).value;
            c.name == name && |c.data| == |rows|
            && forall k :: 0 <= k < |rows| ==>
                 c.data[k] == Entry(rows[k].item[FirstIndex(names, name)], rows[k].instant)
  {
  }

  /** getColumn of a name the table does not hold looks up index -1: it fails on a table
      with rows and is an empty series named `name` on a table without. */
  lemma UnknownColumn(rows: seq<Row>, names: seq<string>, name: string)
    requires name !in names
    ensures |rows| > 0 ==> ColumnOf(rows, names, name) == Err(IndexOutOfBounds)
    ensures |rows| == 0 ==> ColumnOf(rows, names, name) == Ok(DS.DoubleSeries([], name))
  {
  }

  /** With a duplicated name, getColumn reads the first of its positions. */
  lemma DuplicateNameReadsFirst(names: seq<string>, name: string, i: int, j: int)
    requires 0 <= i < j < |names| && names[i] == name && names[j] == name
    ensures FirstIndex(names, name) <= i && FirstIndex(names, name) != j
  {
    assert names[..j][i] == name;
  }

  /** The single-value rows that initializeWithSeries builds give the series back as
      column 0. */
  lemma InitializedColumnRoundTrip(series: DS.DoubleSeries, rows: seq<Row>)
    requires |rows| == |series.data|
    requires forall k :: 0 <= k < |rows| ==> rows[k] == Entry([series.data[k].item], series.data[k].instant)
    ensures ColumnOf(rows, [series.name], series.name) == Ok(series)
  {
    var c := Column(rows, 0).value;
    assert forall k :: 0 <= k < |rows| ==> c[k] == series.data[k];
    assert c == series.data;
  }
}
