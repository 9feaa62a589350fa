/** The whole aggregation (app.py lines 53-210): normalise the column names, map
    the roles, filter and classify the rows, pivot, and name the columns. */
module Pipeline {
  import opened Wrappers
  import opened Calendar
  import opened Seqs
  import opened Columns
  import opened Survey
  import opened Roles
  import opened Sanitize
  import opened Pivot
  import opened Headers

  /** One cell of the output sheet. */
  datatype Value = TextCell(text: string) | CountCell(count: nat)

  /** The sheet the script previews and exports: header row and body rows. */
  datatype Report = Report(header: seq<string>, rows: seq<seq<Value>>)

  /** The upload after lines 53-65: repeated names resolved when there are any. */
  function Normalised(t: Frame): (r: Frame)
    ensures r.rows == t.rows
    ensures !HasDuplicates(t.columns) ==> r == t
    ensures HasDuplicates(t.columns) ==> r.columns == Dedup(t.columns)
  {
    if HasDuplicates(t.columns) then Table(Dedup(t.columns), t.rows) else t
  }

  /** Applying the guard of lines 54-65 twice gives the same table as applying it
      once, provided no column already looks like another's renamed form; without
      that condition the renaming can collide (Columns.DedupCanCollide). */
  lemma NormalisedIdempotent(t: Frame)
    requires NoRenamedForms(t.columns)
    ensures Normalised(Normalised(t)) == Normalised(t)
  {
    if HasDuplicates(t.columns) {
      DedupIsDistinct(t.columns);
    }
  }

  /** Lines 53-149: the rows ready for grouping, or where the script stops. */
  function Prepared(t: Frame, sel: Selection, parse: string -> Option<Timestamp>): (r: Result<seq<Canon>, Error>)
    ensures (sel.consent == "" || sel.enumerator == "" || sel.fielddate == "") ==> r == Err(SelectionIncomplete)
  {
    match MapRoles(Normalised(t), sel)
    case Err(e) => Err(e)
    case Ok(f) => Prepare(RoleRows(f, sel.village != ""), sel.village != "", parse)
  }

  /** One body row: the index cells as text, then the counts and the total. */
  function RowValues(row: WideRow, villageMapped: bool): (r: seq<Value>)
    ensures |r| == |GroupColumns(villageMapped)| + |row.counts| + 1
  {
    seq(|GroupColumns(villageMapped)|, i requires 0 <= i < |GroupColumns(villageMapped)| =>
      TextCell(IndexCells(row.group, villageMapped)[i]))
    + seq(|row.counts|, j requires 0 <= j < |row.counts| => CountCell(row.counts[j]))
    + [CountCell(row.total)]
  }

  /** The header row of the sheet: the styled names of the pivot's columns. */
  function Header(w: Wide, style: HeaderStyle): (h: seq<string>)
    requires forall n :: n in w.index ==> !StartsWith(n, "d_")
    ensures Some(h) == StyledColumns(InternalColumns(w), style)
  {
    StyledLayout(w, style);
    StyledColumns(InternalColumns(w), style).value
  }

  /** The body rows of the sheet, one per pivot row. */
  function Body(w: Wide, villageMapped: bool): (b: seq<seq<Value>>)
    ensures |b| == |w.rows| && forall i :: 0 <= i < |w.rows| ==> b[i] == RowValues(w.rows[i], villageMapped)
  {
    seq(|w.rows|, i requires 0 <= i < |w.rows| => RowValues(w.rows[i], villageMapped))
  }

  /** Lines 176-210 on the pivot: the styled header row over the body rows. */
  function Render(w: Wide, villageMapped: bool, style: HeaderStyle): (r: Report)
    requires w.index == GroupColumns(villageMapped)
    ensures |r.header| == |w.index| + |w.dates| + 1 && |r.rows| == |w.rows|
  {
    IndexNamesUndated(villageMapped);
    Report(Header(w, style), Body(w, villageMapped))
  }

  /** The sheet's shape: the grouping names, one styled header per date, Total;
      every body row as wide as the header. */
  lemma RenderLayout(w: Wide, villageMapped: bool, style: HeaderStyle)
    requires ReshapeRowsFitting(w, villageMapped)
    ensures var r := Render(w, villageMapped, style);
      && |r.header| == |w.index| + |w.dates| + 1 && |r.rows| == |w.rows|
      && (forall i :: 0 <= i < |w.index| ==> r.header[i] == w.index[i])
      && (forall j :: 0 <= j < |w.dates| ==> r.header[|w.index| + j] == StyleText(w.dates[j].date, style))
      && r.header[|r.header| - 1] == "Total"
      && (forall i :: 0 <= i < |r.rows| ==> |r.rows[i]| == |r.header|)
  {
    IndexNamesUndated(villageMapped);
    StyledLayout(w, style);
  }

  /** Every pivot row has one count per date column, under the grouping columns. */
  predicate ReshapeRowsFitting(w: Wide, villageMapped: bool) {
    && w.index == GroupColumns(villageMapped)
    && forall i :: 0 <= i < |w.rows| ==> |w.rows[i].counts| == |w.dates|
  }

  lemma ReshapeRowsFit(rows: seq<Canon>, villageMapped: bool)
    ensures ReshapeRowsFitting(Reshape(rows, villageMapped), villageMapped)
  {
  }

  /** The whole script from the upload to the exported sheet. */
  function Summarise(t: Frame, sel: Selection, style: HeaderStyle, parse: string -> Option<Timestamp>): (r: Result<Report, Error>)
    ensures r.Err? <==> Prepared(t, sel, parse).Err?
    ensures r.Err? ==> r.error == Prepared(t, sel, parse).error
  {
    match Prepared(t, sel, parse)
    case Err(e) => Err(e)
    case Ok(canon) =>
      var villageMapped := sel.village != "";
      Ok(Render(Reshape(canon, villageMapped), villageMapped, style))
  }

  /** The Total column of a sheet. */
  function TotalColumn(r: Report): (s: seq<nat>)
    ensures |s| == |r.rows|
  {
    seq(|r.rows|, i requires 0 <= i < |r.rows| =>
      if r.rows[i] != [] && r.rows[i][|r.rows[i]| - 1].CountCell? then r.rows[i][|r.rows[i]| - 1].count else 0)
  }

  /** Lines 77-79: without consent, enumerator and field date there is no sheet. */
  lemma IncompleteSelectionStops(t: Frame, sel: Selection, style: HeaderStyle, parse: string -> Option<Timestamp>)
    requires sel.consent == "" || sel.enumerator == "" || sel.fielddate == ""
    ensures Summarise(t, sel, style, parse) == Err(SelectionIncomplete)
  {
  }

  /** Lines 107-109 and 139-141: the run stops with no rows left after the
      dropna, or after the date parse, and only then (given a valid mapping). */
  lemma EmptyDataStops(t: Frame, sel: Selection, style: HeaderStyle, parse: string -> Option<Timestamp>)
    requires MapRoles(Normalised(t), sel).Ok?
    ensures var f := MapRoles(Normalised(t), sel).value;
      var rows := RoleRows(f, sel.village != "");
      && (Summarise(t, sel, style, parse) == Err(NoValidObservations) <==>
            forall y :: y in rows ==> !HasRequired(y, sel.village != ""))
      && (Summarise(t, sel, style, parse) == Err(NoValidDates) <==>
            (exists y :: y in rows && HasRequired(y, sel.village != ""))
            && forall y :: y in rows ==> !Survives(y, sel.village != "", parse))
      && (Summarise(t, sel, style, parse).Ok? <==> exists y :: y in rows && Survives(y, sel.village != "", parse))
  {
  }

  /** The Total column of the sheet is the Total of the pivot. */
  lemma RenderTotals(w: Wide, villageMapped: bool, style: HeaderStyle)
    requires w.index == GroupColumns(villageMapped)
    ensures TotalColumn(Render(w, villageMapped, style)) == Totals(w)
  {
    var b := Body(w, villageMapped);
    assert Render(w, villageMapped, style).rows == b;
    forall i | 0 <= i < |b| ensures TotalColumn(Render(w, villageMapped, style))[i] == Totals(w)[i] {
      assert b[i] == RowValues(w.rows[i], villageMapped);
    }
  }

  /** Each count cell of the sheet is the count of its pivot row on its date. */
  lemma RenderCells(w: Wide, villageMapped: bool, style: HeaderStyle, i: nat, j: nat)
    requires ReshapeRowsFitting(w, villageMapped)
    requires i < |w.rows| && j < |w.dates|
    ensures i < |Render(w, villageMapped, style).rows|
    ensures |w.index| + j < |Render(w, villageMapped, style).rows[i]|
    ensures Render(w, villageMapped, style).rows[i][|w.index| + j] == CountCell(w.rows[i].counts[j])
  {
    var row := Body(w, villageMapped)[i];
    assert Render(w, villageMapped, style).rows[i] == row == RowValues(w.rows[i], villageMapped);
  }

  /** The sheet of a run that does not stop, in terms of its prepared rows. */
  lemma SummaryOf(t: Frame, sel: Selection, style: HeaderStyle, parse: string -> Option<Timestamp>)
    requires Summarise(t, sel, style, parse).Ok?
    ensures Prepared(t, sel, parse).Ok?
    ensures var canon := Prepared(t, sel, parse).value;
      ReshapeRowsFitting(Reshape(canon, sel.village != ""), sel.village != "")
      && Summarise(t, sel, style, parse).value == Render(Reshape(canon, sel.village != ""), sel.village != "", style)
  {
    ReshapeRowsFit(Prepared(t, sel, parse).value, sel.village != "");
  }

  /** The Total column adds up to the number of rows that survive both filters:
      every surviving interview is counted once, and nothing else is. */
  lemma TotalsCountSurvivors(t: Frame, sel: Selection, style: HeaderStyle, parse: string -> Option<Timestamp>)
    requires Summarise(t, sel, style, parse).Ok?
    ensures var f := MapRoles(Normalised(t), sel).value;
      Sum(TotalColumn(Summarise(t, sel, style, parse).value))
        == SurvivorCount(RoleRows(f, sel.village != ""), sel.village != "", parse)
  {
    var villageMapped := sel.village != "";
    SummaryOf(t, sel, style, parse);
    var canon := Prepared(t, sel, parse).value;
    var f := MapRoles(Normalised(t), sel).value;
    PrepareCount(RoleRows(f, villageMapped), villageMapped, parse);
    RenderTotals(Reshape(canon, villageMapped), villageMapped, style);
    GrandTotal(canon, villageMapped);
  }

  /** Each count cell of the pivoted sheet of `canon` is the number of rows of
      its group on its date, under the styled header of that date. */
  lemma PivotCells(canon: seq<Canon>, villageMapped: bool, style: HeaderStyle, i: nat, j: nat)
    requires i < |Reshape(canon, villageMapped).rows| && j < |Reshape(canon, villageMapped).dates|
    ensures var w := Reshape(canon, villageMapped);
      var r := Render(w, villageMapped, style);
      var k := |GroupColumns(villageMapped)|;
      && k + j < |r.header| && i < |r.rows| && k + j < |r.rows[i]|
      && r.header[k + j] == StyleText(w.dates[j].date, style)
      && r.rows[i][k + j] == CountCell(Count(canon, w.rows[i].group, w.dates[j]))
  {
    var w := Reshape(canon, villageMapped);
    ReshapeRowsFit(canon, villageMapped);
    RenderLayout(w, villageMapped, style);
    RenderCells(w, villageMapped, style, i, j);
  }

  /** The loop-by-loop script: each stage reassigns the frame as app.py does. */
  method Run(t: Frame, sel: Selection, style: HeaderStyle, parse: string -> Option<Timestamp>) returns (r: Result<Report, Error>)
    ensures r == Summarise(t, sel, style, parse)
  {
    var prepared := PrepareRows(t, sel, parse);
    if prepared.Err? {
      return Err(prepared.error);
    }
    var villageMapped := sel.village != "";
    var reshaped := Reshape(prepared.value, villageMapped);
    IndexNamesUndated(villageMapped);
    var header := NameColumns(reshaped, style);
    return Ok(Report(header, Body(reshaped, villageMapped)));
  }

  /** Lines 53-149, stage by stage. */
  method PrepareRows(t: Frame, sel: Selection, parse: string -> Option<Timestamp>) returns (r: Result<seq<Canon>, Error>)
    ensures r == Prepared(t, sel, parse)
  {
    var df := t;
    if HasDuplicates(df.columns) {
      var newColumns := ResolveDuplicates(df.columns);
      df := Table(newColumns, df.rows);
    }
    assert df == Normalised(t);
    var mapped := MapRoles(df, sel);
    if mapped.Err? {
      return Err(mapped.error);
    }
    var villageMapped := sel.village != "";
    r := Prepare(RoleRows(mapped.value, villageMapped), villageMapped, parse);
  }

  /** Lines 176-210 as loops: the internal names, then the styled headers. */
  method NameColumns(w: Wide, style: HeaderStyle) returns (header: seq<string>)
    requires forall n :: n in w.index ==> !StartsWith(n, "d_")
    ensures header == Header(w, style)
  {
    var labels := ColumnLabels(w);
    LabelsAreNamed(w);
    var renamedCols := InternalNames(labels, w.index);
    var columns := RenameLabels(labels, renamedCols);
    StyledLayout(w, style);
    var prettyRenamed := HeaderNames(columns, style);
    header := RenameColumns(columns, prettyRenamed.value);
  }

  /** Every name label of the pivot is an index column or Total. */
  lemma LabelsAreNamed(w: Wide)
    ensures forall c :: c in ColumnLabels(w) && c.Name? ==> c.name in w.index || c.name == "Total"
  {
    var cols := ColumnLabels(w);
    forall c | c in cols && c.Name? ensures c.name in w.index || c.name == "Total" {
      var k :| 0 <= k < |cols| && cols[k] == c;
      if k < |w.index| {
        assert c.name == w.index[k];
      } else {
        assert k == |cols| - 1;
      }
    }
  }
}
