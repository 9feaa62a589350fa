/** Daily counts and the wide table (app.py lines 151-178): rows grouped by
    enumerator, village when selected, and consent class; one column per field
    date holding that day's count, zero where there was none; and a row total. */
module Pivot {
  import opened Calendar
  import opened Order
  import opened Seqs
  import opened Sanitize

  /** group_cols and index_cols (lines 152-154 and 162-164): enumerator, then
      village when one was selected, then the consent class. */
  function GroupColumns(villageMapped: bool): (r: seq<string>)
    ensures |r| == (if villageMapped then 3 else 2)
    ensures r[0] == "enum" && r[|r| - 1] == "Consent_Status"
    ensures "village" in r <==> villageMapped
  {
    if villageMapped then ["enum", "village", "Consent_Status"] else ["enum", "Consent_Status"]
  }

  /** A group of the groupby: enumerator, village ("" when no village column
      was selected, so that it does not split groups) and consent class. */
  datatype Group = Group(enumerator: string, village: string, status: Status)

  function GroupOf(c: Canon): Group {
    Group(c.enumerator, c.village, c.status)
  }

  /** The index cells of a group in the wide table, one per grouping column. */
  function IndexCells(g: Group, villageMapped: bool): (r: seq<string>)
    ensures |r| == |GroupColumns(villageMapped)|
    ensures r[0] == g.enumerator && r[|r| - 1] == StatusName(g.status)
    ensures villageMapped ==> r[1] == g.village
  {
    if villageMapped then [g.enumerator, g.village, StatusName(g.status)]
    else [g.enumerator, StatusName(g.status)]
  }

  /** "No" sorts before "Yes". */
  predicate StatusBefore(a: Status, b: Status) {
    a == No && b == Yes
  }

  lemma StatusBeforeIsNameOrder(a: Status, b: Status)
    ensures StatusBefore(a, b) <==> StrBefore(StatusName(a), StatusName(b))
  {
    assert StrBefore("No", "Yes");
    assert !StrBefore("Yes", "No");
    LexIrreflexive("No", CharBefore);
    LexIrreflexive("Yes", CharBefore);
  }

  /** The order pandas sorts the groups in: tuples compared field by field. */
  predicate GroupBefore(a: Group, b: Group) {
    StrBefore(a.enumerator, b.enumerator)
    || (a.enumerator == b.enumerator && StrBefore(a.village, b.village))
    || (a.enumerator == b.enumerator && a.village == b.village && StatusBefore(a.status, b.status))
  }

  lemma GroupBeforeIsStrictTotal()
    ensures StrictTotal(GroupBefore)
  {
    StrBeforeIsStrictTotal();
  }

  lemma LexCons(a: string, x: seq<string>, b: string, y: seq<string>)
    ensures KeyBefore([a] + x, [b] + y) <==> StrBefore(a, b) || (a == b && KeyBefore(x, y))
  {
    assert ([a] + x)[1..] == x && ([b] + y)[1..] == y;
  }

  /** Comparing groups is comparing their index tuples as Python does. */
  lemma GroupOrderIsTupleOrder(a: Group, b: Group, villageMapped: bool)
    requires !villageMapped ==> a.village == b.village
    ensures GroupBefore(a, b) <==> KeyBefore(IndexCells(a, villageMapped), IndexCells(b, villageMapped))
  {
    var na, nb := StatusName(a.status), StatusName(b.status);
    StatusBeforeIsNameOrder(a.status, b.status);
    assert na == nb ==> a.status == b.status;
    LexCons(na, [], nb, []);
    assert [na] + [] == [na] && [nb] + [] == [nb];
    assert KeyBefore([na], [nb]) <==> StatusBefore(a.status, b.status);
    if villageMapped {
      LexCons(a.village, [na], b.village, [nb]);
      LexCons(a.enumerator, [a.village, na], b.enumerator, [b.village, nb]);
      assert IndexCells(a, villageMapped) == [a.enumerator] + ([a.village] + [na]);
      assert IndexCells(b, villageMapped) == [b.enumerator] + ([b.village] + [nb]);
    } else {
      LexCons(a.enumerator, [na], b.enumerator, [nb]);
      LexIrreflexive(a.village, CharBefore);
      assert IndexCells(a, villageMapped) == [a.enumerator] + [na];
      assert IndexCells(b, villageMapped) == [b.enumerator] + [nb];
    }
  }

  /** Some row of `rows` is in group `g` and dated `d`. */
  predicate Observed(rows: seq<Canon>, g: Group, d: Timestamp) {
    exists i :: 0 <= i < |rows| && GroupOf(rows[i]) == g && rows[i].stamp == d
  }

  /** How many rows are in group `g` and dated `d`. */
  function Count(rows: seq<Canon>, g: Group, d: Timestamp): nat {
    if rows == [] then 0
    else
      var last := rows[|rows| - 1];
      Count(rows[..|rows| - 1], g, d) + (if GroupOf(last) == g && last.stamp == d then 1 else 0)
  }

  /** How many rows are in group `g`. */
  function GroupSize(rows: seq<Canon>, g: Group): nat {
    if rows == [] then 0
    else GroupSize(rows[..|rows| - 1], g) + (if GroupOf(rows[|rows| - 1]) == g then 1 else 0)
  }

  /** A count is zero exactly when no row has that group and date. */
  lemma {:induction false} CountZero(rows: seq<Canon>, g: Group, d: Timestamp)
    ensures Count(rows, g, d) == 0 <==> !Observed(rows, g, d)
  {
    if rows != [] {
      var init := rows[..|rows| - 1];
      CountZero(init, g, d);
      if Observed(init, g, d) {
        var i :| 0 <= i < |init| && GroupOf(init[i]) == g && init[i].stamp == d;
        assert rows[i] == init[i];
      }
      if Observed(rows, g, d) {
        var i :| 0 <= i < |rows| && GroupOf(rows[i]) == g && rows[i].stamp == d;
        if i < |init| {
          assert init[i] == rows[i];
        }
      }
    }
  }

  /** A (group, field date) pair of the groupby. */
  datatype Day = Day(group: Group, stamp: Timestamp)

  lemma ObservedStep(rows: seq<Canon>, q: Day)
    requires rows != []
    ensures Observed(rows, q.group, q.stamp) <==>
      Observed(rows[..|rows| - 1], q.group, q.stamp) || q == Day(GroupOf(rows[|rows| - 1]), rows[|rows| - 1].stamp)
  {
    var init := rows[..|rows| - 1];
    if Observed(rows, q.group, q.stamp) {
      var i :| 0 <= i < |rows| && GroupOf(rows[i]) == q.group && rows[i].stamp == q.stamp;
      if i < |init| {
        assert init[i] == rows[i];
      }
    }
    if Observed(init, q.group, q.stamp) {
      var i :| 0 <= i < |init| && GroupOf(init[i]) == q.group && init[i].stamp == q.stamp;
      assert rows[i] == init[i];
    }
  }

  /** groupby(group_cols + ['fielddate']).size() (lines 155-159), built the way
      a counter is: each row adds one to the entry of its group and date. */
  function DailyCounts(rows: seq<Canon>): (r: map<Day, nat>)
    ensures forall q :: q in r <==> Observed(rows, q.group, q.stamp)
    ensures forall q :: q in r ==> r[q] == Count(rows, q.group, q.stamp) && r[q] >= 1
  {
    if rows == [] then map[]
    else
      var m := DailyCounts(rows[..|rows| - 1]);
      var last := rows[|rows| - 1];
      var p := Day(GroupOf(last), last.stamp);
      var r := m[p := (if p in m then m[p] else 0) + 1];
      assert forall q :: q in r <==> Observed(rows, q.group, q.stamp) by {
        forall q ensures q in r <==> Observed(rows, q.group, q.stamp) {
          ObservedStep(rows, q);
        }
      }
      assert forall q :: q in r ==> r[q] == Count(rows, q.group, q.stamp) by {
        forall q | q in r ensures r[q] == Count(rows, q.group, q.stamp) {
          if q == p {
            CountZero(rows[..|rows| - 1], q.group, q.stamp);
          }
        }
      }
      r
  }

  /** pivot_table's cell for a group and a date: the daily count, or fill_value=0
      when the group has no row that day. */
  function CellValue(daily: map<Day, nat>, g: Group, d: Timestamp): (r: nat)
    ensures Day(g, d) in daily ==> r == daily[Day(g, d)]
    ensures Day(g, d) !in daily ==> r == 0
  {
    var q := Day(g, d);
    if q in daily then daily[q] else 0
  }

  /** One row of the wide table: its group, a count per date column, and the
      Total column. */
  datatype WideRow = WideRow(group: Group, counts: seq<nat>, total: nat)

  /** The wide table: index column names, date columns, rows. */
  datatype Wide = Wide(index: seq<string>, dates: seq<Timestamp>, rows: seq<WideRow>)

  lemma StampBeforeIsStrictTotal()
    ensures StrictTotal(StampBefore)
  {
    forall a: Timestamp, b: Timestamp | a != b ensures StampBefore(a, b) || StampBefore(b, a) {
      if a.date == b.date {
        assert a.nanos != b.nanos;
      }
    }
  }

  function GroupsOf(rows: seq<Canon>): (r: seq<Group>)
    ensures |r| == |rows| && forall i :: 0 <= i < |rows| ==> r[i] == GroupOf(rows[i])
  {
    seq(|rows|, i requires 0 <= i < |rows| => GroupOf(rows[i]))
  }

  function StampsOf(rows: seq<Canon>): (r: seq<Timestamp>)
    ensures |r| == |rows| && forall i :: 0 <= i < |rows| ==> r[i] == rows[i].stamp
  {
    seq(|rows|, i requires 0 <= i < |rows| => rows[i].stamp)
  }

  /** The pivot's index: every group that has a row, once, in ascending order. */
  function SortedGroups(rows: seq<Canon>): (r: seq<Group>)
    ensures SortedBy(r, GroupBefore) && Distinct(r)
    ensures forall g :: g in r <==> exists i :: 0 <= i < |rows| && GroupOf(rows[i]) == g
  {
    GroupBeforeIsStrictTotal();
    var gs := GroupsOf(rows);
    var r := SortedSet(gs, GroupBefore);
    SortedIsDistinct(r, GroupBefore);
    assert forall g :: g in gs <==> exists i :: 0 <= i < |rows| && GroupOf(rows[i]) == g by {
      forall g ensures g in gs <==> exists i :: 0 <= i < |rows| && GroupOf(rows[i]) == g {
        if g in gs {
          var i :| 0 <= i < |gs| && gs[i] == g;
        }
      }
    }
    r
  }

  /** The pivot's columns: every field date that has a row, once, in time order. */
  function SortedDates(rows: seq<Canon>): (r: seq<Timestamp>)
    ensures SortedBy(r, StampBefore) && Distinct(r)
    ensures forall d :: d in r <==> exists i :: 0 <= i < |rows| && rows[i].stamp == d
  {
    StampBeforeIsStrictTotal();
    var ds := StampsOf(rows);
    var r := SortedSet(ds, StampBefore);
    SortedIsDistinct(r, StampBefore);
    assert forall d :: d in ds <==> exists i :: 0 <= i < |rows| && rows[i].stamp == d by {
      forall d ensures d in ds <==> exists i :: 0 <= i < |rows| && rows[i].stamp == d {
        if d in ds {
          var i :| 0 <= i < |ds| && ds[i] == d;
        }
      }
    }
    r
  }

  /** The counts of group `g` on each of `dates`. */
  function CountsOn(rows: seq<Canon>, g: Group, dates: seq<Timestamp>): (r: seq<nat>)
    ensures |r| == |dates| && forall j :: 0 <= j < |dates| ==> r[j] == Count(rows, g, dates[j])
  {
    seq(|dates|, j requires 0 <= j < |dates| => Count(rows, g, dates[j]))
  }

  /** The sizes of the groups in `groups`. */
  function SizesOf(rows: seq<Canon>, groups: seq<Group>): (r: seq<nat>)
    ensures |r| == |groups| && forall k :: 0 <= k < |groups| ==> r[k] == GroupSize(rows, groups[k])
  {
    seq(|groups|, k requires 0 <= k < |groups| => GroupSize(rows, groups[k]))
  }

  /** Adding a row adds one to the count of its own group and day. */
  lemma CountsOnStep(rows: seq<Canon>, g: Group, dates: seq<Timestamp>)
    requires rows != []
    ensures var last := rows[|rows| - 1];
      CountsOn(rows, g, dates) ==
        if GroupOf(last) == g then Plus(CountsOn(rows[..|rows| - 1], g, dates), Hits(dates, last.stamp))
        else CountsOn(rows[..|rows| - 1], g, dates)
  {
  }

  lemma SizesOfStep(rows: seq<Canon>, groups: seq<Group>)
    requires rows != []
    ensures SizesOf(rows, groups) == Plus(SizesOf(rows[..|rows| - 1], groups), Hits(groups, GroupOf(rows[|rows| - 1])))
  {
  }

  /** The per-date counts of a group add up to the size of the group, provided
      the dates are listed without repeats and include every date of the group. */
  lemma {:induction false} DayCountsSum(rows: seq<Canon>, g: Group, dates: seq<Timestamp>)
    requires Distinct(dates)
    requires forall i :: 0 <= i < |rows| && GroupOf(rows[i]) == g ==> rows[i].stamp in dates
    ensures Sum(CountsOn(rows, g, dates)) == GroupSize(rows, g)
  {
    if rows == [] {
      SumZeros(CountsOn(rows, g, dates));
    } else {
      var init := rows[..|rows| - 1];
      var last := rows[|rows| - 1];
      forall i | 0 <= i < |init| && GroupOf(init[i]) == g ensures init[i].stamp in dates {
        assert init[i] == rows[i];
      }
      DayCountsSum(init, g, dates);
      CountsOnStep(rows, g, dates);
      if GroupOf(last) == g {
        SumPlus(CountsOn(init, g, dates), Hits(dates, last.stamp));
        SumHits(dates, last.stamp);
      }
    }
  }

  /** The group sizes add up to the number of rows, provided the groups are
      listed without repeats and include the group of every row. */
  lemma {:induction false} GroupSizesSum(rows: seq<Canon>, groups: seq<Group>)
    requires Distinct(groups)
    requires forall i :: 0 <= i < |rows| ==> GroupOf(rows[i]) in groups
    ensures Sum(SizesOf(rows, groups)) == |rows|
  {
    if rows == [] {
      SumZeros(SizesOf(rows, groups));
    } else {
      var init := rows[..|rows| - 1];
      var last := rows[|rows| - 1];
      forall i | 0 <= i < |init| ensures GroupOf(init[i]) in groups {
        assert init[i] == rows[i];
      }
      GroupSizesSum(init, groups);
      SizesOfStep(rows, groups);
      SumPlus(SizesOf(init, groups), Hits(groups, GroupOf(last)));
      SumHits(groups, GroupOf(last));
    }
  }

  /** One group's cells, a count per date. */
  function RowCells(daily: map<Day, nat>, g: Group, dates: seq<Timestamp>): (r: seq<nat>)
    ensures |r| == |dates| && forall j :: 0 <= j < |dates| ==> r[j] == CellValue(daily, g, dates[j])
  {
    seq(|dates|, j requires 0 <= j < |dates| => CellValue(daily, g, dates[j]))
  }

  /** The wide rows, one per group in `groups`. */
  function WideRows(groups: seq<Group>, dates: seq<Timestamp>, daily: map<Day, nat>): (r: seq<WideRow>)
    ensures |r| == |groups|
    ensures forall i :: 0 <= i < |groups| ==>
      r[i].group == groups[i] && r[i].counts == RowCells(daily, groups[i], dates) && r[i].total == Sum(r[i].counts)
  {
    seq(|groups|, i requires 0 <= i < |groups| =>
      var counts := RowCells(daily, groups[i], dates);
      WideRow(groups[i], counts, Sum(counts)))
  }

  /** A group's cells hold its count on every date, filled with zero, and add
      up to the size of the group when the dates cover every row without
      repeats. */
  lemma RowCellsCount(rows: seq<Canon>, g: Group, dates: seq<Timestamp>)
    requires Distinct(dates) && forall i :: 0 <= i < |rows| ==> rows[i].stamp in dates
    ensures RowCells(DailyCounts(rows), g, dates) == CountsOn(rows, g, dates)
    ensures Sum(RowCells(DailyCounts(rows), g, dates)) == GroupSize(rows, g)
  {
    forall j | 0 <= j < |dates| ensures RowCells(DailyCounts(rows), g, dates)[j] == Count(rows, g, dates[j]) {
      CountZero(rows, g, dates[j]);
    }
    DayCountsSum(rows, g, dates);
  }

  lemma WideRowsCount(rows: seq<Canon>, groups: seq<Group>, dates: seq<Timestamp>)
    requires Distinct(dates) && forall i :: 0 <= i < |rows| ==> rows[i].stamp in dates
    ensures var wide := WideRows(groups, dates, DailyCounts(rows));
      forall i :: 0 <= i < |groups| ==>
        wide[i].counts == CountsOn(rows, groups[i], dates) && wide[i].total == GroupSize(rows, groups[i])
  {
    forall g | g in groups {
      RowCellsCount(rows, g, dates);
    }
  }

  /** The group column of the wide table. */
  function GroupsIn(w: Wide): (r: seq<Group>)
    ensures |r| == |w.rows| && forall i :: 0 <= i < |w.rows| ==> r[i] == w.rows[i].group
  {
    seq(|w.rows|, i requires 0 <= i < |w.rows| => w.rows[i].group)
  }

  /** The Total column of the wide table. */
  function Totals(w: Wide): (r: seq<nat>)
    ensures |r| == |w.rows| && forall i :: 0 <= i < |w.rows| ==> r[i] == w.rows[i].total
  {
    seq(|w.rows|, i requires 0 <= i < |w.rows| => w.rows[i].total)
  }

  /** Lines 161-178: pivot the daily counts to one row per group (sorted, as
      pandas sorts the index) and one column per date (in time order), filling
      zero; then the Total column, the sum of the date columns. */
  function Reshape(rows: seq<Canon>, villageMapped: bool): (r: Wide)
    ensures r.index == GroupColumns(villageMapped)
    ensures r.dates == SortedDates(rows) && GroupsIn(r) == SortedGroups(rows)
    ensures forall i :: 0 <= i < |r.rows| ==>
      r.rows[i].counts == CountsOn(rows, r.rows[i].group, r.dates) && r.rows[i].total == GroupSize(rows, r.rows[i].group)
  {
    var groups := SortedGroups(rows);
    var dates := SortedDates(rows);
    var wide := WideRows(groups, dates, DailyCounts(rows));
    assert forall i :: 0 <= i < |rows| ==> rows[i].stamp in dates;
    WideRowsCount(rows, groups, dates);
    var r := Wide(GroupColumns(villageMapped), dates, wide);
    assert GroupsIn(r) == groups;
    r
  }

  /** The wide table in full: date columns in time order, one per field date
      that occurs; one row per group that occurs, in ascending order; each cell
      the number of rows of that group on that date, zero where there are none;
      Total the size of the group. */
  lemma ReshapeCells(rows: seq<Canon>, villageMapped: bool)
    ensures var r := Reshape(rows, villageMapped);
      && SortedBy(r.dates, StampBefore)
      && (forall d :: d in r.dates <==> exists i :: 0 <= i < |rows| && rows[i].stamp == d)
      && SortedBy(GroupsIn(r), GroupBefore)
      && (forall g :: g in GroupsIn(r) <==> exists i :: 0 <= i < |rows| && GroupOf(rows[i]) == g)
      && (forall i, j :: 0 <= i < |r.rows| && 0 <= j < |r.dates| ==>
            j < |r.rows[i].counts| && r.rows[i].counts[j] == Count(rows, r.rows[i].group, r.dates[j]))
      && (forall i :: 0 <= i < |r.rows| ==> r.rows[i].total == GroupSize(rows, r.rows[i].group))
  {
  }

  /** The Total column of the whole table adds up to the number of rows that
      reached the grouping: every such row is counted once, on one day. */
  lemma GrandTotal(rows: seq<Canon>, villageMapped: bool)
    ensures Sum(Totals(Reshape(rows, villageMapped))) == |rows|
  {
    var w := Reshape(rows, villageMapped);
    var groups := GroupsIn(w);
    assert groups == SortedGroups(rows);
    assert forall i :: 0 <= i < |rows| ==> GroupOf(rows[i]) in groups;
    GroupSizesSum(rows, groups);
    assert Totals(w) == SizesOf(rows, groups);
  }
}
