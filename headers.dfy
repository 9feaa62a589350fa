/** Column names of the wide table (app.py lines 176-210): the date columns get
    the internal key d_%d%b%Y, and the chosen header style then renders each key. */
module Headers {
  import opened Wrappers
  import opened Text
  import opened Calendar
  import opened Roles
  import opened Pivot

  /** A column label of the pivoted frame: a name, or a field date. */
  datatype Label = Name(name: string) | When(stamp: Timestamp)

  /** reshaped.columns after reset_index and the Total column: the index names,
      then the dates, then "Total". */
  function ColumnLabels(w: Wide): (r: seq<Label>)
    ensures |r| == |w.index| + |w.dates| + 1
    ensures forall i :: 0 <= i < |w.index| ==> r[i] == Name(w.index[i])
    ensures forall j :: 0 <= j < |w.dates| ==> r[|w.index| + j] == When(w.dates[j])
    ensures r[|r| - 1] == Name("Total")
  {
    seq(|w.index|, i requires 0 <= i < |w.index| => Name(w.index[i]))
    + seq(|w.dates|, j requires 0 <= j < |w.dates| => When(w.dates[j]))
    + [Name("Total")]
  }

  /** The internal key of a date column: "d_" and strftime('%d%b%Y'). */
  function InternalKey(d: Date): (s: string)
    ensures |s| == 11 && s[..2] == "d_" && s[2..] == CompactText(d)
  {
    "d_" + CompactText(d)
  }

  /** renamed_cols as the loop at lines 181-186 leaves it: every date label of
      `cols` mapped to its internal key, and nothing else. */
  function InternalNaming(cols: seq<Label>): (m: map<Label, string>)
    ensures forall c :: c in m <==> c in cols && c.When?
  {
    map c | c in cols && c.When? :: InternalKey(c.stamp.date)
  }

  lemma InternalNamingStep(cols: seq<Label>, i: nat)
    requires i < |cols|
    ensures InternalNaming(cols[..i + 1]) ==
      if cols[i].When? then InternalNaming(cols[..i])[cols[i] := InternalKey(cols[i].stamp.date)]
      else InternalNaming(cols[..i])
  {
    assert cols[..i + 1] == cols[..i] + [cols[i]];
  }

  /** The loop at lines 181-186: a label that is neither an index column nor
      Total is a date, and gets its internal key. */
  method InternalNames(cols: seq<Label>, index: seq<string>) returns (renamed: map<Label, string>)
    requires forall c :: c in cols && c.Name? ==> c.name in index || c.name == "Total"
    ensures renamed == InternalNaming(cols)
  {
    renamed := map[];
    for i := 0 to |cols|
      invariant renamed == InternalNaming(cols[..i])
    {
      var col := cols[i];
      InternalNamingStep(cols, i);
      if !(col.Name? && (col.name in index || col.name == "Total")) {
        assert col in cols;
        var dateStr := CompactText(col.stamp.date);
        renamed := renamed[col := "d_" + dateStr];
      }
    }
    assert cols[..|cols|] == cols;
  }

  /** reshaped.rename(columns=renamed_cols) on the labels: a renamed label takes
      its new name, a name label keeps its name. */
  function RenameLabels(cols: seq<Label>, m: map<Label, string>): (r: seq<string>)
    requires forall c :: c in cols && c.When? ==> c in m
    ensures |r| == |cols|
    ensures forall i :: 0 <= i < |cols| && cols[i] in m ==> r[i] == m[cols[i]]
    ensures forall i :: 0 <= i < |cols| && cols[i] !in m ==> cols[i].Name? && r[i] == cols[i].name
  {
    seq(|cols|, i requires 0 <= i < |cols| =>
      var c := cols[i];
      assert c in cols;
      if c in m then m[c] else c.name)
  }

  /** The column names of the wide table after line 187. */
  function InternalColumns(w: Wide): (r: seq<string>)
    ensures |r| == |w.index| + |w.dates| + 1
  {
    var cols := ColumnLabels(w);
    RenameLabels(cols, InternalNaming(cols))
  }

  /** Index names and Total are never renamed; the j-th date column is called
      "d_" + DD + Mon + YYYY of its date. */
  lemma InternalColumnsLayout(w: Wide)
    ensures var r := InternalColumns(w);
      && (forall i :: 0 <= i < |w.index| ==> r[i] == w.index[i])
      && (forall j :: 0 <= j < |w.dates| ==> r[|w.index| + j] == InternalKey(w.dates[j].date))
      && r[|r| - 1] == "Total"
  {
    var cols := ColumnLabels(w);
    var r := InternalColumns(w);
    forall i | 0 <= i < |w.index| ensures r[i] == w.index[i] {
      assert cols[i] == Name(w.index[i]);
    }
    forall j | 0 <= j < |w.dates| ensures r[|w.index| + j] == InternalKey(w.dates[j].date) {
      assert cols[|w.index| + j] == When(w.dates[j]);
      assert cols[|w.index| + j] in cols;
    }
    assert cols[|cols| - 1] == Name("Total");
  }

  /** Two field dates of the same day at different times are two columns of the
      pivot, and both are given the same internal name. */
  lemma SameDaySameKey(w: Wide, j: nat, k: nat)
    requires j < k < |w.dates| && w.dates[j].date == w.dates[k].date
    ensures var r := InternalColumns(w);
      r[|w.index| + j] == r[|w.index| + k]
  {
    InternalColumnsLayout(w);
  }

  /** The header_style choice (lines 23-28). */
  datatype HeaderStyle = Pretty | Safe | Compact | Iso

  predicate StartsWith(s: string, p: string) {
    |p| <= |s| && s[..|p|] == p
  }

  /** The text of `s` up to its first `c`: str.split(c)[0]. */
  function UpTo(s: string, c: char): (r: string)
    ensures |r| <= |s| && r == s[..|r|] && c !in r
    ensures |r| < |s| ==> s[|r|] == c
  {
    if s == [] || s[0] == c then []
    else
      var r := [s[0]] + UpTo(s[1..], c);
      assert r == s[..|r|];
      r
  }

  lemma UpToWhole(s: string, c: char)
    requires c !in s
    ensures UpTo(s, c) == s
  {
  }

  /** The header one column gets at lines 193-210; None where strptime raises.
      A column not starting with "d_" is kept. */
  function DisplayName(col: string, style: HeaderStyle): Option<string> {
    if !StartsWith(col, "d_") then Some(col)
    else
      // col.split('_')[1]: the text between the first and second underscore
      var datePart := UpTo(col[2..], '_');
      match style
      case Safe => Some(col)
      case Pretty => (match ParseCompact(datePart) case Some(d) => Some(PrettyText(d)) case None => None)
      case Compact => (match ParseCompact(datePart) case Some(d) => Some(CompactText(d)) case None => None)
      case Iso => (match ParseCompact(datePart) case Some(d) => Some(IsoText(d)) case None => None)
  }

  /** How a date appears as a header in each style. */
  function StyleText(d: Date, style: HeaderStyle): string {
    match style
    case Pretty => PrettyText(d)
    case Safe => InternalKey(d)
    case Compact => CompactText(d)
    case Iso => IsoText(d)
  }

  /** Every style's header names its date unambiguously: it parses back to it. */
  lemma StyleTextReparses(d: Date, style: HeaderStyle)
    ensures style == Pretty ==> ParsePretty(StyleText(d, style)) == Some(d)
    ensures style == Safe ==> ParseCompact(StyleText(d, style)[2..]) == Some(d)
    ensures style == Compact ==> ParseCompact(StyleText(d, style)) == Some(d)
    ensures style == Iso ==> ParseIso(StyleText(d, style)) == Some(d)
  {
    PrettyRoundTrip(d);
    CompactRoundTrip(d);
    IsoRoundTrip(d);
  }

  /** %d%b%Y never prints an underscore. */
  lemma CompactHasNoUnderscore(d: Date)
    ensures '_' !in CompactText(d)
  {
    var s := CompactText(d);
    assert s[..2] == Pad2(d.day) && s[2..5] == MonthAbbr(d.month) && s[5..] == Pad4(d.year);
    forall k | 0 <= k < |s| ensures s[k] != '_' {
      if k < 2 {
        assert s[k] == Pad2(d.day)[k];
      } else if k < 5 {
        assert s[k] == MonthAbbr(d.month)[k - 2];
      } else {
        assert s[k] == Pad4(d.year)[k - 5];
      }
    }
  }

  /** An internal key renders in every style as the style's form of its date. */
  lemma DisplayInternalKey(d: Date, style: HeaderStyle)
    ensures DisplayName(InternalKey(d), style) == Some(StyleText(d, style))
  {
    var key := InternalKey(d);
    CompactHasNoUnderscore(d);
    assert key[2..] == CompactText(d);
    UpToWhole(CompactText(d), '_');
    CompactRoundTrip(d);
  }

  /** Safe keeps every column name. */
  lemma SafeIsIdentity(col: string)
    ensures DisplayName(col, Safe) == Some(col)
  {
  }

  /** A column whose name does not start with "d_" keeps its name in every style. */
  lemma OtherColumnsKept(col: string, style: HeaderStyle)
    requires !StartsWith(col, "d_")
    ensures DisplayName(col, style) == Some(col)
  {
  }

  /** A date column under a reformatting style: strptime raises exactly when the
      text after "d_" up to the next underscore is not a DDMonYYYY date, and
      otherwise the header is that date in the style's form. */
  lemma DateColumnShown(col: string, style: HeaderStyle)
    requires StartsWith(col, "d_") && style != Safe
    ensures DisplayName(col, style).None? <==> ParseCompact(UpTo(col[2..], '_')).None?
    ensures DisplayName(col, style).Some? ==>
      DisplayName(col, style).value == StyleText(ParseCompact(UpTo(col[2..], '_')).value, style)
  {
  }

  /** pretty_renamed after the loop at lines 193-210, or None if some column
      makes strptime raise. */
  function HeaderMap(cols: seq<string>, style: HeaderStyle): (r: Option<map<string, string>>)
    ensures r.Some? <==> forall c :: c in cols ==> DisplayName(c, style).Some?
    ensures r.Some? ==> forall c :: c in cols ==> c in r.value && Some(r.value[c]) == DisplayName(c, style)
  {
    if forall c :: c in cols ==> DisplayName(c, style).Some? then
      Some(map c | c in cols :: DisplayName(c, style).value)
    else None
  }

  lemma ShownStep(cols: seq<string>, i: nat, style: HeaderStyle)
    requires i < |cols| && forall c :: c in cols[..i + 1] ==> DisplayName(c, style).Some?
    ensures forall c :: c in cols[..i] ==> DisplayName(c, style).Some?
    ensures (map c | c in cols[..i + 1] :: DisplayName(c, style).value)
      == (map c | c in cols[..i] :: DisplayName(c, style).value)[cols[i] := DisplayName(cols[i], style).value]
  {
    assert cols[..i + 1] == cols[..i] + [cols[i]];
  }

  /** The loop at lines 193-210, stopping where strptime raises. */
  method HeaderNames(cols: seq<string>, style: HeaderStyle) returns (r: Option<map<string, string>>)
    ensures r == HeaderMap(cols, style)
  {
    var renamed: map<string, string> := map[];
    for i := 0 to |cols|
      invariant forall c :: c in cols[..i] ==> DisplayName(c, style).Some?
      invariant renamed == map c | c in cols[..i] :: DisplayName(c, style).value
    {
      var col := cols[i];
      var shown := DisplayName(col, style);
      if shown.None? {
        assert col in cols;
        return None;
      }
      assert cols[..i + 1] == cols[..i] + [col];
      ShownStep(cols, i, style);
      renamed := renamed[col := shown.value];
    }
    assert cols[..|cols|] == cols;
    return Some(renamed);
  }

  /** The header row of the output for a style, or None where strptime raises. */
  function StyledColumns(cols: seq<string>, style: HeaderStyle): Option<seq<string>> {
    match HeaderMap(cols, style)
    case None => None
    case Some(m) => Some(RenameColumns(cols, m))
  }

  /** The sheet gets headers exactly when every column has a display name, and
      then one header per column. */
  lemma StyledColumnsShown(cols: seq<string>, style: HeaderStyle)
    ensures StyledColumns(cols, style).Some? <==> forall c :: c in cols ==> DisplayName(c, style).Some?
    ensures StyledColumns(cols, style).Some? ==> |StyledColumns(cols, style).value| == |cols|
  {
  }

  /** Each column of the styled sheet is that column's display name. */
  lemma StyledColumnAt(cols: seq<string>, style: HeaderStyle, k: nat)
    requires StyledColumns(cols, style).Some? && k < |cols|
    ensures Some(StyledColumns(cols, style).value[k]) == DisplayName(cols[k], style)
  {
    assert cols[k] in cols;
  }

  /** None of the grouping column names or "Total" starts with "d_". */
  lemma IndexNamesUndated(villageMapped: bool)
    ensures forall n :: n in GroupColumns(villageMapped) + ["Total"] ==> !StartsWith(n, "d_")
  {
    forall n | n in GroupColumns(villageMapped) + ["Total"] ensures !StartsWith(n, "d_") {
      assert n == "enum" || n == "village" || n == "Consent_Status" || n == "Total";
      assert n[0] != 'd';
    }
  }

  /** The header the k-th column of the pivot gets in a style. */
  function ExpectedHeader(w: Wide, style: HeaderStyle, k: nat): string
    requires k < |w.index| + |w.dates| + 1
  {
    if k < |w.index| then w.index[k]
    else if k < |w.index| + |w.dates| then StyleText(w.dates[k - |w.index|].date, style)
    else "Total"
  }

  /** The k-th column name of the pivot after the internal renaming. */
  lemma InternalColumnAt(w: Wide, k: nat)
    requires k < |w.index| + |w.dates| + 1
    ensures InternalColumns(w)[k] ==
      if k < |w.index| then w.index[k]
      else if k < |w.index| + |w.dates| then InternalKey(w.dates[k - |w.index|].date)
      else "Total"
  {
    InternalColumnsLayout(w);
    if |w.index| <= k < |w.index| + |w.dates| {
      assert InternalColumns(w)[|w.index| + (k - |w.index|)] == InternalKey(w.dates[k - |w.index|].date);
    }
  }

  lemma ColumnDisplay(w: Wide, style: HeaderStyle, k: nat)
    requires forall n :: n in w.index ==> !StartsWith(n, "d_")
    requires k < |w.index| + |w.dates| + 1
    ensures DisplayName(InternalColumns(w)[k], style) == Some(ExpectedHeader(w, style, k))
  {
    if k < |w.index| {
      IndexColumnDisplay(w, k, style);
    } else if k < |w.index| + |w.dates| {
      DateColumnDisplay(w, k, style);
    } else {
      TotalDisplay(w, style);
    }
  }

  lemma IndexColumnDisplay(w: Wide, k: nat, style: HeaderStyle)
    requires forall n :: n in w.index ==> !StartsWith(n, "d_")
    requires k < |w.index|
    ensures DisplayName(InternalColumns(w)[k], style) == Some(w.index[k])
  {
    InternalColumnAt(w, k);
    assert w.index[k] in w.index;
  }

  lemma DateColumnDisplay(w: Wide, k: nat, style: HeaderStyle)
    requires |w.index| <= k < |w.index| + |w.dates|
    ensures DisplayName(InternalColumns(w)[k], style) == Some(StyleText(w.dates[k - |w.index|].date, style))
  {
    InternalColumnAt(w, k);
    DisplayInternalKey(w.dates[k - |w.index|].date, style);
  }

  lemma TotalDisplay(w: Wide, style: HeaderStyle)
    ensures DisplayName(InternalColumns(w)[|w.index| + |w.dates|], style) == Some("Total")
  {
    InternalColumnAt(w, |w.index| + |w.dates|);
    assert "Total"[0] != 'd';
  }

  lemma HeaderMapOfPivot(w: Wide, style: HeaderStyle)
    requires forall n :: n in w.index ==> !StartsWith(n, "d_")
    ensures var cols := InternalColumns(w);
      && HeaderMap(cols, style).Some?
      && forall k :: 0 <= k < |cols| ==>
           cols[k] in HeaderMap(cols, style).value && HeaderMap(cols, style).value[cols[k]] == ExpectedHeader(w, style, k)
  {
    var cols := InternalColumns(w);
    forall c | c in cols ensures DisplayName(c, style).Some? {
      var k :| 0 <= k < |cols| && cols[k] == c;
      ColumnDisplay(w, style, k);
    }
    forall k | 0 <= k < |cols|
      ensures DisplayName(cols[k], style) == Some(ExpectedHeader(w, style, k))
    {
      ColumnDisplay(w, style, k);
    }
  }

  /** The header row of the pivot in a style: the index names and Total as they
      are, the j-th date column in the style's form of its date. It never fails. */
  lemma StyledLayout(w: Wide, style: HeaderStyle)
    requires forall n :: n in w.index ==> !StartsWith(n, "d_")
    ensures var cols := InternalColumns(w);
      && StyledColumns(cols, style).Some?
      && var r := StyledColumns(cols, style).value;
      && |r| == |w.index| + |w.dates| + 1
      && (forall i :: 0 <= i < |w.index| ==> r[i] == w.index[i])
      && (forall j :: 0 <= j < |w.dates| ==> r[|w.index| + j] == StyleText(w.dates[j].date, style))
      && r[|r| - 1] == "Total"
  {
    var cols := InternalColumns(w);
    StyledSome(w, style);
    StyledColumnsShown(cols, style);
    var r := StyledColumns(cols, style).value;
    forall k | 0 <= k < |r| ensures r[k] == ExpectedHeader(w, style, k) {
      StyledHeaderAt(w, style, k);
    }
    ExpectedLayout(w, style, r);
  }

  /** A header row that agrees with ExpectedHeader everywhere has the sheet's layout. */
  lemma ExpectedLayout(w: Wide, style: HeaderStyle, r: seq<string>)
    requires |r| == |w.index| + |w.dates| + 1
    requires forall k :: 0 <= k < |r| ==> r[k] == ExpectedHeader(w, style, k)
    ensures forall i :: 0 <= i < |w.index| ==> r[i] == w.index[i]
    ensures forall j :: 0 <= j < |w.dates| ==> r[|w.index| + j] == StyleText(w.dates[j].date, style)
    ensures r[|r| - 1] == "Total"
  {
    forall j | 0 <= j < |w.dates| ensures r[|w.index| + j] == StyleText(w.dates[j].date, style) {
      assert r[|w.index| + j] == ExpectedHeader(w, style, |w.index| + j);
    }
    assert r[|r| - 1] == ExpectedHeader(w, style, |r| - 1);
  }

  lemma StyledSome(w: Wide, style: HeaderStyle)
    requires forall n :: n in w.index ==> !StartsWith(n, "d_")
    ensures StyledColumns(InternalColumns(w), style).Some?
  {
    HeaderMapOfPivot(w, style);
  }

  lemma StyledHeaderAt(w: Wide, style: HeaderStyle, k: nat)
    requires forall n :: n in w.index ==> !StartsWith(n, "d_")
    requires k < |w.index| + |w.dates| + 1
    requires StyledColumns(InternalColumns(w), style).Some?
    ensures StyledColumns(InternalColumns(w), style).value[k] == ExpectedHeader(w, style, k)
  {
    StyledColumnAt(InternalColumns(w), style, k);
    ColumnDisplay(w, style, k);
  }
}
