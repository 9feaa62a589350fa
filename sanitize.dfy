/** Row filtering, string coercion, date parsing and consent classification
    (app.py lines 101-149). */
module Sanitize {
  import opened Wrappers
  import opened Text
  import opened Calendar
  import opened Survey
  import opened Seqs

  /** The cells of one row in the columns the pipeline reads. When a canonical
      name labels several columns, the first of them is read. */
  datatype RoleRow = RoleRow(consent: Cell, enumerator: Cell, fielddate: Cell, village: Cell)

  /** The role cells of every row of a frame that passed validation; `village` is
      read only when a village column was selected. */
  function RoleRows(t: Frame, villageMapped: bool): (r: seq<RoleRow>)
    requires "consent" in t.columns && "enum" in t.columns && "fielddate" in t.columns
    requires villageMapped ==> "village" in t.columns
    ensures |r| == |t.rows|
  {
    var c, e, f := IndexOf(t.columns, "consent"), IndexOf(t.columns, "enum"), IndexOf(t.columns, "fielddate");
    seq(|t.rows|, i requires 0 <= i < |t.rows| =>
      var row := t.rows[i];
      assert row in t.rows;
      RoleRow(row[c], row[e], row[f], if villageMapped then row[IndexOf(t.columns, "village")] else None))
  }

  /** The dropna subset of lines 102-105: enumerator and field date, and the
      village when one was selected. Consent is not among them. */
  predicate HasRequired(r: RoleRow, villageMapped: bool) {
    r.enumerator.Some? && r.fielddate.Some? && (villageMapped ==> r.village.Some?)
  }

  /** df.dropna(subset=required_cols). */
  function DropMissing(rows: seq<RoleRow>, villageMapped: bool): (r: seq<RoleRow>)
    ensures forall x :: x in r <==> x in rows && HasRequired(x, villageMapped)
  {
    Filter(rows, (x: RoleRow) => HasRequired(x, villageMapped))
  }

  predicate IsTrimmed(s: string) {
    s == [] || (!IsSpace(s[0]) && !IsSpace(s[|s| - 1]))
  }

  /** safe_to_string (lines 112-116): None becomes "", anything else its str()
      form without surrounding whitespace. A NaN cell would become "nan" instead,
      but the branch never sees one: it runs only after the dropna of line 105,
      so the `None` case here is unreachable on the pipeline's own path. */
  function SafeToString(c: Cell): (r: string)
    ensures IsTrimmed(r)
    ensures c.Some? ==> (exists i, j :: 0 <= i <= j <= |c.value| && r == c.value[i..j]
                           && AllSpace(c.value[..i]) && AllSpace(c.value[j..]))
  {
    match c
    case None => ""
    case Some(s) =>
      StripSlice(s);
      StripEnds(s);
      Strip(s)
  }

  /** A row after lines 118 and 128: enumerator and village as trimmed strings. */
  datatype Clean = Clean(consent: Cell, enumerator: string, village: string, fielddate: Cell)

  function Sanitise(r: RoleRow, villageMapped: bool): Clean {
    Clean(r.consent, SafeToString(r.enumerator),
          if villageMapped then SafeToString(r.village) else "", r.fielddate)
  }

  /** pd.to_datetime(..., errors='coerce') on one cell, given the parser; a
      missing cell stays missing. */
  function ParseCell(c: Cell, parse: string -> Option<Timestamp>): Option<Timestamp> {
    match c
    case None => None
    case Some(s) => parse(s)
  }

  datatype Dated = Dated(row: Clean, stamp: Timestamp)

  /** Lines 136-137: parse the field date and drop the rows where it fails. */
  function ParseDates(rows: seq<Clean>, parse: string -> Option<Timestamp>): (r: seq<Dated>)
    ensures |r| <= |rows|
    ensures forall d :: d in r <==> d.row in rows && ParseCell(d.row.fielddate, parse) == Some(d.stamp)
  {
    if rows == [] then []
    else
      var rest := ParseDates(rows[1..], parse);
      match ParseCell(rows[0].fielddate, parse)
      case None => rest
      case Some(t) => [Dated(rows[0], t)] + rest
  }

  datatype Status = Yes | No

  /** The Consent_Status strings. */
  function StatusName(s: Status): string {
    match s
    case Yes => "Yes"
    case No => "No"
  }

  const YesWords: seq<string> := ["1", "yes", "true", "y"]

  /** categorize_consent (lines 144-148). A missing value prints as "nan" or
      "None", neither of which is a yes-word, so it classifies as No. */
  function Classify(c: Cell): (r: Status)
    ensures c.None? ==> r == No
    ensures c.Some? ==> (r == Yes <==> PaddedYesWord(Lower(c.value)))
  {
    match c
    case None => No
    case Some(s) =>
      var l := Lower(s);
      if Strip(l) in YesWords then
        StrippedYesIsPadded(l);
        Yes
      else
        assert !PaddedYesWord(l) by {
          if PaddedYesWord(l) { PaddedYesStrips(l); }
        }
        No
  }

  /** A string with non-space ends is its own strip. */
  lemma StripTrimmed(s: string)
    requires IsTrimmed(s)
    ensures Strip(s) == s
  {
  }

  lemma YesWordsTrimmed(w: string)
    requires w in YesWords
    ensures IsTrimmed(w)
  {
    assert w == "1" || w == "yes" || w == "true" || w == "y";
  }

  /** The lower-cased value is a yes-word with only whitespace around it. */
  ghost predicate PaddedYesWord(l: string) {
    exists w, p, q :: w in YesWords && AllSpace(p) && AllSpace(q) && l == p + w + q
  }

  lemma StrippedYesIsPadded(l: string)
    requires Strip(l) in YesWords
    ensures PaddedYesWord(l)
  {
    StripPadding(l);
  }

  lemma PaddedYesStrips(l: string)
    requires PaddedYesWord(l)
    ensures Strip(l) in YesWords
  {
    var w, p, q :| w in YesWords && AllSpace(p) && AllSpace(q) && l == p + w + q;
    StripIgnoresPadding(p, w, q);
    YesWordsTrimmed(w);
    StripTrimmed(w);
  }

  /** Whitespace around a consent value never changes its class. */
  lemma ClassifyIgnoresPadding(p: string, s: string, q: string)
    requires AllSpace(p) && AllSpace(q)
    ensures Classify(Some(p + s + q)) == Classify(Some(s))
  {
    LowerAppend(p + s, q);
    LowerAppend(p, s);
    LowerKeepsSpace(p);
    LowerKeepsSpace(q);
    StripIgnoresPadding(p, Lower(s), q);
  }

  /** Consent is classified by its lower-cased form `l` whenever `l` has no
      surrounding whitespace. */
  lemma ClassifyLowered(s: string, l: string)
    requires Lower(s) == l && IsTrimmed(l)
    ensures Classify(Some(s)) == if l in YesWords then Yes else No
  {
    StripTrimmed(l);
  }

  /** Upper case is lowered before the comparison. */
  lemma ClassifyCapitalYes()
    ensures Classify(Some("Yes")) == Yes
  {
    assert Lower("Yes") == "yes";
    ClassifyLowered("Yes", "yes");
  }

  /** The integer 1, which prints as "1", is Yes. */
  lemma ClassifyOneYes()
    ensures Classify(Some("1")) == Yes
  {
    LowerKeepsLowerCase("1");
    ClassifyLowered("1", "1");
  }

  /** The integer 0 is No. */
  lemma ClassifyZeroNo()
    ensures Classify(Some("0")) == No
  {
    LowerKeepsLowerCase("0");
    assert IsTrimmed("0");
    assert "0" !in YesWords by {
      assert "0"[0] != "1"[0];
    }
    ClassifyLowered("0", "0");
  }

  /** The float 1.0 prints as "1.0", which is not a yes-word: No. */
  lemma ClassifyFloatOneNo()
    ensures Classify(Some("1.0")) == No
  {
    LowerKeepsLowerCase("1.0");
    ClassifyLowered("1.0", "1.0");
  }

  /** A row ready for grouping. */
  datatype Canon = Canon(enumerator: string, village: string, status: Status, stamp: Timestamp)

  /** The row a raw row becomes when it survives, given its parsed date. */
  function CanonOf(y: RoleRow, stamp: Timestamp, villageMapped: bool): Canon {
    var c := Sanitise(y, villageMapped);
    Canon(c.enumerator, c.village, Classify(c.consent), stamp)
  }

  /** A raw row passes both filters: required cells present, date parsed. */
  predicate Survives(y: RoleRow, villageMapped: bool, parse: string -> Option<Timestamp>) {
    HasRequired(y, villageMapped) && ParseCell(y.fielddate, parse).Some?
  }

  /** `x` is what some surviving raw row of `rows` becomes. */
  ghost predicate ComesFrom(x: Canon, rows: seq<RoleRow>, villageMapped: bool, parse: string -> Option<Timestamp>) {
    exists y :: y in rows && Survives(y, villageMapped, parse)
      && x == CanonOf(y, ParseCell(y.fielddate, parse).value, villageMapped)
  }

  /** Lines 118 and 128 applied to every row. */
  function SanitiseAll(rows: seq<RoleRow>, villageMapped: bool): (r: seq<Clean>)
    ensures |r| == |rows|
    ensures forall i :: 0 <= i < |rows| ==> r[i] == Sanitise(rows[i], villageMapped)
  {
    seq(|rows|, i requires 0 <= i < |rows| => Sanitise(rows[i], villageMapped))
  }

  /** Line 149: add the consent class to every row. */
  function Classified(rows: seq<Dated>): (r: seq<Canon>)
    ensures |r| == |rows|
    ensures forall i :: 0 <= i < |rows| ==>
      r[i] == Canon(rows[i].row.enumerator, rows[i].row.village, Classify(rows[i].row.consent), rows[i].stamp)
  {
    seq(|rows|, i requires 0 <= i < |rows| =>
      Canon(rows[i].row.enumerator, rows[i].row.village, Classify(rows[i].row.consent), rows[i].stamp))
  }

  lemma NoneKept(rows: seq<RoleRow>, villageMapped: bool)
    requires DropMissing(rows, villageMapped) == []
    ensures forall y :: y in rows ==> !HasRequired(y, villageMapped)
  {
  }

  lemma SurvivorParsed(rows: seq<RoleRow>, villageMapped: bool, parse: string -> Option<Timestamp>, y: RoleRow)
    requires y in rows && Survives(y, villageMapped, parse)
    ensures Dated(Sanitise(y, villageMapped), ParseCell(y.fielddate, parse).value)
              in ParseDates(SanitiseAll(DropMissing(rows, villageMapped), villageMapped), parse)
  {
    var kept := DropMissing(rows, villageMapped);
    assert y in kept;
    var k :| 0 <= k < |kept| && kept[k] == y;
    assert SanitiseAll(kept, villageMapped)[k] in SanitiseAll(kept, villageMapped);
  }

  lemma DatedTraces(rows: seq<RoleRow>, villageMapped: bool, parse: string -> Option<Timestamp>, d: Dated)
    requires d in ParseDates(SanitiseAll(DropMissing(rows, villageMapped), villageMapped), parse)
    ensures exists y :: (y in rows && Survives(y, villageMapped, parse)
                         && d == Dated(Sanitise(y, villageMapped), ParseCell(y.fielddate, parse).value))
  {
    var kept := DropMissing(rows, villageMapped);
    var clean := SanitiseAll(kept, villageMapped);
    var k :| 0 <= k < |clean| && clean[k] == d.row;
    assert kept[k] in kept;
  }

  /** Every classified row is what some surviving raw row becomes. */
  lemma CanonSound(rows: seq<RoleRow>, villageMapped: bool, parse: string -> Option<Timestamp>, x: Canon)
    requires x in Classified(ParseDates(SanitiseAll(DropMissing(rows, villageMapped), villageMapped), parse))
    ensures ComesFrom(x, rows, villageMapped, parse) && IsTrimmed(x.enumerator) && IsTrimmed(x.village)
  {
    var dated := ParseDates(SanitiseAll(DropMissing(rows, villageMapped), villageMapped), parse);
    var canon := Classified(dated);
    var i :| 0 <= i < |canon| && canon[i] == x;
    assert dated[i] in dated;
    DatedTraces(rows, villageMapped, parse, dated[i]);
  }

  /** Every surviving raw row is among the classified rows. */
  lemma CanonComplete(rows: seq<RoleRow>, villageMapped: bool, parse: string -> Option<Timestamp>, y: RoleRow)
    requires y in rows && Survives(y, villageMapped, parse)
    ensures CanonOf(y, ParseCell(y.fielddate, parse).value, villageMapped)
              in Classified(ParseDates(SanitiseAll(DropMissing(rows, villageMapped), villageMapped), parse))
  {
    var dated := ParseDates(SanitiseAll(DropMissing(rows, villageMapped), villageMapped), parse);
    var canon := Classified(dated);
    SurvivorParsed(rows, villageMapped, parse, y);
    var d := Dated(Sanitise(y, villageMapped), ParseCell(y.fielddate, parse).value);
    var i :| 0 <= i < |dated| && dated[i] == d;
    assert canon[i] == CanonOf(y, d.stamp, villageMapped);
  }

  lemma CanonTraces(rows: seq<RoleRow>, villageMapped: bool, parse: string -> Option<Timestamp>)
    ensures var canon := Classified(ParseDates(SanitiseAll(DropMissing(rows, villageMapped), villageMapped), parse));
      && (forall x :: x in canon ==> ComesFrom(x, rows, villageMapped, parse) && IsTrimmed(x.enumerator) && IsTrimmed(x.village))
      && (forall y :: y in rows && Survives(y, villageMapped, parse) ==>
            CanonOf(y, ParseCell(y.fielddate, parse).value, villageMapped) in canon)
  {
    forall x | x in Classified(ParseDates(SanitiseAll(DropMissing(rows, villageMapped), villageMapped), parse))
      ensures ComesFrom(x, rows, villageMapped, parse) && IsTrimmed(x.enumerator) && IsTrimmed(x.village)
    {
      CanonSound(rows, villageMapped, parse, x);
    }
    forall y | y in rows && Survives(y, villageMapped, parse)
      ensures CanonOf(y, ParseCell(y.fielddate, parse).value, villageMapped)
                in Classified(ParseDates(SanitiseAll(DropMissing(rows, villageMapped), villageMapped), parse))
    {
      CanonComplete(rows, villageMapped, parse, y);
    }
  }

  /** Lines 101-149 on the role cells of the mapped frame: the two filters, each
      stopping the run when it leaves no rows, then the string coercion and the
      consent class. */
  function Prepare(rows: seq<RoleRow>, villageMapped: bool, parse: string -> Option<Timestamp>): (r: Result<seq<Canon>, Error>)
    ensures r.Err? ==> r.error == NoValidObservations || r.error == NoValidDates
    ensures r == Err(NoValidObservations) <==> forall y :: y in rows ==> !HasRequired(y, villageMapped)
    ensures r == Err(NoValidDates) <==>
      (exists y :: y in rows && HasRequired(y, villageMapped))
      && forall y :: y in rows ==> !Survives(y, villageMapped, parse)
    ensures r.Ok? ==> |r.value| >= 1
    ensures r.Ok? ==> forall x :: x in r.value ==>
      ComesFrom(x, rows, villageMapped, parse) && IsTrimmed(x.enumerator) && IsTrimmed(x.village)
    ensures r.Ok? ==> forall y :: y in rows && Survives(y, villageMapped, parse) ==>
      CanonOf(y, ParseCell(y.fielddate, parse).value, villageMapped) in r.value
    ensures r.Ok? ==> r.value == Direct(rows, villageMapped, parse)
  {
    PreparedIsDirect(rows, villageMapped, parse);
    var kept := DropMissing(rows, villageMapped);
    if kept == [] then
      NoneKept(rows, villageMapped);
      Err(NoValidObservations)
    else
      assert kept[0] in kept;
      var dated := ParseDates(SanitiseAll(kept, villageMapped), parse);
      CanonTraces(rows, villageMapped, parse);
      if dated == [] then
        assert forall y :: y in rows ==> !Survives(y, villageMapped, parse) by {
          forall y | y in rows && Survives(y, villageMapped, parse) ensures false {
            SurvivorParsed(rows, villageMapped, parse, y);
          }
        }
        Err(NoValidDates)
      else
        assert dated[0] in dated;
        DatedTraces(rows, villageMapped, parse, dated[0]);
        Ok(Classified(dated))
  }

  /** The prepared rows in one pass: each surviving raw row, in order, becomes
      its canonical row; every other row is dropped. */
  function Direct(rows: seq<RoleRow>, villageMapped: bool, parse: string -> Option<Timestamp>): seq<Canon> {
    if rows == [] then []
    else
      (if Survives(rows[0], villageMapped, parse)
       then [CanonOf(rows[0], ParseCell(rows[0].fielddate, parse).value, villageMapped)] else [])
      + Direct(rows[1..], villageMapped, parse)
  }

  lemma SanitiseAllAppend(a: seq<RoleRow>, b: seq<RoleRow>, villageMapped: bool)
    ensures SanitiseAll(a + b, villageMapped) == SanitiseAll(a, villageMapped) + SanitiseAll(b, villageMapped)
  {
    assert SanitiseAll(a + b, villageMapped) == SanitiseAll(a, villageMapped) + SanitiseAll(b, villageMapped) by {
      forall i | 0 <= i < |a + b|
        ensures SanitiseAll(a + b, villageMapped)[i] == (SanitiseAll(a, villageMapped) + SanitiseAll(b, villageMapped))[i]
      {
        if i >= |a| { assert (a + b)[i] == b[i - |a|]; }
      }
    }
  }

  lemma {:induction false} ParseDatesAppend(a: seq<Clean>, b: seq<Clean>, parse: string -> Option<Timestamp>)
    ensures ParseDates(a + b, parse) == ParseDates(a, parse) + ParseDates(b, parse)
  {
    if a != [] {
      assert (a + b)[0] == a[0];
      assert (a + b)[1..] == a[1..] + b;
      ParseDatesAppend(a[1..], b, parse);
    } else {
      assert a + b == b;
    }
  }

  lemma ClassifiedAppend(a: seq<Dated>, b: seq<Dated>)
    ensures Classified(a + b) == Classified(a) + Classified(b)
  {
    assert Classified(a + b) == Classified(a) + Classified(b) by {
      forall i | 0 <= i < |a + b| ensures Classified(a + b)[i] == (Classified(a) + Classified(b))[i] {
        if i >= |a| { assert (a + b)[i] == b[i - |a|]; }
      }
    }
  }

  /** The three stages of Prepare, run on a single kept row. */
  lemma OneRowStages(y: RoleRow, villageMapped: bool, parse: string -> Option<Timestamp>)
    ensures Classified(ParseDates(SanitiseAll([y], villageMapped), parse)) ==
      if ParseCell(y.fielddate, parse).Some? then [CanonOf(y, ParseCell(y.fielddate, parse).value, villageMapped)] else []
  {
    var c := SanitiseAll([y], villageMapped);
    assert c == [Sanitise(y, villageMapped)];
    assert c[1..] == [];
  }

  /** The staged pipeline of Prepare (filter, coerce, parse and filter, classify)
      yields exactly the one-pass rows, with multiplicity and order. */
  lemma {:induction false} PreparedIsDirect(rows: seq<RoleRow>, villageMapped: bool, parse: string -> Option<Timestamp>)
    ensures Classified(ParseDates(SanitiseAll(DropMissing(rows, villageMapped), villageMapped), parse))
              == Direct(rows, villageMapped, parse)
  {
    if rows == [] {
      assert SanitiseAll([], villageMapped) == [];
    } else {
      var y := rows[0];
      var head: seq<RoleRow> := if HasRequired(y, villageMapped) then [y] else [];
      var rest := DropMissing(rows[1..], villageMapped);
      DropMissingCons(rows, villageMapped);
      SanitiseAllAppend(head, rest, villageMapped);
      ParseDatesAppend(SanitiseAll(head, villageMapped), SanitiseAll(rest, villageMapped), parse);
      ClassifiedAppend(ParseDates(SanitiseAll(head, villageMapped), parse), ParseDates(SanitiseAll(rest, villageMapped), parse));
      PreparedIsDirect(rows[1..], villageMapped, parse);
      if HasRequired(y, villageMapped) {
        OneRowStages(y, villageMapped, parse);
      } else {
        assert SanitiseAll(head, villageMapped) == [];
      }
    }
  }

  /** How many raw rows survive both filters. */
  function SurvivorCount(rows: seq<RoleRow>, villageMapped: bool, parse: string -> Option<Timestamp>): nat {
    if rows == [] then 0
    else (if Survives(rows[0], villageMapped, parse) then 1 else 0) + SurvivorCount(rows[1..], villageMapped, parse)
  }

  lemma DropMissingCons(rows: seq<RoleRow>, villageMapped: bool)
    requires rows != []
    ensures DropMissing(rows, villageMapped) ==
      (if HasRequired(rows[0], villageMapped) then [rows[0]] else []) + DropMissing(rows[1..], villageMapped)
  {
  }

  /** How many rows have a field date that parses. */
  function ParsedCount(rows: seq<Clean>, parse: string -> Option<Timestamp>): nat {
    if rows == [] then 0
    else (if ParseCell(rows[0].fielddate, parse).Some? then 1 else 0) + ParsedCount(rows[1..], parse)
  }

  function RawParsedCount(rows: seq<RoleRow>, parse: string -> Option<Timestamp>): nat {
    if rows == [] then 0
    else (if ParseCell(rows[0].fielddate, parse).Some? then 1 else 0) + RawParsedCount(rows[1..], parse)
  }

  lemma {:induction false} ParseDatesLength(rows: seq<Clean>, parse: string -> Option<Timestamp>)
    ensures |ParseDates(rows, parse)| == ParsedCount(rows, parse)
  {
    if rows != [] {
      ParseDatesLength(rows[1..], parse);
    }
  }

  lemma {:induction false} SanitisedCount(rows: seq<RoleRow>, villageMapped: bool, parse: string -> Option<Timestamp>)
    ensures ParsedCount(SanitiseAll(rows, villageMapped), parse) == RawParsedCount(rows, parse)
  {
    if rows != [] {
      assert SanitiseAll(rows, villageMapped)[1..] == SanitiseAll(rows[1..], villageMapped);
      SanitisedCount(rows[1..], villageMapped, parse);
    }
  }

  lemma {:induction false} KeptCount(rows: seq<RoleRow>, villageMapped: bool, parse: string -> Option<Timestamp>)
    ensures RawParsedCount(DropMissing(rows, villageMapped), parse) == SurvivorCount(rows, villageMapped, parse)
  {
    if rows != [] {
      KeptCount(rows[1..], villageMapped, parse);
      DropMissingCons(rows, villageMapped);
      var kept := DropMissing(rows[1..], villageMapped);
      if HasRequired(rows[0], villageMapped) {
        assert ([rows[0]] + kept)[1..] == kept;
      }
    }
  }

  lemma SurvivorsCounted(rows: seq<RoleRow>, villageMapped: bool, parse: string -> Option<Timestamp>)
    ensures |ParseDates(SanitiseAll(DropMissing(rows, villageMapped), villageMapped), parse)|
              == SurvivorCount(rows, villageMapped, parse)
  {
    var kept := DropMissing(rows, villageMapped);
    ParseDatesLength(SanitiseAll(kept, villageMapped), parse);
    SanitisedCount(kept, villageMapped, parse);
    KeptCount(rows, villageMapped, parse);
  }

  /** Every surviving raw row becomes exactly one prepared row. */
  lemma PrepareCount(rows: seq<RoleRow>, villageMapped: bool, parse: string -> Option<Timestamp>)
    requires Prepare(rows, villageMapped, parse).Ok?
    ensures |Prepare(rows, villageMapped, parse).value| == SurvivorCount(rows, villageMapped, parse)
  {
    SurvivorsCounted(rows, villageMapped, parse);
  }
}
