/** Column role mapping and validation (app.py lines 71-99). */
module Roles {
  import opened Wrappers
  import opened Survey

  /** rename_dict (lines 82-88). A Python dict literal keeps the last value given
      for a repeated key, and so does the later village assignment: two roles
      that select the same column leave only the later role's name. */
  function RenameDict(sel: Selection): (r: map<string, string>)
    ensures sel.consent in r && sel.enumerator in r && sel.fielddate in r
    ensures sel.village != "" ==> sel.village in r && r[sel.village] == "village"
    ensures sel.fielddate != sel.village ==> r[sel.fielddate] == "fielddate"
    ensures sel.enumerator !in {sel.fielddate, sel.village} ==> r[sel.enumerator] == "enum"
    ensures sel.consent !in {sel.enumerator, sel.fielddate, sel.village} ==> r[sel.consent] == "consent"
  {
    var m := map[sel.consent := "consent"][sel.enumerator := "enum"][sel.fielddate := "fielddate"];
    if sel.village != "" then m[sel.village := "village"] else m
  }

  /** The selected columns are exactly the keys, and every value is a role name. */
  lemma RenameDictKeys(sel: Selection)
    ensures RenameDict(sel).Keys == {sel.consent, sel.enumerator, sel.fielddate} + (if sel.village != "" then {sel.village} else {})
    ensures forall k :: k in RenameDict(sel) ==> RenameDict(sel)[k] in ["consent", "enum", "fielddate", "village"]
  {
  }

  /** df.rename(columns=d): a name that is a key of `d` is replaced, others stay. */
  function RenameColumns(cols: seq<string>, d: map<string, string>): (r: seq<string>)
    ensures |r| == |cols|
  {
    seq(|cols|, i requires 0 <= i < |cols| => if cols[i] in d then d[cols[i]] else cols[i])
  }

  /** A name survives the rename when some column is renamed to it, or carries it
      and is not renamed. */
  lemma RenamedNames(cols: seq<string>, d: map<string, string>, n: string)
    ensures n in RenameColumns(cols, d) <==>
      exists i :: 0 <= i < |cols| && (if cols[i] in d then d[cols[i]] else cols[i]) == n
  {
    var r := RenameColumns(cols, d);
    if n in r {
      var i :| 0 <= i < |r| && r[i] == n;
      assert (if cols[i] in d then d[cols[i]] else cols[i]) == n;
    } else {
      forall i | 0 <= i < |cols| ensures (if cols[i] in d then d[cols[i]] else cols[i]) != n {
        assert r[i] in r;
      }
    }
  }

  const RequiredVars: seq<string> := ["consent", "enum", "fielddate"]

  /** missing_vars (line 96): the required names absent from `cols`, in order. */
  function MissingVars(cols: seq<string>): (r: seq<string>)
    ensures forall v :: v in r <==> v in RequiredVars && v !in cols
  {
    (if "consent" in cols then [] else ["consent"])
    + (if "enum" in cols then [] else ["enum"])
    + (if "fielddate" in cols then [] else ["fielddate"])
  }

  /** The check at line 77: consent, enumerator and field date are all chosen. */
  predicate Complete(sel: Selection) {
    sel.consent != "" && sel.enumerator != "" && sel.fielddate != ""
  }

  /** Lines 77-99: stop unless consent, enumerator and field date are selected;
      rename the selected columns; stop if a selected village vanished, then if a
      required name is missing. */
  function MapRoles(t: Frame, sel: Selection): (r: Result<Frame, Error>)
    ensures r.Err? ==> r.error.SelectionIncomplete? || r.error.VillageNotFound? || r.error.MissingRequired?
    ensures r == Err(SelectionIncomplete) <==> !Complete(sel)
    ensures r == Err(VillageNotFound) <==>
      Complete(sel) && sel.village != "" && "village" !in RenameColumns(t.columns, RenameDict(sel))
    ensures r.Err? && r.error.MissingRequired? <==>
      && Complete(sel)
      && (sel.village != "" ==> "village" in RenameColumns(t.columns, RenameDict(sel)))
      && exists v :: v in RequiredVars && v !in RenameColumns(t.columns, RenameDict(sel))
    ensures r.Err? && r.error.MissingRequired? ==>
      r.error.names != [] && forall v :: v in r.error.names <==> v in RequiredVars && v !in RenameColumns(t.columns, RenameDict(sel))
    ensures r.Ok? <==>
      && Complete(sel)
      && (sel.village != "" ==> "village" in RenameColumns(t.columns, RenameDict(sel)))
      && forall v :: v in RequiredVars ==> v in RenameColumns(t.columns, RenameDict(sel))
    ensures r.Ok? ==> r.value.rows == t.rows && r.value.columns == RenameColumns(t.columns, RenameDict(sel))
  {
    if sel.consent == "" || sel.enumerator == "" || sel.fielddate == "" then Err(SelectionIncomplete)
    else
      var renamed: Frame := Table(RenameColumns(t.columns, RenameDict(sel)), t.rows);
      if sel.village != "" && "village" !in renamed.columns then Err(VillageNotFound)
      else
        var missing := MissingVars(renamed.columns);
        if missing != [] then
          assert missing[0] in missing;
          Err(MissingRequired(missing))
        else Ok(renamed)
  }

  /** Choosing one column for both consent and enumerator halts the run when no
      other column is already called "consent": the dict keeps only "enum". */
  lemma SameColumnTwiceHalts(t: Frame, sel: Selection)
    requires sel.consent == sel.enumerator
    requires "consent" !in t.columns
    ensures MapRoles(t, sel).Err?
  {
    var d := RenameDict(sel);
    RenamedNames(t.columns, d, "consent");
    assert "consent" !in d.Values;
  }

  /** The other side of SameColumnTwiceHalts: when a column is already called
      "consent" and is not itself selected, one column chosen for consent and
      enumerator passes validation, and the unselected "consent" column silently
      takes the consent role. */
  lemma SameColumnTwiceTakesConsent(t: Frame, sel: Selection)
    requires Complete(sel) && sel.consent == sel.enumerator && sel.enumerator != sel.fielddate
    requires sel.village != "" ==> sel.village != sel.enumerator && sel.village != sel.fielddate && sel.village in t.columns
    requires sel.enumerator in t.columns && sel.fielddate in t.columns && "consent" in t.columns
    requires "consent" !in {sel.enumerator, sel.fielddate, sel.village}
    ensures MapRoles(t, sel).Ok?
    ensures var cols := MapRoles(t, sel).value.columns;
      && cols[IndexOf(t.columns, "consent")] == "consent"
      && cols[IndexOf(t.columns, sel.enumerator)] == "enum"
      && cols[IndexOf(t.columns, sel.fielddate)] == "fielddate"
  {
    var d := RenameDict(sel);
    var cols := RenameColumns(t.columns, d);
    var ic, ie, i_f := IndexOf(t.columns, "consent"), IndexOf(t.columns, sel.enumerator), IndexOf(t.columns, sel.fielddate);
    assert "consent" !in d;
    assert cols[ic] == "consent" && cols[ie] == "enum" && cols[i_f] == "fielddate";
    assert MissingVars(cols) == [];
    if sel.village != "" {
      var iv := IndexOf(t.columns, sel.village);
      assert cols[iv] == "village";
    }
  }

  /** With distinct selections every selected column is renamed to its role. */
  lemma DistinctRenames(sel: Selection)
    requires sel.consent != sel.enumerator && sel.consent != sel.fielddate && sel.enumerator != sel.fielddate
    requires sel.village != "" ==> sel.village != sel.consent && sel.village != sel.enumerator && sel.village != sel.fielddate
    ensures var d := RenameDict(sel);
      && sel.consent in d && d[sel.consent] == "consent"
      && sel.enumerator in d && d[sel.enumerator] == "enum"
      && sel.fielddate in d && d[sel.fielddate] == "fielddate"
      && (sel.village != "" ==> sel.village in d && d[sel.village] == "village")
  {
  }

  /** Distinct selections of existing columns pass validation, and each selected
      column now carries its role's canonical name. */
  lemma DistinctSelectionsSucceed(t: Frame, sel: Selection)
    requires sel.consent != "" && sel.enumerator != "" && sel.fielddate != ""
    requires sel.consent != sel.enumerator && sel.consent != sel.fielddate && sel.enumerator != sel.fielddate
    requires sel.village != "" ==> sel.village != sel.consent && sel.village != sel.enumerator && sel.village != sel.fielddate
    requires sel.consent in t.columns && sel.enumerator in t.columns && sel.fielddate in t.columns
    requires sel.village != "" ==> sel.village in t.columns
    ensures MapRoles(t, sel).Ok?
    ensures var cols := MapRoles(t, sel).value.columns;
      && cols[IndexOf(t.columns, sel.consent)] == "consent"
      && cols[IndexOf(t.columns, sel.enumerator)] == "enum"
      && cols[IndexOf(t.columns, sel.fielddate)] == "fielddate"
      && (sel.village != "" ==> cols[IndexOf(t.columns, sel.village)] == "village")
  {
    var d := RenameDict(sel);
    DistinctRenames(sel);
    var cols := RenameColumns(t.columns, d);
    var ic, ie, i_f := IndexOf(t.columns, sel.consent), IndexOf(t.columns, sel.enumerator), IndexOf(t.columns, sel.fielddate);
    assert cols[ic] == "consent" && cols[ie] == "enum" && cols[i_f] == "fielddate";
    assert MissingVars(cols) == [];
    if sel.village != "" {
      var iv := IndexOf(t.columns, sel.village);
      assert cols[iv] == "village";
    }
  }
}
