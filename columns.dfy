/** Schema normalisation: giving repeated column names a `_dupk` suffix
    (app.py lines 54-65). */
module Columns {
  import opened Text

  /** df.columns.duplicated().any(): some name occurs twice. */
  predicate HasDuplicates(cols: seq<string>)
    ensures HasDuplicates(cols) <==> exists i | 0 <= i < |cols| :: cols[i] in cols[..i]
  {
    assert forall i, j | 0 <= i < j < |cols| :: cols[..j][i] == cols[i];
    exists i, j | 0 <= i < j < |cols| :: cols[i] == cols[j]
  }

  /** How many times `c` occurs in `s`. */
  function Occurrences(s: seq<string>, c: string): nat {
    if s == [] then 0 else Occurrences(s[..|s| - 1], c) + (if s[|s| - 1] == c then 1 else 0)
  }

  /** The name a column gets when `k` earlier columns had the same name. */
  function DupName(c: string, k: nat): string {
    if k == 0 then c else c + "_dup" + Decimal(k)
  }

  /** A renamed column still starts with its original name, and is renamed
      exactly when it has an earlier namesake. */
  lemma DupNameKeepsName(c: string, k: nat)
    ensures |DupName(c, k)| >= |c| && DupName(c, k)[..|c|] == c
    ensures DupName(c, k) == c <==> k == 0
  {
    if k > 0 {
      assert (c + "_dup" + Decimal(k))[..|c|] == c;
    }
  }

  /** The column list the loop at lines 56-64 builds: each name followed, from
      its second occurrence on, by `_dup` and the number of earlier namesakes. */
  function Dedup(cols: seq<string>): (r: seq<string>)
    ensures |r| == |cols|
  {
    seq(|cols|, i requires 0 <= i < |cols| => DupName(cols[i], Occurrences(cols[..i], cols[i])))
  }

  lemma {:induction false} OccurrencesZero(s: seq<string>, c: string)
    ensures Occurrences(s, c) == 0 <==> c !in s
  {
    if s != [] {
      OccurrencesZero(s[..|s| - 1], c);
      assert s == s[..|s| - 1] + [s[|s| - 1]];
    }
  }

  lemma OccurrencesStep(s: seq<string>, i: nat, c: string)
    requires i < |s|
    ensures Occurrences(s[..i + 1], c) == Occurrences(s[..i], c) + (if s[i] == c then 1 else 0)
  {
    assert s[..i + 1][..i] == s[..i];
  }

  lemma {:induction false} OccurrencesGrow(s: seq<string>, i: nat, j: nat)
    requires i < j <= |s|
    ensures Occurrences(s[..j], s[i]) > Occurrences(s[..i], s[i])
  {
    OccurrencesStep(s, j - 1, s[i]);
    if i < j - 1 {
      OccurrencesGrow(s, i, j - 1);
    }
  }

  /** `seen` maps each name of `prefix` to the number of its repeats so far. */
  ghost predicate SeenMatches(seen: map<string, nat>, prefix: seq<string>) {
    && (forall c :: c in seen <==> c in prefix)
    && (forall c :: c in seen ==> seen[c] + 1 == Occurrences(prefix, c))
  }

  lemma SeenExtend(seen: map<string, nat>, columns: seq<string>, i: nat)
    requires i < |columns| && SeenMatches(seen, columns[..i])
    ensures columns[i] !in seen ==> Occurrences(columns[..i], columns[i]) == 0
    ensures SeenMatches(if columns[i] in seen then seen[columns[i] := seen[columns[i]] + 1]
                        else seen[columns[i] := 0], columns[..i + 1])
  {
    var col := columns[i];
    OccurrencesZero(columns[..i], col);
    assert columns[..i + 1] == columns[..i] + [col];
    forall c ensures Occurrences(columns[..i + 1], c) == Occurrences(columns[..i], c) + (if col == c then 1 else 0) {
      OccurrencesStep(columns, i, c);
    }
  }

  /** One turn of the loop at lines 56-64, from the dictionary `seen` and names
      `names` before column `i` to `seen2` and `names2` after it: whichever branch
      ran, the dictionary stays matched and the new name is the one `Dedup` gives. */
  lemma ResolveStep(columns: seq<string>, i: nat, seen: map<string, nat>, names: seq<string>,
                    seen2: map<string, nat>, names2: seq<string>)
    requires i < |columns| && SeenMatches(seen, columns[..i]) && names == Dedup(columns)[..i]
    requires var col := columns[i];
      || (col in seen && seen2 == seen[col := seen[col] + 1] && names2 == names + [col + "_dup" + Decimal(seen2[col])])
      || (col !in seen && seen2 == seen[col := 0] && names2 == names + [col])
    ensures SeenMatches(seen2, columns[..i + 1]) && names2 == Dedup(columns)[..i + 1]
  {
    SeenExtend(seen, columns, i);
    DedupStep(seen, columns, i);
  }

  lemma DedupStep(seen: map<string, nat>, columns: seq<string>, i: nat)
    requires i < |columns| && SeenMatches(seen, columns[..i])
    ensures Dedup(columns)[..i + 1] == Dedup(columns)[..i] +
      [if columns[i] in seen then columns[i] + "_dup" + Decimal(seen[columns[i]] + 1) else columns[i]]
  {
    OccurrencesZero(columns[..i], columns[i]);
    assert Dedup(columns)[..i + 1] == Dedup(columns)[..i] + [Dedup(columns)[i]];
  }

  /** The loop at lines 56-64: `seen` counts the repeats of each name met so far. */
  method ResolveDuplicates(columns: seq<string>) returns (newColumns: seq<string>)
    ensures newColumns == Dedup(columns)
  {
    newColumns := [];
    var seen: map<string, nat> := map[];
    for i := 0 to |columns|
      invariant newColumns == Dedup(columns)[..i]
      invariant SeenMatches(seen, columns[..i])
    {
      var col := columns[i];
      ghost var before, prefix := seen, newColumns;
      if col in seen {
        seen := seen[col := seen[col] + 1];
        newColumns := newColumns + [col + "_dup" + Decimal(seen[col])];
      } else {
        seen := seen[col := 0];
        newColumns := newColumns + [col];
      }
      ResolveStep(columns, i, before, prefix, seen, newColumns);
    }
    assert Dedup(columns)[..|columns|] == Dedup(columns);
  }

  /** A column keeps its name exactly when no earlier column has that name. */
  lemma FirstOccurrenceKept(cols: seq<string>, i: nat)
    requires i < |cols|
    ensures Dedup(cols)[i] == cols[i] <==> cols[i] !in cols[..i]
  {
    OccurrencesZero(cols[..i], cols[i]);
  }

  /** A column with k >= 1 earlier namesakes is renamed `name_dupk`. */
  lemma RepeatRenamed(cols: seq<string>, i: nat)
    requires i < |cols| && cols[i] in cols[..i]
    ensures Occurrences(cols[..i], cols[i]) >= 1
    ensures Dedup(cols)[i] == cols[i] + "_dup" + Decimal(Occurrences(cols[..i], cols[i]))
  {
    OccurrencesZero(cols[..i], cols[i]);
  }

  /** A list without repeated names is returned unchanged, so the guard at line 54
      does not change the outcome. */
  lemma DedupKeepsDistinct(cols: seq<string>)
    requires !HasDuplicates(cols)
    ensures Dedup(cols) == cols
  {
    forall i | 0 <= i < |cols| ensures Dedup(cols)[i] == cols[i] {
      FirstOccurrenceKept(cols, i);
    }
  }

  /** Normalising an already normalised list changes nothing. */
  lemma DedupIdempotent(cols: seq<string>)
    requires !HasDuplicates(Dedup(cols))
    ensures Dedup(Dedup(cols)) == Dedup(cols)
  {
    DedupKeepsDistinct(Dedup(cols));
  }

  /** `name_dupk` determines name and k: the digits after the last "_dup" cannot
      reach into it. */
  lemma SuffixSplit(s1: string, d1: string, s2: string, d2: string)
    requires AllDigits(d1) && AllDigits(d2)
    requires s1 + "_dup" + d1 == s2 + "_dup" + d2
    ensures s1 == s2 && d1 == d2
  {
    var t := s1 + "_dup" + d1;
    assert t == s2 + "_dup" + d2;
    assert !IsDigit(t[|t| - |d1| - 1]) && !IsDigit(t[|t| - |d2| - 1]);
    assert forall k :: |t| - |d1| <= k < |t| ==> IsDigit(t[k]);
    assert forall k :: |t| - |d2| <= k < |t| ==> IsDigit(t[k]);
    assert |d1| == |d2|;
    assert s1 == t[..|s1|] && s2 == t[..|s2|];
    assert d1 == t[|t| - |d1|..] && d2 == t[|t| - |d2|..];
  }

  /** No column is named like another column with a `_dupk` suffix. */
  ghost predicate NoRenamedForms(cols: seq<string>) {
    forall i, j, k :: 0 <= i < |cols| && 0 <= j < |cols| && 1 <= k ==> cols[i] != cols[j] + "_dup" + Decimal(k)
  }

  /** When no column already looks like another's renamed form, the result has no
      repeated names. */
  lemma DedupIsDistinct(cols: seq<string>)
    requires NoRenamedForms(cols)
    ensures !HasDuplicates(Dedup(cols))
  {
    var r := Dedup(cols);
    forall i, j | 0 <= i < j < |cols| ensures r[i] != r[j] {
      var ki, kj := Occurrences(cols[..i], cols[i]), Occurrences(cols[..j], cols[j]);
      OccurrencesZero(cols[..i], cols[i]);
      OccurrencesZero(cols[..j], cols[j]);
      if ki == 0 && kj == 0 {
        assert cols[i] == cols[..j][i];
      } else if ki >= 1 && kj >= 1 && r[i] == r[j] {
        SuffixSplit(cols[i], Decimal(ki), cols[j], Decimal(kj));
        DecimalInjective(ki, kj);
        OccurrencesGrow(cols, i, j);
        assert false;
      }
    }
  }

  /** As written, the loop can produce a repeated name: a third column already
      called "a_dup1" collides with the renamed second "a". */
  lemma DedupCanCollide()
    ensures Dedup(["a", "a", "a_dup1"]) == ["a", "a_dup1", "a_dup1"]
    ensures HasDuplicates(Dedup(["a", "a", "a_dup1"]))
  {
    var cols := ["a", "a", "a_dup1"];
    assert cols[..1] == ["a"] && cols[..2] == ["a", "a"];
    assert Occurrences(cols[..1], "a") == 1;
    assert Occurrences(["a"], "a_dup1") == 0;
    assert ["a", "a"][..1] == ["a"];
    assert Occurrences(["a", "a"], "a_dup1") == 0;
    assert Decimal(1) == "1";
    var r := Dedup(cols);
    assert r[1] == r[2];
  }
}
