/** The record keeping around the profiler: the profile written into the
    participant's row, and the deletion of the rows selected by label. */
module Records {
  import opened Rating
  import Profiling

  /** One participant's record: the form answers plus the profile columns. */
  type Row = map<string, Value>

  /** `f"Score_{k}"`. */
  function ScoreKey(archetype: string): string {
    "Score_" + archetype
  }

  /** The columns the scores are written under. */
  function ScoreKeys(scores: seq<(string, int)>): set<string> {
    set i | 0 <= i < |scores| :: ScoreKey(scores[i].0)
  }

  /** The archetype names are distinct, as the keys of a dict are. */
  predicate DistinctNames(scores: seq<(string, int)>) {
    forall i, j :: 0 <= i < j < |scores| ==> scores[i].0 != scores[j].0
  }

  lemma ScoreKeyFacts(a: string, b: string)
    ensures ScoreKey(a) != "Profil"
    ensures ScoreKey(a) == ScoreKey(b) ==> a == b
  {
    assert ScoreKey(a)[0] == 'S';
    assert ScoreKey(a)[6..] == a && ScoreKey(b)[6..] == b;
  }

  /** The profile of ProfileOf has one score per archetype name. */
  lemma ProfileNamesDistinct(d: Profiling.Answers)
    requires Profiling.WellFormed(d)
    ensures DistinctNames(Profiling.ProfileOf(d).scores)
  {
  }

  /** `saisie["Profil"] = profil["profil"]`, then one `Score_<archetype>`
      column per score, holding the score in tenths as a decimal number. */
  method WriteProfile(saisie: Row, p: Profiling.Profile) returns (row: Row)
    requires DistinctNames(p.scores)
    ensures row.Keys == saisie.Keys + {"Profil"} + ScoreKeys(p.scores)
    ensures row["Profil"] == Str(p.profil)
    ensures forall i :: 0 <= i < |p.scores| ==>
      row[ScoreKey(p.scores[i].0)] == Num(p.scores[i].1 as real / 10.0)
    ensures forall k :: k in saisie && k != "Profil" && k !in ScoreKeys(p.scores) ==> row[k] == saisie[k]
  {
    row := saisie["Profil" := Str(p.profil)];
    var n := 0;
    while n < |p.scores|
      invariant 0 <= n <= |p.scores|
      invariant row.Keys == saisie.Keys + {"Profil"} + ScoreKeys(p.scores[..n])
      invariant row["Profil"] == Str(p.profil)
      invariant forall i :: 0 <= i < n ==>
        row[ScoreKey(p.scores[i].0)] == Num(p.scores[i].1 as real / 10.0)
      invariant forall k :: k in saisie && k != "Profil" && k !in ScoreKeys(p.scores[..n]) ==> row[k] == saisie[k]
    {
      var (name, tenths) := p.scores[n];
      ScoreKeyFacts(name, name);
      forall i | 0 <= i < n
        ensures ScoreKey(p.scores[i].0) != ScoreKey(name)
      {
        ScoreKeyFacts(p.scores[i].0, name);
      }
      assert ScoreKeys(p.scores[..n + 1]) == ScoreKeys(p.scores[..n]) + {ScoreKey(name)} by {
        assert forall i :: 0 <= i < n ==> p.scores[..n + 1][i] == p.scores[..n][i];
      }
      row := row[ScoreKey(name) := Num(tenths as real / 10.0)];
      n := n + 1;
    }
    assert p.scores[..n] == p.scores;
  }

  function Digit(n: nat): (c: char)
    requires n < 10
    ensures '0' <= c <= '9'
  {
    ['0', '1', '2', '3', '4', '5', '6', '7', '8', '9'][n]
  }

  /** `str(n)`: the decimal digits of `n`, one digit exactly when n < 10. */
  function Decimal(n: nat): (s: string)
    ensures |s| >= 1 && forall k :: 0 <= k < |s| ==> '0' <= s[k] <= '9'
    ensures n < 10 <==> |s| == 1
  {
    if n < 10 then [Digit(n)] else Decimal(n / 10) + [Digit(n % 10)]
  }

  lemma DigitInjective(a: nat, b: nat)
    requires a < 10 && b < 10 && Digit(a) == Digit(b)
    ensures a == b
  {
  }

  /** Different numbers are written differently. */
  lemma {:induction false} DecimalInjective(a: nat, b: nat)
    requires Decimal(a) == Decimal(b)
    ensures a == b
    decreases a
  {
    var s := Decimal(a);
    if a < 10 {
      DigitInjective(a, b);
    } else {
      assert b >= 10;
      assert s == Decimal(a / 10) + [Digit(a % 10)] == Decimal(b / 10) + [Digit(b % 10)];
      assert Decimal(a / 10) == s[..|s| - 1] == Decimal(b / 10);
      DecimalInjective(a / 10, b / 10);
      DigitInjective(a % 10, b % 10);
    }
  }

  /** `row.get('Code_Sujet', '(inconnu)')`, for a code entered as text. */
  predicate CodeIsText(row: Row) {
    "Code_Sujet" in row ==> row["Code_Sujet"].Str?
  }

  function CodeText(row: Row): string
    requires CodeIsText(row)
  {
    if "Code_Sujet" in row then row["Code_Sujet"].s else "(inconnu)"
  }

  predicate CodesAreText(rows: seq<Row>) {
    forall i :: 0 <= i < |rows| ==> CodeIsText(rows[i])
  }

  /** `f"{i+1} - {code}"`: the label under which row `i` is offered. */
  function Label(i: nat, code: string): string {
    Decimal(i + 1) + " - " + code
  }

  /** The position of the first space in a label is the length of its number. */
  lemma LabelNumberEnds(i: nat, code: string)
    ensures var s, a := Label(i, code), Decimal(i + 1);
      |a| < |s| && s[|a|] == ' ' && forall k :: 0 <= k < |a| ==> s[k] == a[k] && s[k] != ' '
  {
  }

  /** Labels are distinct because row numbers are, whatever the codes. */
  lemma LabelsDistinct(i: nat, j: nat, c1: string, c2: string)
    requires Label(i, c1) == Label(j, c2)
    ensures i == j
  {
    var s, a, b := Label(i, c1), Decimal(i + 1), Decimal(j + 1);
    LabelNumberEnds(i, c1);
    LabelNumberEnds(j, c2);
    assert |a| == |b|;
    assert a == s[..|a|] == b;
    DecimalInjective(i + 1, j + 1);
  }

  lemma LabelsDiffer(i: nat, j: nat, c1: string, c2: string)
    requires i != j
    ensures Label(i, c1) != Label(j, c2)
  {
    if Label(i, c1) == Label(j, c2) {
      LabelsDistinct(i, j, c1, c2);
    }
  }

  /** The labels of the stored rows, in order. */
  function Labels(rows: seq<Row>): seq<string>
    requires CodesAreText(rows)
  {
    seq(|rows|, i requires 0 <= i < |rows| => Label(i, CodeText(rows[i])))
  }

  /** `{f"{i+1} - {code}": i for i, row in enumerate(rows)}`: each label in
      turn, a later one replacing an earlier equal one. */
  function LabelIndex(rows: seq<Row>): map<string, nat>
    requires CodesAreText(rows)
  {
    if rows == [] then map[]
    else
      var n := |rows| - 1;
      LabelIndex(rows[..n])[Label(n, CodeText(rows[n])) := n]
  }

  /** The label dict offers exactly the rows' labels and maps each back to its
      own row: no label hides another. */
  lemma {:induction false} LabelIndexInverts(rows: seq<Row>)
    requires CodesAreText(rows)
    ensures forall l :: l in LabelIndex(rows) <==> l in Labels(rows)
    ensures forall i :: 0 <= i < |rows| ==> LabelIndex(rows)[Labels(rows)[i]] == i
  {
    if rows != [] {
      var n := |rows| - 1;
      var prefix := rows[..n];
      LabelIndexInverts(prefix);
      assert forall i :: 0 <= i < n ==> Labels(prefix)[i] == Labels(rows)[i];
      assert Labels(rows) == Labels(prefix) + [Labels(rows)[n]];
      forall i | 0 <= i < n
        ensures Labels(rows)[i] != Labels(rows)[n]
      {
        LabelsDiffer(i, n, CodeText(rows[i]), CodeText(rows[n]));
      }
    }
  }

  /** `[lignes_identifiables[label] for label in lignes_a_supprimer]`. */
  function SelectedIndices(rows: seq<Row>, selected: seq<string>): seq<nat>
    requires CodesAreText(rows)
    requires forall k :: 0 <= k < |selected| ==> selected[k] in LabelIndex(rows)
  {
    var index := LabelIndex(rows);
    seq(|selected|, k requires 0 <= k < |selected| => index[selected[k]])
  }

  lemma SelectedIndexHasSelectedLabel(rows: seq<Row>, selected: seq<string>, k: int)
    requires CodesAreText(rows)
    requires forall k :: 0 <= k < |selected| ==> selected[k] in LabelIndex(rows)
    requires 0 <= k < |selected|
    ensures SelectedIndices(rows, selected)[k] < |rows|
    ensures Labels(rows)[SelectedIndices(rows, selected)[k]] == selected[k]
  {
    LabelIndexInverts(rows);
    var l := selected[k];
    assert l in Labels(rows);
    var j :| 0 <= j < |rows| && Labels(rows)[j] == l;
    assert LabelIndex(rows)[l] == j;
  }

  /** A row's index is selected exactly when its label is. */
  lemma SelectedIndicesExact(rows: seq<Row>, selected: seq<string>, i: nat)
    requires CodesAreText(rows)
    requires forall k :: 0 <= k < |selected| ==> selected[k] in LabelIndex(rows)
    requires i < |rows|
    ensures i in SelectedIndices(rows, selected) <==> Labels(rows)[i] in selected
  {
    var indices := SelectedIndices(rows, selected);
    if i in indices {
      var k :| 0 <= k < |selected| && indices[k] == i;
      SelectedIndexHasSelectedLabel(rows, selected, k);
    }
    if Labels(rows)[i] in selected {
      var k :| 0 <= k < |selected| && selected[k] == Labels(rows)[i];
      LabelIndexInverts(rows);
      assert indices[k] == i;
    }
  }

  /** `[row for i, row in enumerate(rows) if i not in indices]`. */
  function KeepRows<T>(rows: seq<T>, indices: seq<nat>): seq<T> {
    if rows == [] then []
    else
      var n := |rows| - 1;
      KeepRows(rows[..n], indices) + (if n in indices then [] else [rows[n]])
  }

  /** The positions `0 <= i < n` not among `indices`, in increasing order. */
  function KeptPositions(n: nat, indices: seq<nat>): (ps: seq<nat>)
    ensures forall k :: 0 <= k < |ps| ==> ps[k] < n && ps[k] !in indices
    ensures forall i: nat :: i < n && i !in indices ==> i in ps
    ensures forall k, l :: 0 <= k < l < |ps| ==> ps[k] < ps[l]
  {
    if n == 0 then []
    else KeptPositions(n - 1, indices) + (if n - 1 in indices then [] else [n - 1])
  }

  /** KeepRows keeps the rows at the kept positions, in that order. */
  lemma {:induction false} KeepRowsAtKeptPositions<T>(rows: seq<T>, indices: seq<nat>)
    ensures var ps := KeptPositions(|rows|, indices);
      |KeepRows(rows, indices)| == |ps| &&
      forall k :: 0 <= k < |ps| ==> ps[k] < |rows| && KeepRows(rows, indices)[k] == rows[ps[k]]
  {
    if rows != [] {
      var n := |rows| - 1;
      KeepRowsAtKeptPositions(rows[..n], indices);
    }
  }

  /** Lines 265-267: drop the rows whose labels were selected. */
  function DeleteRows(rows: seq<Row>, selected: seq<string>): seq<Row>
    requires CodesAreText(rows)
    requires forall k :: 0 <= k < |selected| ==> selected[k] in LabelIndex(rows)
  {
    KeepRows(rows, SelectedIndices(rows, selected))
  }

  /** Deleting keeps exactly the rows whose label was not selected, in their
      original order. */
  lemma DeleteRowsKeepsUnselected(rows: seq<Row>, selected: seq<string>)
    requires CodesAreText(rows)
    requires forall k :: 0 <= k < |selected| ==> selected[k] in LabelIndex(rows)
    ensures var ps := KeptPositions(|rows|, SelectedIndices(rows, selected));
      (forall i: nat :: i in ps <==> i < |rows| && Labels(rows)[i] !in selected) &&
      (forall k, l :: 0 <= k < l < |ps| ==> ps[k] < ps[l]) &&
      |DeleteRows(rows, selected)| == |ps| &&
      forall k :: 0 <= k < |ps| ==> ps[k] < |rows| && DeleteRows(rows, selected)[k] == rows[ps[k]]
  {
    var indices := SelectedIndices(rows, selected);
    KeepRowsAtKeptPositions(rows, indices);
    forall i: nat | i < |rows|
      ensures i in indices <==> Labels(rows)[i] in selected
    {
      SelectedIndicesExact(rows, selected, i);
    }
  }
}
