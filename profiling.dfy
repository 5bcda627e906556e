/** The weighted profiler `scorer_profil`: every archetype of a fixed weight
    table gets the percentage `100 * sum(rating * weight) / (3 * sum(weight))`,
    rounded to one decimal, and the archetype with the highest rounded score is
    the dominant profile. */
module Profiling {
  import opened Rating

  /** One participant's answers, keyed by indicator name. */
  type Answers = map<string, Value>

  /** An archetype's (indicator, weight) pairs, in the table's order. */
  type Weights = seq<(string, nat)>

  /** The weight table `poids`, in its insertion order (which decides ties). */
  const Table: seq<(string, Weights)> := [
    ("Athlète", [("GO", 2), ("NOGO", 2), ("Vitesse_Horizontale", 2),
                 ("Vitesse_Verticale", 2), ("Vision_Faible_Contraste", 1), ("stereopsie", 3)]),
    ("Pilote", [("GO", 2), ("NOGO", 2), ("Vitesse_Horizontale", 1),
                ("Vitesse_Verticale", 1), ("Vision_Faible_Contraste", 1), ("stereopsie", 2)]),
    ("E-sportif", [("GO", 2), ("NOGO", 2), ("Vitesse_Horizontale", 4),
                   ("Vitesse_Verticale", 4), ("Vision_Faible_Contraste", 1), ("stereopsie", 2)]),
    ("Performer cognitif", [("GO", 2), ("NOGO", 2), ("Vitesse_Horizontale", 1),
                            ("Vitesse_Verticale", 1), ("Vision_Faible_Contraste", 4), ("stereopsie", 1)])
  ]

  const ArchetypeNames: seq<string> := ["Athlète", "Pilote", "E-sportif", "Performer cognitif"]

  /** The indicators the table weights. */
  const ScoredIndicators: set<string> :=
    {"GO", "NOGO", "Vitesse_Horizontale", "Vitesse_Verticale", "Vision_Faible_Contraste", "stereopsie"}

  /** `d.get(var, 0)`: a missing answer reads as the number 0. */
  function Get(d: Answers, name: string): Value {
    if name in d then d[name] else Num(0.0)
  }

  /** What the profiler demands of its input: every weighted indicator can be
      rated without raising (answers to other indicators are never looked at). */
  predicate WellFormed(d: Answers) {
    forall n :: n in ScoredIndicators ==> WellTyped(n, Get(d, n))
  }

  /** Every indicator of `ws` can be rated on `d`. */
  predicate Rateable(ws: Weights, d: Answers) {
    forall k :: 0 <= k < |ws| ==> WellTyped(ws[k].0, Get(d, ws[k].0))
  }

  /** `noter(var, d.get(var, 0)) * p` for one (indicator, weight) pair. */
  function Contribution(w: (string, nat), d: Answers): int
    requires WellTyped(w.0, Get(d, w.0))
  {
    Rate(w.0, Get(d, w.0)) * w.1
  }

  /** `sum(rating * weight)` over `ws`. */
  function WeightedSum(ws: Weights, d: Answers): int
    requires Rateable(ws, d)
  {
    if ws == [] then 0 else WeightedSum(ws[..|ws| - 1], d) + Contribution(ws[|ws| - 1], d)
  }

  /** `sum(variables.values())`. */
  function TotalWeight(ws: Weights): nat {
    if ws == [] then 0 else TotalWeight(ws[..|ws| - 1]) + ws[|ws| - 1].1
  }

  /** The weight of the entries other than `stereopsie`, which is never rated. */
  function RatedWeight(ws: Weights): nat {
    if ws == [] then 0
    else RatedWeight(ws[..|ws| - 1]) + (if ws[|ws| - 1].0 == "stereopsie" then 0 else ws[|ws| - 1].1)
  }

  /** The archetype's percentage before rounding, as an exact rational. */
  function ExactScore(ws: Weights, d: Answers): real
    requires Rateable(ws, d) && TotalWeight(ws) > 0
  {
    WeightedSum(ws, d) as real / (3 * TotalWeight(ws)) as real * 100.0
  }

  /** One-decimal rounding, as a whole number of tenths: the tenth nearest to
      `x` (a value half-way between two tenths would go up; see
      RoundingNeverTies for why the direction never matters here). */
  function RoundTenths(x: real): (t: int)
    ensures t as real - 0.5 <= 10.0 * x < t as real + 0.5
  {
    (10.0 * x + 0.5).Floor
  }

  predicate ValidTable(table: seq<(string, Weights)>) {
    forall i :: 0 <= i < |table| ==> TotalWeight(table[i].1) > 0
  }

  lemma WeightedSumStep(ws: Weights, d: Answers, j: int)
    requires Rateable(ws, d) && 0 <= j < |ws|
    ensures Rateable(ws[..j], d) && Rateable(ws[..j + 1], d)
    ensures WeightedSum(ws[..j + 1], d) == WeightedSum(ws[..j], d) + Contribution(ws[j], d)
  {
    assert ws[..j + 1][..j] == ws[..j];
  }

  lemma WeightStep(ws: Weights, j: int)
    requires 0 <= j < |ws|
    ensures TotalWeight(ws[..j + 1]) == TotalWeight(ws[..j]) + ws[j].1
    ensures RatedWeight(ws[..j + 1]) == RatedWeight(ws[..j]) + (if ws[j].0 == "stereopsie" then 0 else ws[j].1)
  {
    assert ws[..j + 1][..j] == ws[..j];
  }

  /** The totals of a six-entry weight list, entry by entry. */
  lemma SixWeights(ws: Weights)
    requires |ws| == 6 && ws[5].0 == "stereopsie"
    requires forall k :: 0 <= k < 5 ==> ws[k].0 != "stereopsie"
    ensures TotalWeight(ws) == ws[0].1 + ws[1].1 + ws[2].1 + ws[3].1 + ws[4].1 + ws[5].1
    ensures RatedWeight(ws) == ws[0].1 + ws[1].1 + ws[2].1 + ws[3].1 + ws[4].1
  {
    assert ws[..0] == [];
    WeightStep(ws, 0);
    WeightStep(ws, 1);
    WeightStep(ws, 2);
    WeightStep(ws, 3);
    WeightStep(ws, 4);
    WeightStep(ws, 5);
    assert ws[..6] == ws;
  }

  /** Facts about the constant table: the totals, the archetype names in order,
      and that each archetype weights only scored indicators. */
  lemma TableFacts()
    ensures |Table| == 4
    ensures forall i :: 0 <= i < 4 ==> Table[i].0 == ArchetypeNames[i]
    ensures TotalWeight(Table[0].1) == 12 && RatedWeight(Table[0].1) == 9
    ensures TotalWeight(Table[1].1) == 9 && RatedWeight(Table[1].1) == 7
    ensures TotalWeight(Table[2].1) == 15 && RatedWeight(Table[2].1) == 13
    ensures TotalWeight(Table[3].1) == 11 && RatedWeight(Table[3].1) == 10
    ensures forall i, k :: 0 <= i < 4 && 0 <= k < |Table[i].1| ==> Table[i].1[k].0 in ScoredIndicators
  {
    SixWeights(Table[0].1);
    SixWeights(Table[1].1);
    SixWeights(Table[2].1);
    SixWeights(Table[3].1);
  }

  /** Every archetype's weights sum to a positive number: no division by zero. */
  lemma TablePositiveTotals()
    ensures ValidTable(Table)
  {
    TableFacts();
  }

  lemma WellFormedRateable(d: Answers, i: int)
    requires WellFormed(d) && 0 <= i < |Table|
    ensures Rateable(Table[i].1, d) && TotalWeight(Table[i].1) > 0
  {
    TableFacts();
  }

  /** The rounded score of every archetype, in table order: the `scores` dict. */
  function Scores(d: Answers): seq<(string, int)>
    requires WellFormed(d)
  {
    TableFacts();
    seq(|Table|, i requires 0 <= i < |Table| =>
      WellFormedRateable(d, i);
      (Table[i].0, RoundTenths(ExactScore(Table[i].1, d))))
  }

  /** `i` is where the highest score first occurs. */
  predicate IsFirstMaximum(s: seq<(string, int)>, i: int) {
    0 <= i < |s| &&
    (forall j :: 0 <= j < |s| ==> s[j].1 <= s[i].1) &&
    (forall j :: 0 <= j < i ==> s[j].1 < s[i].1)
  }

  /** Python's `max`: scan left to right, replace the best only by a strictly
      greater score. */
  function MaxFrom(s: seq<(string, int)>, best: nat, k: nat): (i: nat)
    requires best < k <= |s|
    requires forall j :: 0 <= j < k ==> s[j].1 <= s[best].1
    requires forall j :: 0 <= j < best ==> s[j].1 < s[best].1
    ensures IsFirstMaximum(s, i)
    decreases |s| - k
  {
    if k == |s| then best
    else if s[k].1 > s[best].1 then MaxFrom(s, k, k + 1)
    else MaxFrom(s, best, k + 1)
  }

  /** `max(scores, key=scores.get)`: the earliest of the highest scores. */
  function ArgMax(s: seq<(string, int)>): (i: nat)
    requires |s| > 0
    ensures IsFirstMaximum(s, i)
  {
    MaxFrom(s, 0, 1)
  }

  lemma FirstMaximumUnique(s: seq<(string, int)>, i: int, j: int)
    requires IsFirstMaximum(s, i) && IsFirstMaximum(s, j)
    ensures i == j
  {
    assert s[i].1 == s[j].1;
  }

  /** The result of `scorer_profil`: the dominant profile and the scores. */
  datatype Profile = Profile(profil: string, scores: seq<(string, int)>)

  /** `scorer_profil(d)`: exactly the four archetype keys in table order, and
      a dominant profile named after the first maximal score. */
  function ProfileOf(d: Answers): (r: Profile)
    requires WellFormed(d)
    ensures |r.scores| == 4 && forall i :: 0 <= i < 4 ==> r.scores[i].0 == ArchetypeNames[i]
    ensures exists i :: IsFirstMaximum(r.scores, i) && r.profil == r.scores[i].0
  {
    TableFacts();
    var s := Scores(d);
    Profile(s[ArgMax(s)].0, s)
  }

  /** The loop of `scorer_profil`: for every archetype, accumulate
      `score += rating * weight`, then store the rounded percentage. */
  method ScoreProfile(d: Answers) returns (result: Profile)
    requires WellFormed(d)
    ensures result == ProfileOf(d)
  {
    var scores: seq<(string, int)> := [];
    var k := 0;
    while k < |Table|
      invariant 0 <= k <= |Table|
      invariant scores == Scores(d)[..k]
    {
      var (profil, variables) := Table[k];
      WellFormedRateable(d, k);
      var score := 0;
      var totalPoids := TotalWeight(variables);
      var j := 0;
      while j < |variables|
        invariant 0 <= j <= |variables|
        invariant score == WeightedSum(variables[..j], d)
      {
        var (name, p) := variables[j];
        WeightedSumStep(variables, d, j);
        score := score + Rate(name, Get(d, name)) * p;
        j := j + 1;
      }
      assert variables[..j] == variables;
      scores := scores + [(profil, RoundTenths(score as real / (3 * totalPoids) as real * 100.0))];
      k := k + 1;
    }
    assert scores == Scores(d);
    result := Profile(scores[ArgMax(scores)].0, scores);
  }

  lemma WeightedSumSix(ws: Weights, d: Answers)
    requires |ws| == 6 && Rateable(ws, d)
    ensures WeightedSum(ws, d) ==
      Contribution(ws[0], d) + Contribution(ws[1], d) + Contribution(ws[2], d) +
      Contribution(ws[3], d) + Contribution(ws[4], d) + Contribution(ws[5], d)
  {
    assert ws[..0] == [];
    WeightedSumStep(ws, d, 0);
    WeightedSumStep(ws, d, 1);
    WeightedSumStep(ws, d, 2);
    WeightedSumStep(ws, d, 3);
    WeightedSumStep(ws, d, 4);
    WeightedSumStep(ws, d, 5);
    assert ws[..6] == ws;
  }

  /** A weighted sum lies between 0 and 3 times the weight of the entries that
      can be rated, since `stereopsie` always rates 0. */
  lemma {:induction false} WeightedSumBounds(ws: Weights, d: Answers)
    requires Rateable(ws, d)
    ensures 0 <= WeightedSum(ws, d) <= 3 * RatedWeight(ws)
  {
    if ws != [] {
      var n := |ws| - 1;
      WeightedSumStep(ws, d, n);
      assert ws[..n + 1] == ws;
      WeightedSumBounds(ws[..n], d);
      StereopsisNeverRated(Get(d, ws[n].0));
    }
  }

  /** The highest reachable score of each archetype, in tenths: 75.0, 77.8,
      86.7 and 90.9. None is 100. */
  const Ceilings: seq<int> := [750, 778, 867, 909]

  /** Every score lies between 0 and its archetype's ceiling, so below 100. */
  lemma ScoreCeiling(d: Answers, i: int)
    requires WellFormed(d) && 0 <= i < 4
    ensures 0 <= Scores(d)[i].1 <= Ceilings[i] < 1000
  {
    TableFacts();
    WellFormedRateable(d, i);
    var ws := Table[i].1;
    WeightedSumBounds(ws, d);
    var w := WeightedSum(ws, d) as real;
    var x := ExactScore(ws, d);
    assert x == w / (3 * TotalWeight(ws)) as real * 100.0;
    if i == 0 {
      assert w <= 27.0 && x == w / 36.0 * 100.0;
    } else if i == 1 {
      assert w <= 21.0 && x == w / 27.0 * 100.0;
    } else if i == 2 {
      assert w <= 39.0 && x == w / 45.0 * 100.0;
    } else {
      assert w <= 30.0 && x == w / 33.0 * 100.0;
    }
  }

  /** Answers on which every rated indicator of the table rates 3. */
  const BestAnswers: Answers := map[
    "GO" := Num(0.0), "NOGO" := Num(0.0), "Vitesse_Horizontale" := Num(600.0),
    "Vitesse_Verticale" := Num(400.0), "Vision_Faible_Contraste" := Num(0.0)]

  /** The four rounded scores, given the four weighted sums. */
  lemma ScoresFromSums(d: Answers, w0: int, w1: int, w2: int, w3: int)
    requires WellFormed(d)
    requires Rateable(Table[0].1, d) && WeightedSum(Table[0].1, d) == w0
    requires Rateable(Table[1].1, d) && WeightedSum(Table[1].1, d) == w1
    requires Rateable(Table[2].1, d) && WeightedSum(Table[2].1, d) == w2
    requires Rateable(Table[3].1, d) && WeightedSum(Table[3].1, d) == w3
    ensures Scores(d) == [
      ("Athlète", RoundTenths(w0 as real / 36.0 * 100.0)),
      ("Pilote", RoundTenths(w1 as real / 27.0 * 100.0)),
      ("E-sportif", RoundTenths(w2 as real / 45.0 * 100.0)),
      ("Performer cognitif", RoundTenths(w3 as real / 33.0 * 100.0))]
  {
    TableFacts();
    var s := Scores(d);
    assert s[0].1 == RoundTenths(w0 as real / 36.0 * 100.0);
    assert s[1].1 == RoundTenths(w1 as real / 27.0 * 100.0);
    assert s[2].1 == RoundTenths(w2 as real / 45.0 * 100.0);
    assert s[3].1 == RoundTenths(w3 as real / 33.0 * 100.0);
  }

  lemma BestSums()
    ensures WellFormed(BestAnswers)
    ensures WeightedSum(Table[0].1, BestAnswers) == 27 && WeightedSum(Table[1].1, BestAnswers) == 21
    ensures WeightedSum(Table[2].1, BestAnswers) == 39 && WeightedSum(Table[3].1, BestAnswers) == 30
  {
    TableFacts();
    var d := BestAnswers;
    WellFormedRateable(d, 0);
    WellFormedRateable(d, 1);
    WellFormedRateable(d, 2);
    WellFormedRateable(d, 3);
    WeightedSumSix(Table[0].1, d);
    WeightedSumSix(Table[1].1, d);
    WeightedSumSix(Table[2].1, d);
    WeightedSumSix(Table[3].1, d);
  }

  lemma CeilingTenths()
    ensures RoundTenths(27.0 / 36.0 * 100.0) == Ceilings[0]
    ensures RoundTenths(21.0 / 27.0 * 100.0) == Ceilings[1]
    ensures RoundTenths(39.0 / 45.0 * 100.0) == Ceilings[2]
    ensures RoundTenths(30.0 / 33.0 * 100.0) == Ceilings[3]
  {
  }

  lemma BestScores()
    ensures WellFormed(BestAnswers)
    ensures Scores(BestAnswers) ==
      [("Athlète", 750), ("Pilote", 778), ("E-sportif", 867), ("Performer cognitif", 909)]
  {
    BestSums();
    ScoresFromSums(BestAnswers, 27, 21, 39, 30);
    CeilingTenths();
  }

  /** The ceilings are reached, all at once, by BestAnswers; the dominant
      profile is then Performer cognitif. */
  lemma CeilingsReached()
    ensures WellFormed(BestAnswers)
    ensures ProfileOf(BestAnswers) == Profile("Performer cognitif",
      [("Athlète", Ceilings[0]), ("Pilote", Ceilings[1]), ("E-sportif", Ceilings[2]),
       ("Performer cognitif", Ceilings[3])])
  {
    BestScores();
    var s := Scores(BestAnswers);
    assert IsFirstMaximum(s, 3);
    FirstMaximumUnique(s, 3, ArgMax(s));
  }

  lemma EmptySums()
    ensures WellFormed(map[])
    ensures WeightedSum(Table[0].1, map[]) == 19 && WeightedSum(Table[1].1, map[]) == 17
    ensures WeightedSum(Table[2].1, map[]) == 23 && WeightedSum(Table[3].1, map[]) == 26
  {
    TableFacts();
    var d: Answers := map[];
    WellFormedRateable(d, 0);
    WellFormedRateable(d, 1);
    WellFormedRateable(d, 2);
    WellFormedRateable(d, 3);
    WeightedSumSix(Table[0].1, d);
    WeightedSumSix(Table[1].1, d);
    WeightedSumSix(Table[2].1, d);
    WeightedSumSix(Table[3].1, d);
  }

  lemma EmptyTenths()
    ensures RoundTenths(19.0 / 36.0 * 100.0) == 528
    ensures RoundTenths(17.0 / 27.0 * 100.0) == 630
    ensures RoundTenths(23.0 / 45.0 * 100.0) == 511
    ensures RoundTenths(26.0 / 33.0 * 100.0) == 788
  {
  }

  /** The scores of the empty form: every answer reads as 0, so GO, NOGO and
      low-contrast vision rate 3 and both speeds rate 1; the percentages are
      52.8, 63.0, 51.1 and 78.8 and the dominant profile is Performer cognitif. */
  lemma EmptyAnswers()
    ensures WellFormed(map[])
    ensures ProfileOf(map[]) == Profile("Performer cognitif",
      [("Athlète", 528), ("Pilote", 630), ("E-sportif", 511), ("Performer cognitif", 788)])
  {
    EmptySums();
    ScoresFromSums(map[], 19, 17, 23, 26);
    EmptyTenths();
    var s := Scores(map[]);
    assert IsFirstMaximum(s, 3);
    FirstMaximumUnique(s, 3, ArgMax(s));
  }

  lemma {:induction false} WeightedSumAgree(ws: Weights, d1: Answers, d2: Answers)
    requires Rateable(ws, d1)
    requires forall k :: 0 <= k < |ws| ==> Get(d1, ws[k].0) == Get(d2, ws[k].0)
    ensures Rateable(ws, d2) && WeightedSum(ws, d1) == WeightedSum(ws, d2)
  {
    if ws != [] {
      var n := |ws| - 1;
      WeightedSumStep(ws, d1, n);
      assert ws[..n + 1] == ws;
      WeightedSumAgree(ws[..n], d1, d2);
      WeightedSumStep(ws, d2, n);
    }
  }

  /** The profile depends only on what `d.get` reads for the weighted
      indicators. */
  lemma ProfileDependsOnlyOnScoredAnswers(d1: Answers, d2: Answers)
    requires WellFormed(d1)
    requires forall n :: n in ScoredIndicators ==> Get(d1, n) == Get(d2, n)
    ensures WellFormed(d2) && ProfileOf(d1) == ProfileOf(d2)
  {
    TableFacts();
    forall i | 0 <= i < 4
      ensures Scores(d1)[i] == Scores(d2)[i]
    {
      WellFormedRateable(d1, i);
      WellFormedRateable(d2, i);
      WeightedSumAgree(Table[i].1, d1, d2);
    }
    assert Scores(d1) == Scores(d2);
  }

  /** A missing answer is scored as the number 0, not left out: removing it or
      setting it to 0 gives the same profile. */
  lemma MissingKeyReadsAsZero(d: Answers, k: string)
    requires WellFormed(d) && k !in d
    ensures WellFormed(d[k := Num(0.0)]) && ProfileOf(d[k := Num(0.0)]) == ProfileOf(d)
  {
    ProfileDependsOnlyOnScoredAnswers(d, d[k := Num(0.0)]);
  }

  /** Answers to indicators the table does not weight are ignored, whatever
      their type. */
  lemma UnknownKeyIgnored(d: Answers, k: string, v: Value)
    requires WellFormed(d) && k !in ScoredIndicators
    ensures WellFormed(d[k := v]) && ProfileOf(d[k := v]) == ProfileOf(d)
  {
    ProfileDependsOnlyOnScoredAnswers(d, d[k := v]);
  }

  /** `2000 * w` is a multiple of 16, 4 or 10, which an odd multiple of
      `3 * t` is not. */
  lemma NoOddMultiple(w: int, f: int, t: int)
    requires t == 12 || t == 9 || t == 15 || t == 11
    ensures 2000 * w != 3 * t * (2 * f + 1)
  {
    if t == 12 {
      assert 2000 * w != 72 * f + 36;
    } else if t == 9 {
      assert 2000 * w != 54 * f + 27;
    } else if t == 15 {
      assert 2000 * w != 90 * f + 45;
    } else {
      assert 2000 * w != 66 * f + 33;
    }
  }

  /** `1000 * w / (3 * t)` is never half-way between two integers. */
  lemma NoTie(w: int, t: int)
    requires t == 12 || t == 9 || t == 15 || t == 11
    ensures var y := 1000.0 * w as real / (3 * t) as real; y - y.Floor as real != 0.5
  {
    var y := 1000.0 * w as real / (3 * t) as real;
    var f := y.Floor;
    NoOddMultiple(w, f, t);
    assert (2000 * w) as real == (3 * t) as real * (2.0 * y);
    assert (3 * t * (2 * f + 1)) as real == (3 * t) as real * (2.0 * f as real + 1.0);
  }

  /** The exact score of an archetype is never half-way between two tenths,
      so rounding half up and rounding half to even pick the same tenth. */
  lemma RoundingNeverTies(d: Answers, i: int)
    requires WellFormed(d) && 0 <= i < 4
    ensures Rateable(Table[i].1, d) && TotalWeight(Table[i].1) > 0
    ensures var y := 10.0 * ExactScore(Table[i].1, d); y - y.Floor as real != 0.5
  {
    TableFacts();
    WellFormedRateable(d, i);
    var ws := Table[i].1;
    var w := WeightedSum(ws, d);
    NoTie(w, TotalWeight(ws));
    assert 10.0 * ExactScore(ws, d) == 1000.0 * w as real / (3 * TotalWeight(ws)) as real;
  }
}
