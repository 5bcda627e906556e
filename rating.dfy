/** The per-indicator rating rule of the profiler: the nested function `noter`
    of `scorer_profil`, which maps an indicator name and a raw form answer to an
    ordinal rating 0..3 (0 = unrecognised, 1 = worst tier, 3 = best tier). */
module Rating {

  /** A raw form answer: a categorical label (radio or select widget) or a
      numeric measurement (number input or slider). */
  datatype Value = Str(s: string) | Num(x: real)

  /** An ordinal rating. */
  type Rating = r: int | 0 <= r <= 3

  /** Indicators whose rule compares the answer with numbers by `<=` or `>`;
      in the source such a comparison raises when the answer is a string. */
  const NumericIndicators: set<string> :=
    {"Vitesse_Horizontale", "Vitesse_Verticale", "NOGO", "GO",
     "Vision_Faible_Contraste", "Fatigue_Visuelle"}

  /** The answers the rule can rate without raising. */
  predicate WellTyped(name: string, v: Value) {
    name in NumericIndicators ==> v.Num?
  }

  /** "hi"/"mid"/"lo" rate 3/2/1; any other answer, numbers included, rates 0. */
  function Label3(v: Value, hi: string, mid: string, lo: string): Rating {
    if v == Str(hi) then 3 else if v == Str(mid) then 2 else if v == Str(lo) then 1 else 0
  }

  function HorizontalSpeed(x: real): Rating {
    if 501.0 <= x <= 700.0 then 3
    else if 451.0 <= x <= 500.0 || 701.0 <= x <= 850.0 then 2
    else if x <= 450.0 || x > 850.0 then 1
    else 0
  }

  function VerticalSpeed(x: real): Rating {
    if x <= 300.0 then 1 else if x <= 399.0 then 2 else if x <= 9999.0 then 3 else 0
  }

  /** The final 0 cannot be reached for a real number (it is Python's answer
      for NaN). As a `Rating` result, that dead literal's subset check would be
      discharged only by the contradiction of the two failed comparisons, so
      the result is an `int` bounded by its `ensures`. */
  function Nogo(x: real): (r: int)
    ensures 0 <= r <= 3
  {
    if x <= 10.0 then 3 else if x > 10.0 then 1 else 0
  }

  function Go(x: real): Rating {
    if x <= 500.0 then 3 else if x <= 599.0 then 2 else if x <= 9999.0 then 1 else 0
  }

  function LowContrast(x: real): Rating {
    if x == 0.0 then 3 else if x > 0.0 then 1 else 0
  }

  function VisualFatigue(x: real): Rating {
    if 8.0 <= x <= 10.0 then 1
    else if 4.0 <= x <= 7.0 then 2
    else if 1.0 <= x <= 3.0 then 3
    else 0
  }

  /** The numeric 1..5 scale of the second `Sensibilite_Lumineuse` branch. */
  function LightScale(v: Value): Rating {
    if v == Num(1.0) then 3
    else if v == Num(2.0) || v == Num(3.0) then 2
    else if v == Num(4.0) || v == Num(5.0) then 1
    else 0
  }

  /** The numeric 1..5 scale of the second `Vision_Peri` branch. */
  function PeripheralScale(v: Value): Rating {
    if v == Num(1.0) || v == Num(2.0) then 1
    else if v == Num(3.0) || v == Num(4.0) then 2
    else if v == Num(5.0) then 3
    else 0
  }

  /** `noter(variable, valeur)`: the branches in the source's order, the two
      duplicate branches at the end included; names are matched exactly and a
      name that no branch matches rates 0. */
  function Rate(name: string, v: Value): Rating
    requires WellTyped(name, v)
  {
    if name == "Decision_Visuelle" then Label3(v, "Rapide", "Moyenne", "Lente")
    else if name == "Sensibilite_Lumineuse" then Label3(v, "Non", "Parfois", "Oui")
    else if name == "Vision_Peri" then Label3(v, "Bon", "Moyen", "Faible")
    else if name == "Vitesse_Horizontale" then HorizontalSpeed(v.x)
    else if name == "Vitesse_Verticale" then VerticalSpeed(v.x)
    else if name == "NOGO" then Nogo(v.x)
    else if name == "GO" then Go(v.x)
    else if name == "Vision_Faible_Contraste" then LowContrast(v.x)
    else if name == "Fatigue_Visuelle" then VisualFatigue(v.x)
    else if name == "Sensibilite_Lumineuse" then LightScale(v)
    else if name == "Vision_Peri" then PeripheralScale(v)
    else 0
  }

  /** Every name the rule handles. */
  const RatedIndicators: set<string> :=
    NumericIndicators + {"Decision_Visuelle", "Sensibilite_Lumineuse", "Vision_Peri"}

  lemma UnknownIndicatorRatesZero(name: string, v: Value)
    requires name !in RatedIndicators
    ensures WellTyped(name, v) && Rate(name, v) == 0
  {
  }

  /** `stereopsie` is weighted by every archetype but never rated. */
  lemma StereopsisNeverRated(v: Value)
    ensures WellTyped("stereopsie", v) && Rate("stereopsie", v) == 0
  {
  }

  lemma DecisionSpeedLabels(v: Value)
    ensures Rate("Decision_Visuelle", v) ==
      if v == Str("Rapide") then 3 else if v == Str("Moyenne") then 2
      else if v == Str("Lente") then 1 else 0
  {
  }

  lemma LightSensitivityLabels(v: Value)
    ensures Rate("Sensibilite_Lumineuse", v) ==
      if v == Str("Non") then 3 else if v == Str("Parfois") then 2
      else if v == Str("Oui") then 1 else 0
  {
  }

  lemma PeripheralVisionLabels(v: Value)
    ensures Rate("Vision_Peri", v) ==
      if v == Str("Bon") then 3 else if v == Str("Moyen") then 2
      else if v == Str("Faible") then 1 else 0
  {
  }

  /** The numeric branches for `Sensibilite_Lumineuse` and `Vision_Peri` are
      dead: a number given to either indicator rates 0, although the numeric
      scales would rate it 1..3. */
  lemma DuplicateBranchesUnreachable(x: real)
    ensures Rate("Sensibilite_Lumineuse", Num(x)) == 0
    ensures Rate("Vision_Peri", Num(x)) == 0
    ensures 1.0 <= x <= 5.0 && x.Floor as real == x ==> LightScale(Num(x)) > 0 && PeripheralScale(Num(x)) > 0
  {
    if 1.0 <= x <= 5.0 && x.Floor as real == x {
      var n := x.Floor;
      assert n == 1 || n == 2 || n == 3 || n == 4 || n == 5;
    }
  }

  /** The four bands of `Vitesse_Horizontale`, each as an if-and-only-if. */
  lemma HorizontalSpeedBands(x: real)
    ensures Rate("Vitesse_Horizontale", Num(x)) == 3 <==> 501.0 <= x <= 700.0
    ensures Rate("Vitesse_Horizontale", Num(x)) == 2 <==> 451.0 <= x <= 500.0 || 701.0 <= x <= 850.0
    ensures Rate("Vitesse_Horizontale", Num(x)) == 1 <==> x <= 450.0 || x > 850.0
    ensures Rate("Vitesse_Horizontale", Num(x)) == 0 <==>
      (450.0 < x < 451.0) || (500.0 < x < 501.0) || (700.0 < x < 701.0)
  {
  }

  lemma HorizontalSpeedBoundaries()
    ensures Rate("Vitesse_Horizontale", Num(450.0)) == 1 && Rate("Vitesse_Horizontale", Num(451.0)) == 2
    ensures Rate("Vitesse_Horizontale", Num(500.0)) == 2 && Rate("Vitesse_Horizontale", Num(501.0)) == 3
    ensures Rate("Vitesse_Horizontale", Num(700.0)) == 3 && Rate("Vitesse_Horizontale", Num(701.0)) == 2
    ensures Rate("Vitesse_Horizontale", Num(850.0)) == 2 && Rate("Vitesse_Horizontale", Num(851.0)) == 1
    ensures Rate("Vitesse_Horizontale", Num(500.5)) == 0
  {
  }

  /** The gaps hold no whole number: an integer speed is always rated 1..3. */
  lemma HorizontalSpeedIntegersRated(n: int)
    ensures Rate("Vitesse_Horizontale", Num(n as real)) != 0
  {
  }

  lemma VerticalSpeedLadder(x: real)
    ensures Rate("Vitesse_Verticale", Num(x)) == 1 <==> x <= 300.0
    ensures Rate("Vitesse_Verticale", Num(x)) == 2 <==> 300.0 < x <= 399.0
    ensures Rate("Vitesse_Verticale", Num(x)) == 3 <==> 399.0 < x <= 9999.0
    ensures Rate("Vitesse_Verticale", Num(x)) == 0 <==> x > 9999.0
  {
  }

  lemma GoLadder(x: real)
    ensures Rate("GO", Num(x)) == 3 <==> x <= 500.0
    ensures Rate("GO", Num(x)) == 2 <==> 500.0 < x <= 599.0
    ensures Rate("GO", Num(x)) == 1 <==> 599.0 < x <= 9999.0
    ensures Rate("GO", Num(x)) == 0 <==> x > 9999.0
  {
  }

  /** NOGO is rated 3 up to 10 errors and 1 above: never 2, never 0. */
  lemma NogoNeverTwo(x: real)
    ensures Rate("NOGO", Num(x)) == 3 <==> x <= 10.0
    ensures Rate("NOGO", Num(x)) == 1 <==> x > 10.0
    ensures Rate("NOGO", Num(x)) != 2 && Rate("NOGO", Num(x)) != 0
  {
  }

  lemma LowContrastRule(x: real)
    ensures Rate("Vision_Faible_Contraste", Num(x)) == 3 <==> x == 0.0
    ensures Rate("Vision_Faible_Contraste", Num(x)) == 1 <==> x > 0.0
    ensures Rate("Vision_Faible_Contraste", Num(x)) == 0 <==> x < 0.0
  {
  }

  /** Fatigue 8..10 rates 1, 4..7 rates 2, 1..3 rates 3; outside 1..10 and in
      the gaps (3,4) and (7,8) it rates 0. */
  lemma VisualFatigueBands(x: real)
    ensures Rate("Fatigue_Visuelle", Num(x)) == 1 <==> 8.0 <= x <= 10.0
    ensures Rate("Fatigue_Visuelle", Num(x)) == 2 <==> 4.0 <= x <= 7.0
    ensures Rate("Fatigue_Visuelle", Num(x)) == 3 <==> 1.0 <= x <= 3.0
    ensures Rate("Fatigue_Visuelle", Num(x)) == 0 <==>
      x < 1.0 || x > 10.0 || (3.0 < x < 4.0) || (7.0 < x < 8.0)
  {
  }
}
