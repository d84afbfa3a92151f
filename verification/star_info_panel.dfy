/** The text of the star information panel (src/components/StarInfoPanel.tsx):
    the spectral-class and magnitude descriptions, and the "Did You Know?"
    facts, including what React renders for the falsy operands of `&&`. */
module StarInfoPanel {
  import opened Wrappers
  import opened Text
  import opened AstronomyTypes
  import opened Appearance

  /** The description of each Harvard spectral letter. */
  const Descriptions: map<char, string> := map[
    'O' := "Very hot blue star",
    'B' := "Hot blue-white star",
    'A' := "White star",
    'F' := "Yellow-white star",
    'G' := "Yellow star (like our Sun)",
    'K' := "Orange star",
    'M' := "Cool red star"]

  const UnknownType: string := "Unknown type"

  /** `getSpectralClassDescription`: the description of the upper-cased first
      letter, or "Unknown type". */
  function SpectralClassDescription(spectralClass: string): (d: string)
    ensures |spectralClass| > 0 && UpperChar(spectralClass[0]) in Descriptions ==>
      d == Descriptions[UpperChar(spectralClass[0])]
    ensures (|spectralClass| == 0 || UpperChar(spectralClass[0]) !in Descriptions) ==> d == UnknownType
  {
    var key := FirstCharUpper(spectralClass);
    if |key| == 1 && key[0] in Descriptions then Descriptions[key[0]] else UnknownType
  }

  /** A class has a known description exactly when the map draws it in a
      spectral colour rather than white: the two tables cover the same letters. */
  lemma DescriptionKnownIffColoured(spectralClass: string)
    ensures SpectralClassDescription(spectralClass) != UnknownType <==> StarColor(spectralClass) != White
  {
    assert Descriptions.Keys == SpectralColors.Keys;
  }

  /** The seven magnitude labels, brightest first. */
  const MagnitudeLabels: seq<string> := [
    "Extremely bright",
    "Very bright",
    "Bright",
    "Moderately bright",
    "Visible to naked eye",
    "Faint",
    "Very faint"]

  /** `getMagnitudeDescription`: a ladder of strict upper bounds 0, 1, ..., 5. */
  function MagnitudeDescription(magnitude: real): string {
    if magnitude < 0.0 then "Extremely bright"
    else if magnitude < 1.0 then "Very bright"
    else if magnitude < 2.0 then "Bright"
    else if magnitude < 3.0 then "Moderately bright"
    else if magnitude < 4.0 then "Visible to naked eye"
    else if magnitude < 5.0 then "Faint"
    else "Very faint"
  }

  /** Closed form of the ladder: which label a magnitude gets. */
  function MagnitudeRank(magnitude: real): (k: nat)
    ensures k < |MagnitudeLabels|
    ensures k == 0 <==> magnitude < 0.0
    ensures k == 6 <==> magnitude >= 5.0
    ensures 0 < k < 6 ==> (k - 1) as real <= magnitude < k as real
  {
    if magnitude < 0.0 then 0
    else if magnitude >= 5.0 then 6
    else magnitude.Floor + 1
  }

  /** The ladder picks the label of the unit interval the magnitude falls in. */
  lemma MagnitudeDescriptionRank(magnitude: real)
    ensures MagnitudeDescription(magnitude) == MagnitudeLabels[MagnitudeRank(magnitude)]
  {
  }

  /** A brighter (smaller) magnitude never gets a fainter label. */
  lemma {:induction false} MagnitudeRankMonotone(m1: real, m2: real)
    requires m1 <= m2
    ensures MagnitudeRank(m1) <= MagnitudeRank(m2)
  {
    if 0.0 <= m1 && m2 < 5.0 {
      assert m1.Floor <= m2.Floor;
    }
  }

  /** The labels are distinct, so the rank is recovered from the label. */
  lemma MagnitudeLabelsDistinct()
    ensures forall i, j :: 0 <= i < j < |MagnitudeLabels| ==> MagnitudeLabels[i] != MagnitudeLabels[j]
  {
  }

  /** Two magnitudes get the same label exactly when they fall in the same
      band of the ladder. */
  lemma SameLabelIffSameBand(m1: real, m2: real)
    ensures MagnitudeDescription(m1) == MagnitudeDescription(m2) <==> MagnitudeRank(m1) == MagnitudeRank(m2)
  {
    MagnitudeDescriptionRank(m1);
    MagnitudeDescriptionRank(m2);
    MagnitudeLabelsDistinct();
  }

  /** One line of the "Did You Know?" list. `StrayZero` is the `0` that React
      prints when the distance is zero: `0 && ...` evaluates to the number. */
  datatype Fact = LightTravel(years: real) | StrayZero | Brightest | SunLike | RedDwarf | MassiveHot

  /** `{star.distance && ...}`: nothing when the distance is absent, a stray
      zero when it is zero, the light-travel line otherwise. */
  function DistanceFacts(distance: Option<real>): (r: seq<Fact>)
    ensures |r| <= 1
    ensures StrayZero in r <==> distance == Some(0.0)
    ensures forall y :: LightTravel(y) in r <==> distance == Some(y) && y != 0.0
    ensures Brightest !in r && SunLike !in r && RedDwarf !in r && MassiveHot !in r
  {
    match distance
    case None => []
    case Some(d) => if d == 0.0 then [StrayZero] else [LightTravel(d)]
  }

  /** `{a || b && line}` parses as `a || (b && line)`: when `a` holds the
      expression is `true`, which React renders as nothing. */
  function OrAndLine(a: bool, b: bool, line: Fact): (r: seq<Fact>)
    ensures r == (if !a && b then [line] else [])
  {
    if a then [] else if b then [line] else []
  }

  /** The three spectral-class lines, as written. */
  function ClassFacts(spectralClass: string): (r: seq<Fact>)
    ensures SunLike in r <==> StartsWith(spectralClass, "G")
    ensures RedDwarf in r <==> StartsWith(spectralClass, "M")
    ensures MassiveHot in r <==> StartsWith(spectralClass, "B")
    ensures forall f :: f in r ==> f == SunLike || f == RedDwarf || f == MassiveHot
  {
    assert StartsWith(spectralClass, "O") ==> spectralClass[0] == 'O' && !StartsWith(spectralClass, "B");
    (if StartsWith(spectralClass, "G") then [SunLike] else [])
      + (if StartsWith(spectralClass, "M") then [RedDwarf] else [])
      + OrAndLine(StartsWith(spectralClass, "O"), StartsWith(spectralClass, "B"), MassiveHot)
  }

  /** The facts list as written, in display order; `None` when there is no star
      (the panel renders nothing). */
  function Facts(star: Option<Star>): (r: Option<seq<Fact>>)
    ensures r.None? <==> star.None?
    ensures r.Some? ==> (StrayZero in r.value <==> star.value.distance == Some(0.0))
    ensures r.Some? ==> forall y :: LightTravel(y) in r.value <==> star.value.distance == Some(y) && y != 0.0
    ensures r.Some? ==> (Brightest in r.value <==> star.value.magnitude < 0.0)
    ensures r.Some? ==> (SunLike in r.value <==> StartsWith(star.value.spectralClass, "G"))
    ensures r.Some? ==> (RedDwarf in r.value <==> StartsWith(star.value.spectralClass, "M"))
    ensures r.Some? ==> (MassiveHot in r.value <==> StartsWith(star.value.spectralClass, "B"))
  {
    match star
    case None => None
    case Some(s) =>
      var d := DistanceFacts(s.distance);
      var b := if s.magnitude < 0.0 then [Brightest] else [];
      var c := ClassFacts(s.spectralClass);
      assert forall f :: f in d + b + c <==> f in d || f in b || f in c;
      Some(d + b + c)
  }

  /** At most one of the three class facts appears: they test different first
      letters. */
  lemma AtMostOneClassFact(star: Star)
    ensures var f := Facts(Some(star)).value;
      (SunLike in f ==> RedDwarf !in f && MassiveHot !in f) && (RedDwarf in f ==> MassiveHot !in f)
  {
  }

  /** The class facts test the letter case-sensitively while the description
      upper-cases it: a "g2v" star is described as Sun-like, but gets no
      Sun-like fact. */
  lemma LowerCaseClassGetsNoFact()
    ensures SpectralClassDescription("g2v") == "Yellow star (like our Sun)"
    ensures SunLike !in Facts(Some(SampleStar("g2v"))).value
  {
    assert !StartsWith("g2v", "G");
  }

  /** A star with the given spectral class and otherwise neutral fields. */
  function SampleStar(spectralClass: string): (s: Star)
    ensures s.spectralClass == spectralClass && s.distance.None? && s.magnitude == 1.0
  {
    Star("s", "s", None, "Ori", 0.0, 0.0, 1.0, spectralClass, None, None, White, 0.0, 0.0, true, 0.0, 0.0)
  }

  /** As written, an O-type star, described as "Very hot blue star", gets no
      "massive, hot star" line: the `||` short-circuits to `true`. */
  lemma OClassGetsNoMassiveFact()
    ensures SpectralClassDescription("O9") == "Very hot blue star"
    ensures MassiveHot !in Facts(Some(SampleStar("O9"))).value
  {
    assert !StartsWith("O9", "B");
  }

  /** The evidently intended class lines: the massive-star line for classes
      starting with either "O" or "B". */
  function ClassFactsIntended(spectralClass: string): (r: seq<Fact>)
    ensures MassiveHot in r <==> StartsWith(spectralClass, "O") || StartsWith(spectralClass, "B")
  {
    (if StartsWith(spectralClass, "G") then [SunLike] else [])
      + (if StartsWith(spectralClass, "M") then [RedDwarf] else [])
      + (if StartsWith(spectralClass, "O") || StartsWith(spectralClass, "B") then [MassiveHot] else [])
  }

  /** The evidently intended facts list. */
  function FactsIntended(star: Option<Star>): (r: Option<seq<Fact>>)
    ensures r.None? <==> star.None?
  {
    match star
    case None => None
    case Some(s) =>
      Some(DistanceFacts(s.distance)
        + (if s.magnitude < 0.0 then [Brightest] else [])
        + ClassFactsIntended(s.spectralClass))
  }

  /** With the intended grouping, exactly the O and B classes get the
      massive-star line, and the facts differ from the written ones only for
      O classes. */
  lemma IntendedMassiveHotIff(star: Star)
    ensures MassiveHot in FactsIntended(Some(star)).value <==>
      StartsWith(star.spectralClass, "O") || StartsWith(star.spectralClass, "B")
    ensures !StartsWith(star.spectralClass, "O") ==> FactsIntended(Some(star)) == Facts(Some(star))
  {
    var f := FactsIntended(Some(star)).value;
    var c := ClassFactsIntended(star.spectralClass);
    assert f == DistanceFacts(star.distance) + (if star.magnitude < 0.0 then [Brightest] else []) + c;
    assert MassiveHot in f <==> MassiveHot in c;
  }
}
