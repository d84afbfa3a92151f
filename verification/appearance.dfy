/** How a star looks: its colour from the spectral class and its radius from
    the magnitude (`getStarColor` and `getStarSize` in
    src/utils/astronomyCalculations.ts). */
module Appearance {
  import opened JsMath
  import opened Text

  /** The fallback colour for an unknown or empty spectral class. */
  const White: string := "#ffffff"

  /** The colour of each Harvard spectral letter, hottest to coolest. */
  const SpectralColors: map<char, string> := map[
    'O' := "#9bb0ff",
    'B' := "#aabfff",
    'A' := "#cad7ff",
    'F' := "#f8f7ff",
    'G' := "#fff4ea",
    'K' := "#ffcc6f",
    'M' := "#ffaa77"]

  /** `getStarColor`: the colour of the upper-cased first letter of the class. */
  function StarColor(spectralClass: string): (color: string)
    ensures |spectralClass| > 0 && UpperChar(spectralClass[0]) in SpectralColors ==>
      color == SpectralColors[UpperChar(spectralClass[0])]
    ensures (|spectralClass| == 0 || UpperChar(spectralClass[0]) !in SpectralColors) ==> color == White
  {
    match FirstCharUpper(spectralClass)
    case "O" => "#9bb0ff"
    case "B" => "#aabfff"
    case "A" => "#cad7ff"
    case "F" => "#f8f7ff"
    case "G" => "#fff4ea"
    case "K" => "#ffcc6f"
    case "M" => "#ffaa77"
    case _ => White
  }

  /** A star is drawn white exactly when its class does not start with one of
      the seven spectral letters, in either case. */
  lemma StarColorWhiteIff(spectralClass: string)
    ensures StarColor(spectralClass) == White <==>
      (|spectralClass| == 0 || UpperChar(spectralClass[0]) !in SpectralColors)
  {
  }

  /** Only the first letter matters, and not its case. */
  lemma StarColorFirstLetterOnly(spectralClass: string)
    requires |spectralClass| > 0
    ensures StarColor(spectralClass) == StarColor([spectralClass[0]])
    ensures StarColor(Lower(spectralClass)) == StarColor(spectralClass)
  {
  }

  /** Different spectral letters get different colours. */
  lemma StarColorDistinguishesLetters(a: char, b: char)
    requires a in SpectralColors && b in SpectralColors && a != b
    ensures StarColor([a]) != StarColor([b])
  {
  }

  /** The largest and smallest radius a star is drawn with. */
  const MaxStarSize: real := 12.0
  const MinStarSize: real := 1.0

  /** `getStarSize`: `min(max(1, 8 - 1.2 m), 12)`; brighter means larger. */
  function StarSize(magnitude: real): (size: real)
    ensures MinStarSize <= size <= MaxStarSize
    ensures size == MinStarSize <==> magnitude >= 35.0 / 6.0
    ensures size == MaxStarSize <==> magnitude <= -10.0 / 3.0
    ensures -10.0 / 3.0 <= magnitude <= 35.0 / 6.0 ==> size + 1.2 * magnitude == 8.0
  {
    Min(Max(1.0, 8.0 - magnitude * 1.2), 12.0)
  }

  /** Brighter stars are never drawn smaller. */
  lemma StarSizeAntitone(m1: real, m2: real)
    requires m1 <= m2
    ensures StarSize(m2) <= StarSize(m1)
  {
  }

  /** Sirius, at magnitude -1.46, is drawn with radius 9.752: the cap of 12
      only applies from magnitude -10/3 upwards in brightness. */
  lemma SiriusSize()
    ensures StarSize(-1.46) == 9.752
  {
  }
}
