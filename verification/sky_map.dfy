/** The pure logic of the sky canvas (src/components/SkyMap.tsx): how each
    star is drawn, `hexToRgba`, the mouse and touch handlers (drag offset, hover and
    touch hit-tests, click), the constellation segments and the offset
    indicator. Canvas calls themselves are not modelled; the model says what
    is drawn, with which sizes and alphas. */
module SkyMap {
  import opened Wrappers
  import opened Seqs
  import opened Text
  import opened JsMath
  import opened AstronomyTypes
  import opened Appearance

  /** Canvases narrower than this many pixels are treated as mobile. */
  const MobileWidth: real := 768.0

  /** `isMobile ? Math.max(baseSize * 1.5, 4) : baseSize`. */
  function DrawnSize(magnitude: real, canvasWidth: real): (size: real)
    ensures canvasWidth < MobileWidth ==> size >= 4.0 && size >= 1.5 * StarSize(magnitude)
    ensures canvasWidth >= MobileWidth ==> size == StarSize(magnitude)
    ensures size >= StarSize(magnitude) >= MinStarSize
  {
    if canvasWidth < MobileWidth then Max(StarSize(magnitude) * 1.5, 4.0) else StarSize(magnitude)
  }

  /** `Math.max(0.4, 1 - magnitude / 6)`: fades linearly to a floor of 0.4. */
  function Opacity(magnitude: real): (o: real)
    ensures o >= 0.4
    ensures magnitude <= 3.6 ==> o == 1.0 - magnitude / 6.0
    ensures magnitude >= 3.6 ==> o == 0.4
  {
    Max(0.4, 1.0 - magnitude / 6.0)
  }

  /** A brighter star is never drawn more transparently. */
  lemma OpacityAntitone(m1: real, m2: real)
    requires m1 <= m2
    ensures Opacity(m2) <= Opacity(m1)
  {
  }

  /** The highlight ring around the hovered star. */
  datatype Ring = Ring(radius: real, lineWidth: real)

  /** What the render effect draws for one star: the glow disc, the core disc
      with its global alpha, and the optional highlight ring. */
  datatype Glyph = Glyph(
    x: real,
    y: real,
    color: string,
    size: real,
    glowRadius: real,
    coreRadius: real,
    opacity: real,
    coreAlpha: real,
    ring: Option<Ring>)

  /** The drawing of one star; nothing for an invisible star. The ring is drawn
      when the hovered star has the same id. */
  function DrawStar(star: Star, canvasWidth: real, hovered: Option<Star>): (g: Option<Glyph>)
    ensures g.Some? <==> star.visible
    ensures g.Some? ==> g.value.x == star.x && g.value.y == star.y && g.value.color == star.color
    ensures g.Some? ==> g.value.size == DrawnSize(star.magnitude, canvasWidth)
    ensures g.Some? ==> g.value.coreRadius * 2.0 == g.value.size
    ensures g.Some? ==> g.value.glowRadius == g.value.size * (if canvasWidth < MobileWidth then 3.0 else 2.0)
    ensures g.Some? ==> g.value.opacity >= 0.4 && g.value.coreAlpha >= 0.6 && g.value.coreAlpha >= g.value.opacity
    ensures g.Some? ==> (g.value.ring.Some? <==> hovered.Some? && hovered.value.id == star.id)
    ensures g.Some? && g.value.ring.Some? ==> g.value.ring.value.radius > g.value.size
    ensures g.Some? ==> g.value.opacity == Opacity(star.magnitude)
    ensures g.Some? ==> g.value.coreAlpha == Max(g.value.opacity, 0.6)
    ensures g.Some? && g.value.ring.Some? ==>
      g.value.ring.value == (if canvasWidth < MobileWidth then Ring(g.value.size + 8.0, 3.0) else Ring(g.value.size + 5.0, 2.0))
  {
    if !star.visible then None
    else
      var mobile := canvasWidth < MobileWidth;
      var size := DrawnSize(star.magnitude, canvasWidth);
      var opacity := Opacity(star.magnitude);
      var ring :=
        if hovered.Some? && hovered.value.id == star.id
        then Some(Ring(size + (if mobile then 8.0 else 5.0), if mobile then 3.0 else 2.0))
        else None;
      Some(Glyph(star.x, star.y, star.color, size, size * (if mobile then 3.0 else 2.0), size / 2.0,
                 opacity, Max(opacity, 0.6), ring))
  }

  /** On a mobile canvas a star is never drawn smaller than on a wide one. */
  lemma MobileNeverSmaller(star: Star, narrow: real, wide: real)
    requires star.visible && narrow < MobileWidth <= wide
    ensures DrawStar(star, narrow, None).value.size >= DrawStar(star, wide, None).value.size
    ensures DrawStar(star, narrow, None).value.glowRadius > DrawStar(star, wide, None).value.glowRadius
  {
  }

  /** `DrawStar` as a callback. */
  function Drawer(canvasWidth: real, hovered: Option<Star>): Star -> Option<Glyph> {
    (s: Star) => DrawStar(s, canvasWidth, hovered)
  }

  /** The glyphs of one frame, in array order. */
  function Frame(stars: seq<Star>, canvasWidth: real, hovered: Option<Star>): (glyphs: seq<Glyph>)
    ensures |glyphs| <= |stars|
  {
    FilterMap(Drawer(canvasWidth, hovered), stars)
  }

  /** Every drawn glyph sits at a visible star's position. */
  lemma FrameDrawsOnlyVisible(stars: seq<Star>, canvasWidth: real, hovered: Option<Star>, g: Glyph)
    ensures g in Frame(stars, canvasWidth, hovered) <==>
      exists i :: 0 <= i < |stars| && stars[i].visible && DrawStar(stars[i], canvasWidth, hovered) == Some(g)
  {
    FilterMapMembership(Drawer(canvasWidth, hovered), stars, g);
  }

  // ---------------------------------------------------------------- hexToRgba

  /** The value of a hexadecimal digit in either case. */
  function HexDigitValue(c: char): (v: Option<nat>)
    ensures v.Some? ==> v.value < 16
  {
    if '0' <= c <= '9' then Some(c as int - '0' as int)
    else if 'a' <= c <= 'f' then Some(c as int - 'a' as int + 10)
    else if 'A' <= c <= 'F' then Some(c as int - 'A' as int + 10)
    else None
  }

  predicate IsHexDigit(c: char) {
    HexDigitValue(c).Some?
  }

  /** `s.slice(start, end)` for `0 <= start <= end`: indices past the end are cut. */
  function Slice(s: string, start: nat, end: nat): (r: string)
    requires start <= end
    ensures |r| <= end - start
    ensures end <= |s| ==> r == s[start..end]
  {
    var a := if start < |s| then start else |s|;
    var b := if end < |s| then end else |s|;
    s[a..b]
  }

  /** Accumulates the leading run of hex digits of `s` onto `acc`. */
  function HexRun(s: string, acc: nat): nat
    decreases |s|
  {
    if |s| > 0 && IsHexDigit(s[0]) then HexRun(s[1..], acc * 16 + HexDigitValue(s[0]).value) else acc
  }

  /** `parseInt(s, 16)`: leading whitespace, a sign and a `0x` prefix are
      skipped, then the longest run of hex digits is read; `None` (NaN) when
      that run is empty. */
  function ParseIntHex(s: string): Option<int> {
    var t := TrimStart(s);
    var negative := |t| > 0 && t[0] == '-';
    var u := if |t| > 0 && (t[0] == '-' || t[0] == '+') then t[1..] else t;
    var v := if |u| >= 2 && u[0] == '0' && (u[1] == 'x' || u[1] == 'X') then u[2..] else u;
    if |v| > 0 && IsHexDigit(v[0]) then
      var n: int := HexRun(v, 0);
      Some(if negative then -n else n)
    else None
  }

  /** Two hex digits parse to their two-digit value. */
  lemma HexPairValue(a: char, b: char)
    requires IsHexDigit(a) && IsHexDigit(b)
    ensures ParseIntHex([a, b]) == Some(16 * HexDigitValue(a).value + HexDigitValue(b).value)
    ensures 0 <= 16 * HexDigitValue(a).value + HexDigitValue(b).value <= 255
  {
    var s := [a, b];
    var va, vb := HexDigitValue(a).value, HexDigitValue(b).value;
    assert !IsSpace(a);
    assert TrimStart(s) == s;
    assert a != '-' && a != '+' && b != 'x' && b != 'X';
    assert s[1..] == [b] && [b][1..] == [];
    assert HexRun([b], va) == HexRun([], va * 16 + vb) == va * 16 + vb;
    assert HexRun(s, 0) == HexRun([b], va);
  }

  /** The colour components as `hexToRgba` interpolates them; `None` is `NaN`. */
  datatype Rgba = Rgba(r: Option<int>, g: Option<int>, b: Option<int>, alpha: real)

  /** `hexToRgba(hex, alpha)`: the three two-character slices after the
      leading `#`, each read by `parseInt(..., 16)`. */
  function HexToRgba(hex: string, alpha: real): (c: Rgba)
    ensures c.alpha == alpha
    ensures WellFormedHex(hex) ==>
      && c.r == Some(PairValue(hex, 1) as int) && c.g == Some(PairValue(hex, 3) as int)
      && c.b == Some(PairValue(hex, 5) as int)
      && 0 <= c.r.value <= 255 && 0 <= c.g.value <= 255 && 0 <= c.b.value <= 255
  {
    if WellFormedHex(hex) then SlicesParse(hex); Rgba(ParseIntHex(Slice(hex, 1, 3)), ParseIntHex(Slice(hex, 3, 5)), ParseIntHex(Slice(hex, 5, 7)), alpha)
    else Rgba(ParseIntHex(Slice(hex, 1, 3)), ParseIntHex(Slice(hex, 3, 5)), ParseIntHex(Slice(hex, 5, 7)), alpha)
  }

  /** The two-character slice at `k` of a string with hex digits there is
      their two-digit value. */
  lemma PairAt(hex: string, k: nat)
    requires k + 2 <= |hex| && IsHexDigit(hex[k]) && IsHexDigit(hex[k + 1])
    ensures ParseIntHex(Slice(hex, k, k + 2)) == Some(PairValue(hex, k) as int)
  {
    assert Slice(hex, k, k + 2) == [hex[k], hex[k + 1]];
    HexPairValue(hex[k], hex[k + 1]);
  }

  /** `#rrggbb`, or any string with six hex digits after its first character. */
  predicate WellFormedHex(hex: string) {
    |hex| >= 7 && forall i :: 1 <= i < 7 ==> IsHexDigit(hex[i])
  }

  /** The value of the digit pair at `k`. */
  function PairValue(hex: string, k: nat): (v: nat)
    requires k + 2 <= |hex| && IsHexDigit(hex[k]) && IsHexDigit(hex[k + 1])
    ensures v <= 255
  {
    16 * HexDigitValue(hex[k]).value + HexDigitValue(hex[k + 1]).value
  }

  /** The three slices of a well-formed colour are its three digit pairs. */
  lemma SlicesParse(hex: string)
    requires WellFormedHex(hex)
    ensures IsHexDigit(hex[1]) && IsHexDigit(hex[2]) && IsHexDigit(hex[3])
    ensures IsHexDigit(hex[4]) && IsHexDigit(hex[5]) && IsHexDigit(hex[6])
    ensures ParseIntHex(Slice(hex, 1, 3)) == Some(PairValue(hex, 1) as int)
    ensures ParseIntHex(Slice(hex, 3, 5)) == Some(PairValue(hex, 3) as int)
    ensures ParseIntHex(Slice(hex, 5, 7)) == Some(PairValue(hex, 5) as int)
  {
    assert IsHexDigit(hex[1]) && IsHexDigit(hex[2]) && IsHexDigit(hex[3]);
    assert IsHexDigit(hex[4]) && IsHexDigit(hex[5]) && IsHexDigit(hex[6]);
    PairAt(hex, 1);
    PairAt(hex, 3);
    PairAt(hex, 5);
  }

  /** The lower-case hexadecimal digit of `v`. */
  function HexDigit(v: nat): (c: char)
    requires v < 16
    ensures IsHexDigit(c) && HexDigitValue(c) == Some(v)
  {
    if v < 10 then ('0' as int + v) as char else ('a' as int + v - 10) as char
  }

  /** Reference encoder: `#rrggbb` in lower-case hexadecimal. */
  function RgbToHex(r: nat, g: nat, b: nat): (hex: string)
    requires r < 256 && g < 256 && b < 256
    ensures |hex| == 7 && hex[0] == '#'
  {
    "#" + [HexDigit(r / 16), HexDigit(r % 16), HexDigit(g / 16), HexDigit(g % 16), HexDigit(b / 16), HexDigit(b % 16)]
  }

  /** `hexToRgba` inverts the `#rrggbb` encoding. */
  lemma HexRoundTrip(r: nat, g: nat, b: nat, alpha: real)
    requires r < 256 && g < 256 && b < 256
    ensures HexToRgba(RgbToHex(r, g, b), alpha) == Rgba(Some(r), Some(g), Some(b), alpha)
  {
    var hex := RgbToHex(r, g, b);
    assert hex[1] == HexDigit(r / 16) && hex[2] == HexDigit(r % 16);
    assert hex[3] == HexDigit(g / 16) && hex[4] == HexDigit(g % 16);
    assert hex[5] == HexDigit(b / 16) && hex[6] == HexDigit(b % 16);
    assert WellFormedHex(hex);
    PairOfByte(hex, 1, r);
    PairOfByte(hex, 3, g);
    PairOfByte(hex, 5, b);
  }

  /** The pair of digits `RgbToHex` writes for `v` reads back as `v`. */
  lemma PairOfByte(hex: string, k: nat, v: nat)
    requires v < 256 && k + 2 <= |hex|
    requires hex[k] == HexDigit(v / 16) && hex[k + 1] == HexDigit(v % 16)
    ensures PairValue(hex, k) == v
  {
  }

  /** The eight colours `getStarColor` can return. */
  const StarColors: seq<string> :=
    ["#9bb0ff", "#aabfff", "#cad7ff", "#f8f7ff", "#fff4ea", "#ffcc6f", "#ffaa77", "#ffffff"]

  /** Each of them is a well-formed `#rrggbb` colour. */
  lemma StarColorsWellFormed()
    ensures forall k :: 0 <= k < |StarColors| ==> WellFormedHex(StarColors[k])
  {
    forall k | 0 <= k < |StarColors|
      ensures WellFormedHex(StarColors[k])
    {
      var c := StarColors[k];
      assert IsHexDigit(c[1]) && IsHexDigit(c[2]) && IsHexDigit(c[3]);
      assert IsHexDigit(c[4]) && IsHexDigit(c[5]) && IsHexDigit(c[6]);
    }
  }

  /** Every colour `getStarColor` can return decodes to three channels. */
  lemma StarColorsDecode(spectralClass: string, alpha: real)
    ensures var c := HexToRgba(StarColor(spectralClass), alpha);
      c.r.Some? && c.g.Some? && c.b.Some?
  {
    var color := StarColor(spectralClass);
    assert color in StarColors;
    StarColorsWellFormed();
  }

  // ---------------------------------------------------------------- mouse and touch

  datatype Point = Point(x: real, y: real)

  /** The drag rotation of the view, in degrees. */
  datatype SkyOffset = SkyOffset(azimuth: real, altitude: real)

  /** One drag step: the azimuth follows the horizontal motion without bound,
      the altitude follows the vertical motion (inverted) clamped to [-90, 90]. */
  function Drag(prev: SkyOffset, deltaX: real, deltaY: real): (next: SkyOffset)
    ensures next.azimuth == prev.azimuth + deltaX * 0.2
    ensures -90.0 <= next.altitude <= 90.0
    ensures -90.0 <= prev.altitude - deltaY * 0.2 <= 90.0 ==> next.altitude == prev.altitude - deltaY * 0.2
  {
    SkyOffset(prev.azimuth + deltaX * 0.2, Clamp(-90.0, 90.0, prev.altitude - deltaY * 0.2))
  }

  /** `s.visible` and within `radius(s)` of `(x, y)`; the distance test
      compares squares, which is the same as comparing `Math.sqrt` of the
      squared distance against a non-negative radius. */
  function Hit(p: Point, radius: Star -> real): Star -> bool {
    (s: Star) => s.visible && SquaredDistance(s, p) <= radius(s) * radius(s)
  }

  function SquaredDistance(s: Star, p: Point): (d: real)
    ensures d >= 0.0
  {
    (s.x - p.x) * (s.x - p.x) + (s.y - p.y) * (s.y - p.y)
  }

  /** For a non-negative distance and radius, comparing squares is comparing
      the values themselves. */
  lemma SquaresCompare(d: real, r: real)
    requires d >= 0.0 && r >= 0.0
    ensures d * d <= r * r <==> d <= r
  {
    if d > r {
      var x := d - r;
      assert d * d == (r + x) * (r + x) == r * r + 2.0 * r * x + x * x;
      assert x * x > 0.0;
      assert r * x >= 0.0;
    } else {
      var x := r - d;
      assert r * r == (d + x) * (d + x) == d * d + 2.0 * d * x + x * x;
      assert x * x >= 0.0;
      assert d * x >= 0.0;
    }
  }

  /** The hit test agrees with the source's `Math.sqrt` distance test. */
  lemma HitIffWithinRadius(s: Star, p: Point, radius: Star -> real, distance: real)
    requires distance >= 0.0 && distance * distance == SquaredDistance(s, p)
    requires radius(s) >= 0.0
    ensures Hit(p, radius)(s) <==> s.visible && distance <= radius(s)
  {
    SquaresCompare(distance, radius(s));
  }

  /** `stars.find(...)`: the first star, in array order, that the test accepts. */
  function FirstHit(stars: seq<Star>, p: Point, radius: Star -> real): (r: Option<Star>)
    ensures r.Some? ==> r.value.visible
    ensures r.Some? ==> exists i :: (0 <= i < |stars| && stars[i] == r.value && Hit(p, radius)(stars[i])
      && forall j :: 0 <= j < i ==> !Hit(p, radius)(stars[j]))
    ensures r.None? <==> forall j :: 0 <= j < |stars| ==> !Hit(p, radius)(stars[j])
  {
    match FindIndex(Hit(p, radius), stars)
    case Some(i) => Some(stars[i])
    case None => None
  }

  /** The hover radius: the star's drawn base size plus 5 pixels. */
  function HoverRadius(): Star -> real {
    (s: Star) => StarSize(s.magnitude) + 5.0
  }

  /** The touch radius: 20 pixels on a narrow window, 15 otherwise. */
  function TouchRadius(innerWidth: real): Star -> real {
    (s: Star) => if innerWidth < MobileWidth then 20.0 else 15.0
  }

  /** The component's mouse and drag state. */
  datatype InputState = InputState(
    dragging: bool,
    dragStart: Point,
    offset: SkyOffset,
    hovered: Option<Star>,
    mouse: Point)

  const InitialInput: InputState :=
    InputState(false, Point(0.0, 0.0), SkyOffset(0.0, 0.0), None, Point(0.0, 0.0))

  /** `handleMouseDown`. */
  function MouseDown(s: InputState, client: Point): (t: InputState)
    ensures t.dragging && t.dragStart == client
    ensures t.offset == s.offset && t.hovered == s.hovered && t.mouse == s.mouse
  {
    s.(dragging := true, dragStart := client)
  }

  /** `handleMouseMove` with the canvas at `origin`: records the cursor; while
      dragging rotates the view by the motion since the last event; otherwise
      hit-tests the hovered star. */
  function MouseMove(s: InputState, stars: seq<Star>, client: Point, origin: Point): (t: InputState)
    ensures t.mouse == Point(client.x - origin.x, client.y - origin.y)
    ensures t.dragging == s.dragging
    ensures s.dragging ==> (t.dragStart == client && t.hovered == s.hovered
      && t.offset == Drag(s.offset, client.x - s.dragStart.x, client.y - s.dragStart.y))
    ensures !s.dragging ==> (t.dragStart == s.dragStart && t.offset == s.offset
      && t.hovered == FirstHit(stars, t.mouse, HoverRadius()))
  {
    var mouse := Point(client.x - origin.x, client.y - origin.y);
    if s.dragging then
      s.(mouse := mouse, dragStart := client,
         offset := Drag(s.offset, client.x - s.dragStart.x, client.y - s.dragStart.y))
    else
      s.(mouse := mouse, hovered := FirstHit(stars, mouse, HoverRadius()))
  }

  /** `handleMouseUp`. */
  function MouseUp(s: InputState): (t: InputState)
    ensures !t.dragging && t.hovered == s.hovered && t.offset == s.offset
  {
    s.(dragging := false)
  }

  /** `handleClick`: the star passed to `onStarClick`, if any. */
  function Click(s: InputState): (clicked: Option<Star>)
    ensures clicked.Some? <==> !s.dragging && s.hovered.Some?
    ensures clicked.Some? ==> clicked == s.hovered
  {
    if !s.dragging && s.hovered.Some? then s.hovered else None
  }

  /** `handleTouch`: a touched star becomes the hovered star and is clicked;
      a touch that hits nothing changes nothing. */
  function Touch(s: InputState, stars: seq<Star>, client: Point, origin: Point, innerWidth: real)
    : (result: (InputState, Option<Star>))
    ensures result.1 == FirstHit(stars, Point(client.x - origin.x, client.y - origin.y), TouchRadius(innerWidth))
    ensures result.1.Some? ==> result.0 == s.(hovered := result.1)
    ensures result.1.None? ==> result.0 == s
  {
    var touched := FirstHit(stars, Point(client.x - origin.x, client.y - origin.y), TouchRadius(innerWidth));
    if touched.Some? then (s.(hovered := touched), touched) else (s, None)
  }

  /** Because every move re-anchors the drag start, the azimuth rotation of a
      drag depends only on where it started and where it is now. */
  lemma {:induction false} DragTelescopes(s: InputState, stars: seq<Star>, origin: Point, p1: Point, p2: Point)
    requires s.dragging
    ensures var t := MouseMove(MouseMove(s, stars, p1, origin), stars, p2, origin);
      t.offset.azimuth == s.offset.azimuth + (p2.x - s.dragStart.x) * 0.2
      && -90.0 <= t.offset.altitude <= 90.0
      && t.dragStart == p2
  {
    var t1 := MouseMove(s, stars, p1, origin);
    assert t1.offset.azimuth == s.offset.azimuth + (p1.x - s.dragStart.x) * 0.2;
    assert t1.dragging && t1.dragStart == p1;
  }

  /** A click right after a drag ends selects the star hovered before the drag. */
  lemma ClickAfterDragKeepsHover(s: InputState, stars: seq<Star>, origin: Point, p: Point)
    requires s.dragging
    ensures Click(MouseUp(MouseMove(s, stars, p, origin))) == Click(s.(dragging := false))
  {
  }

  // ---------------------------------------------------------------- constellations

  /** The simplified stick figures: the Big Dipper and Orion. */
  const ConstellationLines: seq<(string, string)> := [
    ("Dubhe", "Merak"),
    ("Merak", "Phecda"),
    ("Phecda", "Megrez"),
    ("Megrez", "Alioth"),
    ("Alioth", "Mizar"),
    ("Mizar", "Alkaid"),
    ("Betelgeuse", "Bellatrix"),
    ("Bellatrix", "Mintaka"),
    ("Mintaka", "Alnilam"),
    ("Alnilam", "Alnitak"),
    ("Betelgeuse", "Rigel")]

  /** `s.name === name && s.visible`. */
  function NamedVisible(name: string): Star -> bool {
    (s: Star) => s.name == name && s.visible
  }

  /** The segment between the two named stars, when both are found among the
      visible stars. */
  function Segment(stars: seq<Star>, pair: (string, string)): (seg: Option<(Star, Star)>)
    ensures seg.Some? <==>
      (exists i :: 0 <= i < |stars| && NamedVisible(pair.0)(stars[i]))
      && (exists j :: 0 <= j < |stars| && NamedVisible(pair.1)(stars[j]))
    ensures seg.Some? ==> seg.value.0 in stars && seg.value.0.visible && seg.value.0.name == pair.0
    ensures seg.Some? ==> seg.value.1 in stars && seg.value.1.visible && seg.value.1.name == pair.1
    ensures seg.Some? ==> IsFirstMatch(NamedVisible(pair.0), stars, seg.value.0)
                          && IsFirstMatch(NamedVisible(pair.1), stars, seg.value.1)
  {
    var a := Find(NamedVisible(pair.0), stars);
    var b := Find(NamedVisible(pair.1), stars);
    if a.Some? && b.Some? then Some((a.value, b.value)) else None
  }

  /** `Segment` as a callback. */
  function Segmenter(stars: seq<Star>): ((string, string)) -> Option<(Star, Star)> {
    (pair: (string, string)) => Segment(stars, pair)
  }

  /** The segments `drawConstellationLines` strokes, in table order. */
  function ConstellationSegments(stars: seq<Star>): (segs: seq<(Star, Star)>)
    ensures |segs| <= |ConstellationLines|
  {
    FilterMap(Segmenter(stars), ConstellationLines)
  }

  /** Every stroked segment joins two visible stars of the frame that one line
      of the table names. */
  lemma SegmentsJoinVisibleStars(stars: seq<Star>)
    ensures forall k :: 0 <= k < |ConstellationSegments(stars)| ==>
      var seg := ConstellationSegments(stars)[k];
      seg.0 in stars && seg.1 in stars && seg.0.visible && seg.1.visible
      && (seg.0.name, seg.1.name) in ConstellationLines
  {
    FilterMapAll(Segmenter(stars), ConstellationLines,
      (seg: (Star, Star)) => seg.0 in stars && seg.1 in stars && seg.0.visible && seg.1.visible
        && (seg.0.name, seg.1.name) in ConstellationLines);
  }

  // ---------------------------------------------------------------- offset indicator

  /** What the star-count box shows about the drag offset. */
  datatype Indicator = Indicator(readout: bool, dragHint: bool)

  /** As written: `azimuth !== 0 || altitude !== 0 && <readout>` is `true`
      (rendered as nothing) whenever the azimuth is non-zero, and the hint
      shows when both offsets are zero. */
  function OffsetIndicator(offset: SkyOffset): (ind: Indicator)
    ensures ind.readout <==> offset.azimuth == 0.0 && offset.altitude != 0.0
    ensures ind.dragHint <==> offset.azimuth == 0.0 && offset.altitude == 0.0
  {
    Indicator(if offset.azimuth != 0.0 then false else offset.altitude != 0.0,
              offset.azimuth == 0.0 && offset.altitude == 0.0)
  }

  /** A drag with no vertical motion moves only the azimuth offset. */
  lemma DragHorizontal(prev: SkyOffset, dx: real)
    requires -90.0 <= prev.altitude <= 90.0
    ensures Drag(prev, dx, 0.0) == SkyOffset(prev.azimuth + dx * 0.2, prev.altitude)
  {
  }

  /** A purely horizontal drag leaves the box with neither the readout nor
      the hint. */
  lemma HorizontalDragHidesReadout()
    ensures Drag(SkyOffset(0.0, 0.0), 10.0, 0.0) == SkyOffset(2.0, 0.0)
    ensures OffsetIndicator(SkyOffset(2.0, 0.0)) == Indicator(false, false)
  {
    DragHorizontal(SkyOffset(0.0, 0.0), 10.0);
  }

  /** The evidently intended indicator: the readout whenever either offset
      is non-zero. */
  function OffsetIndicatorIntended(offset: SkyOffset): Indicator {
    var moved := offset.azimuth != 0.0 || offset.altitude != 0.0;
    Indicator(moved, !moved)
  }

  /** With the intended grouping exactly one of readout and hint shows, and
      the readout shows after any drag that moved the view. */
  lemma IntendedIndicatorExclusive(offset: SkyOffset)
    ensures OffsetIndicatorIntended(offset).readout != OffsetIndicatorIntended(offset).dragHint
    ensures OffsetIndicatorIntended(offset).readout <==> offset != SkyOffset(0.0, 0.0)
  {
  }
}
