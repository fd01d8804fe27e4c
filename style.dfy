/** Styling of earthquake markers: the magnitude-to-colour step function,
    the magnitude-to-radius scaling and the circle style built for each
    earthquake feature. Magnitudes are exact reals. */
module Style {

  /** The seven fill colours, from the coolest (lowest magnitudes) to the
      warmest (magnitude 7 and above). The index of a colour here is its
      warmth rank. */
  const Palette: seq<string> :=
    ["#41ab5d", "#ffff33", "#fd8d3c", "#fc4e2a", "#e31a1c", "#bd0026", "#800026"]

  /** The breakpoints that separate consecutive colour buckets, ascending:
      bucket k covers Thresholds[k-1] <= m < Thresholds[k]. */
  const Thresholds: seq<real> := [2.0, 3.0, 4.0, 5.0, 6.0, 7.0]

  /** Scale factor from magnitude to circle radius (metres on the map). */
  const RadiusScale: real := 25000.0

  /** Number of breakpoints in `ts` that lie at or below `m`. */
  function CountAtMost(ts: seq<real>, m: real): (n: nat)
    ensures n <= |ts|
  {
    if ts == [] then 0
    else (if ts[0] <= m then 1 else 0) + CountAtMost(ts[1..], m)
  }

  /** Reference definition of the bucket of a magnitude: how many
      breakpoints it has reached. */
  function Rank(m: real): (k: nat)
    ensures k < |Palette|
  {
    CountAtMost(Thresholds, m)
  }

  /** The colour of an earthquake of magnitude `m`: a descending chain of
      threshold comparisons; everything below 2, negatives included, is
      green. */
  function GetColor(m: real): (c: string)
    ensures c in Palette
  {
    if m >= 7.0 then "#800026"
    else if m >= 6.0 then "#bd0026"
    else if m >= 5.0 then "#e31a1c"
    else if m >= 4.0 then "#fc4e2a"
    else if m >= 3.0 then "#fd8d3c"
    else if m >= 2.0 then "#ffff33"
    else "#41ab5d"
  }

  /** The comparison chain agrees with the reference definition: the colour
      of `m` is the palette entry at its rank. */
  lemma ColorIsRank(m: real)
    ensures GetColor(m) == Palette[Rank(m)]
  {
    var ts := Thresholds;
    assert ts[6..] == [];
    assert ts[5..][1..] == ts[6..];
    assert ts[4..][1..] == ts[5..];
    assert ts[3..][1..] == ts[4..];
    assert ts[2..][1..] == ts[3..];
    assert ts[1..][1..] == ts[2..];
    var c5 := CountAtMost(ts[5..], m);
    var c4 := CountAtMost(ts[4..], m);
    var c3 := CountAtMost(ts[3..], m);
    var c2 := CountAtMost(ts[2..], m);
    var c1 := CountAtMost(ts[1..], m);
    assert c5 == if m >= 7.0 then 1 else 0;
    assert c4 == (if m >= 6.0 then 1 else 0) + c5;
    assert c3 == (if m >= 5.0 then 1 else 0) + c4;
    assert c2 == (if m >= 4.0 then 1 else 0) + c3;
    assert c1 == (if m >= 3.0 then 1 else 0) + c2;
    assert Rank(m) == (if m >= 2.0 then 1 else 0) + c1;
  }

  /** No two buckets share a colour, so a colour determines its bucket. */
  lemma PaletteDistinct(i: nat, j: nat)
    requires i < |Palette| && j < |Palette|
    requires Palette[i] == Palette[j]
    ensures i == j
  {
  }

  /** Moving a magnitude up never lowers the number of breakpoints reached. */
  lemma {:induction false} CountAtMostMonotone(ts: seq<real>, a: real, b: real)
    requires a <= b
    ensures CountAtMost(ts, a) <= CountAtMost(ts, b)
  {
    if ts != [] {
      CountAtMostMonotone(ts[1..], a, b);
    }
  }

  /** A larger magnitude never maps to a cooler colour. */
  lemma ColorMonotone(a: real, b: real, i: nat, j: nat)
    requires a <= b
    requires i < |Palette| && Palette[i] == GetColor(a)
    requires j < |Palette| && Palette[j] == GetColor(b)
    ensures i <= j
  {
    ColorIsRank(a);
    ColorIsRank(b);
    PaletteDistinct(i, Rank(a));
    PaletteDistinct(j, Rank(b));
    CountAtMostMonotone(Thresholds, a, b);
  }

  /** Each bucket is a half-open interval: colour k is given exactly to the
      magnitudes from breakpoint k-1 (inclusive; no lower bound for the
      first bucket) up to breakpoint k (exclusive; no upper bound for the
      last bucket). */
  lemma ColorBucket(m: real, k: nat)
    requires k < |Palette|
    ensures GetColor(m) == Palette[k] <==>
              (k == 0 || Thresholds[k - 1] <= m) &&
              (k == |Palette| - 1 || m < Thresholds[k])
  {
    ColorIsRank(m);
    if GetColor(m) == Palette[k] {
      PaletteDistinct(k, Rank(m));
    }
  }

  /** Literal cases of the colour function. */
  lemma ColorExamples()
    ensures GetColor(7.0) == "#800026"
    ensures GetColor(6.5) == "#bd0026"
    ensures GetColor(5.2) == "#e31a1c"
    ensures GetColor(1.0) == "#41ab5d"
    ensures GetColor(-5.0) == "#41ab5d"
  {
  }

  /** The radius of the circle drawn for magnitude `m`, scaled so that it
      is visible on a world map; it is not clamped. */
  function GetRadius(m: real): (r: real)
    ensures r / RadiusScale == m
    ensures m <= 0.0 <==> r <= 0.0
  {
    m * RadiusScale
  }

  /** The radius is strictly increasing in the magnitude. */
  lemma RadiusStrictlyIncreasing(a: real, b: real)
    requires a < b
    ensures GetRadius(a) < GetRadius(b)
  {
  }

  /** Literal cases of the radius function. */
  lemma RadiusExamples()
    ensures GetRadius(0.0) == 0.0
    ensures GetRadius(4.0) == 100000.0
    ensures GetRadius(5.2) == 130000.0
    ensures GetRadius(-1.0) == -25000.0
  {
  }

  /** The style options handed to the map library for one earthquake
      circle. */
  datatype CircleStyle = CircleStyle(
    radius: real,
    fillColor: string,
    fillOpacity: real,
    stroke: bool,
    color: string,
    weight: real)

  /** A geographic position, latitude first as the map library takes it. */
  datatype LatLng = LatLng(lat: real, lng: real)

  /** A circle marker: where it is drawn and how. */
  datatype Circle = Circle(center: LatLng, style: CircleStyle)

  /** The style of the circle for an earthquake of magnitude `mag`. */
  function QuakeStyle(mag: real): (s: CircleStyle)
    ensures s.radius / RadiusScale == mag
    ensures s.fillColor in Palette
  {
    CircleStyle(
      radius := GetRadius(mag),
      fillColor := GetColor(mag),
      fillOpacity := 0.7,
      stroke := true,
      color := "black",
      weight := 0.5)
  }

  /** The circle marker for one earthquake feature, at the position the map
      library derived from the feature's coordinates. */
  function PointToLayer(mag: real, latlng: LatLng): (c: Circle)
    ensures c.center == latlng
    ensures c.style == QuakeStyle(mag)
    ensures c.style.radius / RadiusScale == mag
    ensures c.style.fillColor in Palette
  {
    Circle(latlng, QuakeStyle(mag))
  }

  /** The outline and opacity of the circles are the same for every
      earthquake; only the radius and the fill colour vary. */
  lemma QuakeStyleUniform(a: real, b: real)
    ensures QuakeStyle(a).fillOpacity == QuakeStyle(b).fillOpacity == 0.7
    ensures QuakeStyle(a).stroke && QuakeStyle(b).stroke
    ensures QuakeStyle(a).color == QuakeStyle(b).color == "black"
    ensures QuakeStyle(a).weight == QuakeStyle(b).weight == 0.5
  {
  }

  /** The radius and the fill colour come from the same magnitude: the
      colour can be recovered from the radius alone, and two earthquakes
      get the same style exactly when they have the same magnitude. */
  lemma QuakeStyleCoherent(a: real, b: real)
    ensures QuakeStyle(a).fillColor == GetColor(QuakeStyle(a).radius / RadiusScale)
    ensures QuakeStyle(a) == QuakeStyle(b) <==> a == b
  {
  }

  /** A larger earthquake gets a larger circle that is at least as warm. */
  lemma QuakeStyleOrdered(a: real, b: real, i: nat, j: nat)
    requires a < b
    requires i < |Palette| && Palette[i] == QuakeStyle(a).fillColor
    requires j < |Palette| && Palette[j] == QuakeStyle(b).fillColor
    ensures QuakeStyle(a).radius < QuakeStyle(b).radius
    ensures i <= j
  {
    ColorMonotone(a, b, i, j);
  }

  /** The magnitude 5.2 earthquake used as a worked example. */
  lemma QuakeStyleExample()
    ensures QuakeStyle(5.2).fillColor == "#e31a1c"
    ensures QuakeStyle(5.2).radius == 130000.0
  {
  }
}
