# Earthquake map styling and legend

A Dafny model of the deterministic part of a Leaflet web map that plots the
past week's earthquakes over tectonic plate boundaries. What the script
computes on its own, apart from the map library and the data feeds, is:

- the colour of an earthquake marker, a step function of the magnitude with
  seven buckets split at 2, 3, 4, 5, 6 and 7 (`Style.GetColor`);
- the radius of the marker, the magnitude times 25000 (`Style.GetRadius`);
- the circle style handed to the map library for each earthquake: that
  radius and colour plus fixed outline and opacity settings
  (`Style.QuakeStyle`, `Style.PointToLayer`);
- the legend: a container element whose `innerHTML` receives one row per
  breakpoint of `[0, 2, 3, 4, 5, 6]` in a loop; every row is a colour
  swatch and a bracket label such as `2&ndash;3<br>`, the last one `6+`
  (`Legend.Row`, `Legend.OnAdd`).

Magnitudes are exact `real`s. The colour function is proved equal to an
independent reference definition (the palette entry at the number of
breakpoints the magnitude has reached), and from that: every magnitude gets
one of the seven colours, each colour covers exactly one half-open interval,
and a larger magnitude never gets a cooler colour. The legend loop is a
method on a small class holding the container's `innerHTML` string; its loop
invariant says the markup after `i` steps is the concatenation of the first
`i` rows. The script's number-to-text conversion of the (integer) breakpoints
is modelled by `Decimal.IntToString` and proved to round-trip through a
parser.

Two details of the script that the model keeps: the legend separates the
bounds with the HTML entity `&ndash;`, spelled as such in the markup (on the
page it shows as an en dash); and the test for "is there a next breakpoint"
is the script's truthiness test on `categories[i + 1]` (`undefined` and `0`
are both falsy), which `Legend.TruthyIsIndexTest` proves equal to an index
test for this breakpoint list because 0 only comes first.

The legend's open-ended last row `6+` shows the colour of the 6–7 bucket, so
the colour of magnitudes 7 and above never appears in the legend
(`Legend.LegendSwatches`, `Legend.LegendFinalRowOmitsTop`).

Modules: `Style` (style.dfy), `Decimal` (decimal.dfy), `Legend`
(legend.dfy).

## Model

| member | source | states |
|---|---|---|
| `Style.GetColor` | static/js/logic.js:19-27 | every magnitude, negatives included, gets one of the seven fixed hex colours |
| `Style.ColorIsRank` | static/js/logic.js:20-26 | the threshold chain equals the reference definition: the palette entry indexed by how many of the breakpoints 2..7 the magnitude has reached |
| `Style.PaletteDistinct` | static/js/logic.js:20-26 | the seven colours are pairwise different, so a colour identifies its bucket |
| `Style.CountAtMostMonotone` | static/js/logic.js:20-26 | the number of breakpoints reached never decreases as the magnitude grows |
| `Style.ColorMonotone` | static/js/logic.js:20-26 | if a <= b, the warmth rank of the colour of a is at most that of b |
| `Style.ColorBucket` | static/js/logic.js:20-26 | colour k is returned exactly for magnitudes in its half-open interval: m >= 7, 6 <= m < 7, ..., 2 <= m < 3, and m < 2 (both directions) |
| `Style.ColorExamples` | static/js/logic.js:19-27 | 7 gives #800026, 6.5 gives #bd0026, 5.2 gives #e31a1c, 1 and -5 give #41ab5d |
| `Style.GetRadius` | static/js/logic.js:30-32 | dividing the radius by 25000 gives back the magnitude; the radius is non-positive exactly when the magnitude is (no clamping) |
| `Style.RadiusStrictlyIncreasing` | static/js/logic.js:30-32 | a larger magnitude gives a strictly larger radius |
| `Style.RadiusExamples` | static/js/logic.js:30-32 | radius of 0 is 0, of 4 is 100000, of 5.2 is 130000, of -1 is -25000 |
| `Style.QuakeStyle` | static/js/logic.js:47-55 | the style's radius recovers the magnitude and its fill colour is one of the seven colours |
| `Style.PointToLayer` | static/js/logic.js:47-55 | the circle is placed at the given position and styled from the feature's magnitude |
| `Style.QuakeStyleUniform` | static/js/logic.js:51-54 | fill opacity 0.7, stroke on, outline colour black and weight 0.5 are the same for every earthquake |
| `Style.QuakeStyleCoherent` | static/js/logic.js:49-50 | radius and fill colour come from the same magnitude: the colour is the colour of the radius divided by 25000, and two styles are equal exactly when the magnitudes are |
| `Style.QuakeStyleOrdered` | static/js/logic.js:49-50 | a larger earthquake gets a strictly larger circle and a colour at least as warm |
| `Style.QuakeStyleExample` | static/js/logic.js:49-50 | magnitude 5.2 gives fill #e31a1c and radius 130000 |
| `Decimal.NatToString` | static/js/logic.js:136 | the text of a natural number is a non-empty digit string with no leading zero unless it is 0, one character long exactly below 10 |
| `Decimal.NatToStringRoundTrip` | static/js/logic.js:136 | reading the digits of a natural number's text gives the number back |
| `Decimal.IntToString` | static/js/logic.js:136 | the text of an integer is non-empty and starts with a minus sign exactly when the integer is negative |
| `Decimal.IntToStringRoundTrip` | static/js/logic.js:136 | parsing an integer's text gives the integer back |
| `Legend.TruthyIsIndexTest` | static/js/logic.js:129-136 | for the breakpoints [0,2,3,4,5,6], `categories[i + 1]` is truthy exactly when index i + 1 exists |
| `Legend.RowFormat` | static/js/logic.js:134-136 | a non-final row is swatch of getColor(c_i), c_i, "&ndash;", c_(i+1), "<br>"; the final row is swatch of getColor(6) then "6+" |
| `Legend.InnerRowText` | static/js/logic.js:134-136 | non-final row i shows palette colour i and the single-digit texts of c_i and c_(i+1) |
| `Legend.FirstRowText` | static/js/logic.js:134-136 | the first row is the green swatch followed by `0&ndash;2<br>` |
| `Legend.LastRowText` | static/js/logic.js:134-136 | the last row is the #bd0026 swatch followed by `6+`, with no line break |
| `Legend.Truthy` | static/js/logic.js:136 | the truthiness of `categories[j]` (undefined past the end, 0 falsy) is the test that index j exists, for every j >= 1, whenever no entry after the first is 0 |
| `Legend.Swatch` | static/js/logic.js:135 | the swatch markup is 28 characters longer than the colour and consists of `<i style="background:`, the colour verbatim, then `"></i> ` |
| `Legend.Row` | static/js/logic.js:135-136 | a row opens with the swatch of getColor(c_i); it ends in `<br>` when the next entry is truthy and in `+` otherwise |
| `Legend.Concat` | static/js/logic.js:132-137 | the markup left by appending rows in turn to an empty element; once any row is appended it opens with the first row |
| `Legend.ConcatPrefix` | static/js/logic.js:132-137 | appending never rewrites earlier markup: the markup after the first i rows is a prefix of the markup after all of them |
| `Legend.LegendRows` | static/js/logic.js:129-137 | the reference markup `Concat(Rows(categories))` (one row per breakpoint, appended in turn) is exactly the six rows, in breakpoint order |
| `Legend.LegendSwatches` | static/js/logic.js:129-135 | the swatch of row i is palette colour i, so the swatches are the six coolest colours and #800026 is never shown |
| `Legend.LegendBrackets` | static/js/logic.js:129-136 | every magnitude inside a non-final row's bracket, or in [6, 7) for the last row, is drawn in that row's swatch colour |
| `Legend.LegendFinalRowOmitsTop` | static/js/logic.js:134-136 | magnitudes 7 and above are drawn in a colour different from the open-ended "6+" row's swatch |
| `Legend.LegendDiv.constructor` | static/js/logic.js:126 | a new container has the given class name and empty markup |
| `Legend.OnAdd` | static/js/logic.js:125-139 | returns a fresh container of class "info legend" whose markup equals the reference definition `Concat(Rows(categories))`, all six rows appended in breakpoint order; the loop invariant keeps the markup equal to the first i rows appended |

## Left out

- The two chained data downloads (static/js/logic.js:6-16): network I/O with asynchronous callbacks.
- Every map-library call: building the GeoJSON layers, circles, tile layers, the map, the layer control and the legend control and adding them to the map (static/js/logic.js:45-63, 69-123, 141). Only the style values and strings handed to them are modelled; in particular the library's walk over the feature list, which calls the circle builder once per earthquake in input order, is not.
- The popup text (static/js/logic.js:39-42): it depends on the host's date formatting.
- The plate-boundary style callback (static/js/logic.js:59-63): it returns a polyline object where a style description is expected, so it has no behaviour to state.
- The tile URLs, attribution, access key and map options (static/js/logic.js:2-3, 72-112): configuration, not logic.
- Style.GetColor, Style.GetRadius: magnitudes are exact reals, not IEEE doubles; a NaN magnitude (which falls through every comparison to #41ab5d) and rounding in the multiplication are not modelled.
- Decimal.IntToString: always prints every digit, which matches the script's number-to-text conversion only for safe integers, at most 2^53 in magnitude. Above that the script prints the shortest digits that round back to the same double, padded with zeros (`"" + 2**64` is `"18446744073709552000"`), and from 10^21 on it uses exponent notation (`1e+21`). The legend only ever prints 0 to 6. The text of fractional numbers is not modelled.
- Legend.OnAdd: the container comes from the map library's element factory; it is modelled as a fresh object with a class name and an `innerHTML` string, nothing else of the DOM. The model keeps the markup as written. In a browser, assigning `innerHTML` parses the markup and reading it back serializes the parsed tree, so each `+=` re-reads the earlier rows in serialized form (`&ndash;` comes back as the en dash character itself). The model does not capture that text, only the appended markup.
