/** The map legend: one HTML row per magnitude breakpoint, each a colour
    swatch followed by the bracket it stands for, appended to the legend's
    container element in breakpoint order. */
module Legend {
  import Style
  import Decimal

  /** The magnitude breakpoints the legend lists, ascending. */
  const Categories: seq<int> := [0, 2, 3, 4, 5, 6]

  /** Whether `cats[j]` is truthy in the script's sense: an index past the
      end reads as undefined, and the number 0 is falsy too. When no entry
      after the first is 0, truthiness of a later entry is just the test
      that the index exists. */
  predicate Truthy(cats: seq<int>, j: nat): (b: bool)
    ensures 1 <= j && (forall k :: 1 <= k < |cats| ==> cats[k] != 0) ==> (b <==> j < |cats|)
  {
    j < |cats| && cats[j] != 0
  }

  /** The colour box that opens a legend row; its background is exactly
      the given colour, at a fixed place in the markup. */
  function Swatch(color: string): (html: string)
    ensures |html| == |color| + 28
    ensures html[..21] == "<i style=\"background:"
    ensures html[21..21 + |color|] == color
    ensures html[21 + |color|..] == "\"></i> "
  {
    "<i style=\"background:" + color + "\"></i> "
  }

  /** The text of legend row `i`: the swatch of breakpoint `cats[i]`, the
      breakpoint, then either a dash, the next breakpoint and a line break,
      or a plus sign when there is no (truthy) next breakpoint. */
  function Row(cats: seq<int>, i: nat): (row: string)
    requires i < |cats|
    ensures Swatch(Style.GetColor(cats[i] as real)) <= row
    ensures Truthy(cats, i + 1) ==> row[|row| - 4..] == "<br>"
    ensures !Truthy(cats, i + 1) ==> row[|row| - 1] == '+'
  {
    Swatch(Style.GetColor(cats[i] as real)) + Decimal.IntToString(cats[i])
      + (if Truthy(cats, i + 1)
         then "&ndash;" + Decimal.IntToString(cats[i + 1]) + "<br>"
         else "+")
  }

  /** The rows of a legend over `cats`: one per breakpoint, in order. */
  function Rows(cats: seq<int>): seq<string> {
    seq(|cats|, j requires 0 <= j < |cats| => Row(cats, j))
  }

  /** The markup left by appending `rows` one after another to an empty
      element. */
  function Concat(rows: seq<string>): (html: string)
    ensures rows != [] ==> rows[0] <= html
  {
    if rows == [] then ""
    else
      var init, last := rows[..|rows| - 1], rows[|rows| - 1];
      var prev := Concat(init);
      assert rows[0] <= prev + last by {
        if init != [] {
          assert init[0] == rows[0];
          PrefixExtends(rows[0], prev, last);
        }
      }
      prev + last
  }

  /** A prefix of a string stays a prefix when more is appended. */
  lemma PrefixExtends(a: string, b: string, c: string)
    requires a <= b
    ensures a <= b + c
  {
    assert (b + c)[..|b|] == b;
  }

  /** Appending rows never rewrites what is already there: the markup after
      the first `i` rows is a prefix of the markup after all of them. */
  lemma {:induction false} ConcatPrefix(rows: seq<string>, i: nat)
    requires i <= |rows|
    ensures Concat(rows[..i]) <= Concat(rows)
  {
    if i < |rows| {
      var init := rows[..|rows| - 1];
      assert rows[..i] == init[..i];
      ConcatPrefix(init, i);
      PrefixExtends(Concat(rows[..i]), Concat(init), rows[|rows| - 1]);
    } else {
      assert rows[..i] == rows;
    }
  }

  /** For the legend's breakpoints the truthiness test on the next entry is
      exactly the test that there is a next entry, because 0 only appears
      first. */
  lemma TruthyIsIndexTest(i: nat)
    requires i < |Categories|
    ensures Truthy(Categories, i + 1) <==> i + 1 < |Categories|
  {
  }

  /** Every row but the last reads swatch, breakpoint, dash, next breakpoint,
      line break; the last reads swatch, breakpoint, plus sign. */
  lemma RowFormat(i: nat)
    requires i < |Categories|
    ensures i + 1 < |Categories| ==>
      Row(Categories, i) ==
        Swatch(Style.GetColor(Categories[i] as real)) + Decimal.IntToString(Categories[i])
          + "&ndash;" + Decimal.IntToString(Categories[i + 1]) + "<br>"
    ensures i + 1 == |Categories| ==>
      Row(Categories, i) == Swatch(Style.GetColor(6.0)) + "6+"
  {
    TruthyIsIndexTest(i);
  }

  /** The legend is exactly six rows, in breakpoint order. */
  lemma LegendRows()
    ensures |Rows(Categories)| == 6
    ensures Concat(Rows(Categories)) ==
      Row(Categories, 0) + Row(Categories, 1) + Row(Categories, 2)
        + Row(Categories, 3) + Row(Categories, 4) + Row(Categories, 5)
  {
    var r := Rows(Categories);
    ConcatSix(r);
  }

  /** Six rows appended in turn give their concatenation. */
  lemma ConcatSix(r: seq<string>)
    requires |r| == 6
    ensures Concat(r) == r[0] + r[1] + r[2] + r[3] + r[4] + r[5]
  {
    forall k | 0 <= k < |r|
      ensures Concat(r[..k + 1]) == Concat(r[..k]) + r[k]
    {
      assert r[..k + 1][..k] == r[..k];
    }
    assert r[..0] == [];
    assert r[..6] == r;
  }

  /** A non-final row with its colour and both numbers spelled out. */
  lemma InnerRowText(i: nat)
    requires i + 1 < |Categories|
    ensures Row(Categories, i) ==
      Swatch(Style.Palette[i]) + [Decimal.DigitChar(Categories[i])]
        + "&ndash;" + [Decimal.DigitChar(Categories[i + 1])] + "<br>"
  {
    RowFormat(i);
    LegendSwatches(i);
  }

  /** The first and the last rows written out in full. */
  lemma FirstRowText()
    ensures Row(Categories, 0) == "<i style=\"background:#41ab5d\"></i> 0&ndash;2<br>"
  {
    var swatch := "<i style=\"background:#41ab5d\"></i> ";
    assert Swatch(Style.Palette[0]) == swatch;
    assert Row(Categories, 0) == swatch + "0" + "&ndash;" + "2" + "<br>" by {
      InnerRowText(0);
      assert Decimal.DigitChar(0) == '0' && Decimal.DigitChar(2) == '2';
    }
  }

  lemma LastRowText()
    ensures Row(Categories, |Categories| - 1) == "<i style=\"background:#bd0026\"></i> 6+"
  {
    RowFormat(|Categories| - 1);
  }

  /** The swatches are the six coolest colours, one per bucket in order, so
      the warmest colour (magnitude 7 and above) is never shown. */
  lemma LegendSwatches(i: nat)
    requires i < |Categories|
    ensures Style.GetColor(Categories[i] as real) == Style.Palette[i]
    ensures Style.GetColor(Categories[i] as real) != Style.Palette[|Style.Palette| - 1]
  {
  }

  /** Each non-final row's bracket is one colour bucket: every magnitude from
      its breakpoint up to (not including) the next is drawn in its swatch
      colour. The final row, labelled open-ended, only covers up to 7. */
  lemma LegendBrackets(i: nat, m: real)
    requires i < |Categories|
    requires Categories[i] as real <= m
    requires if i + 1 < |Categories| then m < Categories[i + 1] as real else m < 7.0
    ensures Style.GetColor(m) == Style.GetColor(Categories[i] as real)
  {
  }

  /** The open-ended final row does not match the strongest earthquakes. */
  lemma LegendFinalRowOmitsTop(m: real)
    requires m >= 7.0
    ensures Style.GetColor(m) != Style.GetColor(Categories[|Categories| - 1] as real)
  {
  }

  /** The legend's container element; only its markup is modelled. */
  class LegendDiv {
    var className: string
    var innerHTML: string

    constructor (className: string)
      ensures this.className == className && innerHTML == ""
    {
      this.className := className;
      innerHTML := "";
    }
  }

  /** Builds the legend element: a fresh container, then one row appended
      per breakpoint, in order. */
  method OnAdd() returns (div: LegendDiv)
    ensures fresh(div)
    ensures div.className == "info legend"
    ensures div.innerHTML == Concat(Rows(Categories))
  {
    div := new LegendDiv("info legend");
    var categories := Categories;
    ghost var rows := Rows(categories);
    for i := 0 to |categories|
      invariant div.className == "info legend"
      invariant div.innerHTML == Concat(rows[..i])
    {
      assert rows[..i + 1][..i] == rows[..i];
      div.innerHTML := div.innerHTML + Row(categories, i);
    }
    assert rows[..|categories|] == rows;
  }
}
