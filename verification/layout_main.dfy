/**
 * Properties of main-axis placement (`computeMainAxis`, parser/layout.js):
 * items are laid out one after another from the start position, each
 * `mainSign * size` long and `step` apart, and the `justifyContent` cases
 * put the free space where their names say.
 */
module LayoutMainAxis {
  import opened StyleValues
  import opened Layout
  import opened LayoutProperties

  /** The three main-axis keys an item is written under are different keys. */
  predicate MainNamesDistinct(a: Axis)
  {
    a.mainStart != a.mainEnd && a.mainStart != a.mainSize && a.mainEnd != a.mainSize
  }

  /** Every flex direction's axis writes the start, the end and the size under different keys. */
  lemma DirectionMainDistinct(s: Style)
    requires KnownDirection(s)
    ensures MainNamesDistinct(LayoutAxis(s).value)
  {
  }

  /** An item placed at `cur` keeps its size, starts at `cur` and ends `mainSign * size` further on. */
  lemma PlaceItemKeep(s: Style, axis: Axis, cur: real, x: real)
    requires MainNamesDistinct(axis) && Get(s, axis.mainSize) == Num(x)
    ensures var r := PlaceItem(s, axis, Keep, Num(cur));
      Get(r, axis.mainStart) == Num(cur) &&
      Get(r, axis.mainEnd) == Num(cur + axis.mainSign * x) &&
      Get(r, axis.mainSize) == Num(x)
  {
  }

  /** One placement writes only the placed item's style. */
  lemma PlaceStepOthers(p: Placed, comps: seq<Computed>, i: nat, axis: Axis, resize: Resize, step: Option<Value>, j: nat)
    requires i < |p.styles| == |comps| && j < |p.styles| && j != i
    ensures PlaceStep(p, comps, i, axis, resize, step).styles[j] == p.styles[j]
  {
  }

  /** One placement without resizing moves `currentMain` by `mainSign` times the item's size plus the step. */
  lemma KeepStep(p: Placed, comps: seq<Computed>, i: nat, axis: Axis, g: real, c: real, x: real)
    requires i < |p.styles| == |comps| && MainNamesDistinct(axis)
    requires p.cur == Num(c) && Get(CopyStyle(p.styles[i], comps[i]), axis.mainSize) == Num(x)
    ensures var r := PlaceStep(p, comps, i, axis, Keep, Some(Num(g)));
      r.cur == Num(c + axis.mainSign * x + g) &&
      Get(r.styles[i], axis.mainStart) == Num(c) &&
      Get(r.styles[i], axis.mainEnd) == Num(c + axis.mainSign * x)
  {
    PlaceItemKeep(CopyStyle(p.styles[i], comps[i]), axis, c, x);
  }

  /**
   * With free space shared out, an item with a truthy numeric `flex` gets
   * `unit * flex` as its main size; any other item keeps its size.
   */
  lemma PlaceItemShare(s: Style, axis: Axis, u: real, cur: real)
    requires MainNamesDistinct(axis) && axis.mainSize != "flex"
    ensures var r := PlaceItem(s, axis, Share(Num(u)), Num(cur));
      var f := Get(s, "flex");
      Get(r, axis.mainStart) == Num(cur) &&
      Get(r, axis.mainSize) == (if f.Num? && f.n != 0.0 then Num(u * f.n) else if Truthy(f) then Times(Num(u), f) else Get(s, axis.mainSize)) &&
      Get(r, axis.mainEnd) == Plus(Num(cur), Times(Num(axis.mainSign), Get(r, axis.mainSize)))
  {
  }

  /**
   * On overflow every item is scaled by the factor, and an item with a
   * `flex` value is first shrunk to 0, so it ends where it starts.
   */
  lemma PlaceItemScale(s: Style, axis: Axis, f: real, cur: real)
    requires MainNamesDistinct(axis)
    ensures var r := PlaceItem(s, axis, Scale(Num(f)), Num(cur));
      Get(r, axis.mainStart) == Num(cur) &&
      (Get(s, "flex") != Null ==> Get(r, axis.mainSize) == Num(0.0) && Get(r, axis.mainEnd) == Num(cur)) &&
      (Get(s, "flex") == Null && Get(s, axis.mainSize).Num? ==>
         Get(r, axis.mainSize) == Num(Get(s, axis.mainSize).n * f) &&
         Get(r, axis.mainEnd) == Num(cur + axis.mainSign * (Get(s, axis.mainSize).n * f)))
  {
  }

  // ---------------------------------------------------------------------
  // justifyContent: where the free space `m` of a line goes.
  // ---------------------------------------------------------------------

  /**
   * A line is placed exactly when its `justifyContent` has a case in the
   * switch and, for `flex-start` and `space-between`, which start at
   * `mainBase`, that base is not `null`.
   */
  lemma JustifyKnown(justify: Value, mainSpace: Value, count: nat, axis: Axis)
    ensures Justify(justify, mainSpace, count, axis).0 != Null <==>
      justify in {Str("flex-start"), Str("flex-end"), Str("center"), Str("space-between"), Str("space-around")} &&
      !(justify in {Str("flex-start"), Str("space-between")} && axis.mainBase == Null)
  {
  }

  /**
   * A reverse direction whose main size was unset when the axes were
   * computed has a `null` `mainBase`, so under `flex-start`, the default,
   * and under `space-between` its lines are skipped.
   */
  lemma ReverseUnsetSkipped(s: Style, mainSpace: Value, count: nat)
    requires Get(s, "flexDirection") in {Str("row-reverse"), Str("column-reverse")}
    requires Get(s, if Get(s, "flexDirection") == Str("row-reverse") then "width" else "height") == Null
    requires Get(s, "justifyContent") in {Str("flex-start"), Str("space-between")}
    ensures Justify(Get(s, "justifyContent"), mainSpace, count, LayoutAxis(s).value).0 == Null
  {
  }

  /** The `flexTotal` loop leaves each item of the line with its `getStyle` copy, and every other child alone. */
  lemma {:induction false} TotalFoldCopies(styles: seq<Style>, comps: seq<Computed>, items: seq<nat>, k: nat)
    requires |styles| == |comps| && k <= |items|
    requires forall j :: 0 <= j < |items| ==> items[j] < |styles|
    ensures forall j :: 0 <= j < |styles| ==>
      TotalFold(styles, comps, items, k).styles[j] == if j in items[..k] then CopyStyle(styles[j], comps[j]) else styles[j]
  {
    if k > 0 {
      TotalFoldCopies(styles, comps, items, k - 1);
      var i := items[k - 1];
      CopyStyleIdempotent(styles[i], comps[i]);
      assert items[..k] == items[..k - 1] + [i];
    }
  }

  /**
   * A skipped line writes no position: its items keep what `getStyle`
   * copied into them, and every other child is untouched.
   */
  lemma SkippedLine(style: Style, styles: seq<Style>, comps: seq<Computed>, axis: Axis, line: FlexLine)
    requires |styles| == |comps|
    requires forall j :: 0 <= j < |line.items| ==> line.items[j] < |styles|
    requires !Less(Num(0.0), TotalFold(styles, comps, line.items, |line.items|).total)
    requires Justify(Get(style, "justifyContent"), line.mainSpace, |line.items|, axis).0 == Null
    ensures forall j :: 0 <= j < |styles| ==>
      LineMain(style, styles, comps, axis, line)[j] == if j in line.items then CopyStyle(styles[j], comps[j]) else styles[j]
  {
    TotalFoldCopies(styles, comps, line.items, |line.items|);
    assert line.items[..|line.items|] == line.items;
  }

  /** A `row-reverse` container with no width, after the defaults. */
  const UnsetReverse: Style := map["width" := Null, "height" := Null, "flexDirection" := Str("row-reverse"),
                                   "justifyContent" := Str("flex-start"), "flexWrap" := Str("nowrap")]

  /** A child whose computed width is `10px`. */
  const TenPixels: Computed := map["width" := Some("10px")]

  /** `getStyle` on that child writes its width, 10, and nothing else. */
  lemma TenPixelsCopy()
    ensures CopyStyle(map[], TenPixels) == map["width" := Num(10.0)]
    ensures CopyStyle(map["width" := Num(10.0)], TenPixels) == map["width" := Num(10.0)]
  {
    assert Decimal(10) + "px" == "10px";
    ConvertPixels(10);
    CopyStyleEntries(map[], TenPixels);
    CopyStyleIdempotent(map[], TenPixels);
  }

  /** The container's width is auto and becomes the child's 10; the base stays `null`. */
  lemma UnsetReverseAuto()
    ensures var axis := LayoutAxis(UnsetReverse).value;
      var auto := AutoMainSize(UnsetReverse, [map[]], [TenPixels], axis.mainSize);
      axis.mainSize == "width" && axis.mainBase == Null &&
      auto.isAuto && Get(auto.style, "width") == Num(10.0) &&
      Get(auto.style, "justifyContent") == Str("flex-start") &&
      auto.childStyles == [map["width" := Num(10.0)]]
  {
    TenPixelsCopy();
    ReverseDirection(UnsetReverse);
    var axis := LayoutAxis(UnsetReverse).value;
    AutoSizeIsSum(UnsetReverse, [map[]], [TenPixels], axis.mainSize);
  }

  /**
   * The child fills the auto width of that container: one line, holding the
   * child, with no space left over.
   */
  lemma UnsetReverseLines()
    ensures var axis := LayoutAxis(UnsetReverse).value;
      var auto := AutoMainSize(UnsetReverse, [map[]], [TenPixels], axis.mainSize);
      var lines := FlexLines(auto.style, auto.childStyles, [TenPixels], axis, auto.isAuto);
      |lines.lines| == 1 && lines.lines[0].items == [0] && lines.lines[0].mainSpace == Num(0.0) &&
      lines.styles == [map["width" := Num(10.0)]]
  {
    var comps := [TenPixels];
    var copy: Style := map["width" := Num(10.0)];
    UnsetReverseAuto();
    TenPixelsCopy();
    var axis := LayoutAxis(UnsetReverse).value;
    var auto := AutoMainSize(UnsetReverse, [map[]], comps, axis.mainSize);
    NowrapOneLine(auto.style, auto.childStyles, comps, axis, auto.isAuto);
    assert Prepare(copy, TenPixels, axis) == copy;
    assert FixedTotal(auto.childStyles, comps, axis, 1) == 10.0;
    NowrapMainSpace(auto.style, auto.childStyles, comps, axis, auto.isAuto, 10.0);
    LinesFoldUntouched(auto.style, axis, auto.isAuto, auto.childStyles, comps, 0, 0);
  }

  /** Without overflow, the main axis of a single line is that line's placement. */
  lemma OneLineMain(style: Style, styles: seq<Style>, comps: seq<Computed>, axis: Axis, lines: seq<FlexLine>)
    requires |styles| == |comps| && |lines| == 1 && ItemsIn(lines, |styles|)
    requires !Less(lines[0].mainSpace, Num(0.0))
    ensures MainAxis(style, styles, comps, axis, lines) == LineMain(style, styles, comps, axis, lines[0])
  {
    assert LinesMain(style, styles, comps, axis, lines, 0) == styles;
  }

  /**
   * An instance of `ReverseUnsetSkipped`: in that container the one line
   * is skipped, so the child keeps its width and gets neither a `left` nor
   * a `right`.
   */
  lemma ReverseUnsetUnplaced()
    ensures FlexSpec(UnsetReverse, [map[]], [TenPixels]).childStyles[0] == map["width" := Num(10.0)]
  {
    var comps := [TenPixels];
    var axis := LayoutAxis(UnsetReverse).value;
    var auto := AutoMainSize(UnsetReverse, [map[]], comps, axis.mainSize);
    var lines := FlexLines(auto.style, auto.childStyles, comps, axis, auto.isAuto);
    UnsetReverseAuto();
    UnsetReverseLines();
    var line := lines.lines[0];
    assert TotalFold(lines.styles, comps, line.items, 1).total == Num(0.0);
    SkippedLine(auto.style, lines.styles, comps, axis, line);
    OneLineMain(auto.style, lines.styles, comps, axis, lines.lines);
    TenPixelsCopy();
  }

  /** `flex-start` packs the items at the base with no gaps; `flex-end` puts all the free space before them. */
  lemma JustifyEnds(m: real, count: nat, axis: Axis, b: real)
    requires axis.mainBase == Num(b)
    ensures Justify(Str("flex-start"), Num(m), count, axis) == (Num(b), Num(0.0))
    ensures Justify(Str("flex-end"), Num(m), count, axis) == (Num(b + axis.mainSign * m), Num(0.0))
  {
    assert Times(Num(m), Num(axis.mainSign)) == Num(m * axis.mainSign);
  }

  /** `center` puts half of the free space before the first item, with no gaps between items. */
  lemma JustifyCenter(m: real, count: nat, axis: Axis, b: real)
    requires axis.mainBase == Num(b)
    ensures Justify(Str("center"), Num(m), count, axis) == (Num(b + axis.mainSign * (m / 2.0)), Num(0.0))
  {
    assert Div(Num(m), Num(2.0)) == Num(m / 2.0);
    assert Times(Num(m / 2.0), Num(axis.mainSign)) == Num(m / 2.0 * axis.mainSign);
  }

  /**
   * `space-between` starts at the base and its `count - 1` gaps together
   * take exactly the free space; a lone item gets the whole space as its
   * (unused) gap.
   */
  lemma JustifySpaceBetween(m: real, count: nat, axis: Axis, b: real)
    requires axis.mainBase == Num(b) && count >= 1
    ensures var j := Justify(Str("space-between"), Num(m), count, axis);
      j.0 == Num(b) && j.1.Num? &&
      (count >= 2 ==> (count - 1) as real * j.1.n == axis.mainSign * m) &&
      (count == 1 ==> j.1.n == axis.mainSign * m)
  {
    var j := Justify(Str("space-between"), Num(m), count, axis);
    var parts := (count - 1) as real;
    if count >= 2 {
      assert j.1 == Num(m / parts * axis.mainSign);
      calc {
        parts * (m / parts * axis.mainSign);
        (parts * (m / parts)) * axis.mainSign;
        m * axis.mainSign;
      }
    }
  }

  /**
   * `space-around` gives every item one gap, half of it on each side: the
   * first item starts half a gap from the base and the `count` gaps take
   * exactly the free space.
   */
  lemma JustifySpaceAround(m: real, count: nat, axis: Axis, b: real)
    requires axis.mainBase == Num(b) && count >= 1
    ensures var j := Justify(Str("space-around"), Num(m), count, axis);
      j.1.Num? &&
      j.0 == Num(b + j.1.n / 2.0) &&
      count as real * j.1.n == axis.mainSign * m
  {
    var parts := count as real;
    var step := m / parts * axis.mainSign;
    assert Justify(Str("space-around"), Num(m), count, axis).1 == Num(step);
    calc {
      parts * step;
      (parts * (m / parts)) * axis.mainSign;
      m * axis.mainSign;
    }
  }
}
