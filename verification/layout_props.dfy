/**
 * Properties of the flex layout of parser/layout.js, stated about the
 * functions of module Layout that its methods are proved against.
 */
module LayoutProperties {
  import opened StyleValues
  import opened Layout

  // ---------------------------------------------------------------------
  // Axes.
  // ---------------------------------------------------------------------

  /**
   * The main and cross axes are the two dimensions, each with two distinct
   * edges, and the six names are all different.
   */
  lemma AxisNamesDistinct(s: Style)
    requires KnownDirection(s)
    ensures var a := LayoutAxis(s).value;
      {a.mainSize, a.crossSize} == {"width", "height"} &&
      |{a.mainSize, a.mainStart, a.mainEnd, a.crossSize, a.crossStart, a.crossEnd}| == 6 &&
      a.mainSign in {1.0, -1.0} && a.crossSign in {1.0, -1.0}
  {
    var a := LayoutAxis(s).value;
    assert {a.mainStart, a.mainEnd} <= {"left", "right", "top", "bottom"};
  }

  /**
   * `row` runs the main axis along the width from left to right and
   * `column` along the height from top to bottom, both forwards from 0;
   * the cross axis is the other dimension, from its top or left edge
   * unless the lines wrap in reverse.
   */
  lemma ForwardDirection(s: Style)
    requires Get(s, "flexDirection") in {Str("row"), Str("column")} && Get(s, "flexWrap") != Str("wrap-reverse")
    ensures var a := LayoutAxis(s).value;
      a.mainSign == 1.0 && a.mainBase == Num(0.0) && a.crossSign == 1.0 && a.crossBase == Num(0.0) &&
      (Get(s, "flexDirection") == Str("row") ==>
         a.mainSize == "width" && a.mainStart == "left" && a.mainEnd == "right" &&
         a.crossSize == "height" && a.crossStart == "top" && a.crossEnd == "bottom") &&
      (Get(s, "flexDirection") == Str("column") ==>
         a.mainSize == "height" && a.mainStart == "top" && a.mainEnd == "bottom" &&
         a.crossSize == "width" && a.crossStart == "left" && a.crossEnd == "right")
  {
  }

  /**
   * A reverse direction runs the main axis backwards from the container's
   * far edge, which is its main size as it was before any auto size was
   * computed; the cross axis is as for the forward direction.
   */
  lemma ReverseDirection(s: Style)
    requires Get(s, "flexDirection") in {Str("row-reverse"), Str("column-reverse")}
    ensures var a := LayoutAxis(s).value;
      a.mainSign == -1.0 && a.mainBase == Get(s, a.mainSize) &&
      (Get(s, "flexDirection") == Str("row-reverse") ==>
         a.mainSize == "width" && a.mainStart == "right" && a.mainEnd == "left" && a.crossSize == "height") &&
      (Get(s, "flexDirection") == Str("column-reverse") ==>
         a.mainSize == "height" && a.mainStart == "bottom" && a.mainEnd == "top" && a.crossSize == "width") &&
      (Get(s, "flexWrap") != Str("wrap-reverse") ==>
         a.crossSign == 1.0 && a.crossBase == Num(0.0) &&
         a.crossStart == (if a.crossSize == "height" then "top" else "left") &&
         a.crossEnd == (if a.crossSize == "height" then "bottom" else "right"))
  {
  }

  /**
   * `wrap-reverse` swaps the cross edges, flips the cross sign and starts
   * the cross axis at the container's cross size; the main axis is as for
   * any other wrap mode.
   */
  lemma WrapReverseSwapsCross(s: Style, other: Value)
    requires KnownDirection(s) && other != Str("wrap-reverse")
    ensures var r := LayoutAxis(s["flexWrap" := Str("wrap-reverse")]).value;
      var a := LayoutAxis(s["flexWrap" := other]).value;
      r.crossStart == a.crossEnd && r.crossEnd == a.crossStart &&
      r.crossSign == -a.crossSign == -1.0 && r.crossBase == Get(s, r.crossSize) && a.crossBase == Num(0.0) &&
      r.mainSize == a.mainSize && r.mainStart == a.mainStart && r.mainEnd == a.mainEnd &&
      r.mainSign == a.mainSign && r.mainBase == a.mainBase && r.crossSize == a.crossSize
  {
    assert Get(s["flexWrap" := Str("wrap-reverse")], "flexDirection") == Get(s, "flexDirection");
    assert Get(s["flexWrap" := other], "flexDirection") == Get(s, "flexDirection");
    if Get(s, "flexDirection") == Str("row-reverse") || Get(s, "flexDirection") == Str("column-reverse") {
      assert Get(s["flexWrap" := Str("wrap-reverse")], "width") == Get(s, "width");
      assert Get(s["flexWrap" := other], "width") == Get(s, "width");
      assert Get(s["flexWrap" := Str("wrap-reverse")], "height") == Get(s, "height");
      assert Get(s["flexWrap" := other], "height") == Get(s, "height");
    }
    assert Get(s["flexWrap" := Str("wrap-reverse")], "width") == Get(s, "width");
    assert Get(s["flexWrap" := Str("wrap-reverse")], "height") == Get(s, "height");
  }

  // ---------------------------------------------------------------------
  // Defaults.
  // ---------------------------------------------------------------------

  /** The value `setDefault(s, key, d)` leaves under `key`. */
  function Defaulted(s: Style, key: string, d: Value): Value
  {
    var v := Get(s, key);
    if Truthy(v) && v != Str("auto") then v else d
  }

  /**
   * After the defaults, each defaulted key holds its old value when that
   * was truthy and not `'auto'`, and its default otherwise; every other key
   * is unchanged.
   */
  lemma {:induction false} DefaultsFilled(s: Style, n: nat)
    requires n <= |Defaults|
    ensures forall j :: 0 <= j < n ==> Get(WithDefaults(s, n), Defaults[j].0) == Defaulted(s, Defaults[j].0, Defaults[j].1)
    ensures forall k :: (forall j :: 0 <= j < n ==> Defaults[j].0 != k) ==> Get(WithDefaults(s, n), k) == Get(s, k)
  {
    if n > 0 {
      DefaultsFilled(s, n - 1);
      var prev := WithDefaults(s, n - 1);
      var key := Defaults[n - 1].0;
      SetDefaultReplaces(prev, key, Defaults[n - 1].1);
      assert forall j :: 0 <= j < n - 1 ==> Defaults[j].0 != key;
      assert Get(prev, key) == Get(s, key);
    }
  }

  /** After the defaults the container always has a flex wrap mode and a justification. */
  lemma DefaultsPresent(s: Style)
    ensures var d := WithDefaults(s, |Defaults|);
      Truthy(Get(d, "flexDirection")) && Truthy(Get(d, "flexWrap")) && Truthy(Get(d, "justifyContent"))
  {
    DefaultsFilled(s, |Defaults|);
    assert Defaults[2].0 == "flexDirection" && Defaults[5].0 == "flexWrap" && Defaults[4].0 == "justifyContent";
  }

  // ---------------------------------------------------------------------
  // Which children are laid out, and in what order.
  // ---------------------------------------------------------------------

  /** `xs` is `ys` with some of its elements left out and the rest in their order. */
  predicate Subsequence<T(==)>(xs: seq<T>, ys: seq<T>)
    decreases |ys|
  {
    if xs == [] then true
    else if ys == [] then false
    else if xs[0] == ys[0] then Subsequence(xs[1..], ys[1..])
    else Subsequence(xs, ys[1..])
  }

  /**
   * The filter keeps every element-type child, as often as it occurs, drops
   * every other child, and keeps the document order.
   */
  lemma {:induction false} ElementChildrenExact(cs: seq<LayoutElement>)
    ensures var r := ElementChildren(cs);
      (forall x :: x in cs ==> multiset(r)[x] == if x.isElement then multiset(cs)[x] else 0) &&
      Subsequence(r, cs)
  {
    if cs != [] {
      ElementChildrenExact(cs[1..]);
      var rest := ElementChildren(cs[1..]);
      var r := ElementChildren(cs);
      assert cs == [cs[0]] + cs[1..];
      assert multiset(cs) == multiset{cs[0]} + multiset(cs[1..]);
      if cs[0].isElement {
        assert r == [cs[0]] + rest && r[1..] == rest;
      } else {
        assert r == rest;
        assert rest != [] ==> rest[0].isElement && rest[0] != cs[0];
      }
      forall x | x in cs
        ensures multiset(r)[x] == if x.isElement then multiset(cs)[x] else 0
      {
        if x !in cs[1..] {
          assert multiset(cs[1..])[x] == 0;
          assert multiset(rest)[x] == 0;
        }
      }
    }
  }

  /**
   * `layout` lays out every element-type child as often as it occurs and no
   * other child, in ascending `order`, and children with equal `order` in
   * document order.
   */
  lemma LaidOutExact(e: LayoutElement)
    ensures var r := LaidOut(e);
      (forall x :: x in e.children ==> multiset(r)[x] == if x.isElement then multiset(e.children)[x] else 0) &&
      SortedByOrder(r) &&
      forall k :: WithKey(r, k) == WithKey(ElementChildren(e.children), k)
  {
    var f := ElementChildren(e.children);
    ElementChildrenExact(e.children);
    SortIsSorted(f);
    forall k
      ensures WithKey(LaidOut(e), k) == WithKey(f, k)
    {
      SortIsStable(f, k);
    }
  }

  // ---------------------------------------------------------------------
  // Order of the children.
  // ---------------------------------------------------------------------

  predicate SortedByOrder(xs: seq<LayoutElement>)
  {
    forall i, j :: 0 <= i < j < |xs| ==> OrderKey(xs[i]) <= OrderKey(xs[j])
  }

  lemma {:induction false} InsertKeepsSorted(x: LayoutElement, ys: seq<LayoutElement>)
    requires SortedByOrder(ys)
    ensures SortedByOrder(InsertByOrder(x, ys))
  {
    if ys != [] && OrderKey(ys[0]) < OrderKey(x) {
      InsertKeepsSorted(x, ys[1..]);
      var rest := InsertByOrder(x, ys[1..]);
      forall j | 0 <= j < |rest|
        ensures OrderKey(ys[0]) <= OrderKey(rest[j])
      {
        assert rest[j] in multiset(rest);
        if rest[j] != x {
          assert rest[j] in multiset(ys[1..]);
          var k :| 0 <= k < |ys[1..]| && ys[1..][k] == rest[j];
          assert ys[k + 1] == rest[j];
        }
      }
      assert InsertByOrder(x, ys) == [ys[0]] + rest;
    }
  }

  /** The children are laid out in ascending `order`. */
  lemma {:induction false} SortIsSorted(xs: seq<LayoutElement>)
    ensures SortedByOrder(SortByOrder(xs))
  {
    if xs != [] {
      SortIsSorted(xs[1..]);
      InsertKeepsSorted(xs[0], SortByOrder(xs[1..]));
    }
  }

  /** The children whose `order` key is `k`, in their original order. */
  function WithKey(xs: seq<LayoutElement>, k: real): seq<LayoutElement>
  {
    if xs == [] then [] else (if OrderKey(xs[0]) == k then [xs[0]] else []) + WithKey(xs[1..], k)
  }

  lemma {:induction false} InsertWithKey(x: LayoutElement, ys: seq<LayoutElement>, k: real)
    ensures WithKey(InsertByOrder(x, ys), k) == (if OrderKey(x) == k then [x] else []) + WithKey(ys, k)
  {
    if ys == [] || OrderKey(x) <= OrderKey(ys[0]) {
      assert InsertByOrder(x, ys)[1..] == ys;
    } else {
      InsertWithKey(x, ys[1..], k);
      var r := InsertByOrder(x, ys);
      assert r[0] == ys[0] && r[1..] == InsertByOrder(x, ys[1..]);
    }
  }

  /** The sort is stable: children with equal `order` keep their document order. */
  lemma {:induction false} SortIsStable(xs: seq<LayoutElement>, k: real)
    ensures WithKey(SortByOrder(xs), k) == WithKey(xs, k)
  {
    if xs != [] {
      SortIsStable(xs[1..], k);
      InsertWithKey(xs[0], SortByOrder(xs[1..]), k);
    }
  }

  // ---------------------------------------------------------------------
  // Auto main size.
  // ---------------------------------------------------------------------

  /** A size that is absent or a number that is not negative. */
  predicate SizeOrNull(v: Value)
  {
    v == Null || (v.Num? && v.n >= 0.0)
  }

  lemma {:induction false} SumSizesCovers(ss: seq<Style>, key: string, n: nat)
    requires n <= |ss|
    requires forall i :: 0 <= i < n ==> SizeOrNull(Get(ss[i], key))
    ensures SumSizes(ss, key, n).Num? && SumSizes(ss, key, n).n >= 0.0
    ensures forall i :: 0 <= i < n && Get(ss[i], key).Num? ==> Get(ss[i], key).n <= SumSizes(ss, key, n).n
  {
    if n > 0 {
      SumSizesCovers(ss, key, n - 1);
    }
  }

  /**
   * An auto main size becomes a number that covers every child's main size
   * when those sizes are absent or non-negative numbers.
   */
  lemma AutoSizeCoversChildren(style: Style, styles: seq<Style>, comps: seq<Computed>, mainSize: string)
    requires |styles| == |comps| && !Truthy(Get(style, mainSize))
    requires forall i :: 0 <= i < |styles| ==> SizeOrNull(Get(CopyStyle(styles[i], comps[i]), mainSize))
    ensures var r := AutoMainSize(style, styles, comps, mainSize);
      r.isAuto && Get(r.style, mainSize).Num? && Get(r.style, mainSize).n >= 0.0 &&
      forall i :: 0 <= i < |styles| && Get(r.childStyles[i], mainSize).Num? ==> Get(r.childStyles[i], mainSize).n <= Get(r.style, mainSize).n
  {
    var copies := CopyAll(styles, comps, |styles|);
    SumSizesCovers(copies, mainSize, |copies|);
  }

  /** The children's numeric main sizes added up; a null size counts for nothing. */
  function SizeSum(ss: seq<Style>, key: string, n: nat): real
    requires n <= |ss|
  {
    if n == 0 then 0.0
    else SizeSum(ss, key, n - 1) + (if Get(ss[n - 1], key).Num? then Get(ss[n - 1], key).n else 0.0)
  }

  lemma {:induction false} SumSizesNumeric(ss: seq<Style>, key: string, n: nat)
    requires n <= |ss|
    requires forall i :: 0 <= i < n ==> Get(ss[i], key) == Null || Get(ss[i], key).Num?
    ensures SumSizes(ss, key, n) == Num(SizeSum(ss, key, n))
  {
    if n > 0 {
      SumSizesNumeric(ss, key, n - 1);
    }
  }

  /**
   * An auto main size becomes exactly the sum of the children's main sizes
   * after `getStyle`, null sizes skipped, when those sizes are numbers or
   * null; the container's other keys are unchanged.
   */
  lemma AutoSizeIsSum(style: Style, styles: seq<Style>, comps: seq<Computed>, mainSize: string)
    requires |styles| == |comps| && !Truthy(Get(style, mainSize))
    requires forall i :: 0 <= i < |styles| ==>
      var v := Get(CopyStyle(styles[i], comps[i]), mainSize); v == Null || v.Num?
    ensures var r := AutoMainSize(style, styles, comps, mainSize);
      r.isAuto && Get(r.style, mainSize) == Num(SizeSum(r.childStyles, mainSize, |styles|)) &&
      forall k :: k != mainSize ==> Get(r.style, k) == Get(style, k)
  {
    var r := AutoMainSize(style, styles, comps, mainSize);
    SumSizesNumeric(r.childStyles, mainSize, |styles|);
  }

  // ---------------------------------------------------------------------
  // Cross axis.
  // ---------------------------------------------------------------------

  /** The lines' cross spaces added up, when they are all numbers. */
  function CrossSum(lines: seq<FlexLine>, k: nat): real
    requires k <= |lines|
  {
    if k == 0 then 0.0
    else CrossSum(lines, k - 1) + (if lines[k - 1].crossSpace.Num? then lines[k - 1].crossSpace.n else 0.0)
  }

  lemma {:induction false} CrossFolds(start: real, lines: seq<FlexLine>, k: nat)
    requires k <= |lines| && forall i :: 0 <= i < |lines| ==> lines[i].crossSpace.Num?
    ensures CrossTotal(lines, k) == Num(CrossSum(lines, k))
    ensures CrossLeft(Num(start), lines, k) == Num(start - CrossSum(lines, k))
  {
    if k > 0 {
      CrossFolds(start, lines, k - 1);
    }
  }

  /**
   * An unset cross size becomes the sum of the lines' cross spaces; a set
   * one is kept, and what is left of it after the lines is that size minus
   * the same sum.
   */
  lemma CrossAxisSums(style: Style, axis: Axis, lines: seq<FlexLine>)
    requires forall i :: 0 <= i < |lines| ==> lines[i].crossSpace.Num?
    requires Get(style, axis.crossSize) == Null || Get(style, axis.crossSize).Num?
    ensures var r := CrossAxis(style, axis, lines);
      var total := CrossSum(lines, |lines|);
      (Get(style, axis.crossSize) == Null ==> Get(r.style, axis.crossSize) == Num(total) && r.crossSpace == Num(0.0)) &&
      (Get(style, axis.crossSize) != Null ==> r.style == style && r.crossSpace == Num(Get(style, axis.crossSize).n - total))
  {
    var v := Get(style, axis.crossSize);
    CrossFolds(if v.Num? then v.n else 0.0, lines, |lines|);
  }

  // ---------------------------------------------------------------------
  // Flex lines.
  // ---------------------------------------------------------------------

  /** The children of the lines, line after line. */
  function Flatten(lines: seq<FlexLine>): seq<nat>
  {
    if lines == [] then [] else Flatten(lines[..|lines| - 1]) + lines[|lines| - 1].items
  }

  lemma FlattenSnoc(lines: seq<FlexLine>, line: FlexLine)
    ensures Flatten(lines + [line]) == Flatten(lines) + line.items
  {
    assert (lines + [line])[..|lines|] == lines;
  }

  lemma {:induction false} LinesFoldPartition(style: Style, axis: Axis, isAuto: bool, styles: seq<Style>, comps: seq<Computed>, n: nat)
    requires n <= |styles| == |comps|
    ensures var acc := LinesFold(style, axis, isAuto, styles, comps, n);
      Flatten(acc.closed) + acc.current == Range(n)
  {
    if n > 0 {
      var m: nat := n - 1;
      LinesFoldPartition(style, axis, isAuto, styles, comps, m);
      PartitionStep(style, axis, isAuto, styles, comps, m);
    }
  }

  /** The step of `LinesFoldPartition`: from the first `m` children to the first `m + 1`. */
  lemma PartitionStep(style: Style, axis: Axis, isAuto: bool, styles: seq<Style>, comps: seq<Computed>, m: nat)
    requires m < |styles| == |comps|
    requires var acc := LinesFold(style, axis, isAuto, styles, comps, m);
      Flatten(acc.closed) + acc.current == Range(m)
    ensures var r := LinesFold(style, axis, isAuto, styles, comps, m + 1);
      Flatten(r.closed) + r.current == Range(m + 1)
  {
    LinesFoldNext(style, axis, isAuto, styles, comps, m);
    var acc := LinesFold(style, axis, isAuto, styles, comps, m);
    StepPartition(style, axis, isAuto, acc, m, comps[m]);
    RangeSnoc(m);
  }

  lemma RangeSnoc(n: nat)
    ensures Range(n + 1) == Range(n) + [n]
  {
  }

  lemma StepPartition(style: Style, axis: Axis, isAuto: bool, acc: LineAcc, i: nat, c: Computed)
    requires i < |acc.styles|
    ensures var r := LineStep(style, axis, isAuto, acc, i, c);
      Flatten(r.closed) + r.current == Flatten(acc.closed) + acc.current + [i]
  {
    var r := LineStep(style, axis, isAuto, acc, i, c);
    if r.closed != acc.closed {
      assert r.closed == acc.closed + [FlexLine(acc.current, acc.mainSpace, acc.crossSpace)] && r.current == [i];
      FlattenSnoc(acc.closed, FlexLine(acc.current, acc.mainSpace, acc.crossSpace));
    }
  }

  /** Every child is on exactly one line, and the lines keep the children's order. */
  lemma LinesPartitionChildren(style: Style, styles: seq<Style>, comps: seq<Computed>, axis: Axis, isAuto: bool)
    requires |styles| == |comps|
    ensures Flatten(FlexLines(style, styles, comps, axis, isAuto).lines) == Range(|styles|)
  {
    LinesFoldPartition(style, axis, isAuto, styles, comps, |styles|);
    var acc := LinesFold(style, axis, isAuto, styles, comps, |styles|);
    var r := FlexLines(style, styles, comps, axis, isAuto);
    FlattenSnoc(acc.closed, r.lines[|r.lines| - 1]);
  }

  lemma {:induction false} SingleLineNeverCloses(style: Style, axis: Axis, isAuto: bool, styles: seq<Style>, comps: seq<Computed>, n: nat)
    requires n <= |styles| == |comps| && SingleLine(style, isAuto)
    ensures LinesFold(style, axis, isAuto, styles, comps, n).closed == []
  {
    if n > 0 {
      var m: nat := n - 1;
      SingleLineNeverCloses(style, axis, isAuto, styles, comps, m);
      NeverClosesStep(style, axis, isAuto, styles, comps, m);
    }
  }

  /** On a single line, a step of the fold does not close the line. */
  lemma NeverClosesStep(style: Style, axis: Axis, isAuto: bool, styles: seq<Style>, comps: seq<Computed>, m: nat)
    requires m < |styles| == |comps| && SingleLine(style, isAuto)
    requires LinesFold(style, axis, isAuto, styles, comps, m).closed == []
    ensures LinesFold(style, axis, isAuto, styles, comps, m + 1).closed == []
  {
    LinesFoldNext(style, axis, isAuto, styles, comps, m);
  }

  /** Under `nowrap`, or with an auto main size, all children share one line. */
  lemma NowrapOneLine(style: Style, styles: seq<Style>, comps: seq<Computed>, axis: Axis, isAuto: bool)
    requires |styles| == |comps| && SingleLine(style, isAuto)
    ensures var r := FlexLines(style, styles, comps, axis, isAuto);
      |r.lines| == 1 && r.lines[0].items == Range(|styles|)
  {
    SingleLineNeverCloses(style, axis, isAuto, styles, comps, |styles|);
    LinesPartitionChildren(style, styles, comps, axis, isAuto);
  }

  /** The line breaking has not yet touched the style of a child it has not reached. */
  lemma {:induction false} LinesFoldUntouched(style: Style, axis: Axis, isAuto: bool, styles: seq<Style>, comps: seq<Computed>, n: nat, j: nat)
    requires n <= j < |styles| == |comps|
    ensures LinesFold(style, axis, isAuto, styles, comps, n).styles[j] == styles[j]
  {
    if n > 0 {
      var m: nat := n - 1;
      LinesFoldUntouched(style, axis, isAuto, styles, comps, m, j);
      UntouchedStep(style, axis, isAuto, styles, comps, m, j);
    }
  }

  /** A step of the fold at child `m` leaves the style of a later child `j` alone. */
  lemma UntouchedStep(style: Style, axis: Axis, isAuto: bool, styles: seq<Style>, comps: seq<Computed>, m: nat, j: nat)
    requires m < j < |styles| == |comps|
    requires LinesFold(style, axis, isAuto, styles, comps, m).styles[j] == styles[j]
    ensures LinesFold(style, axis, isAuto, styles, comps, m + 1).styles[j] == styles[j]
  {
    LinesFoldNext(style, axis, isAuto, styles, comps, m);
  }

  /** A child's main size as the line breaking sees it: after `getStyle` and the default of 0. */
  function PreparedSize(styles: seq<Style>, comps: seq<Computed>, axis: Axis, i: nat): Value
    requires i < |styles| == |comps|
  {
    Get(Prepare(styles[i], comps[i], axis), axis.mainSize)
  }

  predicate IsFlexItem(styles: seq<Style>, comps: seq<Computed>, axis: Axis, i: nat)
    requires i < |styles| == |comps|
  {
    Get(Prepare(styles[i], comps[i], axis), "flex") != Null
  }

  /** The main sizes of the first `n` children that are not flex items. */
  function FixedTotal(styles: seq<Style>, comps: seq<Computed>, axis: Axis, n: nat): real
    requires n <= |styles| == |comps|
  {
    if n == 0 then 0.0
    else
      var v := PreparedSize(styles, comps, axis, n - 1);
      FixedTotal(styles, comps, axis, n - 1) + (if !IsFlexItem(styles, comps, axis, n - 1) && v.Num? then v.n else 0.0)
  }

  /** The children below `n` that are not flex items all have a numeric prepared main size. */
  predicate FixedNumeric(styles: seq<Style>, comps: seq<Computed>, axis: Axis, n: nat)
    requires n <= |styles| == |comps|
  {
    n == 0 || (FixedNumeric(styles, comps, axis, n - 1) && (IsFlexItem(styles, comps, axis, n - 1) || PreparedSize(styles, comps, axis, n - 1).Num?))
  }

  lemma {:induction false} SingleLineSpace(style: Style, axis: Axis, isAuto: bool, styles: seq<Style>, comps: seq<Computed>, n: nat, size: real)
    requires n <= |styles| == |comps| && SingleLine(style, isAuto) && Get(style, axis.mainSize) == Num(size)
    requires FixedNumeric(styles, comps, axis, n)
    ensures LinesFold(style, axis, isAuto, styles, comps, n).mainSpace == Num(size - FixedTotal(styles, comps, axis, n))
  {
    if n > 0 {
      var m: nat := n - 1;
      SingleLineSpace(style, axis, isAuto, styles, comps, m, size);
      SingleLineSpaceStep(style, axis, isAuto, styles, comps, m, size);
    }
  }

  /** The step of `SingleLineSpace`: from the first `m` children to the first `m + 1`. */
  lemma SingleLineSpaceStep(style: Style, axis: Axis, isAuto: bool, styles: seq<Style>, comps: seq<Computed>, m: nat, size: real)
    requires m < |styles| == |comps| && SingleLine(style, isAuto)
    requires FixedNumeric(styles, comps, axis, m + 1)
    requires LinesFold(style, axis, isAuto, styles, comps, m).mainSpace == Num(size - FixedTotal(styles, comps, axis, m))
    ensures LinesFold(style, axis, isAuto, styles, comps, m + 1).mainSpace == Num(size - FixedTotal(styles, comps, axis, m + 1))
  {
    LinesFoldNext(style, axis, isAuto, styles, comps, m);
    LinesFoldUntouched(style, axis, isAuto, styles, comps, m, m);
    var acc := LinesFold(style, axis, isAuto, styles, comps, m);
    SingleLineStep(style, axis, isAuto, acc, m, comps[m]);
  }

  /** One step on a single line takes the child's main size off the space unless the child is a flex item. */
  lemma SingleLineStep(style: Style, axis: Axis, isAuto: bool, acc: LineAcc, i: nat, c: Computed)
    requires i < |acc.styles| && SingleLine(style, isAuto)
    ensures var s := Prepare(acc.styles[i], c, axis);
      LineStep(style, axis, isAuto, acc, i, c).mainSpace ==
        if Get(s, "flex") != Null then acc.mainSpace else Minus(acc.mainSpace, Get(s, axis.mainSize))
  {
  }

  /**
   * On a single line, the line's main space is the container's main size
   * minus the main sizes of the children that are not flex items.
   */
  lemma NowrapMainSpace(style: Style, styles: seq<Style>, comps: seq<Computed>, axis: Axis, isAuto: bool, size: real)
    requires |styles| == |comps| && SingleLine(style, isAuto) && Get(style, axis.mainSize) == Num(size)
    requires FixedNumeric(styles, comps, axis, |styles|)
    ensures var r := FlexLines(style, styles, comps, axis, isAuto);
      r.lines[|r.lines| - 1].mainSpace == Num(size - FixedTotal(styles, comps, axis, |styles|))
  {
    SingleLineSpace(style, axis, isAuto, styles, comps, |styles|, size);
  }

  // ---------------------------------------------------------------------
  // Line breaking in wrap mode.
  // ---------------------------------------------------------------------

  /**
   * One step in wrap mode. A flex item joins the current line and takes no
   * space. Any other child is first clamped to the container's main size;
   * it starts a new line exactly when the space left on the current line is
   * less than that size, and the size then comes off the space of the line
   * it joined.
   */
  lemma WrapStep(style: Style, axis: Axis, isAuto: bool, acc: LineAcc, i: nat, c: Computed, w: real, m: real, x: real)
    requires i < |acc.styles| && !SingleLine(style, isAuto)
    requires Get(style, axis.mainSize) == Num(w) && acc.mainSpace == Num(m)
    requires Get(Prepare(acc.styles[i], c, axis), axis.mainSize) == Num(x)
    ensures var s := Prepare(acc.styles[i], c, axis);
      var r := LineStep(style, axis, isAuto, acc, i, c);
      var size := if w < x then w else x;
      (Get(s, "flex") != Null ==>
         r.closed == acc.closed && r.current == acc.current + [i] && r.mainSpace == acc.mainSpace &&
         r.crossSpace == acc.crossSpace && r.styles[i] == s) &&
      (Get(s, "flex") == Null ==>
         Get(r.styles[i], axis.mainSize) == Num(size) &&
         (m < size ==>
            r.closed == acc.closed + [FlexLine(acc.current, acc.mainSpace, acc.crossSpace)] &&
            r.current == [i] && r.mainSpace == Num(w - size) &&
            r.crossSpace == GrowCross(Num(0.0), r.styles[i], axis.crossSize)) &&
         (size <= m ==>
            r.closed == acc.closed && r.current == acc.current + [i] && r.mainSpace == Num(m - size) &&
            r.crossSpace == GrowCross(acc.crossSpace, r.styles[i], axis.crossSize)))
  {
  }

  /** A line's space that is a number and not negative. */
  predicate Fits(v: Value)
  {
    v.Num? && v.n >= 0.0
  }

  predicate LinesFit(lines: seq<FlexLine>)
  {
    forall k :: 0 <= k < |lines| ==> Fits(lines[k].mainSpace)
  }

  lemma {:induction false} WrapFoldFits(style: Style, axis: Axis, isAuto: bool, styles: seq<Style>, comps: seq<Computed>, n: nat, w: real)
    requires n <= |styles| == |comps| && !SingleLine(style, isAuto)
    requires Get(style, axis.mainSize) == Num(w) && w >= 0.0
    requires FixedNumeric(styles, comps, axis, n)
    ensures var acc := LinesFold(style, axis, isAuto, styles, comps, n);
      LinesFit(acc.closed) && Fits(acc.mainSpace)
  {
    if n > 0 {
      var m: nat := n - 1;
      WrapFoldFits(style, axis, isAuto, styles, comps, m, w);
      WrapFitsStep(style, axis, isAuto, styles, comps, m, w);
    }
  }

  /** The step of `WrapFoldFits`: from the first `m` children to the first `m + 1`. */
  lemma WrapFitsStep(style: Style, axis: Axis, isAuto: bool, styles: seq<Style>, comps: seq<Computed>, m: nat, w: real)
    requires m < |styles| == |comps| && !SingleLine(style, isAuto)
    requires Get(style, axis.mainSize) == Num(w) && w >= 0.0
    requires FixedNumeric(styles, comps, axis, m + 1)
    requires var acc := LinesFold(style, axis, isAuto, styles, comps, m);
      LinesFit(acc.closed) && Fits(acc.mainSpace)
    ensures var acc := LinesFold(style, axis, isAuto, styles, comps, m + 1);
      LinesFit(acc.closed) && Fits(acc.mainSpace)
  {
    LinesFoldNext(style, axis, isAuto, styles, comps, m);
    LinesFoldUntouched(style, axis, isAuto, styles, comps, m, m);
    var acc := LinesFold(style, axis, isAuto, styles, comps, m);
    var r := LinesFold(style, axis, isAuto, styles, comps, m + 1);
    if IsFlexItem(styles, comps, axis, m) {
      assert r.closed == acc.closed && r.mainSpace == acc.mainSpace;
    } else {
      WrapStep(style, axis, isAuto, acc, m, comps[m], w, acc.mainSpace.n, PreparedSize(styles, comps, axis, m).n);
      assert r.closed == acc.closed || r.closed == acc.closed + [FlexLine(acc.current, acc.mainSpace, acc.crossSpace)];
    }
  }

  /**
   * In wrap mode, with a main size that is a number and not negative and
   * children whose main sizes are numbers, no line overflows: every line's
   * space is a number that is not negative. So `computeMainAxis` never takes
   * its overflow branch in wrap mode, and places the lines one by one.
   */
  lemma WrapLinesFit(style: Style, styles: seq<Style>, comps: seq<Computed>, axis: Axis, isAuto: bool, w: real)
    requires |styles| == |comps| && !SingleLine(style, isAuto)
    requires Get(style, axis.mainSize) == Num(w) && w >= 0.0
    requires FixedNumeric(styles, comps, axis, |styles|)
    ensures var r := FlexLines(style, styles, comps, axis, isAuto);
      LinesFit(r.lines) &&
      MainAxis(style, r.styles, comps, axis, r.lines) == LinesMain(style, r.styles, comps, axis, r.lines, |r.lines|)
  {
    WrapFoldFits(style, axis, isAuto, styles, comps, |styles|, w);
    var r := FlexLines(style, styles, comps, axis, isAuto);
    assert Fits(r.lines[0].mainSpace);
  }
}
