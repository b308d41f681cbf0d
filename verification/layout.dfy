/**
 * The flex layout of parser/layout.js. `layout(element)` lays out the
 * element's element-type children along a main axis and a cross axis:
 * it fills in the container's style, picks the axes, sizes an auto main
 * axis, breaks the children into flex lines, places them along the main
 * axis and sums the lines' cross sizes.
 *
 * Elements are objects whose `style` maps the layout overwrites in place,
 * so they are a class here, and each step of the layout is a method that
 * updates those maps in the source's own loops. Next to every method is the
 * pure function it is proved against; the properties of those functions
 * are in module LayoutProperties.
 *
 * Identifiers that the source uses without declaring them are read as
 * evidently intended, and each use says so where it occurs.
 */
module Layout {
  import opened StyleValues

  class LayoutElement {
    /** `element.style`; a missing style object is the empty map. */
    var style: Style
    /** `element.computedStyle`, `None` when absent. */
    const computedStyle: Option<Computed>
    /** `element.type === 'element'`. */
    const isElement: bool
    /** `element.order`, read by the sort comparator. */
    const order: Value
    const children: seq<LayoutElement>

    constructor (computedStyle: Option<Computed>, isElement: bool, order: Value, children: seq<LayoutElement>)
      ensures this.style == map[] && this.computedStyle == computedStyle && this.isElement == isElement
      ensures this.order == order && this.children == children
    {
      this.style := map[];
      this.computedStyle := computedStyle;
      this.isElement := isElement;
      this.order := order;
      this.children := children;
    }

    /** The computed style as `for (prop in computedStyle)` sees it: nothing when absent. */
    function Computed(): Computed
    {
      if computedStyle.Some? then computedStyle.value else map[]
    }

    /** `getStyle(element)`: copy every non-null computed value into `style`. */
    method GetStyle()
      modifies this
      ensures style == CopyStyle(old(style), Computed())
    {
      var c := Computed();
      var keys := c.Keys;
      var s := style;
      while keys != {}
        invariant keys <= c.Keys && style == old(style)
        invariant s == CopyStyle(style, c - keys)
        decreases |keys|
      {
        var prop :| prop in keys;
        if c[prop].Some? {
          s := s[prop := Convert(c[prop].value)];
        }
        CopyOneMore(style, c, keys, prop);
        keys := keys - {prop};
      }
      assert c - {} == c;
      style := s;
    }
  }

  /** Copying one more key of the computed style. */
  lemma CopyOneMore(style: Style, c: Computed, keys: set<string>, prop: string)
    requires prop in keys && keys <= c.Keys
    ensures CopyStyle(style, c - (keys - {prop}))
      == if c[prop].Some? then CopyStyle(style, c - keys)[prop := Convert(c[prop].value)] else CopyStyle(style, c - keys)
  {
    var a := CopyStyle(style, c - (keys - {prop}));
    var b := CopyStyle(style, c - keys);
    if c[prop].Some? {
      assert a.Keys == b[prop := Convert(c[prop].value)].Keys;
    } else {
      assert Present(c - (keys - {prop})) == Present(c - keys);
    }
  }

  predicate Distinct(cs: seq<LayoutElement>)
  {
    forall i, j :: 0 <= i < j < |cs| ==> cs[i] != cs[j]
  }

  /** The style objects of a list of elements. */
  function Styles(cs: seq<LayoutElement>): seq<Style>
    reads cs
  {
    seq(|cs|, i requires 0 <= i < |cs| reads cs => cs[i].style)
  }

  /** The computed styles of a list of elements. */
  function Comps(cs: seq<LayoutElement>): seq<Computed>
  {
    seq(|cs|, i requires 0 <= i < |cs| => cs[i].Computed())
  }

  /** `getStyle(children[i])`, as the list of styles sees it. */
  method GetStyleAt(children: seq<LayoutElement>, i: nat)
    requires Distinct(children) && i < |children|
    modifies children[i]
    ensures children[i].style == CopyStyle(old(children[i].style), children[i].Computed())
    ensures Styles(children) == old(Styles(children))[i := children[i].style]
  {
    children[i].GetStyle();
    assert forall j :: 0 <= j < |children| && j != i ==> children[j] != children[i];
  }

  lemma UpdateTwice<T>(s: seq<T>, i: nat, a: T, b: T)
    requires i < |s|
    ensures s[i := a][i := b] == s[i := b]
  {
  }

  /** Writing back the style object of `children[i]`. */
  method SetStyleAt(children: seq<LayoutElement>, i: nat, s: Style)
    requires Distinct(children) && i < |children|
    modifies children[i]
    ensures children[i].style == s
    ensures Styles(children) == old(Styles(children))[i := s]
  {
    children[i].style := s;
    assert forall j :: 0 <= j < |children| && j != i ==> children[j] != children[i];
  }

  // ---------------------------------------------------------------------
  // The container's defaults and the axis table.
  // ---------------------------------------------------------------------

  /**
   * The defaults `layout` fills in, in order; `aliginItems` and
   * `aliginContent` are the source's own spelling.
   */
  const Defaults: seq<(string, Value)> := [
    ("width", Null), ("height", Null), ("flexDirection", Str("row")),
    ("aliginItems", Str("stretch")), ("justifyContent", Str("flex-start")),
    ("flexWrap", Str("nowrap")), ("aliginContent", Str("stretch"))]

  /** `setDefault` applied with each of the first `n` defaults in turn. */
  function WithDefaults(s: Style, n: nat): Style
    requires n <= |Defaults|
  {
    if n == 0 then s else SetDefault(WithDefaults(s, n - 1), Defaults[n - 1].0, Defaults[n - 1].1)
  }

  /**
   * The flex directions the layout accepts. The source tests an undeclared
   * `flexDirections` (parser/layout.js:25); this is its evident meaning.
   */
  const FlexDirections: set<string> := {"row", "row-reverse", "column", "column-reverse"}

  predicate KnownDirection(style: Style)
  {
    Get(style, "flexDirection").Str? && Get(style, "flexDirection").s in FlexDirections
  }

  /** The names and signs of the two axes (`computeLayoutAxis`'s result). */
  datatype Axis = Axis(
    mainSize: string, mainStart: string, mainEnd: string, mainSign: real, mainBase: Value,
    crossSize: string, crossStart: string, crossEnd: string, crossSign: real, crossBase: Value)

  /**
   * `computeLayoutAxis(style)`: a fixed table per flex direction, with the
   * cross edges swapped for `wrap-reverse`. The source swaps through the
   * undeclared `crossStart` and `crossEnd` (parser/layout.js:268-269); the
   * evident meaning is the table's own cross edges. An unknown direction
   * gives no axis names (`None`).
   */
  function LayoutAxis(style: Style): (r: Option<Axis>)
    ensures r.Some? <==> KnownDirection(style)
  {
    var direction := Get(style, "flexDirection");
    var table :=
      if direction == Str("row") then
        Some(Axis("width", "left", "right", 1.0, Num(0.0), "height", "top", "bottom", 0.0, Null))
      else if direction == Str("row-reverse") then
        Some(Axis("width", "right", "left", -1.0, Get(style, "width"), "height", "top", "bottom", 0.0, Null))
      else if direction == Str("column") then
        Some(Axis("height", "top", "bottom", 1.0, Num(0.0), "width", "left", "right", 0.0, Null))
      else if direction == Str("column-reverse") then
        Some(Axis("height", "bottom", "top", -1.0, Get(style, "height"), "width", "left", "right", 0.0, Null))
      else None;
    if table.None? then None
    else
      var a := table.value;
      if Get(style, "flexWrap") == Str("wrap-reverse") then
        Some(a.(crossStart := a.crossEnd, crossEnd := a.crossStart, crossSign := -1.0, crossBase := Get(style, a.crossSize)))
      else
        Some(a.(crossSign := 1.0, crossBase := Num(0.0)))
  }

  // ---------------------------------------------------------------------
  // The children: element-type children, stably sorted by `order`.
  // ---------------------------------------------------------------------

  /** `(element.order || 0)` as a number. */
  function OrderKey(e: LayoutElement): real
  {
    if Truthy(e.order) && ToNumber(e.order).Num? then ToNumber(e.order).n else 0.0
  }

  /** The `filter` of `layout`: the element-type children in document order. */
  function ElementChildren(cs: seq<LayoutElement>): (r: seq<LayoutElement>)
    ensures forall i :: 0 <= i < |r| ==> r[i].isElement
    ensures multiset(r) <= multiset(cs)
  {
    if cs == [] then []
    else
      var rest := ElementChildren(cs[1..]);
      assert cs == [cs[0]] + cs[1..];
      if cs[0].isElement then [cs[0]] + rest else rest
  }

  /** Put `x` in front of the first element whose key is not smaller. */
  function InsertByOrder(x: LayoutElement, ys: seq<LayoutElement>): (r: seq<LayoutElement>)
    ensures multiset(r) == multiset(ys) + multiset{x}
  {
    if ys == [] || OrderKey(x) <= OrderKey(ys[0]) then [x] + ys
    else
      assert ys == [ys[0]] + ys[1..];
      [ys[0]] + InsertByOrder(x, ys[1..])
  }

  /** `Array.prototype.sort` with the comparator `(a.order || 0) - (b.order || 0)`, which is stable. */
  function SortByOrder(xs: seq<LayoutElement>): (r: seq<LayoutElement>)
    ensures multiset(r) == multiset(xs)
  {
    if xs == [] then []
    else
      assert xs == [xs[0]] + xs[1..];
      InsertByOrder(xs[0], SortByOrder(xs[1..]))
  }

  /** The children that `layout` lays out, in layout order. */
  function LaidOut(e: LayoutElement): (r: seq<LayoutElement>)
    ensures forall c :: c in r ==> c in e.children && c.isElement
  {
    var f := ElementChildren(e.children);
    var r := SortByOrder(f);
    assert forall c :: c in r ==> c in multiset(f) && c in multiset(e.children);
    r
  }

  // ---------------------------------------------------------------------
  // computeAutoMainSize.
  // ---------------------------------------------------------------------

  /** The `reduce` of `computeAutoMainSize` over the first `n` children: null sizes are skipped. */
  function SumSizes(ss: seq<Style>, key: string, n: nat): Value
    requires n <= |ss|
  {
    if n == 0 then Num(0.0)
    else
      var v := Get(ss[n - 1], key);
      if v == Null then SumSizes(ss, key, n - 1) else Plus(SumSizes(ss, key, n - 1), v)
  }

  datatype AutoResult = AutoResult(isAuto: bool, style: Style, childStyles: seq<Style>)

  /** The children's styles after `getStyle` on each of the first `n`. */
  function CopyAll(styles: seq<Style>, comps: seq<Computed>, n: nat): (r: seq<Style>)
    requires n <= |styles| == |comps|
    ensures |r| == |styles|
    ensures forall i :: 0 <= i < n ==> r[i] == CopyStyle(styles[i], comps[i])
    ensures forall i :: n <= i < |styles| ==> r[i] == styles[i]
  {
    seq(|styles|, i requires 0 <= i < |styles| => if i < n then CopyStyle(styles[i], comps[i]) else styles[i])
  }

  /**
   * `computeAutoMainSize`: a falsy main size becomes the sum of the
   * children's main sizes (each child's style is re-copied on the way).
   */
  function AutoMainSize(style: Style, styles: seq<Style>, comps: seq<Computed>, mainSize: string): (r: AutoResult)
    requires |styles| == |comps|
    ensures r.isAuto == !Truthy(Get(style, mainSize))
    ensures !r.isAuto ==> r.style == style && r.childStyles == styles
    ensures r.isAuto ==> |r.childStyles| == |styles| && forall i :: 0 <= i < |styles| ==> r.childStyles[i] == CopyStyle(styles[i], comps[i])
    ensures r.isAuto ==> r.style == style[mainSize := SumSizes(r.childStyles, mainSize, |styles|)]
  {
    if Truthy(Get(style, mainSize)) then AutoResult(false, style, styles)
    else
      var copies := CopyAll(styles, comps, |styles|);
      AutoResult(true, style[mainSize := SumSizes(copies, mainSize, |copies|)], copies)
  }

  method ComputeAutoMainSize(element: LayoutElement, children: seq<LayoutElement>, mainSize: string) returns (isAuto: bool)
    requires Distinct(children) && element !in children
    modifies element, children
    ensures var r := AutoMainSize(old(element.style), old(Styles(children)), Comps(children), mainSize);
      isAuto == r.isAuto && element.style == r.style && Styles(children) == r.childStyles
  {
    isAuto := !Truthy(Get(element.style, mainSize));
    if isAuto {
      var size := SumChildren(children, mainSize);
      element.style := element.style[mainSize := size];
    }
  }

  /** The `reduce` of `computeAutoMainSize`, with its `getStyle` calls. */
  method SumChildren(children: seq<LayoutElement>, mainSize: string) returns (size: Value)
    requires Distinct(children)
    modifies children
    ensures Styles(children) == CopyAll(old(Styles(children)), Comps(children), |children|)
    ensures size == SumSizes(Styles(children), mainSize, |children|)
  {
    ghost var before := Styles(children);
    ghost var copies := CopyAll(before, Comps(children), |children|);
    size := Num(0.0);
    for i := 0 to |children|
      invariant Styles(children) == CopyAll(before, Comps(children), i)
      invariant size == SumSizes(copies, mainSize, i)
    {
      size := AddChildSize(children, i, mainSize, size);
      assert Styles(children) == CopyAll(before, Comps(children), i + 1);
    }
  }

  /** The `reduce` callback of `computeAutoMainSize` for `children[i]`. */
  method AddChildSize(children: seq<LayoutElement>, i: nat, mainSize: string, size: Value) returns (next: Value)
    requires Distinct(children) && i < |children|
    modifies children[i]
    ensures children[i].style == CopyStyle(old(children[i].style), children[i].Computed())
    ensures Styles(children) == old(Styles(children))[i := children[i].style]
    ensures next == if Get(children[i].style, mainSize) == Null then size else Plus(size, Get(children[i].style, mainSize))
  {
    GetStyleAt(children, i);
    var childSize := Get(children[i].style, mainSize);
    next := size;
    if childSize != Null {
      next := Plus(size, childSize);
    }
  }

  // ---------------------------------------------------------------------
  // computeFlexLines.
  // ---------------------------------------------------------------------

  /** A flex line: the indices of its children, and its `mainSpace` and `crossSpace`. */
  datatype FlexLine = FlexLine(items: seq<nat>, mainSpace: Value, crossSpace: Value)

  predicate ItemsIn(lines: seq<FlexLine>, n: nat)
  {
    forall k, j :: 0 <= k < |lines| && 0 <= j < |lines[k].items| ==> lines[k].items[j] < n
  }

  /** The running state of `computeFlexLines`: finished lines, the open line, the two spaces and the child styles. */
  datatype LineAcc = LineAcc(closed: seq<FlexLine>, current: seq<nat>, mainSpace: Value, crossSpace: Value, styles: seq<Style>)

  /** Everything goes on one line: `flexWrap` is `nowrap` or the main size was auto. */
  predicate SingleLine(style: Style, isAuto: bool)
  {
    Get(style, "flexWrap") == Str("nowrap") || isAuto
  }

  /** What `computeFlexLines` makes of a child's style before looking at it. */
  function Prepare(s: Style, c: Computed, axis: Axis): Style
  {
    SetDefault(CopyStyle(s, c), axis.mainSize, Num(0.0))
  }

  /** `crossSpace = Math.max(crossSpace, childStyle[crossSize])` when that size is not null. */
  function GrowCross(crossSpace: Value, s: Style, crossSize: string): Value
  {
    if Get(s, crossSize) != Null then Max(crossSpace, Get(s, crossSize)) else crossSpace
  }

  /** The loop body of `computeFlexLines` for child `i`. */
  function LineStep(style: Style, axis: Axis, isAuto: bool, acc: LineAcc, i: nat, c: Computed): (r: LineAcc)
    requires i < |acc.styles|
    ensures |r.styles| == |acc.styles|
  {
    var s := Prepare(acc.styles[i], c, axis);
    var main := axis.mainSize;
    if Get(s, "flex") != Null then
      acc.(current := acc.current + [i], styles := acc.styles[i := s])
    else if SingleLine(style, isAuto) then
      acc.(current := acc.current + [i], mainSpace := Minus(acc.mainSpace, Get(s, main)),
           crossSpace := GrowCross(acc.crossSpace, s, axis.crossSize), styles := acc.styles[i := s])
    else
      var t := if Less(Get(style, main), Get(s, main)) then s[main := Get(style, main)] else s;
      var a :=
        if Less(acc.mainSpace, Get(t, main)) then
          LineAcc(acc.closed + [FlexLine(acc.current, acc.mainSpace, acc.crossSpace)], [i], Get(style, main), Num(0.0), acc.styles)
        else acc.(current := acc.current + [i]);
      a.(crossSpace := GrowCross(a.crossSpace, t, axis.crossSize), mainSpace := Minus(a.mainSpace, Get(t, main)),
         styles := acc.styles[i := t])
  }

  /** `computeFlexLines` after the first `n` children. */
  function LinesFold(style: Style, axis: Axis, isAuto: bool, styles: seq<Style>, comps: seq<Computed>, n: nat): (r: LineAcc)
    requires n <= |styles| == |comps|
    ensures |r.styles| == |styles|
  {
    if n == 0 then LineAcc([], [], Get(style, axis.mainSize), Num(0.0), styles)
    else LineStep(style, axis, isAuto, LinesFold(style, axis, isAuto, styles, comps, n - 1), n - 1, comps[n - 1])
  }

  /** The `computeFlexLines` loop's next pass. */
  lemma LinesFoldNext(style: Style, axis: Axis, isAuto: bool, styles: seq<Style>, comps: seq<Computed>, i: nat)
    requires i < |styles| == |comps|
    ensures LinesFold(style, axis, isAuto, styles, comps, i + 1)
      == LineStep(style, axis, isAuto, LinesFold(style, axis, isAuto, styles, comps, i), i, comps[i])
  {
  }

  /** Every index the fold puts on a line is below the number of children seen. */
  lemma {:induction false} LinesFoldItems(style: Style, axis: Axis, isAuto: bool, styles: seq<Style>, comps: seq<Computed>, n: nat)
    requires n <= |styles| == |comps|
    ensures var r := LinesFold(style, axis, isAuto, styles, comps, n);
      ItemsIn(r.closed, n) && AllBelow(r.current, n)
  {
    if n > 0 {
      LinesFoldItems(style, axis, isAuto, styles, comps, n - 1);
      LineStepItems(style, axis, isAuto, LinesFold(style, axis, isAuto, styles, comps, n - 1), n, comps[n - 1]);
    }
  }

  predicate AllBelow(xs: seq<nat>, n: nat)
  {
    forall j :: 0 <= j < |xs| ==> xs[j] < n
  }

  lemma LineStepItems(style: Style, axis: Axis, isAuto: bool, acc: LineAcc, n: nat, c: Computed)
    requires 0 < n <= |acc.styles|
    requires ItemsIn(acc.closed, n - 1) && AllBelow(acc.current, n - 1)
    ensures var r := LineStep(style, axis, isAuto, acc, n - 1, c);
      ItemsIn(r.closed, n) && AllBelow(r.current, n)
  {
    var r := LineStep(style, axis, isAuto, acc, n - 1, c);
    assert r.closed == acc.closed || r.closed == acc.closed + [FlexLine(acc.current, acc.mainSpace, acc.crossSpace)];
    assert r.current == acc.current + [n - 1] || r.current == [n - 1];
  }

  datatype LinesResult = LinesResult(lines: seq<FlexLine>, styles: seq<Style>)

  /** `computeFlexLines`: the last line gets its spaces after the loop. */
  function FlexLines(style: Style, styles: seq<Style>, comps: seq<Computed>, axis: Axis, isAuto: bool): (r: LinesResult)
    requires |styles| == |comps|
    ensures |r.lines| >= 1 && |r.styles| == |styles| && ItemsIn(r.lines, |styles|)
  {
    var acc := LinesFold(style, axis, isAuto, styles, comps, |styles|);
    LinesFoldItems(style, axis, isAuto, styles, comps, |styles|);
    var lastCross :=
      if SingleLine(style, isAuto) then
        (if Get(style, axis.crossSize) == Null then acc.crossSpace else Get(style, axis.crossSize))
      else acc.crossSpace;
    LinesResult(acc.closed + [FlexLine(acc.current, acc.mainSpace, lastCross)], acc.styles)
  }

  /** `getStyle(child)` followed by `setDefault(childStyle, mainSize, 0)`. */
  method PrepareAt(children: seq<LayoutElement>, i: nat, axis: Axis)
    requires Distinct(children) && i < |children|
    modifies children[i]
    ensures children[i].style == Prepare(old(children[i].style), children[i].Computed(), axis)
    ensures Styles(children) == old(Styles(children))[i := children[i].style]
  {
    GetStyleAt(children, i);
    SetStyleAt(children, i, SetDefault(children[i].style, axis.mainSize, Num(0.0)));
  }

  method ComputeFlexLines(element: LayoutElement, children: seq<LayoutElement>, axis: Axis, isAuto: bool)
    returns (flexLines: seq<FlexLine>)
    requires Distinct(children) && element !in children
    modifies children
    ensures var r := FlexLines(element.style, old(Styles(children)), Comps(children), axis, isAuto);
      flexLines == r.lines && Styles(children) == r.styles
  {
    var style := element.style;
    var closed, flexLine, mainSpace, crossSpace := FlexLinesLoop(style, children, axis, isAuto);
    var lastCross := crossSpace;
    if Get(style, "flexWrap") == Str("nowrap") || isAuto {
      lastCross := if Get(style, axis.crossSize) == Null then crossSpace else Get(style, axis.crossSize);
    }
    flexLines := closed + [FlexLine(flexLine, mainSpace, lastCross)];
  }

  /** The loop of `computeFlexLines` over every child. */
  method FlexLinesLoop(style: Style, children: seq<LayoutElement>, axis: Axis, isAuto: bool)
    returns (closed: seq<FlexLine>, flexLine: seq<nat>, mainSpace: Value, crossSpace: Value)
    requires Distinct(children)
    modifies children
    ensures LineAcc(closed, flexLine, mainSpace, crossSpace, Styles(children))
      == LinesFold(style, axis, isAuto, old(Styles(children)), Comps(children), |children|)
  {
    ghost var before := Styles(children);
    ghost var comps := Comps(children);
    closed := [];
    flexLine := [];
    mainSpace := Get(style, axis.mainSize);
    crossSpace := Num(0.0);
    for i := 0 to |children|
      invariant LineAcc(closed, flexLine, mainSpace, crossSpace, Styles(children)) == LinesFold(style, axis, isAuto, before, comps, i)
    {
      closed, flexLine, mainSpace, crossSpace := FlexLineChild(style, children, i, axis, isAuto, closed, flexLine, mainSpace, crossSpace, before);
    }
  }

  /**
   * The body of the `computeFlexLines` loop for `children[i]`: when the
   * loop variables hold the fold over the first `i` children of the styles
   * `before`, they hold the fold over the first `i + 1` afterwards.
   */
  method FlexLineChild(style: Style, children: seq<LayoutElement>, i: nat, axis: Axis, isAuto: bool,
                       closed0: seq<FlexLine>, flexLine0: seq<nat>, mainSpace0: Value, crossSpace0: Value, ghost before: seq<Style>)
    returns (closed: seq<FlexLine>, flexLine: seq<nat>, mainSpace: Value, crossSpace: Value)
    requires Distinct(children) && i < |children| == |before|
    requires LineAcc(closed0, flexLine0, mainSpace0, crossSpace0, Styles(children)) == LinesFold(style, axis, isAuto, before, Comps(children), i)
    modifies children[i]
    ensures LineAcc(closed, flexLine, mainSpace, crossSpace, Styles(children)) == LinesFold(style, axis, isAuto, before, Comps(children), i + 1)
  {
    LinesFoldNext(style, axis, isAuto, before, Comps(children), i);
    closed, flexLine, mainSpace, crossSpace := closed0, flexLine0, mainSpace0, crossSpace0;
    var main := axis.mainSize;
    var cross := axis.crossSize;
    PrepareAt(children, i, axis);
    var childStyle := children[i].style;
    if Get(childStyle, "flex") != Null {
      flexLine := flexLine + [i];
    } else if Get(style, "flexWrap") == Str("nowrap") || isAuto {
      mainSpace := Minus(mainSpace, Get(childStyle, main));
      if Get(childStyle, cross) != Null {
        crossSpace := Max(crossSpace, Get(childStyle, cross));
      }
      flexLine := flexLine + [i];
    } else {
      if Less(Get(style, main), Get(childStyle, main)) {
        childStyle := childStyle[main := Get(style, main)];
        ghost var prepared := Styles(children);
        SetStyleAt(children, i, childStyle);
        UpdateTwice(old(Styles(children)), i, prepared[i], childStyle);
      }
      if Less(mainSpace, Get(childStyle, main)) {
        closed := closed + [FlexLine(flexLine, mainSpace, crossSpace)];
        flexLine := [i];
        mainSpace := Get(style, main);
        crossSpace := Num(0.0);
      } else {
        flexLine := flexLine + [i];
      }
      if Get(childStyle, cross) != Null {
        crossSpace := Max(crossSpace, Get(childStyle, cross));
      }
      mainSpace := Minus(mainSpace, Get(childStyle, main));
    }
  }

  // ---------------------------------------------------------------------
  // computeMainAxis.
  // ---------------------------------------------------------------------

  /** How an item's main size changes before it is placed. */
  datatype Resize =
    | Keep
      /** Overflow: flex items shrink to 0, then every size is multiplied by the factor. */
    | Scale(factor: Value)
      /** Free space: an item with a truthy `flex` gets `unit * flex`. */
    | Share(unit: Value)

  /** One placement: resize, then `mainStart = currentMain` and `mainEnd = mainStart + mainSign * size`. */
  function PlaceItem(s: Style, axis: Axis, resize: Resize, cur: Value): Style
  {
    var main := axis.mainSize;
    var sized :=
      match resize
      case Keep => s
      case Scale(f) =>
        var z := if Get(s, "flex") != Null then s[main := Num(0.0)] else s;
        z[main := Times(Get(z, main), f)]
      case Share(u) =>
        if Truthy(Get(s, "flex")) then s[main := Times(u, Get(s, "flex"))] else s;
    var started := sized[axis.mainStart := cur];
    started[axis.mainEnd := Plus(Get(started, axis.mainStart), Times(Num(axis.mainSign), Get(started, main)))]
  }

  datatype Placed = Placed(styles: seq<Style>, cur: Value)

  /**
   * The placement loop over the first `k` items: each item's style is
   * re-copied by `getStyle`, then placed; `currentMain` moves to the item's
   * end, plus `step` when there is one.
   */
  function PlaceFold(styles: seq<Style>, comps: seq<Computed>, items: seq<nat>, axis: Axis, resize: Resize,
                     cur0: Value, step: Option<Value>, k: nat): (r: Placed)
    requires |styles| == |comps| && k <= |items|
    requires forall j :: 0 <= j < |items| ==> items[j] < |styles|
    ensures |r.styles| == |styles|
  {
    if k == 0 then Placed(styles, cur0)
    else PlaceStep(PlaceFold(styles, comps, items, axis, resize, cur0, step, k - 1), comps, items[k - 1], axis, resize, step)
  }

  /** One pass of the placement loop, for the child at index `i`. */
  function PlaceStep(p: Placed, comps: seq<Computed>, i: nat, axis: Axis, resize: Resize, step: Option<Value>): (r: Placed)
    requires i < |p.styles| == |comps|
    ensures |r.styles| == |p.styles|
  {
    var s := PlaceItem(CopyStyle(p.styles[i], comps[i]), axis, resize, p.cur);
    var end := Get(s, axis.mainEnd);
    Placed(p.styles[i := s], if step.Some? then Plus(end, step.value) else end)
  }

  datatype Totaled = Totaled(styles: seq<Style>, total: Value)

  /** The `flexTotal` loop over the first `k` items, which re-copies each item's style. */
  function TotalFold(styles: seq<Style>, comps: seq<Computed>, items: seq<nat>, k: nat): (r: Totaled)
    requires |styles| == |comps| && k <= |items|
    requires forall j :: 0 <= j < |items| ==> items[j] < |styles|
    ensures |r.styles| == |styles|
  {
    if k == 0 then Totaled(styles, Num(0.0))
    else
      var t := TotalFold(styles, comps, items, k - 1);
      var i := items[k - 1];
      var s := CopyStyle(t.styles[i], comps[i]);
      Totaled(t.styles[i := s], if Get(s, "flex") != Null then Plus(t.total, Get(s, "flex")) else t.total)
  }

  /** The `flexTotal` loop's next pass. */
  lemma TotalFoldNext(styles: seq<Style>, comps: seq<Computed>, items: seq<nat>, k: nat)
    requires |styles| == |comps| && k < |items|
    requires forall j :: 0 <= j < |items| ==> items[j] < |styles|
    ensures var t := TotalFold(styles, comps, items, k); var i := items[k]; var s := CopyStyle(t.styles[i], comps[i]);
      TotalFold(styles, comps, items, k + 1)
        == Totaled(t.styles[i := s], if Get(s, "flex") != Null then Plus(t.total, Get(s, "flex")) else t.total)
  {
  }

  /**
   * The `justifyContent` switch: the first `currentMain` and the `step`
   * between items. Both start out `null`, and a value without a case leaves
   * them so. `space-between` divides by `(length - 1) || 1`, which is -1 for
   * an empty line.
   */
  function Justify(justify: Value, mainSpace: Value, count: nat, axis: Axis): (Value, Value)
  {
    var sign := Num(axis.mainSign);
    var base := axis.mainBase;
    if justify == Str("flex-start") then (base, Num(0.0))
    else if justify == Str("flex-end") then (Plus(Times(mainSpace, sign), base), Num(0.0))
    else if justify == Str("center") then (Plus(Times(Div(mainSpace, Num(2.0)), sign), base), Num(0.0))
    else if justify == Str("space-between") then
      var partCount := if count - 1 != 0 then count - 1 else 1;
      (base, Times(Div(mainSpace, Num(partCount as real)), sign))
    else if justify == Str("space-around") then
      var partCount := if count != 0 then count else 1;
      var step := Times(Div(mainSpace, Num(partCount as real)), sign);
      (Plus(Div(step, Num(2.0)), base), step)
    else (Null, Null)
  }

  /**
   * One line of the free-space branch of `computeMainAxis`. A line whose
   * `currentMain` is still `null` after the switch is skipped: there is no
   * case for its `justifyContent`, or it starts at a `mainBase` that is
   * `null` (a reverse direction whose main size was not set).
   */
  function LineMain(style: Style, styles: seq<Style>, comps: seq<Computed>, axis: Axis, line: FlexLine): (r: seq<Style>)
    requires |styles| == |comps|
    requires forall j :: 0 <= j < |line.items| ==> line.items[j] < |styles|
    ensures |r| == |styles|
  {
    var items := line.items;
    var t := TotalFold(styles, comps, items, |items|);
    if Less(Num(0.0), t.total) then
      PlaceFold(t.styles, comps, items, axis, Share(Div(line.mainSpace, t.total)), axis.mainBase, None, |items|).styles
    else
      var j := Justify(Get(style, "justifyContent"), line.mainSpace, |items|, axis);
      if j.0 == Null then t.styles
      else PlaceFold(t.styles, comps, items, axis, Keep, j.0, Some(j.1), |items|).styles
  }

  /** The free-space branch over the first `k` lines. */
  function LinesMain(style: Style, styles: seq<Style>, comps: seq<Computed>, axis: Axis, lines: seq<FlexLine>, k: nat): (r: seq<Style>)
    requires |styles| == |comps| && k <= |lines| && ItemsIn(lines, |styles|)
    ensures |r| == |styles|
  {
    if k == 0 then styles
    else LineMain(style, LinesMain(style, styles, comps, axis, lines, k - 1), comps, axis, lines[k - 1])
  }

  function Range(n: nat): (r: seq<nat>)
    ensures |r| == n && forall i :: 0 <= i < n ==> r[i] == i
  {
    seq(n, i requires 0 <= i < n => i)
  }

  /** The overflow factor: the main size over the main size minus the first line's (negative) space. */
  function ScaleFactor(style: Style, axis: Axis, lines: seq<FlexLine>): Value
    requires |lines| >= 1
  {
    Div(Get(style, axis.mainSize), Minus(Get(style, axis.mainSize), lines[0].mainSpace))
  }

  /**
   * `computeMainAxis`. The source reads `mainSpace` and `mainSign` without
   * declaring them (parser/layout.js:119, 129, 152, 185), and destructures
   * `mainSize`, `mainBase`, `mainStart` and `mainEnd` only inside the
   * overflow branch (118), so the other branch reads those four undeclared
   * (145-152, 160-185). It also declares `partCount` twice in one block
   * (171, 176). The evident meaning is the first line's space and the
   * axis's fields, with one `partCount` per case.
   */
  function MainAxis(style: Style, styles: seq<Style>, comps: seq<Computed>, axis: Axis, lines: seq<FlexLine>): (r: seq<Style>)
    requires |styles| == |comps| && |lines| >= 1 && ItemsIn(lines, |styles|)
    ensures |r| == |styles|
  {
    if Less(lines[0].mainSpace, Num(0.0)) then
      PlaceFold(styles, comps, Range(|styles|), axis, Scale(ScaleFactor(style, axis, lines)), axis.mainBase, None, |styles|).styles
    else LinesMain(style, styles, comps, axis, lines, |lines|)
  }

  /** The placement loop, run on the children's style objects. */
  method Place(children: seq<LayoutElement>, items: seq<nat>, axis: Axis, resize: Resize, cur0: Value, step: Option<Value>)
    requires Distinct(children)
    requires forall j :: 0 <= j < |items| ==> items[j] < |children|
    modifies children
    ensures Styles(children) == PlaceFold(old(Styles(children)), Comps(children), items, axis, resize, cur0, step, |items|).styles
  {
    ghost var before := Styles(children);
    ghost var comps := Comps(children);
    var currentMain := cur0;
    for k := 0 to |items|
      invariant Placed(Styles(children), currentMain) == PlaceFold(before, comps, items, axis, resize, cur0, step, k)
    {
      currentMain := PlaceNext(children, items, k, axis, resize, cur0, step, currentMain, before);
    }
  }

  /** One pass of the placement loop: from the fold over the first `k` items to the fold over `k + 1`. */
  method PlaceNext(children: seq<LayoutElement>, items: seq<nat>, k: nat, axis: Axis, resize: Resize, cur0: Value,
                   step: Option<Value>, currentMain: Value, ghost before: seq<Style>) returns (next: Value)
    requires Distinct(children) && k < |items| && |before| == |children|
    requires forall j :: 0 <= j < |items| ==> items[j] < |children|
    requires Placed(Styles(children), currentMain) == PlaceFold(before, Comps(children), items, axis, resize, cur0, step, k)
    modifies children[items[k]]
    ensures Placed(Styles(children), next) == PlaceFold(before, Comps(children), items, axis, resize, cur0, step, k + 1)
  {
    PlaceFoldNext(before, Comps(children), items, axis, resize, cur0, step, k);
    next := PlaceChild(children, items[k], axis, resize, currentMain, step);
  }

  /** The placement loop's next pass. */
  lemma PlaceFoldNext(styles: seq<Style>, comps: seq<Computed>, items: seq<nat>, axis: Axis, resize: Resize,
                      cur0: Value, step: Option<Value>, k: nat)
    requires |styles| == |comps| && k < |items|
    requires forall j :: 0 <= j < |items| ==> items[j] < |styles|
    ensures PlaceFold(styles, comps, items, axis, resize, cur0, step, k + 1)
      == PlaceStep(PlaceFold(styles, comps, items, axis, resize, cur0, step, k), comps, items[k], axis, resize, step)
  {
  }

  /** The body of the placement loop for `children[i]`. */
  method PlaceChild(children: seq<LayoutElement>, i: nat, axis: Axis, resize: Resize, currentMain: Value, step: Option<Value>)
    returns (next: Value)
    requires Distinct(children) && i < |children|
    modifies children[i]
    ensures Placed(Styles(children), next) == PlaceStep(Placed(old(Styles(children)), currentMain), Comps(children), i, axis, resize, step)
  {
    ghost var before := Styles(children);
    var main := axis.mainSize;
    GetStyleAt(children, i);
    var itemStyle := children[i].style;
    match resize {
      case Keep =>
      case Scale(f) =>
        if Get(itemStyle, "flex") != Null {
          itemStyle := itemStyle[main := Num(0.0)];
        }
        itemStyle := itemStyle[main := Times(Get(itemStyle, main), f)];
      case Share(u) =>
        if Truthy(Get(itemStyle, "flex")) {
          itemStyle := itemStyle[main := Times(u, Get(itemStyle, "flex"))];
        }
    }
    itemStyle := itemStyle[axis.mainStart := currentMain];
    itemStyle := itemStyle[axis.mainEnd := Plus(Get(itemStyle, axis.mainStart), Times(Num(axis.mainSign), Get(itemStyle, main)))];
    ghost var copied := Styles(children);
    SetStyleAt(children, i, itemStyle);
    UpdateTwice(old(Styles(children)), i, copied[i], itemStyle);
    next := Get(itemStyle, axis.mainEnd);
    if step.Some? {
      next := Plus(next, step.value);
    }
    assert before[i] == old(children[i].style) && Comps(children)[i] == children[i].Computed();
  }

  /** The `flexTotal` loop, run on the children's style objects. */
  method FlexTotal(children: seq<LayoutElement>, items: seq<nat>) returns (flexTotal: Value)
    requires Distinct(children)
    requires forall j :: 0 <= j < |items| ==> items[j] < |children|
    modifies children
    ensures var t := TotalFold(old(Styles(children)), Comps(children), items, |items|);
      flexTotal == t.total && Styles(children) == t.styles
  {
    ghost var before := Styles(children);
    ghost var comps := Comps(children);
    flexTotal := Num(0.0);
    for k := 0 to |items|
      invariant Totaled(Styles(children), flexTotal) == TotalFold(before, comps, items, k)
    {
      flexTotal := TotalNext(children, items, k, flexTotal, before);
    }
  }

  /** One pass of the `flexTotal` loop: from the fold over the first `k` items to the fold over `k + 1`. */
  method TotalNext(children: seq<LayoutElement>, items: seq<nat>, k: nat, flexTotal: Value, ghost before: seq<Style>)
    returns (next: Value)
    requires Distinct(children) && k < |items| && |before| == |children|
    requires forall j :: 0 <= j < |items| ==> items[j] < |children|
    requires Totaled(Styles(children), flexTotal) == TotalFold(before, Comps(children), items, k)
    modifies children[items[k]]
    ensures Totaled(Styles(children), next) == TotalFold(before, Comps(children), items, k + 1)
  {
    TotalFoldNext(before, Comps(children), items, k);
    GetStyleAt(children, items[k]);
    var itemStyle := children[items[k]].style;
    next := flexTotal;
    if Get(itemStyle, "flex") != Null {
      next := Plus(flexTotal, Get(itemStyle, "flex"));
    }
  }

  /** One flex line of the free-space branch of `computeMainAxis`. */
  method LineMainAxis(style: Style, children: seq<LayoutElement>, axis: Axis, flexLine: FlexLine)
    requires Distinct(children)
    requires forall j :: 0 <= j < |flexLine.items| ==> flexLine.items[j] < |children|
    modifies children
    ensures Styles(children) == LineMain(style, old(Styles(children)), Comps(children), axis, flexLine)
  {
    var mainSpace := flexLine.mainSpace;
    var flexTotal := FlexTotal(children, flexLine.items);
    if Less(Num(0.0), flexTotal) {
      Place(children, flexLine.items, axis, Share(Div(mainSpace, flexTotal)), axis.mainBase, None);
    } else {
      var j := Justify(Get(style, "justifyContent"), mainSpace, |flexLine.items|, axis);
      var currentMain, step := j.0, j.1;
      if currentMain != Null {
        Place(children, flexLine.items, axis, Keep, currentMain, Some(step));
      }
    }
  }

  method ComputeMainAxis(element: LayoutElement, children: seq<LayoutElement>, axis: Axis, flexLines: seq<FlexLine>)
    requires Distinct(children) && element !in children
    requires |flexLines| >= 1 && ItemsIn(flexLines, |children|)
    modifies children
    ensures Styles(children) == MainAxis(element.style, old(Styles(children)), Comps(children), axis, flexLines)
  {
    var style := element.style;
    if Less(flexLines[0].mainSpace, Num(0.0)) {
      var scale := Div(Get(style, axis.mainSize), Minus(Get(style, axis.mainSize), flexLines[0].mainSpace));
      Place(children, Range(|children|), axis, Scale(scale), axis.mainBase, None);
    } else {
      LinesMainAxis(style, children, axis, flexLines);
    }
  }

  /** The loop over the flex lines when the first line does not overflow. */
  method LinesMainAxis(style: Style, children: seq<LayoutElement>, axis: Axis, flexLines: seq<FlexLine>)
    requires Distinct(children) && ItemsIn(flexLines, |children|)
    modifies children
    ensures Styles(children) == LinesMain(style, old(Styles(children)), Comps(children), axis, flexLines, |flexLines|)
  {
    ghost var before := Styles(children);
    for k := 0 to |flexLines|
      invariant Styles(children) == LinesMain(style, before, Comps(children), axis, flexLines, k)
    {
      LineMainAxis(style, children, axis, flexLines[k]);
    }
  }

  // ---------------------------------------------------------------------
  // computeCrossAxis.
  // ---------------------------------------------------------------------

  /** The `reduce` over the first `k` lines: `size + flexLine.crossSpace` from 0. */
  function CrossTotal(lines: seq<FlexLine>, k: nat): Value
    requires k <= |lines|
  {
    if k == 0 then Num(0.0) else Plus(CrossTotal(lines, k - 1), lines[k - 1].crossSpace)
  }

  /** The loop of the other branch over the first `k` lines: `crossSpace -= flexLine.crossSpace`. */
  function CrossLeft(start: Value, lines: seq<FlexLine>, k: nat): Value
    requires k <= |lines|
  {
    if k == 0 then start else Minus(CrossLeft(start, lines, k - 1), lines[k - 1].crossSpace)
  }

  datatype CrossResult = CrossResult(style: Style, crossSpace: Value)

  /**
   * `computeCrossAxis`: an unset cross size becomes the lines' total; a set
   * one is left alone and only the local `crossSpace`, the leftover, is
   * computed (the source then drops it; it is returned here).
   */
  function CrossAxis(style: Style, axis: Axis, lines: seq<FlexLine>): CrossResult
  {
    if Get(style, axis.crossSize) == Null then
      CrossResult(style[axis.crossSize := CrossTotal(lines, |lines|)], Num(0.0))
    else CrossResult(style, CrossLeft(Get(style, axis.crossSize), lines, |lines|))
  }

  method ComputeCrossAxis(element: LayoutElement, axis: Axis, flexLines: seq<FlexLine>) returns (crossSpace: Value)
    modifies element
    ensures var r := CrossAxis(old(element.style), axis, flexLines);
      element.style == r.style && crossSpace == r.crossSpace
  {
    var crossSize := axis.crossSize;
    if Get(element.style, crossSize) == Null {
      crossSpace := Num(0.0);
      var size := Num(0.0);
      for k := 0 to |flexLines|
        invariant size == CrossTotal(flexLines, k)
      {
        size := Plus(size, flexLines[k].crossSpace);
      }
      element.style := element.style[crossSize := size];
    } else {
      crossSpace := Get(element.style, crossSize);
      for k := 0 to |flexLines|
        invariant crossSpace == CrossLeft(Get(element.style, crossSize), flexLines, k)
      {
        crossSpace := Minus(crossSpace, flexLines[k].crossSpace);
      }
    }
  }

  // ---------------------------------------------------------------------
  // layout.
  // ---------------------------------------------------------------------

  /** `layout` runs only for an element whose computed `display` is `'flex'`. */
  predicate IsFlexContainer(element: LayoutElement?)
  {
    element != null && element.computedStyle.Some? &&
    "display" in element.computedStyle.value && element.computedStyle.value["display"] == Some("flex")
  }

  datatype LayoutResult = LayoutResult(style: Style, childStyles: seq<Style>)

  /**
   * `layout` on a flex container: the container's style and the styles of
   * the laid-out children afterwards. An unknown flex direction stops after
   * the defaults are filled in.
   */
  function LayoutSpec(style: Style, computed: Computed, styles: seq<Style>, comps: seq<Computed>): (r: LayoutResult)
    requires |styles| == |comps|
    ensures |r.childStyles| == |styles|
  {
    var s := WithDefaults(CopyStyle(style, computed), |Defaults|);
    if !KnownDirection(s) then LayoutResult(s, styles) else FlexSpec(s, styles, comps)
  }

  /** The four passes of `layout`, once the container has a known flex direction. */
  function FlexSpec(s: Style, styles: seq<Style>, comps: seq<Computed>): (r: LayoutResult)
    requires |styles| == |comps| && KnownDirection(s)
    ensures |r.childStyles| == |styles|
  {
    var axis := LayoutAxis(s).value;
    var auto := AutoMainSize(s, styles, comps, axis.mainSize);
    var lines := FlexLines(auto.style, auto.childStyles, comps, axis, auto.isAuto);
    LayoutResult(CrossAxis(auto.style, axis, lines.lines).style,
                 MainAxis(auto.style, lines.styles, comps, axis, lines.lines))
  }

  function Frame(element: LayoutElement?): set<object>
  {
    if element == null then {} else {element} + set c | c in element.children
  }

  /** The state after `layout` on a flex container, given the container's and the laid-out children's styles before. */
  ghost predicate LaidOutAs(element: LayoutElement, style: Style, styles: seq<Style>)
    reads Frame(element)
  {
    var children := LaidOut(element);
    assert forall c :: c in children ==> c in element.children;
    |styles| == |children| &&
    var r := LayoutSpec(style, element.Computed(), styles, Comps(children));
    element.style == r.style && Styles(children) == r.childStyles
  }

  method Layout(element: LayoutElement?)
    requires element != null ==> Distinct(element.children) && element !in element.children
    modifies Frame(element)
    ensures element != null && !IsFlexContainer(element) ==> element.style == old(element.style) && Styles(element.children) == old(Styles(element.children))
    ensures IsFlexContainer(element) ==> LaidOutAs(element, old(element.style), old(Styles(LaidOut(element))))
    ensures element != null ==> forall c :: c in element.children && !c.isElement ==> c.style == old(c.style)
  {
    if !IsFlexContainer(element) {
      return;
    }
    LayoutContainer(element);
  }

  /** `layout` on a flex container. */
  method LayoutContainer(element: LayoutElement)
    requires IsFlexContainer(element) && Distinct(element.children) && element !in element.children
    modifies Frame(element)
    ensures LaidOutAs(element, old(element.style), old(Styles(LaidOut(element))))
    ensures forall c :: c in element.children && !c.isElement ==> c.style == old(c.style)
  {
    var children := SortByOrder(ElementChildren(element.children));
    LaidOutDistinct(element);
    PrepareContainer(element, children);
    if KnownDirection(element.style) {
      FlexLayout(element, children);
    }
  }

  /** `getStyle` and the defaults on the container, which leave the children's styles as they were. */
  method PrepareContainer(element: LayoutElement, children: seq<LayoutElement>)
    requires element !in children
    modifies element
    ensures element.style == WithDefaults(CopyStyle(old(element.style), element.Computed()), |Defaults|)
    ensures Styles(children) == old(Styles(children))
  {
    ContainerStyle(element);
    assert forall j :: 0 <= j < |children| ==> children[j].style == old(children[j].style);
  }

  /** `getStyle(element)` followed by the seven `setDefault` calls. */
  method ContainerStyle(element: LayoutElement)
    modifies element
    ensures element.style == WithDefaults(CopyStyle(old(element.style), element.Computed()), |Defaults|)
  {
    element.GetStyle();
    ghost var copied := element.style;
    for i := 0 to |Defaults|
      invariant element.style == WithDefaults(copied, i)
    {
      element.style := SetDefault(element.style, Defaults[i].0, Defaults[i].1);
    }
  }

  /** The passes of `layout` after the flex direction is known. */
  method FlexLayout(element: LayoutElement, children: seq<LayoutElement>)
    requires Distinct(children) && element !in children && KnownDirection(element.style)
    modifies element, children
    ensures var r := FlexSpec(old(element.style), old(Styles(children)), Comps(children));
      element.style == r.style && Styles(children) == r.childStyles
  {
    var axis := LayoutAxis(element.style).value;
    var isAuto := ComputeAutoMainSize(element, children, axis.mainSize);
    var flexLines := ComputeFlexLines(element, children, axis, isAuto);
    ComputeMainAxis(element, children, axis, flexLines);
    ghost var placed := Styles(children);
    var _ := ComputeCrossAxis(element, axis, flexLines);
    assert forall j :: 0 <= j < |children| ==> children[j].style == placed[j];
    assert Styles(children) == placed;
  }

  /** The laid-out children are distinct element children, and the container is not among them. */
  lemma LaidOutDistinct(element: LayoutElement)
    requires Distinct(element.children) && element !in element.children
    ensures Distinct(LaidOut(element)) && element !in LaidOut(element)
  {
    var r := LaidOut(element);
    var f := ElementChildren(element.children);
    assert multiset(r) == multiset(f) <= multiset(element.children);
    forall i, j | 0 <= i < j < |r|
      ensures r[i] != r[j]
    {
      if r[i] == r[j] {
        TwiceCounted(r, i, j);
        OnceCounted(element.children, r[i]);
      }
    }
  }

  lemma {:induction false} OnceCounted(a: seq<LayoutElement>, x: LayoutElement)
    requires Distinct(a)
    ensures multiset(a)[x] <= 1
  {
    if a != [] {
      assert a == [a[0]] + a[1..];
      OnceCounted(a[1..], x);
      if a[0] == x {
        assert x !in a[1..];
      }
    }
  }

  lemma TwiceCounted(b: seq<LayoutElement>, i: nat, j: nat)
    requires i < j < |b| && b[i] == b[j]
    ensures multiset(b)[b[i]] >= 2
  {
    assert b == b[..j] + b[j..];
    assert b[i] in b[..j];
    assert b[j] in b[j..];
  }
}
