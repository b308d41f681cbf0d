/**
 * The style engine of parser/css.js: `CSSHandler` keeps the rules handed to
 * it, and `computeCSS` writes into an element's `computedStyle` the value of
 * every declaration of every rule it applies.
 *
 * A selector is read right to left as a descendant chain of `#id`, `.class`
 * and tag parts. The rightmost part must match the element itself; the walk
 * over the open elements, closest first, advances through the remaining
 * parts. No specificity is computed: a later applied rule overwrites an
 * earlier one. The `match` flag of `computeCSS` is set once and never
 * cleared, so after one rule has matched, every later rule whose rightmost
 * part matches the element is applied whatever its ancestors.
 *
 * The source's handler is built without an open-element stack; here the
 * stack is a parameter of `ComputeCSS`.
 */
module Css {
  import opened JsUtil
  import Tokenizer

  type Attribute = Tokenizer.Attribute

  /** The fields of an element that `match` reads: `tagName` and `attributes`. */
  datatype Element = Element(tagName: Option<string>, attributes: Option<seq<Attribute>>)

  datatype Declaration = Declaration(property: string, value: string)

  /**
   * A rule from the style-sheet parser. Only the first selector
   * (`rule.selectors[0]`) is ever read, so only that one is kept.
   */
  datatype Rule = Rule(selector: string, declarations: seq<Declaration>)

  /** `computedStyle`: property name to the `value` stored under it. */
  type Style = map<string, string>

  /** `attributes.find(a => a.name === name)`: the first record with that name. */
  function Find(attrs: seq<Attribute>, name: string): (r: Option<Attribute>)
    ensures r.Some? ==> r.value in attrs && r.value.name == name
    ensures r.None? <==> forall i :: 0 <= i < |attrs| ==> attrs[i].name != name
    ensures r.Some? ==> exists i :: (0 <= i < |attrs| && attrs[i] == r.value
      && forall k :: 0 <= k < i ==> attrs[k].name != name)
  {
    if attrs == [] then None
    else if attrs[0].name == name then Some(attrs[0])
    else
      var r := Find(attrs[1..], name);
      if r.Some? then
        var i :| 0 <= i < |attrs[1..]| && attrs[1..][i] == r.value && forall k :: 0 <= k < i ==> attrs[1..][k].name != name;
        assert attrs[i + 1] == r.value;
        r
      else r
  }

  /**
   * `match(element, selector)`. `None` is an `undefined` selector. An empty
   * or undefined selector, or an element without an `attributes` list,
   * never matches.
   */
  predicate Match(e: Element, selector: Option<string>)
  {
    if selector.None? || selector.value == "" || e.attributes.None? then false
    else
      var sel := selector.value;
      if sel[0] == '#' then
        var attr := Find(e.attributes.value, "id");
        attr.Some? && attr.value.value == sel[1..]
      else if sel[0] == '.' then
        var attr := Find(e.attributes.value, "class");
        var classes := if attr.Some? then Split(attr.value.value, ' ') else [];
        sel[1..] in classes
      else e.tagName == Some(sel)
  }

  /** `rule.selectors[0].split(' ').reverse()`: rightmost part first. */
  function SelectorParts(r: Rule): (parts: seq<string>)
    ensures |parts| >= 1
  {
    Reverse(Split(r.selector, ' '))
  }

  /** `selectorParts[j]`, which is `undefined` past the end. */
  function PartAt(parts: seq<string>, j: nat): Option<string>
  {
    if j < |parts| then Some(parts[j]) else None
  }

  /**
   * The value of the counter `j` after the ancestor walk over `visit`
   * (the stack, closest element first): it starts at 1 and moves on each
   * time the element visited matches the part it points at.
   */
  function Walk(parts: seq<string>, visit: seq<Element>): (j: nat)
    ensures 1 <= j <= |visit| + 1
    ensures |parts| >= 1 ==> j <= |parts|
  {
    if visit == [] then 1
    else
      var j := Walk(parts, visit[..|visit| - 1]);
      if Match(visit[|visit| - 1], PartAt(parts, j)) then j + 1 else j
  }

  /**
   * `ps` can be matched, in order, by elements of `visit` in order, not
   * necessarily adjacent: the reference meaning of a descendant chain.
   */
  ghost predicate Embeds(ps: seq<string>, visit: seq<Element>)
    decreases |visit|
  {
    ps == [] ||
    (visit != [] &&
      (Embeds(ps, visit[..|visit| - 1]) ||
       (Match(visit[|visit| - 1], Some(ps[|ps| - 1])) && Embeds(ps[..|ps| - 1], visit[..|visit| - 1]))))
  }

  /** The walk's test for the whole rule: `j >= selectorParts.length`. */
  predicate WalkSucceeds(r: Rule, visit: seq<Element>)
  {
    Walk(SelectorParts(r), visit) >= |SelectorParts(r)|
  }

  /** The test that decides whether a rule is considered at all. */
  predicate RightmostMatches(r: Rule, e: Element)
  {
    Match(e, PartAt(SelectorParts(r), 0))
  }

  /** The inner loop over `rule.declarations`. */
  function ApplyDeclarations(style: Style, decls: seq<Declaration>): Style
  {
    if decls == [] then style
    else ApplyDeclarations(style, decls[..|decls| - 1])[decls[|decls| - 1].property := decls[|decls| - 1].value]
  }

  /** The loop variables of `computeCSS` after some rules: the style and the `match` flag. */
  datatype CascadeState = CascadeState(style: Style, matched: bool)

  /** One iteration of the outer loop of `computeCSS`. */
  function ApplyRule(st: CascadeState, r: Rule, e: Element, visit: seq<Element>): CascadeState
  {
    if !RightmostMatches(r, e) then st
    else
      var matched := st.matched || WalkSucceeds(r, visit);
      if matched then CascadeState(ApplyDeclarations(st.style, r.declarations), true)
      else CascadeState(st.style, false)
  }

  /** The outer loop of `computeCSS` over `rules`, starting from `init`. */
  function Cascade(rules: seq<Rule>, e: Element, visit: seq<Element>, init: Style): CascadeState
  {
    if rules == [] then CascadeState(init, false)
    else ApplyRule(Cascade(rules[..|rules| - 1], e, visit, init), rules[|rules| - 1], e, visit)
  }

  /** The declarations that `computeCSS` writes, in the order it writes them. */
  function AppliedDeclarations(rules: seq<Rule>, e: Element, visit: seq<Element>): seq<Declaration>
  {
    if rules == [] then []
    else
      var prev := rules[..|rules| - 1];
      var r := rules[|rules| - 1];
      if RightmostMatches(r, e) && (Cascade(prev, e, visit, map[]).matched || WalkSucceeds(r, visit))
      then AppliedDeclarations(prev, e, visit) + r.declarations
      else AppliedDeclarations(prev, e, visit)
  }

  /** The value the last declaration for `p` writes, if any. */
  function LastValue(decls: seq<Declaration>, p: string): Option<string>
  {
    if decls == [] then None
    else if decls[|decls| - 1].property == p then Some(decls[|decls| - 1].value)
    else LastValue(decls[..|decls| - 1], p)
  }

  class CSSHandler {
    var rules: seq<Rule>

    constructor ()
      ensures rules == []
    {
      rules := [];
    }

    /**
     * `addCSSRules(content)`: `parse` stands for the external style-sheet
     * parser (`css.parse`), which may throw (`None`); `content` is `None`
     * when the source passes `undefined`. The new rules go after the old.
     */
    method AddCSSRules(content: Option<string>, parse: Option<string> -> Option<seq<Rule>>) returns (ok: bool)
      modifies this
      ensures ok == parse(content).Some?
      ensures rules == if ok then old(rules) + parse(content).value else old(rules)
    {
      var ast := parse(content);
      if ast.None? {
        return false;
      }
      rules := rules + ast.value;
      ok := true;
    }

    /**
     * `computeCSS(element)` with the open-element stack (bottom first) as a
     * parameter. `computed` is the element's `computedStyle`, `None` when
     * absent; the result is the `computedStyle` it holds afterwards.
     */
    method ComputeCSS(element: Element, computed: Option<Style>, stack: seq<Element>) returns (style: Style)
      ensures style == Cascade(rules, element, Reverse(stack), if computed.Some? then computed.value else map[]).style
    {
      var elements := Reverse(stack);
      style := if computed.Some? then computed.value else map[];
      ghost var init := style;
      var matched := false;
      for n := 0 to |rules|
        invariant Cascade(rules[..n], element, elements, init) == CascadeState(style, matched)
      {
        var rule := rules[n];
        assert rules[..n + 1][..n] == rules[..n];
        var selectorParts := Reverse(Split(rule.selector, ' '));
        if !Match(element, Some(selectorParts[0])) {
          continue;
        }
        var j := 1;
        for i := 0 to |elements|
          invariant j == Walk(selectorParts, elements[..i])
        {
          assert elements[..i + 1][..i] == elements[..i];
          if Match(elements[i], PartAt(selectorParts, j)) {
            j := j + 1;
          }
        }
        assert elements[..|elements|] == elements;
        if j >= |selectorParts| {
          matched := true;
        }
        if matched {
          ghost var before := style;
          for k := 0 to |rule.declarations|
            invariant style == ApplyDeclarations(before, rule.declarations[..k])
          {
            assert rule.declarations[..k + 1][..k] == rule.declarations[..k];
            var declaration := rule.declarations[k];
            style := style[declaration.property := declaration.value];
          }
          assert rule.declarations[..|rule.declarations|] == rule.declarations;
        }
      }
      assert rules[..|rules|] == rules;
    }
  }

  // ---------------------------------------------------------------------
  // Properties.
  // ---------------------------------------------------------------------

  /** An undefined or empty selector, or an element without `attributes`, never matches. */
  lemma NoMatchWithout(e: Element, selector: Option<string>)
    ensures selector.None? ==> !Match(e, selector)
    ensures selector == Some("") ==> !Match(e, selector)
    ensures e.attributes.None? ==> !Match(e, selector)
  {
  }

  /** `find` returns the first record with the name. */
  lemma FindFirst(attrs: seq<Attribute>, name: string, i: nat)
    requires i < |attrs| && attrs[i].name == name && forall k :: 0 <= k < i ==> attrs[k].name != name
    ensures Find(attrs, name) == Some(attrs[i])
  {
    var r := Find(attrs, name);
    assert r.Some?;
    var j :| 0 <= j < |attrs| && attrs[j] == r.value && forall k :: 0 <= k < j ==> attrs[k].name != name;
    assert !(i < j) && !(j < i);
  }

  /** An `#id` selector matches exactly when the first `id` attribute has that value. */
  lemma MatchId(e: Element, attrs: seq<Attribute>, x: string)
    requires e.attributes == Some(attrs)
    ensures Match(e, Some("#" + x)) <==> exists i :: (0 <= i < |attrs| && attrs[i].name == "id" && attrs[i].value == x
      && forall k :: 0 <= k < i ==> attrs[k].name != "id")
  {
    assert ("#" + x)[0] == '#' && ("#" + x)[1..] == x;
    forall i | 0 <= i < |attrs| && attrs[i].name == "id" && forall k :: 0 <= k < i ==> attrs[k].name != "id"
      ensures Find(attrs, "id") == Some(attrs[i])
    {
      FindFirst(attrs, "id", i);
    }
  }

  /**
   * A `.class` selector matches exactly when the name is among the pieces
   * of the first `class` attribute split on single spaces.
   */
  lemma MatchClass(e: Element, attrs: seq<Attribute>, x: string)
    requires e.attributes == Some(attrs)
    ensures Match(e, Some("." + x)) <==> exists i :: (0 <= i < |attrs| && attrs[i].name == "class"
      && (forall k :: 0 <= k < i ==> attrs[k].name != "class") && x in Split(attrs[i].value, ' '))
  {
    assert ("." + x)[0] == '.' && ("." + x)[1..] == x;
    forall i | 0 <= i < |attrs| && attrs[i].name == "class" && forall k :: 0 <= k < i ==> attrs[k].name != "class"
      ensures Find(attrs, "class") == Some(attrs[i])
    {
      FindFirst(attrs, "class", i);
    }
  }

  /** Any other non-empty selector compares the tag name. */
  lemma MatchTag(e: Element, x: string)
    requires e.attributes.Some? && x != [] && x[0] != '#' && x[0] != '.'
    ensures Match(e, Some(x)) <==> e.tagName == Some(x)
  {
  }

  /**
   * The greedy walk is exact: for every `k` below the number of parts, the
   * first `k` ancestor parts can be matched in order by the visited
   * elements exactly when the walk's counter moved at least `k` times.
   */
  lemma {:induction false} WalkIsGreedy(parts: seq<string>, visit: seq<Element>, k: nat)
    requires 1 <= |parts| && k < |parts|
    ensures Embeds(parts[1..1 + k], visit) <==> k <= Walk(parts, visit) - 1
    decreases |visit|
  {
    if visit == [] {
      assert parts[1..1 + k] == [] <==> k == 0;
    } else {
      var prev := visit[..|visit| - 1];
      var x := visit[|visit| - 1];
      var g := Walk(parts, prev) - 1;
      WalkIsGreedy(parts, prev, k);
      if k > 0 {
        var ps := parts[1..1 + k];
        assert ps[..|ps| - 1] == parts[1..k] && ps[|ps| - 1] == parts[k];
        WalkIsGreedy(parts, prev, k - 1);
        if k - 1 == g && g + 1 < |parts| {
          assert PartAt(parts, Walk(parts, prev)) == Some(parts[k]);
        }
      }
    }
  }

  /**
   * A rule passes the ancestor walk exactly when the parts to the left of
   * its rightmost one match, in order, elements of the walked stack.
   */
  lemma WalkSucceedsMeans(r: Rule, visit: seq<Element>)
    ensures WalkSucceeds(r, visit) <==> Embeds(SelectorParts(r)[1..], visit)
  {
    var parts := SelectorParts(r);
    WalkIsGreedy(parts, visit, |parts| - 1);
    assert parts[1..1 + (|parts| - 1)] == parts[1..];
  }

  lemma {:induction false} ApplyDeclarationsAppend(style: Style, a: seq<Declaration>, b: seq<Declaration>)
    ensures ApplyDeclarations(style, a + b) == ApplyDeclarations(ApplyDeclarations(style, a), b)
    decreases |b|
  {
    if b == [] {
      assert a + b == a;
    } else {
      assert (a + b)[..|a + b| - 1] == a + b[..|b| - 1];
      ApplyDeclarationsAppend(style, a, b[..|b| - 1]);
    }
  }

  /**
   * Last write wins: after the declarations, a property holds the value of
   * the last declaration naming it, or its earlier value when none does;
   * no entry is ever removed.
   */
  lemma {:induction false} LastWriteWins(style: Style, decls: seq<Declaration>, p: string)
    ensures var r := ApplyDeclarations(style, decls);
      && style.Keys <= r.Keys
      && (LastValue(decls, p).Some? ==> p in r && r[p] == LastValue(decls, p).value)
      && (LastValue(decls, p).None? ==> (p in r <==> p in style) && (p in style ==> r[p] == style[p]))
    decreases |decls|
  {
    if decls != [] {
      LastWriteWins(style, decls[..|decls| - 1], p);
    }
  }

  /** The cascade writes exactly the applied declarations, in order, over the initial style. */
  lemma {:induction false} CascadeWritesApplied(rules: seq<Rule>, e: Element, visit: seq<Element>, init: Style)
    ensures Cascade(rules, e, visit, init).style == ApplyDeclarations(init, AppliedDeclarations(rules, e, visit))
    ensures Cascade(rules, e, visit, init).matched == Cascade(rules, e, visit, map[]).matched
    decreases |rules|
  {
    if rules != [] {
      var prev := rules[..|rules| - 1];
      CascadeWritesApplied(prev, e, visit, init);
      ApplyDeclarationsAppend(init, AppliedDeclarations(prev, e, visit), rules[|rules| - 1].declarations);
    }
  }

  /** A rule that sets the `match` flag: its rightmost part matches and its walk succeeds. */
  predicate FullMatch(r: Rule, e: Element, visit: seq<Element>)
  {
    RightmostMatches(r, e) && WalkSucceeds(r, visit)
  }

  /**
   * The `match` flag is set exactly when some rule so far had both its
   * rightmost part match the element and its ancestor walk succeed.
   */
  lemma {:induction false} MatchFlagMeans(rules: seq<Rule>, e: Element, visit: seq<Element>, init: Style)
    ensures Cascade(rules, e, visit, init).matched <==>
      exists k :: 0 <= k < |rules| && FullMatch(rules[k], e, visit)
    decreases |rules|
  {
    if rules != [] {
      var prev := rules[..|rules| - 1];
      var last := rules[|rules| - 1];
      MatchFlagMeans(prev, e, visit, init);
      assert Cascade(rules, e, visit, init).matched
        == (Cascade(prev, e, visit, init).matched || FullMatch(last, e, visit));
      assert forall k :: 0 <= k < |prev| ==> prev[k] == rules[k];
      if FullMatch(last, e, visit) {
        assert 0 <= |rules| - 1 < |rules| && FullMatch(rules[|rules| - 1], e, visit);
      }
    }
  }

  /**
   * The sticky flag: once an earlier rule has matched, a later rule whose
   * rightmost part matches the element is applied even when its own
   * ancestor walk fails; a rule whose rightmost part does not match is
   * never applied.
   */
  lemma StickyMatch(rules: seq<Rule>, i: nat, e: Element, visit: seq<Element>, init: Style)
    requires i < |rules|
    ensures var before := Cascade(rules[..i], e, visit, init);
      var after := Cascade(rules[..i + 1], e, visit, init);
      && ((exists k :: 0 <= k < i && FullMatch(rules[k], e, visit)) && RightmostMatches(rules[i], e)
          ==> after.style == ApplyDeclarations(before.style, rules[i].declarations))
      && (!RightmostMatches(rules[i], e) ==> after == before)
  {
    assert rules[..i + 1][..i] == rules[..i];
    MatchFlagMeans(rules[..i], e, visit, init);
    if exists k :: 0 <= k < i && FullMatch(rules[k], e, visit) {
      var k :| 0 <= k < i && FullMatch(rules[k], e, visit);
      assert rules[..i][k] == rules[k];
    }
  }

  /** Entries of `computedStyle` are never removed, and every applied property is present. */
  lemma {:induction false} CascadeKeeps(rules: seq<Rule>, e: Element, visit: seq<Element>, init: Style)
    ensures var r := Cascade(rules, e, visit, init).style;
      init.Keys <= r.Keys &&
      forall d :: d in AppliedDeclarations(rules, e, visit) ==> d.property in r
  {
    var applied := AppliedDeclarations(rules, e, visit);
    CascadeWritesApplied(rules, e, visit, init);
    forall p | p in init {
      LastWriteWins(init, applied, p);
    }
    forall d | d in applied ensures d.property in ApplyDeclarations(init, applied) {
      LastWriteWins(init, applied, d.property);
      LastValueFound(applied, d);
    }
  }

  lemma {:induction false} LastValueFound(decls: seq<Declaration>, d: Declaration)
    requires d in decls
    ensures LastValue(decls, d.property).Some?
    decreases |decls|
  {
    if decls[|decls| - 1] != d {
      assert decls == decls[..|decls| - 1] + [decls[|decls| - 1]];
      LastValueFound(decls[..|decls| - 1], d);
    }
  }

  /** An element without an `attributes` list gets no declaration from any rule. */
  lemma {:induction false} NoAttributesNoStyle(rules: seq<Rule>, e: Element, visit: seq<Element>, init: Style)
    requires e.attributes.None?
    ensures Cascade(rules, e, visit, init) == CascadeState(init, false)
    decreases |rules|
  {
    if rules != [] {
      NoAttributesNoStyle(rules[..|rules| - 1], e, visit, init);
    }
  }
}
