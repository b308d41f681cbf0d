/**
 * The tree builder of parser/html.js: `HtmlParser.emit` receives the
 * tokenizer's tokens, keeps a stack of open elements with the document node
 * at the bottom, and builds element and text nodes.
 *
 * Nodes live in an arena (`nodes`) and are named by their index: the
 * document is node 0, `children` hold indices, and `parentNode` is just the
 * index of the parent.
 *
 * The source stores a start tag's attributes under the key `attribute`,
 * while the style engine reads `attributes`. `CssView` makes that visible:
 * the style engine sees every built element without an attribute list, so
 * `ElementsGetNoStyle` proves that no rule ever applies to them.
 */
module TreeBuilder {
  import opened JsUtil
  import opened Tokenizer
  import Css

  datatype Node =
    | Document(children: seq<nat>)
    | Element(tagName: string, attribute: seq<Attribute>, children: seq<nat>, parentNode: nat, computedStyle: Css.Style)
    | Text(content: string)

  /** The error kinds: `throw new Error('element is not matched')`, a TypeError, or an error of the style-sheet parser. */
  datatype BuildError = NotMatched | TypeError | StyleSheetError

  /** The state of one parse: the arena, the stack, the pending text node and the style engine's rules. */
  datatype Builder = Builder(nodes: seq<Node>, stack: seq<nat>, current: Option<nat>, rules: seq<Css.Rule>)

  datatype BuildResult = Built(b: Builder) | Failed(error: BuildError)

  /** The external style-sheet parser: `None` when it throws, `None` input for `undefined`. */
  type StyleSheetParser = Option<string> -> Option<seq<Css.Rule>>

  /** A fresh parse: a stack holding one document node with no children. */
  const Fresh: Builder := Builder([Document([])], [0], None, [])

  function ChildrenOf(n: Node): seq<nat>
  {
    if n.Text? then [] else n.children
  }

  /** A node's references (children and parent) stay inside an arena of `size` nodes. */
  ghost predicate NodeOk(n: Node, size: nat)
  {
    && (forall k :: 0 <= k < |ChildrenOf(n)| ==> ChildrenOf(n)[k] < size)
    && (n.Element? ==> n.parentNode < size)
  }

  /**
   * The invariant of the builder state: the document is node 0 and the
   * bottom of the stack, every other stack entry is an element, every
   * reference is a node of the arena, and the pending text node is a text node.
   */
  ghost predicate Valid(b: Builder)
  {
    && |b.nodes| >= 1 && b.nodes[0].Document?
    && |b.stack| >= 1 && b.stack[0] == 0
    && (forall i :: 0 <= i < |b.stack| ==> b.stack[i] < |b.nodes|)
    && (forall i :: 1 <= i < |b.stack| ==> b.nodes[b.stack[i]].Element?)
    && (forall n :: 0 <= n < |b.nodes| ==> NodeOk(b.nodes[n], |b.nodes|))
    && (b.current.Some? ==> b.current.value < |b.nodes| && b.nodes[b.current.value].Text?)
  }

  /**
   * What `match` in parser/css.js can read of a node: its `tagName` and its
   * `attributes` property, which no node built here has.
   */
  function CssView(n: Node): Css.Element
  {
    if n.Element? then Css.Element(Some(n.tagName), None) else Css.Element(None, None)
  }

  /** The open-element stack as the style engine sees it, bottom first. */
  function StackViews(nodes: seq<Node>, stack: seq<nat>): (r: seq<Css.Element>)
    requires forall i :: 0 <= i < |stack| ==> stack[i] < |nodes|
    ensures |r| == |stack|
  {
    seq(|stack|, i requires 0 <= i < |stack| => CssView(nodes[stack[i]]))
  }

  function AddChild(n: Node, child: nat): Node
  {
    match n
    case Document(cs) => Document(cs + [child])
    case Element(t, a, cs, p, s) => Element(t, a, cs + [child], p, s)
    case Text(c) => n
  }

  /** A start tag: create the element under the stack top, push it unless self-closing. */
  function StartTagStep(b: Builder, t: TagToken): Builder
    requires Valid(b)
  {
    var top := b.stack[|b.stack| - 1];
    var attrs := if t.attributes.Some? then t.attributes.value else [];
    var view := CssView(Element(t.tagName, attrs, [], top, map[]));
    var style := Css.Cascade(b.rules, view, Reverse(StackViews(b.nodes, b.stack)), map[]).style;
    var idx := |b.nodes|;
    var nodes := (b.nodes + [Element(t.tagName, attrs, [], top, style)])[top := AddChild(b.nodes[top], idx)];
    Builder(nodes, if t.isSelfClosing then b.stack else b.stack + [idx], None, b.rules)
  }

  /** An end tag: it must name the stack top; `style` hands its first child's text to the style engine. */
  function EndTagStep(b: Builder, t: TagToken, parse: StyleSheetParser): BuildResult
    requires Valid(b)
  {
    var top := b.stack[|b.stack| - 1];
    var node := b.nodes[top];
    if !node.Element? || node.tagName != t.tagName then Failed(NotMatched)
    else
      var popped := b.(stack := b.stack[..|b.stack| - 1], current := None);
      if t.tagName != "style" then Built(popped)
      else if node.children == [] then Failed(TypeError)
      else
        var parsed := parse(StyleText(b.nodes, node));
        if parsed.None? then Failed(StyleSheetError)
        else Built(popped.(rules := b.rules + parsed.value))
  }

  /**
   * What `addCSSRules` receives: the `content` of the first child, which is
   * `undefined` (`None`) when that child is an element.
   */
  function StyleText(nodes: seq<Node>, node: Node): Option<string>
    requires NodeOk(node, |nodes|) && ChildrenOf(node) != []
  {
    var first := nodes[ChildrenOf(node)[0]];
    if first.Text? then Some(first.content) else None
  }

  /** A character: extend the pending text node, or start one under the stack top. */
  function CharacterStep(b: Builder, c: char): Builder
    requires Valid(b)
  {
    if b.current.Some? then
      var n := b.current.value;
      b.(nodes := b.nodes[n := Text(b.nodes[n].content + [c])])
    else
      var top := b.stack[|b.stack| - 1];
      var idx := |b.nodes|;
      b.(nodes := (b.nodes + [Text([c])])[top := AddChild(b.nodes[top], idx)], current := Some(idx))
  }

  /** `emit(token, cssHandler)`. */
  function EmitStep(b: Builder, token: Token, parse: StyleSheetParser): (r: BuildResult)
    requires Valid(b)
    ensures r.Built? ==> Valid(r.b)
  {
    ValidStepLemma(b, token, parse);
    match token
    case Tag(t) => if t.kind == StartTag then Built(StartTagStep(b, t)) else EndTagStep(b, t, parse)
    case Character(c) => Built(CharacterStep(b, c))
    case _ => Built(b)
  }

  /** Every step keeps the invariant. */
  lemma ValidStepLemma(b: Builder, token: Token, parse: StyleSheetParser)
    requires Valid(b)
    ensures token.Tag? && token.tag.kind == StartTag ==> Valid(StartTagStep(b, token.tag))
    ensures token.Tag? && token.tag.kind == EndTag && EndTagStep(b, token.tag, parse).Built? ==> Valid(EndTagStep(b, token.tag, parse).b)
    ensures token.Character? ==> Valid(CharacterStep(b, token.ch))
  {
    if token.Tag? && token.tag.kind == StartTag {
      StartTagValid(b, token.tag);
    }
    if token.Character? {
      CharacterValid(b, token.ch);
    }
  }

  lemma NodeOkGrow(n: Node, size: nat, size': nat)
    requires NodeOk(n, size) && size <= size'
    ensures NodeOk(n, size')
  {
  }

  /** Appending a node and linking it under the stack top keeps every reference inside the arena. */
  lemma LinkValid(b: Builder, added: Node, r: seq<Node>)
    requires Valid(b) && !added.Document? && NodeOk(added, |b.nodes| + 1)
    requires r == (b.nodes + [added])[b.stack[|b.stack| - 1] := AddChild(b.nodes[b.stack[|b.stack| - 1]], |b.nodes|)]
    ensures |r| == |b.nodes| + 1 && r[0].Document? && r[|b.nodes|] == added
    ensures forall n :: 0 <= n < |r| ==> NodeOk(r[n], |r|)
    ensures forall n :: 0 <= n < |b.nodes| ==> r[n].Element? == b.nodes[n].Element? && r[n].Text? == b.nodes[n].Text?
  {
    var top := b.stack[|b.stack| - 1];
    assert !b.nodes[top].Text? by {
      if |b.stack| - 1 >= 1 {
        assert b.nodes[b.stack[|b.stack| - 1]].Element?;
      }
    }
    assert ChildrenOf(r[top]) == ChildrenOf(b.nodes[top]) + [|b.nodes|];
    forall n | 0 <= n < |r|
      ensures NodeOk(r[n], |r|)
    {
      if n == top {
        assert NodeOk(b.nodes[top], |b.nodes|);
      } else if n < |b.nodes| {
        NodeOkGrow(b.nodes[n], |b.nodes|, |r|);
      }
    }
  }

  lemma StartTagValid(b: Builder, t: TagToken)
    requires Valid(b)
    ensures Valid(StartTagStep(b, t))
  {
    var r := StartTagStep(b, t);
    var top := b.stack[|b.stack| - 1];
    LinkValid(b, r.nodes[|b.nodes|], r.nodes);
  }

  lemma CharacterValid(b: Builder, c: char)
    requires Valid(b)
    ensures Valid(CharacterStep(b, c))
  {
    var r := CharacterStep(b, c);
    if b.current.None? {
      LinkValid(b, Text([c]), r.nodes);
    } else {
      forall n | 0 <= n < |r.nodes|
        ensures NodeOk(r.nodes[n], |r.nodes|)
      {
        assert n == b.current.value || r.nodes[n] == b.nodes[n];
      }
    }
  }

  /** Feeding tokens in order; the first error stops the build. */
  function BuildAll(b: Builder, tokens: seq<Token>, parse: StyleSheetParser): (r: BuildResult)
    requires Valid(b)
    ensures r.Built? ==> Valid(r.b)
    decreases |tokens|
  {
    if tokens == [] then Built(b)
    else
      var r := EmitStep(b, tokens[0], parse);
      if r.Failed? then r else BuildAll(r.b, tokens[1..], parse)
  }

  /**
   * `parseHTML(html)`, as evidently intended: every character and then EOF
   * go to the tokenizer, whose callback is `emit`. A TypeError in the
   * tokenizer aborts the parse after the tokens it has already emitted.
   */
  function ParseHTML(html: string, parse: StyleSheetParser): BuildResult
  {
    var run := Tokenize(html);
    Verdict(run, BuildAll(Fresh, run.emitted, parse))
  }

  /** The result of a parse: a tree-builder error first, then a tokenizer crash. */
  function Verdict(run: StepResult, built: BuildResult): BuildResult
  {
    if built.Failed? then built
    else if run.outcome.Thrown? then Failed(TypeError)
    else built
  }

  class HtmlParser {
    var nodes: seq<Node>
    var stack: seq<nat>
    var currentTextNode: Option<nat>

    function Model(css: Css.CSSHandler): Builder
      reads this, css
    {
      Builder(nodes, stack, currentTextNode, css.rules)
    }

    constructor ()
      ensures nodes == [Document([])] && stack == [0] && currentTextNode == None
    {
      nodes := [Document([])];
      stack := [0];
      currentTextNode := None;
    }

    method Emit(token: Token, css: Css.CSSHandler, parse: StyleSheetParser) returns (r: Option<BuildError>)
      requires Valid(Model(css))
      modifies this, css
      ensures var s := EmitStep(old(Model(css)), token, parse);
        && (r.None? <==> s.Built?)
        && (s.Built? ==> Model(css) == s.b)
        && (s.Failed? ==> r == Some(s.error))
    {
      match token
      case Tag(t) =>
        if t.kind == StartTag {
          EmitStartTag(t, css);
          r := None;
        } else {
          r := EmitEndTag(t, css, parse);
        }
      case Character(c) =>
        EmitCharacter(c, css);
        r := None;
      case _ =>
        r := None;
    }

    /** The start-tag branch of `emit`. */
    method EmitStartTag(t: TagToken, css: Css.CSSHandler)
      requires Valid(Model(css))
      modifies this
      ensures Model(css) == StartTagStep(old(Model(css)), t)
    {
      var top := stack[|stack| - 1];
      var attrs := if t.attributes.Some? then t.attributes.value else [];
      var element := Element(t.tagName, attrs, [], top, map[]);
      var style := css.ComputeCSS(CssView(element), None, StackViews(nodes, stack));
      element := element.(computedStyle := style);
      var idx := |nodes|;
      nodes := nodes + [element];
      nodes := nodes[top := AddChild(nodes[top], idx)];
      if !t.isSelfClosing {
        stack := stack + [idx];
      }
      currentTextNode := None;
    }

    /** The end-tag branch of `emit`. */
    method EmitEndTag(t: TagToken, css: Css.CSSHandler, parse: StyleSheetParser) returns (r: Option<BuildError>)
      requires Valid(Model(css))
      modifies this, css
      ensures var s := EndTagStep(old(Model(css)), t, parse);
        && (r.None? <==> s.Built?)
        && (s.Built? ==> Model(css) == s.b)
        && (s.Failed? ==> r == Some(s.error))
    {
      var node := nodes[stack[|stack| - 1]];
      if !node.Element? || t.tagName != node.tagName {
        return Some(NotMatched);
      }
      if t.tagName == "style" {
        if node.children == [] {
          return Some(TypeError);
        }
        var ok := css.AddCSSRules(StyleText(nodes, node), parse);
        if !ok {
          return Some(StyleSheetError);
        }
      }
      stack := stack[..|stack| - 1];
      currentTextNode := None;
      r := None;
    }

    /** The character branch of `emit`. */
    method EmitCharacter(c: char, css: Css.CSSHandler)
      requires Valid(Model(css))
      modifies this
      ensures Model(css) == CharacterStep(old(Model(css)), c)
    {
      if currentTextNode.Some? {
        var n := currentTextNode.value;
        nodes := nodes[n := Text(nodes[n].content + [c])];
      } else {
        var top := stack[|stack| - 1];
        var idx := |nodes|;
        nodes := nodes + [Text([c])];
        nodes := nodes[top := AddChild(nodes[top], idx)];
        currentTextNode := Some(idx);
      }
    }

    /** `emit` applied to each token in turn, stopping at the first error. */
    method EmitTokens(tokens: seq<Token>, css: Css.CSSHandler, parse: StyleSheetParser) returns (r: Option<BuildError>)
      requires Valid(Model(css))
      modifies this, css
      ensures var s := BuildAll(old(Model(css)), tokens, parse);
        && (r.None? <==> s.Built?)
        && (s.Built? ==> Model(css) == s.b)
        && (s.Failed? ==> r == Some(s.error))
    {
      ghost var b0 := Model(css);
      for k := 0 to |tokens|
        invariant Valid(Model(css))
        invariant BuildAll(b0, tokens[..k], parse) == Built(Model(css))
      {
        assert tokens[..k + 1] == tokens[..k] + [tokens[k]];
        BuildAllSnoc(b0, tokens[..k], tokens[k], Model(css), parse);
        r := Emit(tokens[k], css, parse);
        if r.Some? {
          BuildAllFailedPrefix(b0, tokens, k + 1, parse);
          return;
        }
      }
      assert tokens[..|tokens|] == tokens;
      r := None;
    }
  }

  lemma {:induction false} BuildAllAppend(b: Builder, a: seq<Token>, c: seq<Token>, parse: StyleSheetParser)
    requires Valid(b)
    ensures var ra := BuildAll(b, a, parse);
      BuildAll(b, a + c, parse) == if ra.Failed? then ra else BuildAll(ra.b, c, parse)
    decreases |a|
  {
    if a == [] {
      assert a + c == c;
    } else {
      assert (a + c)[0] == a[0] && (a + c)[1..] == a[1..] + c;
      var r := EmitStep(b, a[0], parse);
      if r.Built? {
        BuildAllAppend(r.b, a[1..], c, parse);
      }
    }
  }

  /** One more token: the build so far, then one `emit`. */
  lemma BuildAllSnoc(b0: Builder, a: seq<Token>, x: Token, mid: Builder, parse: StyleSheetParser)
    requires Valid(b0) && BuildAll(b0, a, parse) == Built(mid)
    ensures BuildAll(b0, a + [x], parse) == EmitStep(mid, x, parse)
  {
    BuildAllAppend(b0, a, [x], parse);
    assert BuildAll(b0, a + [x], parse) == BuildAll(mid, [x], parse);
    BuildOne(mid, x, parse);
  }

  /** Building a single token is one `emit`. */
  lemma BuildOne(b: Builder, token: Token, parse: StyleSheetParser)
    requires Valid(b)
    ensures BuildAll(b, [token], parse) == EmitStep(b, token, parse)
  {
    assert [token][1..] == [];
  }

  /** A prefix that fails decides the whole build. */
  lemma BuildAllFailedPrefix(b0: Builder, tokens: seq<Token>, k: nat, parse: StyleSheetParser)
    requires Valid(b0) && k <= |tokens| && BuildAll(b0, tokens[..k], parse).Failed?
    ensures BuildAll(b0, tokens, parse) == BuildAll(b0, tokens[..k], parse)
  {
    var a, c := tokens[..k], tokens[k..];
    assert a + c == tokens;
    BuildAllAppend(b0, a, c, parse);
  }

  // ---------------------------------------------------------------------
  // Properties of the tree builder.
  // ---------------------------------------------------------------------

  /**
   * A start tag appends one element node: it carries the token's tag name
   * and attributes (an empty list when the token has none), has no children,
   * names the stack top as its parent and is the top's last child. It is
   * pushed exactly when the token is not self-closing; the pending text node
   * is dropped and nothing else changes.
   */
  lemma StartTagAppends(b: Builder, t: TagToken)
    requires Valid(b)
    ensures var r := StartTagStep(b, t); var top := b.stack[|b.stack| - 1]; var idx := |b.nodes|;
      && |r.nodes| == idx + 1
      && r.nodes[idx].Element? && r.nodes[idx].tagName == t.tagName && r.nodes[idx].children == []
      && r.nodes[idx].attribute == (if t.attributes.Some? then t.attributes.value else [])
      && r.nodes[idx].parentNode == top
      && ChildrenOf(r.nodes[top]) == ChildrenOf(b.nodes[top]) + [idx]
      && (forall n :: 0 <= n < idx && n != top ==> r.nodes[n] == b.nodes[n])
      && (t.isSelfClosing <==> r.stack == b.stack)
      && (!t.isSelfClosing <==> r.stack == b.stack + [idx])
      && r.current.None? && r.rules == b.rules
  {
    var top := b.stack[|b.stack| - 1];
    assert !b.nodes[top].Text? by {
      if |b.stack| > 1 {
        assert b.nodes[b.stack[|b.stack| - 1]].Element?;
      }
    }
  }

  /**
   * An end tag succeeds exactly when the stack top is an element of that
   * name (so the document is never popped); success pops the top, drops the
   * pending text node and leaves the nodes alone. Closing `style` also hands
   * its first child's text to the style-sheet parser and appends the rules
   * it returns; without a child that read throws.
   */
  lemma EndTagPops(b: Builder, t: TagToken, parse: StyleSheetParser)
    requires Valid(b)
    ensures var r := EndTagStep(b, t, parse); var node := b.nodes[b.stack[|b.stack| - 1]];
      && (r == Failed(NotMatched) <==> !node.Element? || node.tagName != t.tagName)
      && (|b.stack| == 1 ==> r == Failed(NotMatched))
      && (r.Built? ==> r.b.nodes == b.nodes && r.b.stack == b.stack[..|b.stack| - 1] && r.b.current.None?)
      && (r.Built? && t.tagName != "style" ==> r.b.rules == b.rules)
      && (node.Element? && node.tagName == t.tagName == "style" ==>
            if node.children == [] then r == Failed(TypeError)
            else
              var parsed := parse(StyleText(b.nodes, node));
              (parsed.None? <==> r == Failed(StyleSheetError))
              && (parsed.Some? ==> r.Built? && r.b.rules == b.rules + parsed.value))
  {
  }

  /** The document node stays at the bottom of the stack and the stack is never empty. */
  lemma DocumentStays(b: Builder, tokens: seq<Token>, parse: StyleSheetParser)
    requires Valid(b)
    ensures var r := BuildAll(b, tokens, parse);
      r.Built? ==> |r.b.stack| >= 1 && r.b.stack[0] == 0 && r.b.nodes[0].Document?
  {
  }

  /**
   * Consecutive characters with no pending text node make exactly one new
   * text node, the stack top's last child, holding all of them.
   */
  lemma {:induction false} TextAccumulates(b: Builder, s: string, parse: StyleSheetParser)
    requires Valid(b) && b.current.None? && s != []
    ensures var top := b.stack[|b.stack| - 1]; var idx := |b.nodes|;
      BuildAll(b, CharTokens(s), parse)
        == Built(b.(nodes := (b.nodes + [Text(s)])[top := AddChild(b.nodes[top], idx)], current := Some(idx)))
    decreases |s|
  {
    var top := b.stack[|b.stack| - 1];
    var idx := |b.nodes|;
    if |s| == 1 {
      assert CharTokens(s) == [Character(s[0])];
      assert [s[0]] == s;
    } else {
      var init := s[..|s| - 1];
      var c := s[|s| - 1];
      assert CharTokens(s) == CharTokens(init) + [Character(c)];
      TextAccumulates(b, init, parse);
      BuildAllAppend(b, CharTokens(init), [Character(c)], parse);
      var mid := b.(nodes := (b.nodes + [Text(init)])[top := AddChild(b.nodes[top], idx)], current := Some(idx));
      assert [Character(c)][1..] == [];
      assert init + [c] == s;
      assert mid.nodes[idx := Text(s)] == (b.nodes + [Text(s)])[top := AddChild(b.nodes[top], idx)];
    }
  }

  /** With a pending text node, a character extends it and nothing else. */
  lemma TextContinues(b: Builder, c: char, parse: StyleSheetParser)
    requires Valid(b) && b.current.Some?
    ensures var n := b.current.value;
      EmitStep(b, Character(c), parse) == Built(b.(nodes := b.nodes[n := Text(b.nodes[n].content + [c])]))
  {
  }

  /** Comments and EOF change nothing. */
  lemma OtherTokensIgnored(b: Builder, token: Token, parse: StyleSheetParser)
    requires Valid(b) && (token.Comment? || token.EndOfFile?)
    ensures EmitStep(b, token, parse) == Built(b)
  {
  }

  /** No element created by the tree builder has a computed style entry. */
  ghost predicate Unstyled(b: Builder)
  {
    forall n :: 0 <= n < |b.nodes| && b.nodes[n].Element? ==> b.nodes[n].computedStyle == map[]
  }

  /**
   * Every element gets an empty computed style, whatever style sheets came
   * before it: the tree builder stores attributes under `attribute`, the
   * style engine reads `attributes`, so no selector ever matches.
   */
  lemma {:induction false} ElementsGetNoStyle(b: Builder, tokens: seq<Token>, parse: StyleSheetParser)
    requires Valid(b) && Unstyled(b)
    ensures var r := BuildAll(b, tokens, parse); r.Built? ==> Unstyled(r.b)
    decreases |tokens|
  {
    if tokens != [] {
      var r := EmitStep(b, tokens[0], parse);
      StepUnstyled(b, tokens[0], parse);
      if r.Built? {
        ElementsGetNoStyle(r.b, tokens[1..], parse);
      }
    }
  }

  /** One token keeps every element unstyled. */
  lemma StepUnstyled(b: Builder, token: Token, parse: StyleSheetParser)
    requires Valid(b) && Unstyled(b)
    ensures var r := EmitStep(b, token, parse); r.Built? ==> Unstyled(r.b)
  {
    if token.Tag? && token.tag.kind == StartTag {
      var t := token.tag;
      var top := b.stack[|b.stack| - 1];
      var attrs := if t.attributes.Some? then t.attributes.value else [];
      Css.NoAttributesNoStyle(b.rules, CssView(Element(t.tagName, attrs, [], top, map[])), Reverse(StackViews(b.nodes, b.stack)), map[]);
      StartTagAppends(b, t);
    }
  }

  /** A parse that succeeds yields only unstyled elements. */
  lemma ParsedUnstyled(html: string, parse: StyleSheetParser)
    ensures var r := ParseHTML(html, parse); r.Built? ==> Unstyled(r.b)
  {
    ElementsGetNoStyle(Fresh, Tokenize(html).emitted, parse);
  }

  /** A tag name that the tag-name state reads to its end: a letter, then no space, `/` or `>`. */
  predicate TagNameText(name: string)
  {
    name != [] && Letter(Some(name[0])) && PlainName(name)
  }

  /** The inputs of a document written in three parts. */
  lemma InputsOfThree(p: string, q: string, s: string)
    ensures Inputs(p + q + s) == Chars(p) + (Chars(q) + (Chars(s) + [EOF]))
  {
    CharsAppend(p + q, s);
    CharsAppend(p, q);
  }

  /** The tokens of `<name>text</name>`: a start tag, the characters, an end tag and EOF. */
  lemma TokenizeElementWithText(name: string, text: string)
    requires TagNameText(name) && '<' !in text
    ensures Tokenize("<" + name + ">" + text + "</" + name + ">").emitted
      == [Tag(TagToken(StartTag, Lowered(name), None, false))] + CharTokens(text)
         + [Tag(TagToken(EndTag, Lowered(name), None, false)), EndOfFile]
    ensures Tokenize("<" + name + ">" + text + "</" + name + ">").outcome == Undefined
  {
    var open := TagToken(StartTag, Lowered(name), None, false);
    var close := TagToken(EndTag, Lowered(name), None, false);
    var m1 := Initial.(tagToken := Some(open));
    var m2 := m1.(tagToken := Some(close));
    var rest := Chars("</" + name + ">") + [EOF];
    var html := "<" + name + ">" + text + "</" + name + ">";
    assert html == ("<" + name + ">") + text + ("</" + name + ">");
    InputsOfThree("<" + name + ">", text, "</" + name + ">");
    StartTagRun(Initial, name, Chars(text) + rest);
    RunText(m1, text);
    RunAppend(Data, m1, Chars(text), rest);
    EndTagRun(m1, name, [EOF]);
    RunOne(Data, m2, EOF);
    assert Run(Data, m2, [EOF]) == StepResult(Undefined, m2, [EndOfFile]);
    assert Tokenize(html).emitted == [Tag(open)] + (CharTokens(text) + ([Tag(close)] + [EndOfFile]));
  }

  /** The first start tag of a document becomes node 1, the document's child, and is pushed. */
  lemma FirstStartTag(tag: string)
    ensures StartTagStep(Fresh, TagToken(StartTag, tag, None, false))
      == Builder([Document([1]), Element(tag, [], [], 0, map[])], [0, 1], None, [])
  {
    var open := TagToken(StartTag, tag, None, false);
    Css.NoAttributesNoStyle([], Css.Element(Some(tag), None), Reverse(StackViews([Document([])], [0])), map[]);
    var b1 := StartTagStep(Fresh, open);
    StartTagAppends(Fresh, open);
    assert b1.nodes[1] == Element(tag, [], [], 0, map[]);
    assert b1.nodes[0] == AddChild(Document([]), 1) == Document([1]);
    assert |b1.nodes| == 2;
    assert b1.nodes == [Document([1]), Element(tag, [], [], 0, map[])];
  }

  /** The text of the first element becomes node 2, its only child. */
  lemma FirstElementText(tag: string, text: string, parse: StyleSheetParser)
    requires text != []
    ensures BuildAll(Builder([Document([1]), Element(tag, [], [], 0, map[])], [0, 1], None, []), CharTokens(text), parse)
      == Built(Builder([Document([1]), Element(tag, [], [2], 0, map[]), Text(text)], [0, 1], Some(2), []))
  {
    var b1 := Builder([Document([1]), Element(tag, [], [], 0, map[])], [0, 1], None, []);
    TextAccumulates(b1, text, parse);
    var nodes := [Document([1]), Element(tag, [], [2], 0, map[]), Text(text)];
    assert AddChild(b1.nodes[1], 2) == Element(tag, [], [2], 0, map[]);
    assert (b1.nodes + [Text(text)])[1 := AddChild(b1.nodes[1], 2)] == nodes;
  }

  /** The matching end tag pops the element, and EOF changes nothing. */
  lemma FirstElementClosed(tag: string, text: string, parse: StyleSheetParser)
    requires tag != "style"
    ensures var nodes := [Document([1]), Element(tag, [], [2], 0, map[]), Text(text)];
      BuildAll(Builder(nodes, [0, 1], Some(2), []), [Tag(TagToken(EndTag, tag, None, false)), EndOfFile], parse)
        == Built(Builder(nodes, [0], None, []))
  {
    var nodes := [Document([1]), Element(tag, [], [2], 0, map[]), Text(text)];
    var b2 := Builder(nodes, [0, 1], Some(2), []);
    var close := TagToken(EndTag, tag, None, false);
    assert Valid(b2);
    var b3 := Builder(nodes, [0], None, []);
    assert EndTagStep(b2, close, parse) == Built(b3);
    assert Valid(b3);
    assert BuildAll(b3, [EndOfFile], parse) == Built(b3) by {
      assert [EndOfFile][1..] == [];
    }
    assert [Tag(close), EndOfFile][1..] == [EndOfFile];
  }

  /** A start tag, non-empty text and the matching end tag build one element holding one text node. */
  lemma BuildElementWithText(tag: string, text: string, parse: StyleSheetParser)
    requires text != [] && tag != "style"
    ensures var open := TagToken(StartTag, tag, None, false);
      var close := TagToken(EndTag, tag, None, false);
      BuildAll(Fresh, [Tag(open)] + CharTokens(text) + [Tag(close), EndOfFile], parse)
        == Built(Builder([Document([1]), Element(tag, [], [2], 0, map[]), Text(text)], [0], None, []))
  {
    var open := TagToken(StartTag, tag, None, false);
    var close := TagToken(EndTag, tag, None, false);
    var b1 := Builder([Document([1]), Element(tag, [], [], 0, map[])], [0, 1], None, []);
    FirstStartTag(tag);
    assert [Tag(open)][1..] == [];
    assert BuildAll(Fresh, [Tag(open)], parse) == Built(b1);
    FirstElementText(tag, text, parse);
    FirstElementClosed(tag, text, parse);
    BuildAllAppend(Fresh, [Tag(open)], CharTokens(text), parse);
    BuildAllAppend(Fresh, [Tag(open)] + CharTokens(text), [Tag(close), EndOfFile], parse);
  }

  /**
   * `<name>text</name>` with non-empty text and a name other than `style`:
   * the document gets one element,
   * whose one child is a text node holding the text; the stack is back to
   * the document alone.
   */
  lemma ParseElementWithText(name: string, text: string, parse: StyleSheetParser)
    requires TagNameText(name) && '<' !in text && text != [] && Lowered(name) != "style"
    ensures ParseHTML("<" + name + ">" + text + "</" + name + ">", parse)
      == Built(Builder([Document([1]), Element(Lowered(name), [], [2], 0, map[]), Text(text)], [0], None, []))
  {
    TokenizeElementWithText(name, text);
    BuildElementWithText(Lowered(name), text, parse);
  }

  /** The tokens of `<a><b></a>`: two start tags, an end tag and EOF. */
  lemma TokenizeMismatchedTags(a: string, b: string)
    requires TagNameText(a) && TagNameText(b)
    ensures Tokenize("<" + a + "><" + b + "></" + a + ">").emitted
      == [Tag(TagToken(StartTag, Lowered(a), None, false)), Tag(TagToken(StartTag, Lowered(b), None, false)),
          Tag(TagToken(EndTag, Lowered(a), None, false)), EndOfFile]
  {
    var ta := TagToken(StartTag, Lowered(a), None, false);
    var tb := TagToken(StartTag, Lowered(b), None, false);
    var close := TagToken(EndTag, Lowered(a), None, false);
    assert "<" + a + "><" + b + "></" + a + ">" == ("<" + a + ">") + ("<" + b + ">") + ("</" + a + ">");
    InputsOfThree("<" + a + ">", "<" + b + ">", "</" + a + ">");
    var m1 := Initial.(tagToken := Some(ta));
    var m2 := m1.(tagToken := Some(tb));
    var m3 := m2.(tagToken := Some(close));
    StartTagRun(Initial, a, Chars("<" + b + ">") + (Chars("</" + a + ">") + [EOF]));
    StartTagRun(m1, b, Chars("</" + a + ">") + [EOF]);
    EndTagRun(m2, a, [EOF]);
    RunOne(Data, m3, EOF);
  }

  /** Two start tags and an end tag naming the first: the end tag meets the second one. */
  lemma BuildMismatchedTags(a: string, b: string, parse: StyleSheetParser)
    requires a != b
    ensures var tokens := [Tag(TagToken(StartTag, a, None, false)), Tag(TagToken(StartTag, b, None, false)),
                           Tag(TagToken(EndTag, a, None, false)), EndOfFile];
      BuildAll(Fresh, tokens, parse) == Failed(NotMatched)
  {
    var ta := TagToken(StartTag, a, None, false);
    var tb := TagToken(StartTag, b, None, false);
    var close := TagToken(EndTag, a, None, false);
    var tokens := [Tag(ta), Tag(tb), Tag(close), EndOfFile];
    var b1 := StartTagStep(Fresh, ta);
    var b2 := StartTagStep(b1, tb);
    TwoStartTags(a, b);
    EndTagPops(b2, close, parse);
    assert BuildAll(b2, [Tag(close), EndOfFile], parse) == Failed(NotMatched);
    assert tokens[1..] == [Tag(tb)] + [Tag(close), EndOfFile];
    assert tokens == [Tag(ta)] + tokens[1..];
  }

  /** After two start tags the second element is on top of the stack. */
  lemma TwoStartTags(a: string, b: string)
    ensures var b1 := StartTagStep(Fresh, TagToken(StartTag, a, None, false));
      var b2 := StartTagStep(b1, TagToken(StartTag, b, None, false));
      Valid(b1) && Valid(b2) && b2.stack == [0, 1, 2] && b2.nodes[2].Element? && b2.nodes[2].tagName == b
  {
    var ta := TagToken(StartTag, a, None, false);
    var b1 := StartTagStep(Fresh, ta);
    StartTagAppends(Fresh, ta);
    StartTagValid(Fresh, ta);
    assert b1.stack == [0, 1];
    var tb := TagToken(StartTag, b, None, false);
    StartTagAppends(b1, tb);
    StartTagValid(b1, tb);
  }

  /** `<a><b></a>` with different names: `</a>` meets the open `b` on top of the stack, which is an error. */
  lemma ParseMismatchedTags(a: string, b: string, parse: StyleSheetParser)
    requires TagNameText(a) && TagNameText(b) && Lowered(a) != Lowered(b)
    ensures ParseHTML("<" + a + "><" + b + "></" + a + ">", parse) == Failed(NotMatched)
  {
    TokenizeMismatchedTags(a, b);
    BuildMismatchedTags(Lowered(a), Lowered(b), parse);
  }

  /** Once a prefix of the tokens fails, the whole build fails the same way. */
  lemma BuildFailsEarly(b0: Builder, done: seq<Token>, batch: seq<Token>, whole: seq<Token>, b: Builder, parse: StyleSheetParser)
    requires Valid(b0) && BuildAll(b0, done, parse) == Built(b)
    requires BuildAll(b, batch, parse).Failed?
    requires done + batch <= whole
    ensures BuildAll(b0, whole, parse) == BuildAll(b, batch, parse)
  {
    BuildAllAppend(b0, done, batch, parse);
    assert whole == (done + batch) + whole[|done + batch|..];
    BuildAllAppend(b0, done + batch, whole[|done + batch|..], parse);
  }

  /** One more input to the tokenizer: its tokens extend the run so far. */
  lemma RunSnoc(s0: State, m0: Machine, a: seq<Option<char>>, x: Option<char>, step: StepResult)
    requires Run(s0, m0, a).outcome.Next?
    requires step == Step(Run(s0, m0, a).outcome.state, Run(s0, m0, a).machine, x)
    ensures Run(s0, m0, a + [x]) == StepResult(step.outcome, step.machine, Run(s0, m0, a).emitted + step.emitted)
  {
    var r := Run(s0, m0, a);
    RunAppend(s0, m0, a, [x]);
    RunOne(r.outcome.state, r.machine, x);
  }

  /** The step at position `i` of the driver, in terms of the whole run. */
  lemma DriverStep(s0: State, m0: Machine, inputs: seq<Option<char>>, i: nat, s: State, m: Machine, e: seq<Token>, step: StepResult)
    requires i < |inputs|
    requires Run(s0, m0, inputs[..i]) == StepResult(Next(s), m, e)
    requires step == Step(s, m, inputs[i])
    ensures Run(s0, m0, inputs[..i + 1]) == StepResult(step.outcome, step.machine, e + step.emitted)
    ensures e + step.emitted <= Run(s0, m0, inputs).emitted
    ensures !step.outcome.Next? && i + 1 < |inputs| ==> Run(s0, m0, inputs) == StepResult(Thrown, step.machine, e + step.emitted)
  {
    DriverStepRun(s0, m0, inputs, i, step);
    var a := inputs[..i + 1];
    var b := inputs[i + 1..];
    assert a + b == inputs;
    RunPrefix(s0, m0, a, b);
    if !step.outcome.Next? && i + 1 < |inputs| {
      RunStopped(s0, m0, a, b);
    }
  }

  /** The run over the first `i + 1` inputs is the run over the first `i`, then one step. */
  lemma DriverStepRun(s0: State, m0: Machine, inputs: seq<Option<char>>, i: nat, step: StepResult)
    requires i < |inputs|
    requires Run(s0, m0, inputs[..i]).outcome.Next?
    requires step == Step(Run(s0, m0, inputs[..i]).outcome.state, Run(s0, m0, inputs[..i]).machine, inputs[i])
    ensures Run(s0, m0, inputs[..i + 1]) == StepResult(step.outcome, step.machine, Run(s0, m0, inputs[..i]).emitted + step.emitted)
  {
    assert inputs[..i + 1] == inputs[..i] + [inputs[i]];
    RunSnoc(s0, m0, inputs[..i], inputs[i], step);
  }

  /**
   * Feeding `inputs` to a tokenizer whose tokens go straight to `Emit`: the
   * first error of the tree builder wins; otherwise a tokenizer TypeError
   * aborts the parse.
   */
  method FeedAll(s0: State, inputs: seq<Option<char>>, machine: HTMLStateMachine, parser: HtmlParser, css: Css.CSSHandler, parse: StyleSheetParser)
    returns (r: BuildResult)
    requires machine.emitted == [] && Valid(parser.Model(css))
    modifies machine, parser, css
    ensures var run := Run(s0, old(machine.Model()), inputs);
      r == Verdict(run, BuildAll(old(parser.Model(css)), run.emitted, parse))
  {
    ghost var m0 := machine.Model();
    ghost var start := parser.Model(css);
    var state: Outcome := Next(s0);
    assert inputs[..0] == [];
    for i := 0 to |inputs|
      invariant state.Next?
      invariant Run(s0, m0, inputs[..i]) == StepResult(state, machine.Model(), machine.emitted)
      invariant Valid(parser.Model(css))
      invariant BuildAll(start, machine.emitted, parse) == Built(parser.Model(css))
    {
      var o, err := FeedOne(s0, inputs, i, state.state, machine, parser, css, parse, m0, start);
      if err.Some? {
        return Failed(err.value);
      }
      if !o.Next? {
        if i + 1 < |inputs| {
          return Failed(TypeError);
        }
        assert inputs[..i + 1] == inputs;
        return if o.Thrown? then Failed(TypeError) else Built(parser.Model(css));
      }
      state := o;
    }
    assert inputs[..|inputs|] == inputs;
    return Built(parser.Model(css));
  }

  /**
   * One pass of the loop of `parseHTML`: input `i` goes to the tokenizer,
   * and the tokens it emits go to `emit` in order.
   */
  method FeedOne(s0: State, inputs: seq<Option<char>>, i: nat, state: State, machine: HTMLStateMachine, parser: HtmlParser,
                 css: Css.CSSHandler, parse: StyleSheetParser, ghost m0: Machine, ghost start: Builder)
    returns (o: Outcome, err: Option<BuildError>)
    requires i < |inputs| && Valid(start)
    requires Run(s0, m0, inputs[..i]) == StepResult(Next(state), machine.Model(), machine.emitted)
    requires Valid(parser.Model(css)) && BuildAll(start, machine.emitted, parse) == Built(parser.Model(css))
    modifies machine, parser, css
    ensures Run(s0, m0, inputs[..i + 1]) == StepResult(o, machine.Model(), machine.emitted)
    ensures err.None? ==> Valid(parser.Model(css)) && BuildAll(start, machine.emitted, parse) == Built(parser.Model(css))
    ensures err.Some? ==> BuildAll(start, Run(s0, m0, inputs).emitted, parse) == Failed(err.value)
    ensures err.None? && !o.Next? && i + 1 < |inputs| ==> Run(s0, m0, inputs) == StepResult(Thrown, machine.Model(), machine.emitted)
  {
    ghost var b0 := parser.Model(css);
    ghost var e0 := machine.emitted;
    DriverStep(s0, m0, inputs, i, state, machine.Model(), e0, Step(state, machine.Model(), inputs[i]));
    var before := |machine.emitted|;
    o := machine.Feed(state, inputs[i]);
    var batch := machine.emitted[before..];
    assert machine.emitted == e0 + batch;
    err := parser.EmitTokens(batch, css, parse);
    if err.Some? {
      BuildFailsEarly(start, e0, batch, Run(s0, m0, inputs).emitted, b0, parse);
      return;
    }
    BuildAllAppend(start, e0, batch, parse);
  }

  /**
   * The evident intent of parser/html.js:18-24: a fresh tokenizer, tree
   * builder and style engine; every character and then EOF are fed.
   */
  method RunParseHTML(html: string, parse: StyleSheetParser) returns (r: BuildResult)
    ensures r == ParseHTML(html, parse)
  {
    var css := new Css.CSSHandler();
    var parser := new HtmlParser();
    var machine := new HTMLStateMachine();
    r := FeedAll(Data, Inputs(html), machine, parser, css, parse);
  }
}
