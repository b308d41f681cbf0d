/**
 * The HTML tokenizer of parser/html-state-machine.js: a finite-state
 * machine, following a subset of section 13.2.5 (Tokenization) of the
 * WHATWG HTML Living Standard, that consumes one character (or the EOF
 * sentinel) per step and hands tokens to an emit callback.
 *
 * In the source every state is a method that returns the method for the
 * next state. Here a state is a constructor of `State`, and one step is
 * described twice: by the pure function `Step` (the specification) and by
 * the methods of the class `HTMLStateMachine`, which update its fields in
 * place and append each emitted token to `emitted`, exactly as `Step` says.
 */
module Tokenizer {
  import opened JsUtil

  datatype State =
    | Data
    | TagOpen
    | EndTagOpen
    | TagName
    | BeforeAttributeName
    | AttributeName
    | AfterAttributeName
    | BeforeAttributeValue
    | AttributeValueDoubleQuoted
    | AttributeValueSingleQuoted
    | AttributeValueUnquoted
    | AfterAttributeValueQuoted
    | SelfClosingStartTag
    | BogusComment

  datatype Attribute = Attribute(name: string, value: string)

  datatype TagKind = StartTag | EndTag

  /**
   * A tag token under construction. `attributes` is `None` while the
   * JavaScript object has no `attributes` property, and `isSelfClosing`
   * is false while it has no `isSelfClosing` property.
   */
  datatype TagToken = TagToken(kind: TagKind, tagName: string, attributes: Option<seq<Attribute>>, isSelfClosing: bool)

  datatype Token =
    | Character(ch: char)
    | Tag(tag: TagToken)
    | Comment(data: string)
    | EndOfFile

  /**
   * What a state method does with its input: it returns the method for the
   * next state, returns `undefined` (after EOF in `data` and `tagOpen`, and
   * for the never-defined `characterReference` state), or throws a
   * TypeError (a property read on `null` or `undefined`, or `isSpace`
   * called with the EOF sentinel).
   */
  datatype Outcome = Next(state: State) | Undefined | Thrown

  /** The fields that the state methods overwrite. */
  datatype Machine = Machine(tagToken: Option<TagToken>, commentToken: Option<string>, returnState: Option<State>)

  datatype StepResult = StepResult(outcome: Outcome, machine: Machine, emitted: seq<Token>)

  /** The constructor's field values. */
  const Initial: Machine := Machine(None, None, None)

  function NewTag(kind: TagKind): TagToken
  {
    TagToken(kind, "", None, false)
  }

  /** `createAttribute(token, c)`: push `{name: c || '', value: ''}`, creating the list if absent. */
  function CreatedAttribute(t: TagToken, name: string): (r: TagToken)
    ensures r.kind == t.kind && r.tagName == t.tagName && r.isSelfClosing == t.isSelfClosing
    ensures t.attributes.None? ==> r.attributes == Some([Attribute(name, "")])
    ensures t.attributes.Some? ==> r.attributes == Some(t.attributes.value + [Attribute(name, "")])
  {
    if t.attributes.Some? then t.(attributes := Some(t.attributes.value + [Attribute(name, "")]))
    else t.(attributes := Some([Attribute(name, "")]))
  }

  /** True when the token has a last attribute record to append to. */
  predicate HasAttribute(t: TagToken)
  {
    t.attributes.Some? && |t.attributes.value| > 0
  }

  /**
   * `appendAttributeName(token, c)`: extend the name of the last record; the
   * source throws when there is none (`None` here).
   */
  function AppendedAttributeName(t: TagToken, c: char): (r: Option<TagToken>)
    ensures r.Some? <==> HasAttribute(t)
    ensures r.Some? ==> var a := t.attributes.value; var n := |a|;
      r.value == t.(attributes := Some(a[..n - 1] + [a[n - 1].(name := a[n - 1].name + [c])]))
  {
    if HasAttribute(t) then
      var a := t.attributes.value;
      var last := a[|a| - 1];
      Some(t.(attributes := Some(a[..|a| - 1] + [last.(name := last.name + [c])])))
    else None
  }

  /** `appendAttributeValue(token, c)`: extend the value of the last record. */
  function AppendedAttributeValue(t: TagToken, c: char): (r: Option<TagToken>)
    ensures r.Some? <==> HasAttribute(t)
    ensures r.Some? ==> var a := t.attributes.value; var n := |a|;
      r.value == t.(attributes := Some(a[..n - 1] + [a[n - 1].(value := a[n - 1].value + [c])]))
  {
    if HasAttribute(t) then
      var a := t.attributes.value;
      var last := a[|a| - 1];
      Some(t.(attributes := Some(a[..|a| - 1] + [last.(value := last.value + [c])])))
    else None
  }

  // ---------------------------------------------------------------------
  // One function per state method. `c == None` is the EOF sentinel.
  // ---------------------------------------------------------------------

  function Go(s: State, m: Machine): StepResult
  {
    StepResult(Next(s), m, [])
  }

  function Emitting(r: StepResult, first: seq<Token>): StepResult
  {
    r.(emitted := first + r.emitted)
  }

  lemma EmittingTwice(r: StepResult, second: seq<Token>, first: seq<Token>)
    ensures Emitting(Emitting(r, second), first) == Emitting(r, first + second)
  {
    assert first + (second + r.emitted) == (first + second) + r.emitted;
  }

  /** `this.emit(this.tagToken)` followed by a move to `data`. */
  function EmitTagStep(m: Machine): StepResult
  {
    if m.tagToken.Some? then StepResult(Next(Data), m, [Tag(m.tagToken.value)])
    else StepResult(Thrown, m, [])
  }

  /** A string update of the pending tag token; a null token throws. */
  function WithTag(m: Machine, t: Option<TagToken>, s: State): StepResult
  {
    if t.Some? then Go(s, m.(tagToken := t)) else StepResult(Thrown, m, [])
  }

  function DataStep(m: Machine, c: Option<char>): StepResult
  {
    if c.None? then StepResult(Undefined, m, [EndOfFile])
    else if c.value == '<' then Go(TagOpen, m)
    else StepResult(Next(Data), m, [Character(c.value)])
  }

  function TagNameStep(m: Machine, c: Option<char>): StepResult
  {
    if c.None? then StepResult(Next(TagName), m, [EndOfFile])
    else if Space(c) then Go(BeforeAttributeName, m)
    else if c.value == '/' then Go(SelfClosingStartTag, m)
    else if c.value == '>' then EmitTagStep(m)
    else if m.tagToken.None? then StepResult(Thrown, m, [])
    else
      var t := m.tagToken.value;
      var ch := if Letter(c) then ToLower(c.value) else c.value;
      Go(TagName, m.(tagToken := Some(t.(tagName := t.tagName + [ch]))))
  }

  function TagOpenStep(m: Machine, c: Option<char>): StepResult
  {
    if c.None? then StepResult(Undefined, m, [Character('<'), EndOfFile])
    else if c.value == '/' then Go(EndTagOpen, m)
    else if Letter(c) then TagNameStep(m.(tagToken := Some(NewTag(StartTag))), c)
    else Emitting(DataStep(m, c), [Character('<')])
  }

  function BogusCommentStep(m: Machine, c: Option<char>): StepResult
  {
    if c.None? then StepResult(Next(BogusComment), m, [EndOfFile])
    else if m.commentToken.None? then StepResult(Thrown, m, [])
    else if c.value == '\0' then Go(BogusComment, m.(commentToken := Some(m.commentToken.value + ['\U{FFFD}'])))
    else if c.value == '>' then StepResult(Next(Data), m, [Comment(m.commentToken.value)])
    else Go(BogusComment, m.(commentToken := Some(m.commentToken.value + [c.value])))
  }

  function EndTagOpenStep(m: Machine, c: Option<char>): StepResult
  {
    if c.None? then StepResult(Next(EndTagOpen), m, [Character('<'), Character('/'), EndOfFile])
    else if Letter(c) then TagNameStep(m.(tagToken := Some(NewTag(EndTag))), c)
    else if c.value == '>' then Go(Data, m)
    else BogusCommentStep(m.(commentToken := Some("")), c)
  }

  function AfterAttributeNameStep(m: Machine, c: Option<char>): StepResult
  {
    if c.None? then StepResult(Next(AfterAttributeName), m, [EndOfFile])
    else if Space(c) then Go(AfterAttributeName, m)
    else if c.value == '/' then Go(SelfClosingStartTag, m)
    else if c.value == '=' then Go(BeforeAttributeValue, m)
    else if c.value == '>' then EmitTagStep(m)
    else if m.tagToken.None? then StepResult(Thrown, m, [])
    // the character that starts the new attribute is not added to its name
    else Go(AttributeName, m.(tagToken := Some(CreatedAttribute(m.tagToken.value, ""))))
  }

  function AttributeNameStep(m: Machine, c: Option<char>): StepResult
  {
    // `isSpace(EOF)` is called first, and it throws
    if c.None? then StepResult(Thrown, m, [])
    else if Space(c) || c.value == '/' || c.value == '>' then AfterAttributeNameStep(m, c)
    else if c.value == '=' then Go(BeforeAttributeValue, m)
    else if m.tagToken.None? then StepResult(Thrown, m, [])
    else
      var ch := if Letter(c) then ToLower(c.value) else c.value;
      WithTag(m, AppendedAttributeName(m.tagToken.value, ch), AttributeName)
  }

  function BeforeAttributeNameStep(m: Machine, c: Option<char>): StepResult
  {
    // `isSpace(EOF)` is called first, and it throws
    if c.None? then StepResult(Thrown, m, [])
    else if Space(c) then Go(BeforeAttributeName, m)
    else if c.value == '/' || c.value == '>' then AfterAttributeNameStep(m, c)
    else if m.tagToken.None? then StepResult(Thrown, m, [])
    else if c.value == '=' then Go(AttributeName, m.(tagToken := Some(CreatedAttribute(m.tagToken.value, "="))))
    else AttributeNameStep(m.(tagToken := Some(CreatedAttribute(m.tagToken.value, ""))), c)
  }

  function AttributeValueUnquotedStep(m: Machine, c: Option<char>): StepResult
  {
    if c.None? then StepResult(Next(AttributeValueUnquoted), m, [EndOfFile])
    else if Space(c) then Go(BeforeAttributeName, m)
    else if c.value == '&' then StepResult(Undefined, m.(returnState := Some(AttributeValueUnquoted)), [])
    // `>` ends the tag without emitting it
    else if c.value == '>' then Go(Data, m)
    else if m.tagToken.None? then StepResult(Thrown, m, [])
    else WithTag(m, AppendedAttributeValue(m.tagToken.value, c.value), AttributeValueUnquoted)
  }

  function BeforeAttributeValueStep(m: Machine, c: Option<char>): StepResult
  {
    if c.None? || Space(c) then Go(BeforeAttributeValue, m)
    else if c.value == '"' then Go(AttributeValueDoubleQuoted, m)
    else if c.value == '\'' then Go(AttributeValueSingleQuoted, m)
    else if c.value == '>' then EmitTagStep(m)
    else AttributeValueUnquotedStep(m, c)
  }

  /** The double- and single-quoted value states, which differ only in the quote. */
  function QuotedValueStep(self: State, quote: char, m: Machine, c: Option<char>): StepResult
  {
    if c.None? then StepResult(Next(self), m, [EndOfFile])
    else if c.value == quote then Go(AfterAttributeValueQuoted, m)
    else if c.value == '&' then StepResult(Undefined, m.(returnState := Some(self)), [])
    else if m.tagToken.None? then StepResult(Thrown, m, [])
    else WithTag(m, AppendedAttributeValue(m.tagToken.value, c.value), self)
  }

  function AfterAttributeValueQuotedStep(m: Machine, c: Option<char>): StepResult
  {
    if c.None? then StepResult(Next(AfterAttributeValueQuoted), m, [EndOfFile])
    else if Space(c) then Go(BeforeAttributeName, m)
    else if c.value == '/' then Go(SelfClosingStartTag, m)
    else if c.value == '>' then EmitTagStep(m)
    else BeforeAttributeNameStep(m, c)
  }

  function SelfClosingStartTagStep(m: Machine, c: Option<char>): StepResult
  {
    if c == Some('>') then
      if m.tagToken.None? then StepResult(Thrown, m, [])
      else EmitTagStep(m.(tagToken := Some(m.tagToken.value.(isSelfClosing := true))))
    else if c.None? then StepResult(Next(SelfClosingStartTag), m, [EndOfFile])
    else Go(BeforeAttributeName, m)
  }

  /** One call of the state method `s` on the input `c`. */
  function Step(s: State, m: Machine, c: Option<char>): StepResult
  {
    match s
    case Data => DataStep(m, c)
    case TagOpen => TagOpenStep(m, c)
    case EndTagOpen => EndTagOpenStep(m, c)
    case TagName => TagNameStep(m, c)
    case BeforeAttributeName => BeforeAttributeNameStep(m, c)
    case AttributeName => AttributeNameStep(m, c)
    case AfterAttributeName => AfterAttributeNameStep(m, c)
    case BeforeAttributeValue => BeforeAttributeValueStep(m, c)
    case AttributeValueDoubleQuoted => QuotedValueStep(AttributeValueDoubleQuoted, '"', m, c)
    case AttributeValueSingleQuoted => QuotedValueStep(AttributeValueSingleQuoted, '\'', m, c)
    case AttributeValueUnquoted => AttributeValueUnquotedStep(m, c)
    case AfterAttributeValueQuoted => AfterAttributeValueQuotedStep(m, c)
    case SelfClosingStartTag => SelfClosingStartTagStep(m, c)
    case BogusComment => BogusCommentStep(m, c)
  }

  /**
   * Feeding `inputs` one at a time, starting in state `s`. After a state
   * method returns `undefined` or throws, a further input throws (calling
   * `undefined` is a TypeError); the outcome of the last call is kept.
   */
  function Run(s: State, m: Machine, inputs: seq<Option<char>>): (r: StepResult)
    decreases |inputs|
  {
    if inputs == [] then Go(s, m)
    else
      var r := Step(s, m, inputs[0]);
      if r.outcome.Next? then Emitting(Run(r.outcome.state, r.machine, inputs[1..]), r.emitted)
      else if |inputs| == 1 then r
      else r.(outcome := Thrown)
  }

  /** The characters of a string as tokenizer inputs. */
  function Chars(s: string): seq<Option<char>>
  {
    seq(|s|, i requires 0 <= i < |s| => Some(s[i]))
  }

  lemma CharsAppend(p: string, q: string)
    ensures Chars(p + q) == Chars(p) + Chars(q)
  {
  }

  lemma CharsCons(s: string)
    requires s != []
    ensures Chars(s) == [Some(s[0])] + Chars(s[1..])
  {
  }

  /** Every character of the input, then the EOF sentinel. */
  function Inputs(input: string): seq<Option<char>>
  {
    Chars(input) + [EOF]
  }

  /** The whole tokenizer run on a document, from the constructor's state. */
  function Tokenize(input: string): StepResult
  {
    Run(Data, Initial, Inputs(input))
  }

  // ---------------------------------------------------------------------
  // The class: fields overwritten in place, tokens leave through `emit`.
  // ---------------------------------------------------------------------

  class HTMLStateMachine {
    var tagToken: Option<TagToken>
    var commentToken: Option<string>
    var returnState: Option<State>
    /** Every token passed to the emit callback so far, in order. */
    var emitted: seq<Token>

    function Model(): Machine
      reads this
    {
      Machine(tagToken, commentToken, returnState)
    }

    constructor ()
      ensures Model() == Initial && emitted == []
    {
      tagToken, commentToken, returnState := None, None, None;
      emitted := [];
    }

    method Emit(t: Token)
      modifies this
      ensures Model() == old(Model()) && emitted == old(emitted) + [t]
    {
      emitted := emitted + [t];
    }

    method EmitTag() returns (o: Outcome)
      modifies this
      ensures var r := EmitTagStep(old(Model()));
        o == r.outcome && Model() == r.machine && emitted == old(emitted) + r.emitted
    {
      if tagToken.None? {
        return Thrown;
      }
      Emit(Tag(tagToken.value));
      o := Next(Data);
    }

    /** `createAttribute(this.tagToken, c)`; false when the token is null. */
    method CreateAttribute(name: string) returns (ok: bool)
      modifies this
      ensures ok == old(tagToken).Some? && emitted == old(emitted)
      ensures ok ==> Model() == old(Model()).(tagToken := Some(CreatedAttribute(old(tagToken).value, name)))
      ensures !ok ==> Model() == old(Model())
    {
      if tagToken.None? {
        return false;
      }
      var t := tagToken.value;
      if t.attributes.Some? {
        t := t.(attributes := Some(t.attributes.value + [Attribute(name, "")]));
      } else {
        t := t.(attributes := Some([Attribute(name, "")]));
      }
      tagToken := Some(t);
      ok := true;
    }

    /** `appendAttributeName(this.tagToken, c)`; false when there is no last record. */
    method AppendAttributeName(c: char) returns (ok: bool)
      modifies this
      ensures ok == (old(tagToken).Some? && HasAttribute(old(tagToken).value)) && emitted == old(emitted)
      ensures ok ==> Model() == old(Model()).(tagToken := AppendedAttributeName(old(tagToken).value, c))
      ensures !ok ==> Model() == old(Model())
    {
      if tagToken.None? || !HasAttribute(tagToken.value) {
        return false;
      }
      var attrs := tagToken.value.attributes.value;
      var lastIdx := |attrs| - 1;
      var attribute := attrs[lastIdx];
      tagToken := Some(tagToken.value.(attributes := Some(attrs[..lastIdx] + [attribute.(name := attribute.name + [c])])));
      ok := true;
    }

    /** `appendAttributeValue(this.tagToken, c)`; false when there is no last record. */
    method AppendAttributeValue(c: char) returns (ok: bool)
      modifies this
      ensures ok == (old(tagToken).Some? && HasAttribute(old(tagToken).value)) && emitted == old(emitted)
      ensures ok ==> Model() == old(Model()).(tagToken := AppendedAttributeValue(old(tagToken).value, c))
      ensures !ok ==> Model() == old(Model())
    {
      if tagToken.None? || !HasAttribute(tagToken.value) {
        return false;
      }
      var attrs := tagToken.value.attributes.value;
      var lastIdx := |attrs| - 1;
      var attribute := attrs[lastIdx];
      tagToken := Some(tagToken.value.(attributes := Some(attrs[..lastIdx] + [attribute.(value := attribute.value + [c])])));
      ok := true;
    }

    method DataState(c: Option<char>) returns (o: Outcome)
      modifies this
      ensures var r := DataStep(old(Model()), c);
        o == r.outcome && Model() == r.machine && emitted == old(emitted) + r.emitted
    {
      if c == EOF {
        Emit(EndOfFile);
        o := Undefined;
      } else if c.value == '<' {
        o := Next(TagOpen);
      } else {
        Emit(Character(c.value));
        o := Next(Data);
      }
    }

    method TagOpenState(c: Option<char>) returns (o: Outcome)
      modifies this
      ensures var r := TagOpenStep(old(Model()), c);
        o == r.outcome && Model() == r.machine && emitted == old(emitted) + r.emitted
    {
      if c == EOF {
        Emit(Character('<'));
        Emit(EndOfFile);
        o := Undefined;
      } else if c.value == '/' {
        o := Next(EndTagOpen);
      } else if Letter(c) {
        tagToken := Some(NewTag(StartTag));
        o := TagNameState(c);
      } else {
        Emit(Character('<'));
        o := DataState(c);
      }
    }

    method EndTagOpenState(c: Option<char>) returns (o: Outcome)
      modifies this
      ensures var r := EndTagOpenStep(old(Model()), c);
        o == r.outcome && Model() == r.machine && emitted == old(emitted) + r.emitted
    {
      if c == EOF {
        Emit(Character('<'));
        Emit(Character('/'));
        Emit(EndOfFile);
        o := Next(EndTagOpen);
      } else if Letter(c) {
        tagToken := Some(NewTag(EndTag));
        o := TagNameState(c);
      } else if c.value == '>' {
        o := Next(Data);
      } else {
        commentToken := Some("");
        o := BogusCommentState(c);
      }
    }

    method TagNameState(c: Option<char>) returns (o: Outcome)
      modifies this
      ensures var r := TagNameStep(old(Model()), c);
        o == r.outcome && Model() == r.machine && emitted == old(emitted) + r.emitted
    {
      if c == EOF {
        Emit(EndOfFile);
        o := Next(TagName);
      } else if Space(c) {
        o := Next(BeforeAttributeName);
      } else if c.value == '/' {
        o := Next(SelfClosingStartTag);
      } else if c.value == '>' {
        o := EmitTag();
      } else if tagToken.None? {
        o := Thrown;
      } else if Letter(c) {
        tagToken := Some(tagToken.value.(tagName := tagToken.value.tagName + [ToLower(c.value)]));
        o := Next(TagName);
      } else {
        tagToken := Some(tagToken.value.(tagName := tagToken.value.tagName + [c.value]));
        o := Next(TagName);
      }
    }

    method BeforeAttributeNameState(c: Option<char>) returns (o: Outcome)
      modifies this
      ensures var r := BeforeAttributeNameStep(old(Model()), c);
        o == r.outcome && Model() == r.machine && emitted == old(emitted) + r.emitted
    {
      if c == EOF {
        o := Thrown;
      } else if Space(c) {
        o := Next(BeforeAttributeName);
      } else if c.value == '/' || c.value == '>' {
        o := AfterAttributeNameState(c);
      } else if c.value == '=' {
        var ok := CreateAttribute("=");
        o := if ok then Next(AttributeName) else Thrown;
      } else {
        var ok := CreateAttribute("");
        if !ok {
          return Thrown;
        }
        o := AttributeNameState(c);
      }
    }

    method AfterAttributeNameState(c: Option<char>) returns (o: Outcome)
      modifies this
      ensures var r := AfterAttributeNameStep(old(Model()), c);
        o == r.outcome && Model() == r.machine && emitted == old(emitted) + r.emitted
    {
      if c == EOF {
        Emit(EndOfFile);
        o := Next(AfterAttributeName);
      } else if Space(c) {
        o := Next(AfterAttributeName);
      } else if c.value == '/' {
        o := Next(SelfClosingStartTag);
      } else if c.value == '=' {
        o := Next(BeforeAttributeValue);
      } else if c.value == '>' {
        o := EmitTag();
      } else {
        var ok := CreateAttribute("");
        o := if ok then Next(AttributeName) else Thrown;
      }
    }

    method BeforeAttributeValueState(c: Option<char>) returns (o: Outcome)
      modifies this
      ensures var r := BeforeAttributeValueStep(old(Model()), c);
        o == r.outcome && Model() == r.machine && emitted == old(emitted) + r.emitted
    {
      if c == EOF || Space(c) {
        o := Next(BeforeAttributeValue);
      } else if c.value == '"' {
        o := Next(AttributeValueDoubleQuoted);
      } else if c.value == '\'' {
        o := Next(AttributeValueSingleQuoted);
      } else if c.value == '>' {
        o := EmitTag();
      } else {
        o := AttributeValueUnquotedState(c);
      }
    }

    /** `attributeValueDoubleQuoted` (quote `"`) and `attributeValueSingleQuoted` (quote `'`). */
    method QuotedValueState(self: State, quote: char, c: Option<char>) returns (o: Outcome)
      modifies this
      ensures var r := QuotedValueStep(self, quote, old(Model()), c);
        o == r.outcome && Model() == r.machine && emitted == old(emitted) + r.emitted
    {
      if c == EOF {
        Emit(EndOfFile);
        o := Next(self);
      } else if c.value == quote {
        o := Next(AfterAttributeValueQuoted);
      } else if c.value == '&' {
        returnState := Some(self);
        o := Undefined;
      } else {
        var ok := AppendAttributeValue(c.value);
        o := if ok then Next(self) else Thrown;
      }
    }

    method AttributeValueUnquotedState(c: Option<char>) returns (o: Outcome)
      modifies this
      ensures var r := AttributeValueUnquotedStep(old(Model()), c);
        o == r.outcome && Model() == r.machine && emitted == old(emitted) + r.emitted
    {
      if c == EOF {
        Emit(EndOfFile);
        o := Next(AttributeValueUnquoted);
      } else if Space(c) {
        o := Next(BeforeAttributeName);
      } else if c.value == '&' {
        returnState := Some(AttributeValueUnquoted);
        o := Undefined;
      } else if c.value == '>' {
        o := Next(Data);
      } else {
        var ok := AppendAttributeValue(c.value);
        o := if ok then Next(AttributeValueUnquoted) else Thrown;
      }
    }

    method AfterAttributeValueQuotedState(c: Option<char>) returns (o: Outcome)
      modifies this
      ensures var r := AfterAttributeValueQuotedStep(old(Model()), c);
        o == r.outcome && Model() == r.machine && emitted == old(emitted) + r.emitted
    {
      if c == EOF {
        Emit(EndOfFile);
        o := Next(AfterAttributeValueQuoted);
      } else if Space(c) {
        o := Next(BeforeAttributeName);
      } else if c.value == '/' {
        o := Next(SelfClosingStartTag);
      } else if c.value == '>' {
        o := EmitTag();
      } else {
        o := BeforeAttributeNameState(c);
      }
    }

    method AttributeNameState(c: Option<char>) returns (o: Outcome)
      modifies this
      ensures var r := AttributeNameStep(old(Model()), c);
        o == r.outcome && Model() == r.machine && emitted == old(emitted) + r.emitted
    {
      if c == EOF {
        o := Thrown;
      } else if Space(c) || c.value == '/' || c.value == '>' {
        o := AfterAttributeNameState(c);
      } else if c.value == '=' {
        o := Next(BeforeAttributeValue);
      } else if tagToken.None? {
        o := Thrown;
      } else {
        var ch := if Letter(c) then ToLower(c.value) else c.value;
        var ok := AppendAttributeName(ch);
        o := if ok then Next(AttributeName) else Thrown;
      }
    }

    method SelfClosingStartTagState(c: Option<char>) returns (o: Outcome)
      modifies this
      ensures var r := SelfClosingStartTagStep(old(Model()), c);
        o == r.outcome && Model() == r.machine && emitted == old(emitted) + r.emitted
    {
      if c == Some('>') {
        if tagToken.None? {
          return Thrown;
        }
        tagToken := Some(tagToken.value.(isSelfClosing := true));
        o := EmitTag();
      } else if c == EOF {
        Emit(EndOfFile);
        o := Next(SelfClosingStartTag);
      } else {
        o := Next(BeforeAttributeName);
      }
    }

    method BogusCommentState(c: Option<char>) returns (o: Outcome)
      modifies this
      ensures var r := BogusCommentStep(old(Model()), c);
        o == r.outcome && Model() == r.machine && emitted == old(emitted) + r.emitted
    {
      if c == EOF {
        Emit(EndOfFile);
        o := Next(BogusComment);
      } else if commentToken.None? {
        o := Thrown;
      } else if c.value == '\0' {
        commentToken := Some(commentToken.value + ['\U{FFFD}']);
        o := Next(BogusComment);
      } else if c.value == '>' {
        Emit(Comment(commentToken.value));
        o := Next(Data);
      } else {
        commentToken := Some(commentToken.value + [c.value]);
        o := Next(BogusComment);
      }
    }

    /** `state.call(this, c)`: dispatch to the method of the current state. */
    method Feed(s: State, c: Option<char>) returns (o: Outcome)
      modifies this
      ensures var r := Step(s, old(Model()), c);
        o == r.outcome && Model() == r.machine && emitted == old(emitted) + r.emitted
    {
      match s
      case Data => o := DataState(c);
      case TagOpen => o := TagOpenState(c);
      case EndTagOpen => o := EndTagOpenState(c);
      case TagName => o := TagNameState(c);
      case BeforeAttributeName => o := BeforeAttributeNameState(c);
      case AttributeName => o := AttributeNameState(c);
      case AfterAttributeName => o := AfterAttributeNameState(c);
      case BeforeAttributeValue => o := BeforeAttributeValueState(c);
      case AttributeValueDoubleQuoted => o := QuotedValueState(AttributeValueDoubleQuoted, '"', c);
      case AttributeValueSingleQuoted => o := QuotedValueState(AttributeValueSingleQuoted, '\'', c);
      case AttributeValueUnquoted => o := AttributeValueUnquotedState(c);
      case AfterAttributeValueQuoted => o := AfterAttributeValueQuotedState(c);
      case SelfClosingStartTag => o := SelfClosingStartTagState(c);
      case BogusComment => o := BogusCommentState(c);
    }
  }

  // ---------------------------------------------------------------------
  // Properties of the specification.
  // ---------------------------------------------------------------------

  /** One character token per character. */
  function CharTokens(s: string): seq<Token>
  {
    seq(|s|, i requires 0 <= i < |s| => Character(s[i]))
  }

  lemma CharTokensCons(s: string)
    requires s != []
    ensures CharTokens(s) == [Character(s[0])] + CharTokens(s[1..])
  {
  }

  /** `name` with every letter folded to lower case, as `tagName` appends it. */
  function Lowered(name: string): string
  {
    seq(|name|, i requires 0 <= i < |name| => ToLower(name[i]))
  }

  lemma LoweredCons(name: string)
    requires name != []
    ensures Lowered(name) == [ToLower(name[0])] + Lowered(name[1..])
  {
  }

  /** No character of `name` ends the tag-name state. */
  predicate PlainName(name: string)
  {
    forall i :: 0 <= i < |name| ==> !Space(Some(name[i])) && name[i] != '/' && name[i] != '>'
  }

  /**
   * In `data`, a character other than `<` emits exactly one character token
   * carrying it and stays in `data`; EOF emits one EOF token.
   */
  lemma DataStepEmits(m: Machine, c: Option<char>)
    ensures c.Some? && c.value != '<' ==> DataStep(m, c) == StepResult(Next(Data), m, [Character(c.value)])
    ensures c == EOF ==> DataStep(m, c) == StepResult(Undefined, m, [EndOfFile])
    ensures c == Some('<') ==> DataStep(m, c) == StepResult(Next(TagOpen), m, [])
  {
  }

  /** One input, then the rest: `Run` unfolded once. */
  lemma RunCons(s: State, m: Machine, x: Option<char>, xs: seq<Option<char>>)
    requires Step(s, m, x).outcome.Next?
    ensures var r := Step(s, m, x);
      Run(s, m, [x] + xs) == Emitting(Run(r.outcome.state, r.machine, xs), r.emitted)
  {
    assert ([x] + xs)[0] == x && ([x] + xs)[1..] == xs;
  }

  /** Feeding inputs in two parts: the second part starts where the first one stopped. */
  lemma {:induction false} RunAppend(s: State, m: Machine, a: seq<Option<char>>, b: seq<Option<char>>)
    requires Run(s, m, a).outcome.Next?
    ensures var r := Run(s, m, a);
      Run(s, m, a + b) == Emitting(Run(r.outcome.state, r.machine, b), r.emitted)
    decreases |a|
  {
    if a == [] {
      assert a + b == b;
      assert Emitting(Run(s, m, b), []) == Run(s, m, b);
    } else {
      var r := Step(s, m, a[0]);
      assert r.outcome.Next?;
      assert a == [a[0]] + a[1..];
      assert a + b == [a[0]] + (a[1..] + b);
      RunCons(s, m, a[0], a[1..]);
      RunCons(s, m, a[0], a[1..] + b);
      var r1 := Run(r.outcome.state, r.machine, a[1..]);
      RunAppend(r.outcome.state, r.machine, a[1..], b);
      var x := Run(r1.outcome.state, r1.machine, b);
      assert Run(s, m, a + b) == Emitting(Emitting(x, r1.emitted), r.emitted);
      EmittingTwice(x, r1.emitted, r.emitted);
    }
  }

  /** A run over one input is one step. */
  lemma RunOne(s: State, m: Machine, x: Option<char>)
    ensures Run(s, m, [x]) == Step(s, m, x)
  {
    assert [x][0] == x && [x][1..] == [];
  }

  /**
   * Once a state function has returned something other than the next state,
   * calling that value on more input throws, and nothing more is emitted.
   */
  lemma {:induction false} RunStopped(s: State, m: Machine, a: seq<Option<char>>, b: seq<Option<char>>)
    requires !Run(s, m, a).outcome.Next? && b != []
    ensures Run(s, m, a + b) == Run(s, m, a).(outcome := Thrown)
    decreases |a|
  {
    assert a != [];
    var r := Step(s, m, a[0]);
    assert a == [a[0]] + a[1..];
    assert a + b == [a[0]] + (a[1..] + b);
    if r.outcome.Next? {
      RunCons(s, m, a[0], a[1..]);
      RunCons(s, m, a[0], a[1..] + b);
      RunStopped(r.outcome.state, r.machine, a[1..], b);
    }
  }

  /** The tokens of a run are a prefix of the tokens of any longer run. */
  lemma RunPrefix(s: State, m: Machine, a: seq<Option<char>>, b: seq<Option<char>>)
    ensures Run(s, m, a).emitted <= Run(s, m, a + b).emitted
  {
    if b == [] {
      assert a + b == a;
    } else if Run(s, m, a).outcome.Next? {
      RunAppend(s, m, a, b);
    } else {
      RunStopped(s, m, a, b);
    }
  }

  /** Input without `<` is emitted one character token per character, followed by EOF. */
  lemma {:induction false} RunWithoutTags(m: Machine, s: string)
    requires '<' !in s
    ensures Run(Data, m, Inputs(s)) == StepResult(Undefined, m, CharTokens(s) + [EndOfFile])
    decreases |s|
  {
    if s == [] {
      assert Inputs(s) == [EOF];
    } else {
      assert Inputs(s)[0] == Some(s[0]);
      assert Inputs(s)[1..] == Inputs(s[1..]);
      RunWithoutTags(m, s[1..]);
      assert CharTokens(s) == [Character(s[0])] + CharTokens(s[1..]);
    }
  }

  /** Text without `<` in `data`: one character token per character, still in `data`. */
  lemma {:induction false} RunText(m: Machine, s: string)
    requires '<' !in s
    ensures Run(Data, m, Chars(s)) == StepResult(Next(Data), m, CharTokens(s))
    decreases |s|
  {
    if s != [] {
      CharsCons(s);
      RunCons(Data, m, Some(s[0]), Chars(s[1..]));
      RunText(m, s[1..]);
      CharTokensCons(s);
    }
  }

  /** The tokenizer's round trip for text: no `<` means characters, then EOF. */
  lemma TokenizeText(input: string)
    requires '<' !in input
    ensures Tokenize(input).emitted == CharTokens(input) + [EndOfFile]
    ensures Tokenize(input).outcome == Undefined
  {
    RunWithoutTags(Initial, input);
  }

  /**
   * A `<` followed by anything other than `/`, a letter or EOF is emitted as
   * a literal `<`, and that character is reprocessed in `data`; at EOF, `<`
   * and then EOF are emitted.
   */
  lemma TagOpenLiteral(m: Machine, c: Option<char>)
    ensures c.Some? && c.value != '/' && !Letter(c) ==>
      TagOpenStep(m, c) == Emitting(DataStep(m, c), [Character('<')])
    ensures c == EOF ==> TagOpenStep(m, c) == StepResult(Undefined, m, [Character('<'), EndOfFile])
  {
  }

  /**
   * A letter after `<` or `</` starts a fresh start or end tag with an empty
   * name, and the letter, lowercased, becomes the name's first character.
   */
  lemma TagOpenLetter(m: Machine, c: char)
    requires Letter(Some(c))
    ensures TagOpenStep(m, Some(c)) == Go(TagName, m.(tagToken := Some(TagToken(StartTag, [ToLower(c)], None, false))))
    ensures EndTagOpenStep(m, Some(c)) == Go(TagName, m.(tagToken := Some(TagToken(EndTag, [ToLower(c)], None, false))))
  {
    IsLetterExactly([c]);
    IsSpaceChars(c);
    assert "" + [ToLower(c)] == [ToLower(c)];
  }

  /** In `tagName`, a character other than a delimiter is appended, lowercased if a letter. */
  lemma TagNamePlainStep(m: Machine, t: TagToken, c: char)
    requires !Space(Some(c)) && c != '/' && c != '>'
    ensures Step(TagName, m.(tagToken := Some(t)), Some(c))
      == Go(TagName, m.(tagToken := Some(t.(tagName := t.tagName + [ToLower(c)]))))
  {
    IsLetterExactly([c]);
  }

  lemma PlainNameTail(name: string)
    requires name != [] && PlainName(name)
    ensures PlainName(name[1..]) && !Space(Some(name[0])) && name[0] != '/' && name[0] != '>'
  {
    forall i | 0 <= i < |name[1..]| ensures !Space(Some(name[1..][i])) && name[1..][i] != '/' && name[1..][i] != '>' {
      assert name[1..][i] == name[i + 1];
    }
  }

  /** In `tagName`, a run of plain characters is appended, letters lowercased. */
  lemma {:induction false} TagNameRun(m: Machine, t: TagToken, name: string)
    requires PlainName(name)
    ensures Run(TagName, m.(tagToken := Some(t)), Chars(name))
      == Go(TagName, m.(tagToken := Some(t.(tagName := t.tagName + Lowered(name)))))
    decreases |name|
  {
    if name == [] {
      assert Chars(name) == [] && t.tagName + Lowered(name) == t.tagName;
      assert t.(tagName := t.tagName) == t;
    } else {
      PlainNameTail(name);
      TagNameRun(m, t.(tagName := t.tagName + [ToLower(name[0])]), name[1..]);
      TagNameRunCons(m, t, name);
    }
  }

  /** The inductive step of `TagNameRun`: one plain character, then the rest. */
  lemma TagNameRunCons(m: Machine, t: TagToken, name: string)
    requires name != [] && !Space(Some(name[0])) && name[0] != '/' && name[0] != '>'
    requires var t' := t.(tagName := t.tagName + [ToLower(name[0])]);
      Run(TagName, m.(tagToken := Some(t')), Chars(name[1..]))
        == Go(TagName, m.(tagToken := Some(t'.(tagName := t'.tagName + Lowered(name[1..])))))
    ensures Run(TagName, m.(tagToken := Some(t)), Chars(name))
      == Go(TagName, m.(tagToken := Some(t.(tagName := t.tagName + Lowered(name)))))
  {
    var c := name[0];
    var mt := m.(tagToken := Some(t));
    var t' := t.(tagName := t.tagName + [ToLower(c)]);
    TagNamePlainStep(m, t, c);
    CharsCons(name);
    RunCons(TagName, mt, Some(c), Chars(name[1..]));
    LoweredCons(name);
    assert t'.tagName + Lowered(name[1..]) == t.tagName + Lowered(name);
  }

  /** `>` in `tagName`, `afterAttributeName`, `beforeAttributeValue` or `afterAttributeValueQuoted` emits the pending tag and returns to `data`. */
  lemma GreaterThanEmitsTag(m: Machine, t: TagToken)
    ensures var m' := m.(tagToken := Some(t));
      && TagNameStep(m', Some('>')) == StepResult(Next(Data), m', [Tag(t)])
      && AfterAttributeNameStep(m', Some('>')) == StepResult(Next(Data), m', [Tag(t)])
      && BeforeAttributeValueStep(m', Some('>')) == StepResult(Next(Data), m', [Tag(t)])
      && AfterAttributeValueQuotedStep(m', Some('>')) == StepResult(Next(Data), m', [Tag(t)])
  {
    IsSpaceChars('>');
  }

  /** `>` in `attributeValueUnquoted` returns to `data` without emitting the tag. */
  lemma GreaterThanInUnquotedValue(m: Machine)
    ensures AttributeValueUnquotedStep(m, Some('>')) == Go(Data, m)
  {
    IsSpaceChars('>');
  }

  /**
   * After `/`, a `>` marks the pending tag self-closing and emits it; any
   * other character is dropped and the machine moves to `beforeAttributeName`.
   */
  lemma SelfClosing(m: Machine, t: TagToken, c: char)
    ensures var m' := m.(tagToken := Some(t));
      SelfClosingStartTagStep(m', Some('>'))
        == StepResult(Next(Data), m'.(tagToken := Some(t.(isSelfClosing := true))), [Tag(t.(isSelfClosing := true))])
    ensures c != '>' ==> SelfClosingStartTagStep(m, Some(c)) == Go(BeforeAttributeName, m)
  {
  }

  /**
   * EOF in `beforeAttributeName` or `attributeName` throws, since both call
   * `isSpace` on it first; nothing is emitted and the fields stay.
   */
  lemma EofInAttributeNameThrows(m: Machine)
    ensures BeforeAttributeNameStep(m, EOF) == StepResult(Thrown, m, [])
    ensures AttributeNameStep(m, EOF) == StepResult(Thrown, m, [])
    ensures AfterAttributeValueQuotedStep(m, EOF) == StepResult(Next(AfterAttributeValueQuoted), m, [EndOfFile])
  {
  }

  /** `appendAttributeName` and `appendAttributeValue` change only the last record. */
  lemma AppendChangesLastOnly(t: TagToken, c: char)
    requires HasAttribute(t)
    ensures var a := t.attributes.value; var n := |a|;
      var rn := AppendedAttributeName(t, c).value; var rv := AppendedAttributeValue(t, c).value;
      && rn.kind == t.kind && rn.tagName == t.tagName && rn.isSelfClosing == t.isSelfClosing
      && rv.kind == t.kind && rv.tagName == t.tagName && rv.isSelfClosing == t.isSelfClosing
      && |rn.attributes.value| == n && |rv.attributes.value| == n
      && (forall i :: 0 <= i < n - 1 ==> rn.attributes.value[i] == a[i] && rv.attributes.value[i] == a[i])
      && rn.attributes.value[n - 1] == Attribute(a[n - 1].name + [c], a[n - 1].value)
      && rv.attributes.value[n - 1] == Attribute(a[n - 1].name, a[n - 1].value + [c])
  {
  }

  /**
   * In a quoted value, every character except the matching quote, `&` and
   * EOF is appended to the current value; the matching quote moves to
   * `afterAttributeValueQuoted`.
   */
  lemma QuotedValueAppends(self: State, quote: char, m: Machine, t: TagToken, c: char)
    requires HasAttribute(t)
    ensures var m' := m.(tagToken := Some(t));
      && (c != quote && c != '&' ==>
            QuotedValueStep(self, quote, m', Some(c)) == Go(self, m'.(tagToken := AppendedAttributeValue(t, c))))
      && QuotedValueStep(self, quote, m', Some(quote)) == Go(AfterAttributeValueQuoted, m')
  {
  }

  /**
   * `</` followed by a character that is neither a letter nor `>` opens a
   * bogus comment; `</>` emits nothing and returns to `data`.
   */
  lemma EndTagOpenBogus(m: Machine, c: char)
    requires !Letter(Some(c)) && c != '>'
    ensures EndTagOpenStep(m, Some(c)) == BogusCommentStep(m.(commentToken := Some("")), Some(c))
    ensures EndTagOpenStep(m, Some('>')) == Go(Data, m)
  {
    IsLetterExactly(['>']);
  }

  /** In a bogus comment, NUL becomes U+FFFD and `>` emits the comment. */
  lemma BogusCommentSteps(m: Machine, d: string)
    ensures var m' := m.(commentToken := Some(d));
      && BogusCommentStep(m', Some('\0')) == Go(BogusComment, m.(commentToken := Some(d + ['\U{FFFD}'])))
      && BogusCommentStep(m', Some('>')) == StepResult(Next(Data), m', [Comment(d)])
  {
  }

  /**
   * A run in `tagName` over plain characters and then `>`: the tag, with the
   * characters appended lowercased, is emitted and the machine is in `data`.
   */
  lemma TagNameThenClose(m: Machine, t: TagToken, name: string, rest: seq<Option<char>>)
    requires PlainName(name)
    ensures var t' := t.(tagName := t.tagName + Lowered(name));
      Run(TagName, m.(tagToken := Some(t)), Chars(name) + ([Some('>')] + rest))
        == Emitting(Run(Data, m.(tagToken := Some(t')), rest), [Tag(t')])
  {
    var t' := t.(tagName := t.tagName + Lowered(name));
    var mt := m.(tagToken := Some(t'));
    TagNameRun(m, t, name);
    RunAppend(TagName, m.(tagToken := Some(t)), Chars(name), [Some('>')] + rest);
    IsSpaceChars('>');
    assert Step(TagName, mt, Some('>')) == StepResult(Next(Data), mt, [Tag(t')]);
    RunCons(TagName, mt, Some('>'), rest);
  }

  /** The inputs of a tag written as `prefix`, `name` and `>`, split into their three parts. */
  lemma TagInputs(prefix: string, name: string, rest: seq<Option<char>>)
    ensures Chars(prefix + name + ">") + rest == Chars(prefix) + (Chars(name) + ([Some('>')] + rest))
  {
    CharsAppend(prefix + name, ">");
    CharsAppend(prefix, name);
    assert Chars(">") == [Some('>')];
  }

  /**
   * After `<` or `</`: a name that starts with a letter and holds no space,
   * `/` or `>`, then `>`, emits one tag token of the matching kind with the
   * name lowercased and no attributes.
   */
  lemma OpenThenName(open: State, kind: TagKind, m: Machine, name: string, rest: seq<Option<char>>)
    requires (open == TagOpen && kind == StartTag) || (open == EndTagOpen && kind == EndTag)
    requires name != [] && Letter(Some(name[0])) && PlainName(name)
    ensures var t := TagToken(kind, Lowered(name), None, false);
      Run(open, m, Chars(name) + ([Some('>')] + rest))
        == Emitting(Run(Data, m.(tagToken := Some(t)), rest), [Tag(t)])
  {
    var t0 := TagToken(kind, [ToLower(name[0])], None, false);
    var tail := Chars(name[1..]) + ([Some('>')] + rest);
    CharsCons(name);
    assert Chars(name) + ([Some('>')] + rest) == [Some(name[0])] + tail;
    TagOpenLetter(m, name[0]);
    assert Step(open, m, Some(name[0])) == Go(TagName, m.(tagToken := Some(t0)));
    RunCons(open, m, Some(name[0]), tail);
    PlainNameTail(name);
    TagNameThenClose(m, t0, name[1..], rest);
    LoweredCons(name);
    assert t0.(tagName := t0.tagName + Lowered(name[1..])) == TagToken(kind, Lowered(name), None, false);
  }

  /**
   * A whole start tag: `<` then a name that starts with a letter and holds no
   * space, `/` or `>`, then `>`, emits one start-tag token with the name
   * lowercased and no attributes, and the machine is back in `data`.
   */
  lemma StartTagRun(m: Machine, name: string, rest: seq<Option<char>>)
    requires name != [] && Letter(Some(name[0])) && PlainName(name)
    ensures var t := TagToken(StartTag, Lowered(name), None, false);
      Run(Data, m, Chars("<" + name + ">") + rest)
        == Emitting(Run(Data, m.(tagToken := Some(t)), rest), [Tag(t)])
  {
    var after := Chars(name) + ([Some('>')] + rest);
    TagInputs("<", name, rest);
    assert Chars("<") == [Some('<')];
    RunCons(Data, m, Some('<'), after);
    OpenThenName(TagOpen, StartTag, m, name, rest);
  }

  /** The same for an end tag `</name>`. */
  lemma EndTagRun(m: Machine, name: string, rest: seq<Option<char>>)
    requires name != [] && Letter(Some(name[0])) && PlainName(name)
    ensures var t := TagToken(EndTag, Lowered(name), None, false);
      Run(Data, m, Chars("</" + name + ">") + rest)
        == Emitting(Run(Data, m.(tagToken := Some(t)), rest), [Tag(t)])
  {
    var after := Chars(name) + ([Some('>')] + rest);
    TagInputs("</", name, rest);
    assert Chars("</") + after == [Some('<')] + ([Some('/')] + after);
    RunCons(Data, m, Some('<'), [Some('/')] + after);
    RunCons(TagOpen, m, Some('/'), after);
    OpenThenName(EndTagOpen, EndTag, m, name, rest);
  }
}
