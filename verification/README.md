# toy-browser core in Dafny

A model of the core of a toy web browser written in JavaScript. The browser
fetches a page over HTTP/1.1 and reads a chunked response body. It then
tokenizes the HTML, builds a DOM tree, matches CSS rules against each new
element and lays out flex containers.

The model has one module per source file:

- `JsUtil` (util.dfy): the character predicates `isLetter`, `isSpace` and
  `isIgnore`, the `EOF` sentinel, and the JavaScript string operations the
  other modules use (`includes`, `split`, `join`, `reverse`). The sentinel is
  the `None` of `Option<char>`.
- `Tokenizer` (tokenizer.dfy): the HTML tokenizer, a subset of section
  13.2.5 (Tokenization) of the WHATWG HTML Living Standard. One step is the
  pure function `Step`. The class `HTMLStateMachine` has one method per state
  and updates its fields exactly as `Step` says. A run over a whole input is
  `Run`.
- `Css` (css.dfy): the style engine. It covers selector matching (`#id`,
  `.class`, tag), the greedy ancestor walk and the cascade. In the cascade a
  later rule overwrites an earlier one, and the `match` flag is sticky.
- `TreeBuilder` (treebuilder.dfy): `HtmlParser.emit` and `parseHTML`. Nodes
  live in an arena, and the open-element stack holds their indices.
- `StyleValues` (style_values.dfy): the values of a `style` object, the
  unit-stripping copy of `getStyle` (built on `parseInt`), `setDefault` and
  the JavaScript arithmetic of the layout.
- `Layout`, `LayoutProperties` and `LayoutMainAxis` (layout.dfy,
  layout_props.dfy, layout_main.dfy): the flex layout. `LayoutElement` is a
  class whose `style` map the methods overwrite in place. Each method is
  proved against a pure function, and the properties of those functions are
  lemmas.
- `Http` (http.dfy): the HTTP client.
  - `ResponseParser` reads the status line, the header fields and the blank
    line (sections 3.1.2 and 3.2 of RFC 7230).
  - `TrunkedBodyParser` reads the chunked transfer coding (section 4.1 of
    RFC 7230).
  - `HttpRequest` encodes the request body.

Two behaviours of the code are easy to miss, and the model keeps both:

- parser/css.js computes no selector specificity. Every applied rule writes
  its declarations in rule order, so the last matching rule wins.
- The tree builder stores a start tag's attributes under the key `attribute`
  (parser/html.js:36), while `match` reads `attributes` (parser/css.js:52).
  `match` returns false for every selector when `attributes` is missing
  (parser/css.js:52-54), so no rule of any kind, tag rules included, ever
  applies to a parsed element, which `TreeBuilder.ElementsGetNoStyle` proves.

Where the code reads an identifier it never declares, the model reads it as
evidently intended and says so at the place where it does:

- In parser/html.js, `parseHTML` reads `this.data`, `EOF` and `this.rules`.
- In parser/html.js, the style engine is built without the open-element
  stack.
- In parser/layout.js, the code reads `flexDirections`, `crossStart` and
  `crossEnd`.
- Also in parser/layout.js: `mainSpace`, `mainSign`, `mainBase`,
  `mainSize`, `mainStart` and `mainEnd` inside `computeMainAxis`. The axis
  fields are destructured only inside the overflow branch (parser/layout.js:118),
  so the other branch reads them undeclared (:145-152, :160-185).

## Model

| member | source | states |
|---|---|---|
| `JsUtil.ToLowerLetters` | parser/html-state-machine.js:88 | `toLowerCase` gives a lower-case ASCII letter exactly for a letter of either case, sends both cases of a letter to the same letter, and is idempotent. |
| `JsUtil.IncludesEmpty` | util.js:7-9 | Every string includes the empty string, so `isSpace("")` holds. |
| `JsUtil.IncludesChar` | util.js:7-9 | A one-character needle is included exactly when that character occurs in the haystack. |
| `JsUtil.CharRangeMembers` | util.js:3-5 | A character range `lo-hi` of the regular expression holds exactly the characters between its bounds. |
| `JsUtil.IsLetterExactly` | util.js:3-5 | `isLetter(s)` holds if and only if `s` is one ASCII letter, `a`-`z` or `A`-`Z`. |
| `JsUtil.IsSpaceChars` | util.js:7-9 | `isSpace` holds for tab, line feed, form feed and space, fails for carriage return, and holds for the empty string. |
| `JsUtil.IsIgnoreChars` | util.js:11-13 | `isIgnore` holds for the sentinel and, among single characters, exactly for `/` and `>`. |
| `JsUtil.EofIsUnique` | util.js:1 | The sentinel equals no input character and is neither a letter nor a space. |
| `JsUtil.Split` | parser/css.js:22 | `split` on one character yields at least one piece, no piece holds the separator, and joining the pieces with it gives the string back. |
| `JsUtil.SplitNoSeparator` | parser/css.js:62 | A string without the separator splits into itself alone. |
| `JsUtil.ReverseKeeps` | parser/css.js:15 | Reversing the element stack twice gives it back, and a reversal holds the same elements as often as the original. |
| `StyleValues.TrimStartSuffix` | parser/layout.js:48 | `parseInt` skips exactly the leading white space: what it reads is a suffix of the input, every character dropped is white space, and the first one kept is not. |
| `StyleValues.ParseInt` | parser/layout.js:48 | `parseInt` yields a number with no fractional part, or NaN, and nothing else. |
| `StyleValues.ParseIntSkipsSpace` | parser/layout.js:48 | A leading white-space character does not change what `parseInt` reads. |
| `StyleValues.ParseIntSign` | parser/layout.js:48 | A leading `+` changes nothing, and a leading `-` negates the number read, or leaves NaN. |
| `StyleValues.ParseIntHex` | parser/layout.js:48 | After `0x` or `0X`, `parseInt` reads the hexadecimal digits that follow, and gives NaN when there are none. |
| `StyleValues.Decimal` | parser/layout.js:46-47 | A non-negative integer as a template string writes it as decimal digits with no leading zero ("0" for zero). |
| `StyleValues.CopyStyleEntries` | parser/layout.js:39-54 | After `getStyle`, the style holds its old keys plus the non-null computed keys. Each computed key holds its converted value; every other key is unchanged. |
| `StyleValues.ToNumber` | parser/layout.js:10 | The numeric coercion the layout relies on yields a number or NaN. |
| `StyleValues.DigitsValueDecimal` | parser/layout.js:48 | Reading back the decimal digits of `n` gives `n`. |
| `StyleValues.DigitPrefixAll` | parser/layout.js:48 | `parseInt`'s digit run is exactly the leading digits, up to the first non-digit. |
| `StyleValues.ParseIntPlain` | parser/layout.js:48 | A string that starts with a decimal digit, and not with `0x`, parses to the value of its leading digits. |
| `StyleValues.ParseIntDecimal` | parser/layout.js:46-48 | `parseInt` reads back `n` from its decimal digits followed by a unit, a fraction or nothing. |
| `StyleValues.ConvertPixels` | parser/layout.js:46-48 | `getStyle` turns `"<n>px"` into the number `n`. |
| `StyleValues.ConvertNegativePixels` | parser/layout.js:46-48 | `getStyle` turns `"-<n>px"` into the number `-n`. |
| `StyleValues.ConvertDigits` | parser/layout.js:47-48 | `getStyle` turns a bare digit string into its number. |
| `StyleValues.ConvertTruncates` | parser/layout.js:47-48 | A decimal fraction `n.m` is truncated to `n`. |
| `StyleValues.DecimalDotDecimal` | parser/layout.js:47 | A decimal fraction matches the digits-and-dots pattern. |
| `StyleValues.ConvertKeyword` | parser/layout.js:49-51 | A lower-case keyword such as `flex` is stored verbatim. |
| `StyleValues.CopyStyleIdempotent` | parser/layout.js:39-54 | Calling `getStyle` twice gives the same style as calling it once. |
| `StyleValues.CopyStyleAfterWrite` | parser/layout.js:39-54 | `getStyle` undoes a write to a key the computed style holds and keeps a write to any other key. |
| `StyleValues.SetDefaultReplaces` | parser/layout.js:56-60 | `setDefault` replaces exactly a falsy value or `'auto'` (so a 0 is replaced too) and touches no other key. |
| `Tokenizer.CreatedAttribute` | parser/html-state-machine.js:11-19 | A new `{name, value: ''}` record goes at the end of the attribute list, which is created when absent; the rest of the token is unchanged. |
| `Tokenizer.AppendedAttributeName` | parser/html-state-machine.js:21-25 | Succeeds if and only if there is a last attribute; then only that attribute's name grows by the character. |
| `Tokenizer.AppendedAttributeValue` | parser/html-state-machine.js:27-31 | Succeeds if and only if there is a last attribute; then only that attribute's value grows by the character. |
| `Tokenizer.HTMLStateMachine.constructor` | parser/html-state-machine.js:4-9 | The fields start null and nothing has been emitted. |
| `Tokenizer.HTMLStateMachine.Emit` | parser/html-state-machine.js:8 | The emit callback receives the token in order; the fields are unchanged. |
| `Tokenizer.HTMLStateMachine.EmitTag` | parser/html-state-machine.js:84-86 | Emitting the pending tag token and returning `data`, as the step function says; a null tag token throws. |
| `Tokenizer.HTMLStateMachine.CreateAttribute` | parser/html-state-machine.js:11-19 | Adds the record to the pending tag; fails, changing nothing, when the tag token is null. |
| `Tokenizer.HTMLStateMachine.AppendAttributeName` | parser/html-state-machine.js:21-25 | Extends the last attribute's name; fails, changing nothing, when there is no tag or no attribute. |
| `Tokenizer.HTMLStateMachine.AppendAttributeValue` | parser/html-state-machine.js:27-31 | Extends the last attribute's value; fails, changing nothing, when there is no tag or no attribute. |
| `Tokenizer.HTMLStateMachine.DataState` | parser/html-state-machine.js:33-42 | The fields, the tokens emitted and the returned state are those of the `data` step. |
| `Tokenizer.HTMLStateMachine.TagOpenState` | parser/html-state-machine.js:44-57 | The same for `tagOpen`, including the reprocessing of the character in `data`. |
| `Tokenizer.HTMLStateMachine.EndTagOpenState` | parser/html-state-machine.js:59-74 | The same for `endTagOpen`, including the hand-off to `bogusComment`. |
| `Tokenizer.HTMLStateMachine.TagNameState` | parser/html-state-machine.js:76-94 | The same for `tagName`. |
| `Tokenizer.HTMLStateMachine.BeforeAttributeNameState` | parser/html-state-machine.js:96-108 | The same for `beforeAttributeName`, where EOF throws in `isSpace`. |
| `Tokenizer.HTMLStateMachine.AfterAttributeNameState` | parser/html-state-machine.js:110-127 | The same for `afterAttributeName`. |
| `Tokenizer.HTMLStateMachine.BeforeAttributeValueState` | parser/html-state-machine.js:129-142 | The same for `beforeAttributeValue`. |
| `Tokenizer.HTMLStateMachine.QuotedValueState` | parser/html-state-machine.js:144-172 | The same for the double- and single-quoted value states. |
| `Tokenizer.HTMLStateMachine.AttributeValueUnquotedState` | parser/html-state-machine.js:174-192 | The same for `attributeValueUnquoted`. |
| `Tokenizer.HTMLStateMachine.AfterAttributeValueQuotedState` | parser/html-state-machine.js:194-208 | The same for `afterAttributeValueQuoted`. |
| `Tokenizer.HTMLStateMachine.AttributeNameState` | parser/html-state-machine.js:210-225 | The same for `attributeName`, where EOF throws in `isSpace`. |
| `Tokenizer.HTMLStateMachine.SelfClosingStartTagState` | parser/html-state-machine.js:227-238 | The same for `selfClosingStartTag`. |
| `Tokenizer.HTMLStateMachine.BogusCommentState` | parser/html-state-machine.js:240-254 | The same for `bogusComment`. |
| `Tokenizer.HTMLStateMachine.Feed` | parser/html.js:20 | Calling the current state's method on one input does exactly one `Step`. |
| `Tokenizer.DataStepEmits` | parser/html-state-machine.js:33-42 | In `data`, a character other than `<` emits one character token and stays; EOF emits EOF and returns `undefined`; `<` moves to `tagOpen` and emits nothing. |
| `Tokenizer.RunCons` | parser/html.js:19-21 | A run is the first step followed by the run from the state that step returned. |
| `Tokenizer.RunAppend` | parser/html.js:19-21 | Feeding two inputs in turn: the second starts from the state and fields the first left, and the tokens concatenate. |
| `Tokenizer.RunOne` | parser/html.js:20 | A run over one input is one step. |
| `Tokenizer.RunStopped` | parser/html.js:20 | Once a state method has returned something other than a state, calling it on more input throws, and nothing more is emitted. |
| `Tokenizer.RunPrefix` | parser/html.js:19-22 | The tokens of a run are a prefix of the tokens of any longer run. |
| `Tokenizer.RunWithoutTags` | parser/html-state-machine.js:33-42 | Input without `<`, then EOF, emits one character token per character and then EOF. |
| `Tokenizer.RunText` | parser/html-state-machine.js:36-41 | Text without `<` emits one character token per character and stays in `data`. |
| `Tokenizer.TokenizeText` | parser/html.js:19-22 | Tokenizing a document without `<` gives exactly its characters and EOF, and the run ends normally. |
| `Tokenizer.TagOpenLiteral` | parser/html-state-machine.js:44-57 | After `<`, a character that is not `/` or a letter emits a literal `<` and is reprocessed in `data`; EOF emits `<` and EOF. |
| `Tokenizer.TagOpenLetter` | parser/html-state-machine.js:50-52 | A letter after `<` starts a start tag, and after `</` an end tag, whose name is that letter lowercased. |
| `Tokenizer.TagNamePlainStep` | parser/html-state-machine.js:87-93 | In `tagName`, a character other than a space, `/` or `>` is appended to the name, lowercased if it is a letter. |
| `Tokenizer.TagNameRun` | parser/html-state-machine.js:76-94 | A run of such characters appends all of them, letters lowercased. |
| `Tokenizer.TagNameRunCons` | parser/html-state-machine.js:76-94 | The inductive step of that run: one character, then the rest. |
| `Tokenizer.GreaterThanEmitsTag` | parser/html-state-machine.js:84-86 | `>` in `tagName`, `afterAttributeName`, `beforeAttributeValue` or `afterAttributeValueQuoted` emits the pending tag and returns to `data`. |
| `Tokenizer.GreaterThanInUnquotedValue` | parser/html-state-machine.js:183-184 | `>` in an unquoted value returns to `data` without emitting the tag. |
| `Tokenizer.SelfClosing` | parser/html-state-machine.js:227-238 | `/>` marks the tag self-closing and emits it; any other character after `/` is dropped and leads to `beforeAttributeName`. |
| `Tokenizer.EofInAttributeNameThrows` | parser/html-state-machine.js:97 | EOF in `beforeAttributeName` or `attributeName` throws and emits nothing, whereas a state that tests for EOF first emits EOF. |
| `Tokenizer.AppendChangesLastOnly` | parser/html-state-machine.js:21-31 | Appending to a name or a value changes only the last attribute record and keeps the list's length and the tag's other fields. |
| `Tokenizer.QuotedValueAppends` | parser/html-state-machine.js:144-172 | In a quoted value every character but the quote, `&` and EOF is appended to the value; the matching quote moves to `afterAttributeValueQuoted`. |
| `Tokenizer.EndTagOpenBogus` | parser/html-state-machine.js:68-73 | `</` then a character that is neither a letter nor `>` opens a bogus comment with that character; `</>` emits nothing. |
| `Tokenizer.BogusCommentSteps` | parser/html-state-machine.js:244-249 | In a bogus comment, NUL becomes U+FFFD and `>` emits the comment. |
| `Tokenizer.TagNameThenClose` | parser/html-state-machine.js:84-93 | Plain name characters and then `>` emit the tag with the name appended lowercased and return to `data`. |
| `Tokenizer.OpenThenName` | parser/html-state-machine.js:44-94 | After `<` or `</`, a name that starts with a letter, then `>`, emits one tag of the matching kind with the name lowercased and no attributes. |
| `Tokenizer.StartTagRun` | parser/html-state-machine.js:33-94 | `<name>` read from `data` emits exactly one start-tag token with the name lowercased, and the machine is back in `data`. |
| `Tokenizer.EndTagRun` | parser/html-state-machine.js:33-94 | The same for `</name>` and an end-tag token. |
| `Css.Find` | parser/css.js:57 | `find` returns a record with the name, exactly when one exists, and it is the first such record. |
| `Css.SelectorParts` | parser/css.js:22 | A selector always splits into at least one part. |
| `Css.Walk` | parser/css.js:27-33 | The ancestor walk's counter starts at 1, moves at most once per element visited, and never passes the number of parts. |
| `Css.CSSHandler.constructor` | parser/css.js:4-7 | A new handler has no rules. |
| `Css.CSSHandler.AddCSSRules` | parser/css.js:9-12 | The parsed rules go after the existing ones; a parse that throws leaves the rules unchanged and reports it. |
| `Css.CSSHandler.ComputeCSS` | parser/css.js:14-49 | The element's computed style after `computeCSS` is the cascade of the rules over the reversed stack, from its earlier computed style. |
| `Css.NoMatchWithout` | parser/css.js:51-54 | An undefined or empty selector, or an element without an `attributes` list, never matches. |
| `Css.FindFirst` | parser/css.js:57 | `find` returns the first record with the name. |
| `Css.MatchId` | parser/css.js:56-59 | `#x` matches if and only if the first `id` attribute has the value `x`. |
| `Css.MatchClass` | parser/css.js:60-64 | `.x` matches if and only if `x` is one of the space-separated pieces of the first `class` attribute. |
| `Css.MatchTag` | parser/css.js:65-67 | Any other non-empty selector matches if and only if the tag name equals it. |
| `Css.WalkIsGreedy` | parser/css.js:27-33 | The greedy walk is exact: the first `k` ancestor parts embed in order into the visited elements if and only if the counter moved at least `k` times. |
| `Css.WalkSucceedsMeans` | parser/css.js:27-37 | A rule passes the walk if and only if its parts left of the rightmost one match distinct ancestors in order, closest first. |
| `Css.ApplyDeclarationsAppend` | parser/css.js:40-46 | Applying two lists of declarations is applying the first, then the second. |
| `Css.LastWriteWins` | parser/css.js:40-46 | After the declarations, a property holds the value of the last declaration naming it, or else its earlier value; no entry is removed. |
| `Css.CascadeWritesApplied` | parser/css.js:21-48 | The cascade writes exactly the declarations of the applied rules, in rule order, over the initial style. |
| `Css.MatchFlagMeans` | parser/css.js:19-37 | The `match` flag is set if and only if some rule so far matched the element on its rightmost part and passed the walk. |
| `Css.StickyMatch` | parser/css.js:35-47 | Once a rule has matched, a later rule whose rightmost part matches is applied even when its walk fails; a rule whose rightmost part does not match is never applied. |
| `Css.CascadeKeeps` | parser/css.js:40-46 | No computed-style entry is removed, and every applied property is present. |
| `Css.LastValueFound` | parser/css.js:40-46 | A property named by some declaration has a last value. |
| `Css.NoAttributesNoStyle` | parser/css.js:52-54 | An element without `attributes` gets no declaration from any rule, and the flag stays unset. |
| `TreeBuilder.StackViews` | parser/css.js:15 | The style engine sees one element per stack entry. |
| `TreeBuilder.EmitStep` | parser/html.js:28-68 | `emit` keeps the tree invariant: the document is node 0 and the stack's bottom, the other stack entries are elements, every reference is in the arena, and the pending text node is a text node. |
| `TreeBuilder.ValidStepLemma` | parser/html.js:31-67 | Each branch of `emit` (start tag, successful end tag, character) keeps that invariant. |
| `TreeBuilder.LinkValid` | parser/html.js:42 | Appending a node under the stack top keeps every reference inside the arena and the kinds of the old nodes. |
| `TreeBuilder.StartTagValid` | parser/html.js:31-46 | A start tag keeps the invariant. |
| `TreeBuilder.CharacterValid` | parser/html.js:57-67 | A character keeps the invariant. |
| `TreeBuilder.BuildAll` | parser/html.js:13-15 | Feeding tokens in order keeps the invariant until the first error. |
| `TreeBuilder.HtmlParser.constructor` | parser/html.js:6-9 | A new parser has only the document node, on the stack, and no pending text node. |
| `TreeBuilder.HtmlParser.Emit` | parser/html.js:28-68 | The parser's state after `emit` is the step's result, or the error it throws. |
| `TreeBuilder.HtmlParser.EmitStartTag` | parser/html.js:31-46 | The start-tag branch, as the step function says. |
| `TreeBuilder.HtmlParser.EmitEndTag` | parser/html.js:47-56 | The end-tag branch, including the error for a mismatched tag and the style-sheet hand-off. |
| `TreeBuilder.HtmlParser.EmitCharacter` | parser/html.js:57-67 | The character branch. |
| `TreeBuilder.HtmlParser.EmitTokens` | parser/html.js:13-15 | `emit` on each token in turn, stopping at the first error, as `BuildAll` says. |
| `TreeBuilder.BuildAllAppend` | parser/html.js:13-15 | Building two token lists in turn: the second starts where the first stopped, unless the first failed. |
| `TreeBuilder.BuildAllSnoc` | parser/html.js:13-15 | One more token is one more `emit` on the state so far. |
| `TreeBuilder.BuildOne` | parser/html.js:13-15 | Building one token is one `emit`. |
| `TreeBuilder.BuildAllFailedPrefix` | parser/html.js:48-49 | A prefix that fails decides the whole build. |
| `TreeBuilder.StartTagAppends` | parser/html.js:31-46 | A start tag appends one element with the token's name and attributes (an empty list when absent), no children and the stack top as parent. The element becomes the top's last child. It is pushed if and only if the tag is not self-closing, and the pending text node is dropped. |
| `TreeBuilder.EndTagPops` | parser/html.js:47-56 | An end tag fails if and only if the stack top is not an element of that name, so the document is never popped. Success pops the top and keeps the nodes. Closing `style` hands the text of its first child to the style-sheet parser and appends the rules; a `style` with no child throws. |
| `TreeBuilder.DocumentStays` | parser/html.js:8 | After any build the stack is non-empty and its bottom is the document node. |
| `TreeBuilder.TextAccumulates` | parser/html.js:57-66 | Consecutive characters with no pending text node make exactly one new text node, the top's last child, holding all of them. |
| `TreeBuilder.TextContinues` | parser/html.js:58-59 | With a pending text node, a character extends it and changes nothing else. |
| `TreeBuilder.OtherTokensIgnored` | parser/html.js:28-68 | Comment and EOF tokens change nothing. |
| `TreeBuilder.ElementsGetNoStyle` | parser/html.js:32-40 | Every element gets an empty computed style, whatever style sheets came before: attributes are stored under `attribute`, which the style engine does not read. |
| `TreeBuilder.StepUnstyled` | parser/html.js:31-40 | One token keeps every element unstyled. |
| `TreeBuilder.ParsedUnstyled` | parser/html.js:11-26 | A parse that succeeds yields only unstyled elements. |
| `TreeBuilder.TokenizeElementWithText` | parser/html-state-machine.js:33-94 | `<name>text</name>` tokenizes to a start tag, the characters, the end tag and EOF, with the name lowercased. |
| `TreeBuilder.FirstStartTag` | parser/html.js:31-46 | The first start tag becomes node 1, the document's child, and is pushed. |
| `TreeBuilder.FirstElementText` | parser/html.js:57-66 | The text of the first element becomes node 2, its only child. |
| `TreeBuilder.FirstElementClosed` | parser/html.js:47-56 | The matching end tag pops the element, and EOF changes nothing. |
| `TreeBuilder.BuildElementWithText` | parser/html.js:28-68 | A start tag, non-empty text and the matching end tag build one element holding one text node, with the stack back to the document. |
| `TreeBuilder.ParseElementWithText` | parser/html.js:11-26 | Parsing `<name>text</name>` (a name other than `style`) gives a document with one element whose one child is a text node holding the text. |
| `TreeBuilder.TokenizeMismatchedTags` | parser/html-state-machine.js:33-94 | `<a><b></a>` tokenizes to two start tags, an end tag and EOF. |
| `TreeBuilder.BuildMismatchedTags` | parser/html.js:47-49 | Two start tags and an end tag naming the first fail with "element is not matched". |
| `TreeBuilder.TwoStartTags` | parser/html.js:43-45 | After two start tags the second element is on top of the stack. |
| `TreeBuilder.ParseMismatchedTags` | parser/html.js:47-49 | Parsing `<a><b></a>` with different names fails with "element is not matched". |
| `TreeBuilder.BuildFailsEarly` | parser/html.js:13-15 | Once a prefix of the tokens fails, the whole build fails the same way. |
| `TreeBuilder.RunSnoc` | parser/html.js:19-21 | One more input extends the tokenizer's run by one step and its tokens. |
| `TreeBuilder.DriverStep` | parser/html.js:19-21 | The step at position `i` of the loop, in terms of the whole run, including the throw when a state method returned no state. |
| `TreeBuilder.DriverStepRun` | parser/html.js:19-21 | The run over `i + 1` inputs is the run over `i`, then one step. |
| `TreeBuilder.FeedAll` | parser/html.js:13-22 | Feeding the inputs to a tokenizer whose callback is `emit`: the tree builder's first error wins; otherwise a tokenizer TypeError aborts the parse. |
| `TreeBuilder.FeedOne` | parser/html.js:13-20 | One pass of the loop: the tokenizer's run grows by one step, its tokens go to `emit`, and an error of `emit` decides the whole build. |
| `TreeBuilder.RunParseHTML` | parser/html.js:11-26 | `parseHTML` on a fresh tokenizer, tree builder and style engine gives exactly `ParseHTML`. |
| `Layout.LayoutElement.constructor` | parser/html.js:32-38 | A new element has an empty `style` and the given computed style, kind, order and children. |
| `Layout.LayoutElement.GetStyle` | parser/layout.js:39-54 | `getStyle` leaves `style` as the unit-stripping copy of the computed style over the old style. |
| `Layout.GetStyleAt` | parser/layout.js:39-54 | `getStyle` on one child changes only that child's style. |
| `Layout.SetStyleAt` | parser/layout.js:40 | Writing one child's style changes only that child's entry in the list of styles. |
| `Layout.LayoutAxis` | parser/layout.js:224-279 | The axis table is defined if and only if the flex direction is one of the four known ones. |
| `LayoutProperties.ElementChildrenExact` | parser/layout.js:7-9 | The `filter` keeps every element-type child as often as it occurs, drops every other child, and keeps the document order. |
| `Layout.InsertByOrder` | parser/layout.js:9-11 | Inserting adds exactly the one element. |
| `Layout.SortByOrder` | parser/layout.js:9-11 | Sorting by `order` is a permutation. |
| `LayoutProperties.LaidOutExact` | parser/layout.js:7-11 | `layout` lays out every element-type child, as often as it occurs, and no other child. They come in ascending `order`, and children with equal `order` keep their document order. |
| `Layout.AutoMainSize` | parser/layout.js:210-222 | The main size is auto if and only if it is falsy. A set main size leaves every style alone. An auto one re-copies every child's style with `getStyle` and sets the main size to the `reduce` over the copies. |
| `Layout.ComputeAutoMainSize` | parser/layout.js:210-222 | `computeAutoMainSize` returns whether the main size was falsy. It leaves the styles as `AutoMainSize` says: the sum of the children's sizes when auto, everything unchanged otherwise. |
| `Layout.SumChildren` | parser/layout.js:213-219 | The `reduce` re-copies every child's style and sums the non-null main sizes. |
| `Layout.AddChildSize` | parser/layout.js:213-219 | The callback for one child re-copies its style and adds its main size unless that is null. |
| `Layout.LineStep` | parser/layout.js:71-101 | One child of `computeFlexLines` keeps one style per child; what it does in wrap mode is `WrapStep`, on one line `SingleLineStep`. |
| `Layout.LinesFold` | parser/layout.js:62-102 | The line-breaking loop keeps one style per child; the lines it builds partition the children (`LinesFoldPartition`) and fit in wrap mode (`WrapFoldFits`). |
| `Layout.LinesFoldNext` | parser/layout.js:71-102 | The loop over `i + 1` children is the loop over `i`, then the body for child `i`. |
| `Layout.LinesFoldItems` | parser/layout.js:62-102 | Every index put on a line is a child already seen. |
| `Layout.LineStepItems` | parser/layout.js:71-101 | One more child keeps every line's indices below the count seen. |
| `Layout.FlexLines` | parser/layout.js:62-114 | There is at least one line, and every line holds indices of children. The lines partition the children in order (`LinesPartitionChildren`); the break rule is `WrapStep` and `SingleLineStep`. |
| `Layout.PrepareAt` | parser/layout.js:72-73 | `getStyle` and the main-size default change only that child's style. |
| `Layout.ComputeFlexLines` | parser/layout.js:62-114 | `computeFlexLines` returns the lines `FlexLines` builds and leaves the children's styles as it says. |
| `Layout.FlexLinesLoop` | parser/layout.js:71-102 | The loop leaves the loop variables and the children's styles as `LinesFold` over all children says. |
| `Layout.FlexLineChild` | parser/layout.js:72-101 | The loop body turns the fold over `i` children into the fold over `i + 1`. |
| `Layout.PlaceFold` | parser/layout.js:122-131 | The placement loop keeps one style per child. |
| `Layout.PlaceStep` | parser/layout.js:123-130 | One placement keeps one style per child. |
| `Layout.TotalFold` | parser/layout.js:137-142 | The `flexTotal` loop keeps one style per child. |
| `Layout.TotalFoldNext` | parser/layout.js:137-142 | One more item re-copies its style and adds its `flex` to the total when that is not null. |
| `Layout.LineMain` | parser/layout.js:134-188 | One line of the free-space branch keeps one style per child. A line whose `justifyContent` start is `null` is skipped without positions (`SkippedLine`). |
| `Layout.LinesMain` | parser/layout.js:133-189 | The free-space branch over the lines keeps one style per child. |
| `Layout.MainAxis` | parser/layout.js:116-191 | `computeMainAxis` keeps one style per child. |
| `Layout.Place` | parser/layout.js:122-131 | The placement loop leaves the children's styles as `PlaceFold` says. |
| `Layout.PlaceFoldNext` | parser/layout.js:122-131 | The loop over `k + 1` items is the loop over `k`, then one placement. |
| `Layout.PlaceChild` | parser/layout.js:123-130 | The body for one child is exactly one `PlaceStep`: it writes only that child's style and returns its end plus the step. |
| `Layout.PlaceNext` | parser/layout.js:122-131 | One pass of the placement loop turns the fold over the first `k` items into the fold over `k + 1`. |
| `Layout.FlexTotal` | parser/layout.js:135-142 | The `flexTotal` loop returns the sum and leaves the styles as `TotalFold` says. |
| `Layout.TotalNext` | parser/layout.js:137-142 | One pass of the `flexTotal` loop turns the fold over the first `k` items into the fold over `k + 1`. |
| `Layout.LineMainAxis` | parser/layout.js:134-188 | One line of the free-space branch, as `LineMain` says: the `justifyContent` switch, then the placement loop, or nothing when the start is `null`. |
| `Layout.ComputeMainAxis` | parser/layout.js:116-191 | `computeMainAxis` leaves the children's styles as `MainAxis` says. |
| `Layout.LinesMainAxis` | parser/layout.js:133-189 | The loop over the flex lines, as `LinesMain` says. |
| `Layout.ComputeCrossAxis` | parser/layout.js:193-208 | `computeCrossAxis` leaves the container's style and returns the remaining cross space as `CrossAxis` says. |
| `Layout.LayoutSpec` | parser/layout.js:1-37 | `layout` yields one style per laid-out child. |
| `Layout.FlexSpec` | parser/layout.js:31-36 | The four passes yield one style per laid-out child; `ReverseUnsetUnplaced` works one container through all of them. |
| `Layout.Layout` | parser/layout.js:1-37 | A null element or a non-flex one is left alone. A flex container and its laid-out children end as `LayoutSpec` says, and text children are never touched. |
| `Layout.LayoutContainer` | parser/layout.js:6-36 | `layout` on a flex container, as `LayoutSpec` says. |
| `Layout.PrepareContainer` | parser/layout.js:6-23 | The container's style is copied and defaulted; the children's styles are unchanged. |
| `Layout.ContainerStyle` | parser/layout.js:6-23 | `getStyle` on the container, then the seven defaults. |
| `Layout.FlexLayout` | parser/layout.js:31-36 | The axis, auto-size, line, main-axis and cross-axis passes, as `FlexSpec` says. |
| `Layout.LaidOutDistinct` | parser/layout.js:7-11 | The laid-out children are distinct, and the container is not among them. |
| `LayoutProperties.AxisNamesDistinct` | parser/layout.js:224-265 | For a known direction the main and cross sizes are `width` and `height` in some order, the six edge and size names are all different, and both signs are ±1. |
| `LayoutProperties.ForwardDirection` | parser/layout.js:229-237 | `row` runs along the width from left to right, `column` along the height from top to bottom, both from 0 with sign 1; the cross axis is the other dimension from its top or left edge, unless the lines wrap in reverse. |
| `LayoutProperties.ReverseDirection` | parser/layout.js:238-265 | A reverse direction has sign -1 and starts at the right or bottom edge, from the container's main size as it was before the auto size; the cross axis is as for the forward direction. |
| `LayoutProperties.WrapReverseSwapsCross` | parser/layout.js:267-276 | `wrap-reverse` swaps the cross edges, flips the cross sign and starts at the container's cross size; the main axis does not change. |
| `LayoutProperties.DefaultsFilled` | parser/layout.js:13-23 | After the defaults, each defaulted key holds its old value when that was truthy and not `auto`, and otherwise its default; other keys are unchanged. |
| `LayoutProperties.DefaultsPresent` | parser/layout.js:13-23 | After the defaults the container has a truthy direction, wrap mode and justification. |
| `LayoutProperties.InsertKeepsSorted` | parser/layout.js:9-11 | Inserting into a sorted list keeps it sorted by `order`. |
| `LayoutProperties.SortIsSorted` | parser/layout.js:9-11 | The children are laid out in ascending `order` (`order || 0`). |
| `LayoutProperties.InsertWithKey` | parser/layout.js:9-11 | Inserting keeps the relative order of elements with equal keys. |
| `LayoutProperties.SortIsStable` | parser/layout.js:9-11 | The sort is stable: children with equal `order` keep their document order. |
| `LayoutProperties.SumSizesCovers` | parser/layout.js:213-219 | With absent or non-negative sizes, the sum is a non-negative number at least every child's size. |
| `LayoutProperties.AutoSizeCoversChildren` | parser/layout.js:210-222 | An auto main size becomes a number that covers every child's main size. |
| `LayoutProperties.SumSizesNumeric` | parser/layout.js:213-219 | When every size is a number or null, the `reduce` is the plain sum of the numeric sizes. |
| `LayoutProperties.AutoSizeIsSum` | parser/layout.js:210-222 | An auto main size becomes exactly the sum of the children's main sizes after `getStyle`, null sizes skipped; the container's other keys are unchanged. |
| `LayoutProperties.CrossFolds` | parser/layout.js:197-207 | The cross `reduce` is the sum of the lines' cross spaces, and the subtraction loop leaves the start minus that sum. |
| `LayoutProperties.CrossAxisSums` | parser/layout.js:193-208 | An unset cross size becomes the sum of the lines' cross spaces with 0 left over. A set one is kept, and what remains is that size minus the sum. |
| `LayoutProperties.FlattenSnoc` | parser/layout.js:69 | The items of one more line follow the items of the lines before. |
| `LayoutProperties.LinesFoldPartition` | parser/layout.js:71-102 | After `n` children, the closed lines and the current line hold the indices `0..n-1` in order. |
| `LayoutProperties.PartitionStep` | parser/layout.js:71-102 | The step of that partition, from `m` children to `m + 1`. |
| `LayoutProperties.RangeSnoc` | parser/layout.js:71 | The indices up to `n` are those up to `n-1`, then `n`. |
| `LayoutProperties.StepPartition` | parser/layout.js:75-96 | Each child goes to the end of the current line or starts a new one; no child is lost or repeated. |
| `LayoutProperties.LinesPartitionChildren` | parser/layout.js:62-114 | Every child is on exactly one line, and the lines keep the children's order. |
| `LayoutProperties.SingleLineNeverCloses` | parser/layout.js:77-82 | Under `nowrap` or an auto main size, no line is ever closed. |
| `LayoutProperties.NeverClosesStep` | parser/layout.js:77-82 | The step of that: one more child does not close the line. |
| `LayoutProperties.NowrapOneLine` | parser/layout.js:77-82 | Under `nowrap`, or with an auto main size, all children share one line. |
| `LayoutProperties.LinesFoldUntouched` | parser/layout.js:71-73 | The loop has not touched the style of a child it has not reached. |
| `LayoutProperties.UntouchedStep` | parser/layout.js:72-73 | One step leaves the style of every later child alone. |
| `LayoutProperties.SingleLineSpace` | parser/layout.js:67-82 | On a single line, after `n` children the main space is the main size minus the main sizes of the children that are not flex items. |
| `LayoutProperties.SingleLineSpaceStep` | parser/layout.js:75-82 | The step of that, from `m` children to `m + 1`. |
| `LayoutProperties.SingleLineStep` | parser/layout.js:75-82 | On a single line, one child takes its main size off the space unless it is a flex item. |
| `LayoutProperties.NowrapMainSpace` | parser/layout.js:62-114 | On a single line, the line's main space is the main size minus the non-flex children's main sizes. |
| `LayoutProperties.WrapStep` | parser/layout.js:75-101 | In wrap mode a flex item joins the current line and takes no space. Any other child is clamped to the container's main size, starts a new line exactly when the space left is less than its size, and takes its size off the space of the line it joins. |
| `LayoutProperties.WrapFoldFits` | parser/layout.js:71-102 | In wrap mode, with a non-negative main size and numeric child sizes, every closed line and the current one keep a non-negative space. |
| `LayoutProperties.WrapFitsStep` | parser/layout.js:75-101 | The step of that, from `m` children to `m + 1`. |
| `LayoutProperties.WrapLinesFit` | parser/layout.js:62-131 | Under the same conditions no line of `computeFlexLines` overflows, so `computeMainAxis` never takes its overflow branch and places the lines one by one. |
| `LayoutMainAxis.DirectionMainDistinct` | parser/layout.js:229-265 | Every known direction writes start, end and size under three different keys. |
| `LayoutMainAxis.PlaceItemKeep` | parser/layout.js:184-185 | A placed item starts at the current position, ends `mainSign * size` further on, and keeps its size. |
| `LayoutMainAxis.PlaceStepOthers` | parser/layout.js:182-187 | One placement writes only the placed item's style. |
| `LayoutMainAxis.KeepStep` | parser/layout.js:182-187 | Without resizing, one placement moves the position by `mainSign` times the size plus the step. |
| `LayoutMainAxis.PlaceItemShare` | parser/layout.js:146-153 | With free space shared out, an item with a truthy `flex` gets `unit * flex` as its main size; any other keeps its size; it ends at start plus `mainSign` times that size. |
| `LayoutMainAxis.PlaceItemScale` | parser/layout.js:122-130 | On overflow a flex item shrinks to 0 and ends where it starts; any other item is scaled by the factor. |
| `LayoutMainAxis.JustifyKnown` | parser/layout.js:156-181 | A line is placed if and only if `justifyContent` is one of the five values with a case, and, for `flex-start` and `space-between`, the base is not `null`. |
| `LayoutMainAxis.ReverseUnsetSkipped` | parser/layout.js:156-181 | A reverse direction whose main size was unset has a `null` base, so under `flex-start` or `space-between` its lines are skipped. |
| `LayoutMainAxis.TotalFoldCopies` | parser/layout.js:137-142 | The `flexTotal` loop leaves each item of the line with its `getStyle` copy and every other child alone. |
| `LayoutMainAxis.SkippedLine` | parser/layout.js:134-181 | A skipped line writes no position: its items keep their `getStyle` copies, and every other child is untouched. |
| `LayoutMainAxis.OneLineMain` | parser/layout.js:116-189 | With a single line that does not overflow, `computeMainAxis` is the placement of that line. |
| `LayoutMainAxis.ReverseUnsetUnplaced` | parser/layout.js:31-36 | A `row-reverse` container with no width and one `10px` child: after the four passes the child's style holds only its width, 10, with no `left` or `right`. |
| `LayoutMainAxis.JustifyEnds` | parser/layout.js:158-165 | `flex-start` starts at the base with no gaps; `flex-end` puts all the free space before the first item. |
| `LayoutMainAxis.JustifyCenter` | parser/layout.js:166-169 | `center` puts half of the free space before the first item, with no gaps. |
| `LayoutMainAxis.JustifySpaceBetween` | parser/layout.js:170-174 | `space-between` starts at the base, and its `count - 1` gaps together take exactly the free space. |
| `LayoutMainAxis.JustifySpaceAround` | parser/layout.js:175-179 | `space-around` starts half a gap in, and its `count` gaps together take exactly the free space. |
| `Http.HexDigit` | client.js:188 | `parseInt(c, 16)` of one character is below 16 when it is a number at all. |
| `Http.TrunkedBodyParser.constructor` | client.js:160-171 | A new body parser waits for a length of 0, unfinished and empty. |
| `Http.TrunkedBodyParser.ReceiveCharacter` | client.js:177-200 | One character updates the fields as `ChunkStep` says. |
| `Http.ChunkFeedAppend` | client.js:177-200 | Feeding two strings in turn is feeding their concatenation. |
| `Http.ChunkStepOk` | client.js:177-200 | One character keeps the parser sound: finished exactly in `READING_TRUNK_END`, never in `WAITING_LENGTH_END`, and a positive count while reading a chunk. |
| `Http.ChunkFeedOk` | client.js:160-200 | Every input keeps the parser sound. |
| `Http.FinishedStays` | client.js:178-199 | Once finished, the parser ignores everything that follows. |
| `Http.HexValueSnoc` | client.js:188 | One more hex digit multiplies the length by 16 and adds the digit. |
| `Http.ReadLength` | client.js:187-189 | Hex digits read from a zero length give the number they denote. |
| `Http.CarriageReturnSkipped` | client.js:187 | `\r` on the size line is skipped. |
| `Http.NonHexPoisons` | client.js:188 | A character that is not a hex digit makes the length NaN. |
| `Http.NaNNeverFinishes` | client.js:181-196 | With a NaN length the parser never finishes, whatever follows. |
| `Http.ReadChunkPrefix` | client.js:192-197 | Fewer characters than the length are appended, and the rest of the length remains. |
| `Http.ReadChunk` | client.js:192-197 | Exactly the length's worth of characters is appended, and then the parser finishes. |
| `Http.LineEnd` | client.js:180-189 | `\r\n` ends the size line as `\n` alone does. |
| `Http.FirstChunk` | client.js:177-200 | A size line with a non-zero value, then that many characters: the body is exactly those characters and the parser has finished. |
| `Http.ZeroChunk` | client.js:180-183 | A size line of value 0 finishes with an empty body. |
| `Http.ResponseParser.constructor` | client.js:62-78 | A new response parser waits for the status line with everything empty and no body parser. |
| `Http.ResponseParser.ReceiveCharacter` | client.js:100-156 | One character updates the fields as `ResponseStep` says, or throws (a body character with no body parser), leaving them. |
| `Http.ResponseParser.Receive` | client.js:94-98 | `receive` feeds every character in turn and stops at the first throw, as `ReceiveAll` says. |
| `Http.ReceiveAllAppend` | client.js:94-98 | Receiving two strings in turn is receiving their concatenation, unless the first threw. |
| `Http.WithoutCRSnoc` | client.js:105-106 | Dropping `\r` from one more character. |
| `Http.WithoutCRNone` | client.js:105-106 | A string with no `\r` is unchanged by dropping `\r`. |
| `Http.StatusLineRead` | client.js:102-108 | The status line collects every character but `\r` up to the first `\n`. |
| `Http.StatusLineEnds` | client.js:103-104 | `\n` ends the status line and the parser waits for a header name. |
| `Http.HeaderNameRead` | client.js:110-117 | A header name takes every character up to the first `:`. |
| `Http.HeaderSpace` | client.js:118-124 | The one character after `:` is dropped when it is a space and otherwise starts the value. |
| `Http.HeaderValueRead` | client.js:125-135 | A header value takes every character but `\r` up to the first `\n`. |
| `Http.HeaderNameAndSpace` | client.js:110-124 | `name: ` collects the name and drops the space. |
| `Http.HeaderLineRead` | client.js:110-135 | `name: value\n` stores the value, without `\r`, under the name and clears both accumulators. |
| `Http.BlockEnd` | client.js:136-147 | After a header line, `\r` is skipped. `\n` ends the block and creates a body parser if and only if `Transfer-Encoding` is `chunked`. Any other character starts the next header name. |
| `Http.NoBodyParserThrows` | client.js:148-149 | With no body parser the first body character throws, and nothing after it is read. |
| `Http.BodyFollowsChunks` | client.js:148-154 | Every body character goes to the body parser, and `bodyText` becomes its content once it has finished. |
| `Http.AfterFinishNothingChanges` | client.js:148-154 | Once the body has finished, further characters change nothing. |
| `Http.StatusLineCRLF` | client.js:102-108 | A status line and `\r\n` record the line without `\r`. |
| `Http.HeaderLineCRLF` | client.js:110-135 | A header line ending in `\r\n` stores exactly its value under its name. |
| `Http.ChunkedHead` | client.js:102-135 | A status line and a `Transfer-Encoding: chunked` line record both. |
| `Http.BlankLineChunked` | client.js:136-141 | The blank line after a chunked header creates a fresh body parser and moves to the body. |
| `Http.ChunkedResponse` | client.js:94-200 | A whole chunked response with one chunk does not throw. The status line and the header are recorded, the body is exactly the chunk, and the body parser has finished. |
| `Http.Pairs` | client.js:26-28 | One `key=value` pair per body entry. |
| `Http.HttpRequest.constructor` | client.js:4-30 | The defaults are GET, `/`, port 80, an empty body and no headers. `Content-Type` is filled in, and `bodyText` is the JSON or form encoding for that type, or undefined. |
| `Http.ContentTypeSet` | client.js:19-21 | After the constructor `Content-Type` is non-empty and is the type the body was encoded for. A missing or empty one becomes the form type, and no other header changes. |
| `Http.SplitJoin` | client.js:28 | Splitting the joined parts at the separator gives them back when none holds it. |
| `Http.SplitSeparated` | client.js:28 | A piece without the separator, the separator, then the rest split into that piece and the rest's pieces. |
| `Http.UrlEncodedPairs` | client.js:26-28 | The form body splits at `&` back into its `key=encode(value)` pairs, one per entry in order. Each key is recovered before the first `=` when it holds no `=`. |

## Left out

- `HttpRequest.send`, `toString` and the `response` getter are not modelled. They cover the socket, the request text, the status-code regular expression and `RegExp.$1`. So are the top-level request script of client.js and the rendering it starts.
- `JSON.stringify`, `encodeURIComponent` and the style-sheet parser `css.parse` are parameters of the members that call them.
- The body of a request is a sequence of key/value pairs. JavaScript's key order (integer-like keys first) and `__proto__` keys are not modelled.
- Header values are strings; a numeric header value such as `Content-Length: 11` is not modelled.
- The caller's `headers` object is not aliased: the model does not show the constructor writing `Content-Type` into the caller's own object.
- Numbers are exact reals. Floating-point rounding, `Infinity` and the precision of `length * 16` beyond 2^53 are not modelled.
- Only the JavaScript coercions the layout relies on are modelled. These are `null` and blank strings as 0, and other strings as NaN. A `computedStyle` value is a string or absent.
- The sort comparator is only modelled for `order` values that are numbers or absent; a non-numeric `order` compares as 0.
- `for…of` over a string iterates code points; the model iterates Dafny characters (Unicode scalar values).
- `Layout.PlaceFold`, `Layout.PlaceStep`, `Layout.TotalFold`, `Layout.LineMain`, `Layout.LinesMain` and `Layout.MainAxis` only keep one style per child in their own contracts. Closed-form positions for a whole line are not proved. The per-item placement, the `justifyContent` cases, the skipped lines and the absence of overflow in wrap mode are proved in `LayoutMainAxis` and `LayoutProperties`.
- `Layout.LineStep`, `Layout.LinesFold`, `Layout.LayoutSpec` and `Layout.FlexSpec` only keep one style per child in their own contracts. Their meaning is proved in `LayoutProperties`: the partition into lines, the single-line and wrap steps, and the main space.
- `Layout.LayoutAxis`: the contract only states when the axis table is defined. Its entries are proved in `LayoutProperties.ForwardDirection`, `ReverseDirection`, `AxisNamesDistinct` and `WrapReverseSwapsCross`.
- Plus, Less: JavaScript's `+` concatenates when an operand is a string (`0 + 'auto'` is `"0auto"`), and `<` and `>` compare two strings by code units. The model coerces the strings to numbers instead, so such a sum or comparison involves NaN. This matters at parser/layout.js:84, 87 and 218 when a size is a keyword such as `auto`.
- The duplicate `const partCount` in one `switch` block (parser/layout.js:171, 176) is a syntax error in JavaScript. The model gives each case its own value.
- The undeclared identifiers the code reads are modelled by their evident meaning. In parser/layout.js these are `flexDirections`, `crossStart`, `crossEnd`, and `mainSpace`, `mainSign`, `mainBase`, `mainSize`, `mainStart` and `mainEnd` in `computeMainAxis` (the axis fields are destructured only in the overflow branch at parser/layout.js:118). In parser/html.js these are `this.data` and `EOF`.
- The undefined `rules` that `parseHTML` returns is not modelled.
- parser/html.js builds its `CSSHandler` without a stack. The model hands the style engine the tree builder's open-element stack.
- The `characterReference` state is never defined in the source. `&` in an attribute value returns `undefined`, so the next input throws, as for every other `undefined` state.
- The layout reads each `computedStyle` entry as a string (parser/layout.js:4, 43-51). The style engine stores `{ value }` records instead (parser/css.js:42-45). The layout is modelled on string entries, the shape it reads.
- parseHTML.js, server.js and render.js are not part of this model.
