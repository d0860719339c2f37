/**
 * The toy markdown renderer: it folds a markdown-it token stream into printed
 * blocks, sending headings through the scaled-text encoder.
 *
 * The parser itself is foreign; its output is taken here as a sequence of
 * tokens reduced to the three fields the renderer reads.  What the renderer
 * prints is the sequence of blocks it emits, one per closing token, in order;
 * the printed text is their concatenation.
 */
module MarkdownExample {
  import opened Wrappers
  import TextSizing

  /** A markdown-it token: its type (`heading_open`, `inline`, ...), its HTML tag and its text. */
  datatype Token = Token(kind: string, tag: string, content: string)

  /** The branch of the renderer's loop a token takes, tried in the loop's order. */
  datatype TokenClass = OpenToken | InlineToken | CloseToken | OtherToken

  /** Python's exceptions that the loop can raise. */
  datatype RenderError =
    | AssertionError  // a closing token while no tag is open
    | IndexError      // a closing token while the open tag is the empty string

  /** The loop's variables `current_tag` and `content`, and what has been printed so far. */
  datatype RenderState = RenderState(currentTag: Option<string>, content: string, blocks: seq<string>)

  /** What a call prints before it returns, and the exception that ended it, if any. */
  datatype Outcome = Outcome(blocks: seq<string>, failure: Option<RenderError>)

  const Start: RenderState := RenderState(None, "", [])

  const HeadingScaleMap: map<string, int> := map["h1" := 4, "h2" := 3, "h3" := 2]

  predicate EndsWith(s: string, suffix: string) {
    |suffix| <= |s| && s[|s| - |suffix|..] == suffix
  }

  /** Which branch of the loop a token takes, tested in the loop's order. */
  function Classify(t: Token): TokenClass {
    if EndsWith(t.kind, "_open") then OpenToken
    else if t.kind == "inline" then InlineToken
    else if EndsWith(t.kind, "_close") then CloseToken
    else OtherToken
  }

  /**
   * Each branch is chosen by its own test alone: no type ends with both
   * `_open` and `_close`, and `inline` ends with neither, so the order of the
   * tests does not matter.
   */
  lemma ClassifyByType(t: Token)
    ensures Classify(t) == OpenToken <==> EndsWith(t.kind, "_open")
    ensures Classify(t) == InlineToken <==> t.kind == "inline"
    ensures Classify(t) == CloseToken <==> EndsWith(t.kind, "_close")
  {
    if EndsWith(t.kind, "_open") {
      assert t.kind[|t.kind| - 1] == "_open"[4];
    }
    assert "inline"[5] == 'e';
  }

  /** The scale a heading tag is printed at: from the map, 1 for any other tag. */
  function HeadingScale(tag: string): (scale: int)
    ensures TextSizing.MinScale <= scale <= TextSizing.MaxScale
  {
    if tag in HeadingScaleMap then HeadingScaleMap[tag] else 1
  }

  lemma HeadingScaleValues(tag: string)
    ensures HeadingScale("h1") == 4 && HeadingScale("h2") == 3 && HeadingScale("h3") == 2
    ensures tag !in {"h1", "h2", "h3"} ==> HeadingScale(tag) == 1
  {
  }

  /** A printed block ends with an empty line. */
  predicate EndsWithBlankLine(block: string) {
    TextSizing.TrailingNewlines(block) >= 2
  }

  /**
   * What a closing token prints for the open tag `tag` and the buffered
   * `content`: a tag starting with 'h' is a heading and goes through the
   * encoder (whose guard its scale always passes), with one more newline at
   * scale 1; any other tag prints the content and an empty line.
   */
  function RenderBlock(tag: string, content: string): (block: string)
    requires |tag| > 0
    ensures EndsWithBlankLine(block)
  {
    if tag[0] == 'h' then
      var scale := HeadingScale(tag);
      TextSizing.PrintBigLayout(content, scale, true);
      var big := TextSizing.PrintBig(content, scale, true).value;
      if scale == 1 then
        assert TextSizing.TrailingNewlines(big + "\n") == 2 by {
          assert (big + "\n")[..|big|] == big;
        }
        big + "\n"
      else big
    else
      ParagraphTrailer(content);
      content + "\n\n"
  }

  lemma ParagraphTrailer(content: string)
    ensures TextSizing.TrailingNewlines(content + "\n\n") == TextSizing.TrailingNewlines(content) + 2
  {
    assert (content + "\n\n")[..|content| + 1] == content + "\n";
    assert (content + "\n")[..|content|] == content;
  }

  /**
   * A paragraph (any tag not starting with 'h') prints its buffered text
   * verbatim, followed by exactly two more newlines.
   */
  lemma ParagraphBlock(tag: string, content: string)
    requires |tag| > 0 && tag[0] != 'h'
    ensures var block := RenderBlock(tag, content);
      |block| == |content| + 2 && block[..|content|] == content &&
      TextSizing.TrailingNewlines(block) == TextSizing.TrailingNewlines(content) + 2
  {
    ParagraphTrailer(content);
    assert (content + "\n\n")[..|content|] == content;
  }

  /**
   * The layout of a heading block, whatever its text holds: the directive
   * prefix, the heading's scale as an unpadded numeral and `;`, the text
   * verbatim, the BEL, and then max(2, scale) newlines and nothing else.
   */
  lemma HeadingBlockLayout(tag: string, content: string)
    requires |tag| > 0 && tag[0] == 'h'
    ensures var scale := HeadingScale(tag);
      var nl := if scale == 1 then 2 else scale;
      var head := |TextSizing.ScalePrefix| + |TextSizing.Decimal(scale)| + 1;
      var block := RenderBlock(tag, content);
      |block| == head + |content| + 1 + nl &&
      block[..head] == TextSizing.ScalePrefix + TextSizing.Decimal(scale) + ";" &&
      block[head..head + |content|] == content &&
      block[head + |content|] == TextSizing.Bel &&
      TextSizing.TrailingNewlines(block) == nl
  {
    var scale := HeadingScale(tag);
    var nl := if scale == 1 then 2 else scale;
    var front := TextSizing.ScalePrefix + TextSizing.Decimal(scale) + ";";
    HeadingBlockIs(tag, content);
    TextSizing.DirectiveLayout(front, content, nl);
  }

  /** A heading block spelled out: the directive and max(2, scale) newlines. */
  lemma HeadingBlockIs(tag: string, content: string)
    requires |tag| > 0 && tag[0] == 'h'
    ensures var scale := HeadingScale(tag);
      RenderBlock(tag, content)
      == TextSizing.ScalePrefix + TextSizing.Decimal(scale) + ";" + content + [TextSizing.Bel]
         + TextSizing.Repeat('\n', if scale == 1 then 2 else scale)
  {
    if HeadingScale(tag) == 1 {
      assert TextSizing.Repeat('\n', 1) + "\n" == TextSizing.Repeat('\n', 2);
    }
  }

  /** A heading block reads back as its scale, its text and max(2, scale) newlines. */
  lemma HeadingBlockShape(tag: string, content: string)
    requires |tag| > 0 && tag[0] == 'h'
    requires TextSizing.Bel !in content
    ensures var scale := HeadingScale(tag);
      TextSizing.ParseScaled(RenderBlock(tag, content))
      == Some(TextSizing.Scaled(scale, content, if scale == 1 then 2 else scale))
  {
    var scale := HeadingScale(tag);
    var head := TextSizing.ScalePrefix + TextSizing.Decimal(scale) + ";" + content + [TextSizing.Bel];
    if scale == 1 {
      assert RenderBlock(tag, content) == head + TextSizing.Repeat('\n', 2);
      TextSizing.ParseDirective(scale, content, 2);
    } else {
      TextSizing.ParseDirective(scale, content, scale);
    }
  }

  /** One pass of the loop body over token `t`. */
  function Step(st: RenderState, t: Token): Result<RenderState, RenderError> {
    match Classify(t)
    case OpenToken => Ok(RenderState(Some(t.tag), "", st.blocks))
    case InlineToken => Ok(st.(content := st.content + t.content))
    case CloseToken =>
      if st.currentTag.None? then Err(AssertionError)
      else if |st.currentTag.value| == 0 then Err(IndexError)
      else Ok(RenderState(None, st.content, st.blocks + [RenderBlock(st.currentTag.value, st.content)]))
    case OtherToken => Ok(st)
  }

  /**
   * Only a closing token can raise, and only when no printable tag is open;
   * the exception is AssertionError exactly when no tag is open at all.  Only
   * a closing token prints: one block after what was printed, leaving no tag
   * open.
   */
  lemma StepOutcome(st: RenderState, t: Token)
    ensures Step(st, t).Err? <==> Classify(t) == CloseToken && !Ready(st)
    ensures Step(st, t).Err? ==> (Step(st, t).error == AssertionError <==> st.currentTag.None?)
    ensures Step(st, t).Ok? ==>
      |Step(st, t).value.blocks| == |st.blocks| + (if Classify(t) == CloseToken then 1 else 0) &&
      Step(st, t).value.blocks[..|st.blocks|] == st.blocks
    ensures Step(st, t).Ok? && Classify(t) == CloseToken ==> Step(st, t).value.currentTag.None?
  {
  }

  /** The loop over `tokens`, started in state `st`. */
  function Run(st: RenderState, tokens: seq<Token>): Outcome
    decreases |tokens|
  {
    if tokens == [] then Outcome(st.blocks, None)
    else
      match Step(st, tokens[0])
      case Err(e) => Outcome(st.blocks, Some(e))
      case Ok(next) => Run(next, tokens[1..])
  }

  /**
   * `render_markdown` after parsing: the blocks it prints, in order, and the
   * exception that stops it, if one does.
   */
  method RenderMarkdown(tokens: seq<Token>) returns (blocks: seq<string>, failure: Option<RenderError>)
    ensures Outcome(blocks, failure) == Run(Start, tokens)
  {
    var currentTag: Option<string> := None;
    var content := "";
    blocks := [];
    failure := None;
    var i := 0;
    while i < |tokens|
      invariant 0 <= i <= |tokens|
      invariant Run(Start, tokens) == Run(RenderState(currentTag, content, blocks), tokens[i..])
    {
      var token := tokens[i];
      assert tokens[i..][1..] == tokens[i + 1..];
      if EndsWith(token.kind, "_open") {
        currentTag := Some(token.tag);
        content := "";
      } else if token.kind == "inline" {
        content := content + token.content;
      } else if EndsWith(token.kind, "_close") {
        if currentTag.None? {
          failure := Some(AssertionError);
          return;
        }
        if |currentTag.value| == 0 {
          failure := Some(IndexError);
          return;
        }
        blocks := blocks + [RenderBlock(currentTag.value, content)];
        currentTag := None;
      }
      i := i + 1;
    }
  }

  /** The open tag is one a closing token can print (it exists and is not empty). */
  predicate Ready(st: RenderState) {
    st.currentTag.Some? && |st.currentTag.value| > 0
  }

  /**
   * A stream the loop gets through: every closing token has an opening token
   * since the previous closing token, and the most recent one has a non-empty
   * tag.
   */
  predicate WellFormed(ready: bool, tokens: seq<Token>)
    decreases |tokens|
  {
    tokens == [] ||
    match Classify(tokens[0])
    case OpenToken => WellFormed(|tokens[0].tag| > 0, tokens[1..])
    case CloseToken => ready && WellFormed(false, tokens[1..])
    case _ => WellFormed(ready, tokens[1..])
  }

  function CloseCount(tokens: seq<Token>): nat
    decreases |tokens|
  {
    if tokens == [] then 0
    else (if Classify(tokens[0]) == CloseToken then 1 else 0) + CloseCount(tokens[1..])
  }

  /**
   * The loop never raises exactly on well-formed streams, and then prints one
   * block per closing token after what was printed before.
   */
  lemma {:induction false} RunSucceedsIffWellFormed(st: RenderState, tokens: seq<Token>)
    ensures Run(st, tokens).failure.None? <==> WellFormed(Ready(st), tokens)
    ensures WellFormed(Ready(st), tokens) ==>
      |Run(st, tokens).blocks| == |st.blocks| + CloseCount(tokens)
    decreases |tokens|
  {
    if tokens != [] {
      match Step(st, tokens[0])
      case Err(e) =>
      case Ok(next) =>
        RunSucceedsIffWellFormed(next, tokens[1..]);
    }
  }

  /**
   * Printing only ever appends: what was printed before stays a prefix, and
   * at most one block is added per closing token.
   */
  lemma {:induction false} RunAppendsOnly(st: RenderState, tokens: seq<Token>)
    ensures |st.blocks| <= |Run(st, tokens).blocks| <= |st.blocks| + CloseCount(tokens)
    ensures Run(st, tokens).blocks[..|st.blocks|] == st.blocks
    decreases |tokens|
  {
    if tokens != [] {
      match Step(st, tokens[0])
      case Err(e) =>
      case Ok(next) =>
        StepOutcome(st, tokens[0]);
        RunAppendsOnly(next, tokens[1..]);
        assert next.blocks[..|st.blocks|] == st.blocks;
    }
  }

  /** Every block the loop prints ends with an empty line. */
  lemma {:induction false} RunBlocksEndWithBlankLine(st: RenderState, tokens: seq<Token>)
    requires forall b :: b in st.blocks ==> EndsWithBlankLine(b)
    ensures forall b :: b in Run(st, tokens).blocks ==> EndsWithBlankLine(b)
    decreases |tokens|
  {
    if tokens != [] {
      match Step(st, tokens[0])
      case Err(e) =>
      case Ok(next) =>
        RunBlocksEndWithBlankLine(next, tokens[1..]);
    }
  }

  /** A token of no handled type changes nothing: not the tag, the buffer, nor the output. */
  lemma OtherTokenIgnored(st: RenderState, t: Token, rest: seq<Token>)
    requires Classify(t) == OtherToken
    ensures Run(st, [t] + rest) == Run(st, rest)
  {
    assert ([t] + rest)[1..] == rest;
  }

  /** An opening token forgets the previous tag and buffer: only the output so far matters. */
  lemma OpenForgetsState(st1: RenderState, st2: RenderState, t: Token, rest: seq<Token>)
    requires Classify(t) == OpenToken
    requires st1.blocks == st2.blocks
    ensures Run(st1, [t] + rest) == Run(st2, [t] + rest)
  {
    assert ([t] + rest)[1..] == rest;
  }

  /** The loop's first pass, when it does not raise. */
  lemma RunUnfold(st: RenderState, t: Token, rest: seq<Token>)
    requires Step(st, t).Ok?
    ensures Run(st, [t] + rest) == Run(Step(st, t).value, rest)
  {
    assert ([t] + rest)[0] == t && ([t] + rest)[1..] == rest;
  }

  lemma StepInline(st: RenderState, t: Token)
    requires Classify(t) == InlineToken
    ensures Step(st, t) == Ok(st.(content := st.content + t.content))
  {
  }

  predicate AllInline(tokens: seq<Token>) {
    forall k :: 0 <= k < |tokens| ==> Classify(tokens[k]) == InlineToken
  }

  function JoinedContent(tokens: seq<Token>): string
    decreases |tokens|
  {
    if tokens == [] then "" else tokens[0].content + JoinedContent(tokens[1..])
  }

  /** Inline tokens append their text to the buffer, in order, and print nothing. */
  lemma {:induction false} InlinesAppend(st: RenderState, inlines: seq<Token>, rest: seq<Token>)
    requires AllInline(inlines)
    ensures Run(st, inlines + rest) == Run(st.(content := st.content + JoinedContent(inlines)), rest)
    decreases |inlines|
  {
    if inlines == [] {
      assert inlines + rest == rest;
      assert st.content + JoinedContent(inlines) == st.content;
    } else {
      var t, tail := inlines[0], inlines[1..];
      assert inlines + rest == [t] + (tail + rest);
      assert AllInline(tail) by {
        forall k | 0 <= k < |tail| ensures Classify(tail[k]) == InlineToken {
          assert tail[k] == inlines[k + 1];
        }
      }
      var next := st.(content := st.content + t.content);
      StepInline(st, t);
      RunUnfold(st, t, tail + rest);
      InlinesAppend(next, tail, rest);
      assert JoinedContent(inlines) == t.content + JoinedContent(tail);
      assert next.content + JoinedContent(tail) == st.content + JoinedContent(inlines);
    }
  }

  /**
   * An opening token, inline tokens and a closing token print exactly one
   * block: the open tag's rendering of the inline texts joined.
   */
  lemma OneBlockPerElement(st: RenderState, open: Token, inlines: seq<Token>, close: Token, rest: seq<Token>)
    requires Classify(open) == OpenToken && |open.tag| > 0
    requires AllInline(inlines)
    requires Classify(close) == CloseToken
    ensures Run(st, [open] + inlines + [close] + rest)
            == Run(RenderState(None, JoinedContent(inlines), st.blocks + [RenderBlock(open.tag, JoinedContent(inlines))]), rest)
  {
    var afterOpen := RenderState(Some(open.tag), "", st.blocks);
    var tail := inlines + ([close] + rest);
    assert [open] + inlines + [close] + rest == [open] + tail;
    assert ([open] + tail)[0] == open && ([open] + tail)[1..] == tail;
    assert Step(st, open) == Ok(afterOpen);
    assert Run(st, [open] + tail) == Run(afterOpen, tail);
    InlinesAppend(afterOpen, inlines, [close] + rest);
    var closing := RenderState(Some(open.tag), JoinedContent(inlines), st.blocks);
    assert afterOpen.content + JoinedContent(inlines) == JoinedContent(inlines);
    assert afterOpen.(content := afterOpen.content + JoinedContent(inlines)) == closing;
    var closed := RenderState(None, JoinedContent(inlines), st.blocks + [RenderBlock(open.tag, JoinedContent(inlines))]);
    assert ([close] + rest)[0] == close && ([close] + rest)[1..] == rest;
    assert Step(closing, close) == Ok(closed);
    assert Run(closing, [close] + rest) == Run(closed, rest);
  }

  /** The heading `# Title` prints `ESC ] 66 ; s=4 ; Title BEL` and four newlines. */
  lemma TitleHeadingExample()
    ensures Run(Start, [Token("heading_open", "h1", ""), Token("inline", "", "Title"), Token("heading_close", "h1", "")])
            == Outcome(["\U{1B}]66;s=4;Title\U{7}\n\n\n\n"], None)
  {
    var open := Token("heading_open", "h1", "");
    var inline := Token("inline", "", "Title");
    var close := Token("heading_close", "h1", "");
    assert Classify(open) == OpenToken;
    assert Classify(inline) == InlineToken by {
      assert !EndsWith(inline.kind, "_open");
    }
    assert Classify(close) == CloseToken by {
      assert !EndsWith(close.kind, "_open");
    }
    assert [open, inline, close] == [open] + [inline] + [close] + [];
    OneBlockPerElement(Start, open, [inline], close, []);
    assert JoinedContent([inline]) == "Title";
    TitleBlock();
  }

  lemma TitleBlock()
    ensures RenderBlock("h1", "Title") == "\U{1B}]66;s=4;Title\U{7}\n\n\n\n"
  {
    assert HeadingScale("h1") == 4;
    TextSizing.SmallNumerals();
    TextSizing.FourNewlines();
    TextSizing.PrintBigAt("Title", 4, "4", "\n\n\n\n");
    assert [TextSizing.Esc] + "]66;s=" + "4" + ";" + "Title" + [TextSizing.Bel] + "\n\n\n\n"
        == "\U{1B}]66;s=4;Title\U{7}\n\n\n\n";
  }

  /**
   * A list item wraps a paragraph: the paragraph's closing token resets the
   * tag, so the list item's closing token fails the assertion after the
   * paragraph has been printed.
   */
  lemma NestedCloseFails()
    ensures Run(Start, [Token("list_item_open", "li", ""), Token("paragraph_open", "p", ""),
                        Token("inline", "", "item"), Token("paragraph_close", "p", ""),
                        Token("list_item_close", "li", "")])
            == Outcome(["item\n\n"], Some(AssertionError))
  {
    var itemOpen := Token("list_item_open", "li", "");
    var paraOpen := Token("paragraph_open", "p", "");
    var inline := Token("inline", "", "item");
    var paraClose := Token("paragraph_close", "p", "");
    var itemClose := Token("list_item_close", "li", "");
    assert Classify(itemOpen) == OpenToken;
    assert Classify(paraOpen) == OpenToken;
    assert Classify(inline) == InlineToken by {
      assert !EndsWith(inline.kind, "_open");
    }
    assert Classify(paraClose) == CloseToken by {
      assert !EndsWith(paraClose.kind, "_open");
    }
    assert Classify(itemClose) == CloseToken by {
      assert !EndsWith(itemClose.kind, "_open");
    }
    var tokens := [itemOpen, paraOpen, inline, paraClose, itemClose];
    var inner := [paraOpen] + [inline] + [paraClose] + [itemClose];
    assert tokens == [itemOpen] + inner;
    var inItem := RenderState(Some("li"), "", []);
    assert Run(Start, tokens) == Run(inItem, inner) by {
      assert tokens[0] == itemOpen && tokens[1..] == inner;
      assert Step(Start, itemOpen) == Ok(inItem);
    }
    OneBlockPerElement(inItem, paraOpen, [inline], paraClose, [itemClose]);
    assert JoinedContent([inline]) == "item";
    assert RenderBlock("p", "item") == "item\n\n";
    var afterPara := RenderState(None, "item", ["item\n\n"]);
    assert Run(inItem, inner) == Run(afterPara, [itemClose]);
    assert Step(afterPara, itemClose) == Err(AssertionError);
  }
}
