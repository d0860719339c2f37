# Text sizing: the OSC 66 scale encoder and the markdown renderer that uses it

This project models two pieces of kitty-litterbox, a small Python client for
kitty's text-sizing protocol:

- `print_big` (text_sizing.py), the encoder. It checks that the scale lies in
  `MIN_SCALE..MAX_SCALE` = 1..7 and raises `ValueError` otherwise. When the
  scale is valid it writes `ESC ] 66 ; s=<scale> ; <text> BEL`, followed by
  `scale` newlines when `newline` is set and by nothing otherwise. In the model
  (`TextSizing.PrintBig`) this is a pure function. It returns the exact
  characters printed, or the `ValueError` raised before anything is printed.
  `ParseScaled` reads a directive back. It serves as the encoder's inverse in
  the round-trip lemma.
- `render_markdown` (markdown_example.py), a loop over markdown-it tokens with
  two variables, `current_tag` and `content`. An `*_open` token sets the tag
  and clears the buffer. An `inline` token appends its text to the buffer. An
  `*_close` token prints one block and clears the tag. A tag starting with `h`
  is printed through `print_big`, at the scale that `HEADING_SCALE_MAP` gives
  it (default 1), plus one extra newline at scale 1. Any other tag is printed
  as the buffer followed by an empty line. `MarkdownExample.RenderMarkdown` is
  that loop, written as a `while` loop over a token sequence. It is proved
  equal to `Run`, a fold of the one-token transition `Step`. Output is the
  sequence of printed blocks, one per closing token; the printed text is their
  concatenation. The loop raises `AssertionError` when a closing token arrives
  with no open tag, and `IndexError` (from `current_tag[0]`) when the open tag
  is the empty string. The model returns the blocks printed before the
  exception together with the exception.

The renderer handles only flat documents. A closing token clears the tag, so
in any nested block (a list item or a block quote holding a paragraph) the
inner `paragraph_close` leaves no tag for the outer closing token, and
`render_markdown` raises `AssertionError` after printing the inner paragraph
(`NestedCloseFails`).

What the code does and does not do:
- The code enforces no payload-size limit.
- The code has no encoder for the `n=`/`d=`/`w=` keys.
- A heading tag outside `h1`..`h3` (such as `h4`) still goes through
  `print_big`, at scale 1, plus one extra newline. Non-heading blocks are
  printed as plain text.

Two lines of markdown_example.py do not match text_sizing.py:
- Line 3 imports `supports_text_sizing_protocol` and `terminal_cbreak_mode`,
  which text_sizing.py does not define.
- Line 30 passes `bold=True`, which `print_big` does not accept.
The model treats the call as `print_big(content, scale)` with the default
`newline=True`.

## Model

| member | source | states |
|---|---|---|
| `TextSizing.PrintBig` | text_sizing.py:15-20 | fails exactly when the scale is below 1 or above 7, and then returns the error instead of any output; on success the output length is prefix + digits of the scale + `;` + text + BEL + (scale newlines if `newline`, else none) |
| `TextSizing.PrintBigRoundTrip` | text_sizing.py:20 | reading a successful output back (digits after `s=` up to `;`, text up to the first BEL, the newlines after it) recovers the scale, the text and the newline count exactly when the text contains no BEL |
| `TextSizing.PrintBigLayout` | text_sizing.py:19-20 | for every scale in 1..7 and every text (a BEL in it included), the output is the prefix, the scale's numeral and `;`, then the text verbatim, then the BEL, then exactly `scale` newlines with `newline` and nothing without |
| `TextSizing.ParseDirective` | text_sizing.py:20 | a directive with any scale, any BEL-free text and any number of trailing newlines reads back as exactly those three |
| `TextSizing.Decimal` | text_sizing.py:20 | the scale's numeral in the f-string is a non-empty string of decimal digits with no leading zero |
| `TextSizing.DecimalRoundTrip` | text_sizing.py:20 | the numeral denotes the scale it was written from |
| `TextSizing.Repeat` | text_sizing.py:19 | `"\n" * scale` is `scale` characters long and every one of them is a newline |
| `TextSizing.QuickstartDoubleMatchesEncoder` | text_sizing.py:8 | the literal directive of `quickstart` for "Double sized text" equals the encoder's output at scale 2 with `newline` set |
| `TextSizing.QuickstartTripleMatchesEncoder` | text_sizing.py:9 | the literal directive of `quickstart` for "Triple sized text" equals the encoder's output at scale 3 with `newline` set |
| `TextSizing.MainLoopsNeverRaise` | text_sizing.py:24-28 | every scale of `range(MIN_SCALE, MAX_SCALE + 1)` passes the guard, with and without `newline` |
| `MarkdownExample.ClassifyByType` | markdown_example.py:21-26 | `Classify`, the loop's `if`/`elif` chain on the token type, picks the open branch exactly when the type ends with `_open`, the inline branch exactly when it is `inline`, and the close branch exactly when it ends with `_close`, so the order of the tests does not matter |
| `MarkdownExample.StepOutcome` | markdown_example.py:21-36 | one pass of the loop body (`Step`) raises only on a closing token with no printable tag, `AssertionError` exactly when no tag is open and `IndexError` otherwise; otherwise it prints one block after the earlier ones on a closing token and nothing on any other token, and a closing token leaves no tag open |
| `MarkdownExample.HeadingScale` | markdown_example.py:29 | every scale the renderer hands to `print_big` lies in 1..7, so the encoder's guard never fires from the renderer |
| `MarkdownExample.HeadingScaleValues` | markdown_example.py:5-9 | h1 maps to 4, h2 to 3, h3 to 2, and every other tag to 1 |
| `MarkdownExample.RenderBlock` | markdown_example.py:28-34 | every block a closing token prints, heading or paragraph, ends with at least two newlines, i.e. with an empty line |
| `MarkdownExample.ParagraphBlock` | markdown_example.py:33-34 | a block for a tag not starting with `h` is exactly two characters longer than the buffered text, starts with that text verbatim, and ends with exactly two more newlines than the text does, so it is the text followed by `"\n\n"` |
| `MarkdownExample.HeadingBlockLayout` | markdown_example.py:28-32 | for any text, a BEL in it included, a heading block is the directive prefix, the heading's scale as an unpadded numeral and `;`, then the text verbatim, then the BEL, then exactly max(2, scale) newlines and nothing else |
| `MarkdownExample.HeadingBlockShape` | markdown_example.py:28-32 | for BEL-free text, a heading block is one directive carrying the heading's scale and its text, followed by `scale` newlines for scales 2-4 and by two newlines (one from `print_big`, one extra) for scale 1 |
| `MarkdownExample.RenderMarkdown` | markdown_example.py:18-36 | the loop prints exactly the blocks, and raises exactly the exception, of the token-by-token fold from the initial state (no tag, empty buffer, nothing printed) |
| `MarkdownExample.RunSucceedsIffWellFormed` | markdown_example.py:26-36 | the loop raises nothing if and only if, for every closing token, an opening token comes after the previous closing token and the most recent such opening token has a non-empty tag; then it prints one block per closing token |
| `MarkdownExample.RunAppendsOnly` | markdown_example.py:20-36 | `Run`, the fold of `Step` over the token stream, only appends to the output: what was printed before stays a prefix, on success and on failure, and at most one block is added per closing token |
| `MarkdownExample.RunBlocksEndWithBlankLine` | markdown_example.py:26-36 | every block printed over a whole stream ends with an empty line |
| `MarkdownExample.OtherTokenIgnored` | markdown_example.py:20-26 | a token that is not `*_open`, `inline` or `*_close` leaves the tag, the buffer and the output as they were |
| `MarkdownExample.OpenForgetsState` | markdown_example.py:21-23 | after an opening token the earlier tag and buffer no longer matter; only what was already printed does |
| `MarkdownExample.InlinesAppend` | markdown_example.py:24-25 | a run of inline tokens appends their texts to the buffer, in order, and prints nothing |
| `MarkdownExample.OneBlockPerElement` | markdown_example.py:20-36 | an opening token with a non-empty tag, inline tokens and a closing token print exactly one block, rendered from the open tag and the joined inline texts, and leave the tag cleared |
| `MarkdownExample.TitleHeadingExample` | markdown_example.py:28-32 | the heading `# Title` prints `ESC ] 66 ; s=4 ; Title BEL` followed by four newlines, and nothing else |
| `MarkdownExample.TitleBlock` | markdown_example.py:28-30 | the block for an `h1` holding "Title" is the scale-4 directive for "Title" followed by four newlines |
| `MarkdownExample.NestedCloseFails` | markdown_example.py:26-36 | a paragraph inside a list item is printed, then the list item's closing token raises `AssertionError`, because the paragraph's closing token already cleared the tag |

## Left out

- Writing to stdout: `print` is the sink. The model returns the characters (encoder) or the blocks (renderer) that would be printed.
- The markdown-it parser (markdown_example.py:1, 15-16) is a foreign library. Its token stream is an input, with each token reduced to its type, tag and content.
- `main` in both files, `exit(1)` and `EXAMPLE_MARKDOWN` are demo drivers. `MainLoopsNeverRaise` states the one thing `main` in text_sizing.py relies on.
- The capability check and the cbreak context manager: markdown_example.py:3 imports them, but text_sizing.py does not define `supports_text_sizing_protocol` or `terminal_cbreak_mode`, so they are not part of this model.
- The `bold=True` keyword (markdown_example.py:30) has no counterpart in `print_big`, so there is no behaviour to model. As written, that call raises `TypeError`.
- The fractional and width directives (`n=`, `d=`, `w=`, text_sizing.py:10-12) exist only as literal strings; there is no encoder or validation for them.
- `TextSizing.PrintBig` takes an integer scale, as the type hint says. `True` passes the guard (it compares as 1) and is written as `True`; `False` compares as 0 and raises `ValueError`. A `float` scale in range raises `TypeError` from `"\n" * scale` when `newline` is set, and is written in float notation when it is not. None of these inputs are modelled.
- Running under `python -O` strips the `assert` at markdown_example.py:27. A closing token with no open tag then raises `TypeError` from `current_tag[0]` instead of `AssertionError`. The model follows the default interpreter mode.
