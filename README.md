# Newsletter Markdown renderer and recipient list, in Dafny

The newsletter script turns a briefing written in a small Markdown dialect into the HTML body of
an email, and sends it to a comma-separated list of addresses. This project models two pieces of
`newsletter.mjs`:

- `markdownToHTML` (newsletter.mjs:124-202). Its local `h` goes through twenty global
  regular-expression replacements, one after the other: three heading levels, bold italic, six
  "Hubbell Signal" badges, links, bold, italic, rules, nested and top-level items, the two list
  groupers, paragraphs, and the removal of empty paragraphs.
- The recipient expression `TO_EMAILS.split(",").map(e => e.trim()).filter(Boolean)`
  (newsletter.mjs:293) and the `to` field `recipients.join(", ")` (newsletter.mjs:298).

Each replacement is an exact function on strings (`seq<char>`).

- The `/gm` line passes (`^…$`) are `Lines.MapLines`. It rewrites every stretch between the four
  JavaScript line terminators on its own.
- The other global passes are `Scanner.Scan`. It reads the text from left to right with a matcher
  per pattern that gives the match at a position: its length and its replacement. A lazy `+?`
  means the content stops at the nearest closing marker.
- The patterns that can cross line breaks (links, badge white space, italic, the list and
  cleanup patterns) cross them in the model too. Italic content `[^*\n]` excludes only the line
  feed, so `*x\ry*` is one italic span across a carriage return (`Emphasis.ItalicSpansReturn`);
  a line or paragraph separator is treated the same way.

`Newsletter.MarkdownToHtml` is the script's function as a method. It reassigns `h` once per pass,
in the script's order, and its result is `Newsletter.Render`, the composition of the twenty pass
functions.

The properties proved fall into four groups.

- **Per pass.** Each pass has its exact effect (which lines or matches it rewrites, into what),
  both directions of each matching condition, and which inputs it leaves alone.
- **Across passes.**
  - The heading levels are disjoint.
  - Badges are claimed before bold and come out of the inline passes as their pills; run first,
    the bold pass would have claimed them.
  - A pill then stays on its line through the block, list and paragraph passes: at the start of
    a line it is not wrapped in `<p>`, and in a nested bullet it ends up inside the nested item.
  - The list passes give each maximal run of items its own `<ul>`.
- **End to end.** For a briefing built from headings, rules, items, prose and blank lines without
  inline markup, `Document.RenderDocument` gives the whole output of all twenty passes. Each
  corollary below specialises it.
- **Recipients.** Every recipient is a trimmed, non-empty piece of one comma-separated field, in
  input order. Reading the `to` field back gives the list.

Some behaviours of the code are easy to miss when reading the patterns alone. The model follows
the code and proves each of them where a member is named:

- Nested items are not placed inside the preceding top-level `<li>`. A nested run closes the
  top-level list and gets a `<ul>` of its own (`ListLayout.NestedBetweenTop`).
- A line of prose right after a list is not wrapped in `<p>`, because `</ul>` lands at the start
  of that line (`Document.TextAfterList`).
- The six indented lines of a level-2 banner are each wrapped in `<p>`
  (`Document.SectionRowsWrapped`).
- Link captions are scanned by the bold and italic passes (`Ordering.CaptionEmphasised`).
- The badge patterns are case-insensitive on the whole pattern, not only on the severity word.
- There are no tables. A line of `|` cells is ordinary prose.
- Consecutive prose lines are wrapped one paragraph per line, and `####` is not a heading.
- The cleanup pass is not idempotent (`Cleanup.NotIdempotent`).
- A line that starts with a badge is not wrapped in `<p>`, because the pill's `<span` puts `<`
  at the start of the line (`BadgeLines.BadgeLineRender`).

## Model

| member | source | states |
|---|---|---|
| Newsletter.MarkdownToHtml | newsletter.mjs:124-202 | reassigning `h` through the twenty passes in the script's order yields `Render(md)`, the composition of the pass functions |
| Newsletter.Render | newsletter.mjs:124-202 | the twenty passes composed in the script's order; `MarkdownToHtml` computes it, `Document.RenderDocument` gives its output for plain briefings and `BadgeLines.BadgeLineRender` and `BadgeLines.NestedBadgeRender` for lines with a badge |
| Scanner.Scan | newsletter.mjs:144-199 | the global left-to-right replacement: `ScanSkip` copies text where no match starts, `ScanHit` replaces a match at the start and resumes after it |
| Lines.MapLines | newsletter.mjs:128-196 | a `/gm` line pass: `MapLinesOneLine` rewrites a text without line terminator as one line, `MapLinesJoinLines` rewrites lines joined by line feeds one by one and keeps the line feeds |
| LinePasses.H1Pass | newsletter.mjs:128-129 | the level-1 pass over all lines; on one line its effect is `H1Line`, whose contract states it (`LinePasses.H1OnLine` composes the heading passes) |
| LinePasses.BannerPass | newsletter.mjs:131-138 | the banner pass over all lines; on one line its effect is `BannerLine` (`LinePasses.BannerOnLine`) |
| LinePasses.H3Pass | newsletter.mjs:140-141 | the level-3 pass over all lines; on one line its effect is `H3Line` (`LinePasses.H3OnLine`, `LinePasses.BannerLeftAlone`) |
| LinePasses.RulePass | newsletter.mjs:174-175 | the rule pass over all lines; on one line its effect is `RuleLine` (`Document.DividerRule`) |
| LinePasses.NestedItemPass | newsletter.mjs:179-180 | the nested-item pass over all lines; on one line its effect is `NestedItemLine` (`Document.SubBulletBlocks`) |
| LinePasses.TopItemPass | newsletter.mjs:183-184 | the top-item pass over all lines; on one line its effect is `TopItemLine` (`Document.BulletList`) |
| LinePasses.ParagraphPass | newsletter.mjs:195-196 | the paragraph pass over all lines; on one line its effect is `ParagraphLine` (`Document.ProseParagraph`, `Document.TextAfterList`) |
| Newsletter.PlainInline | newsletter.mjs:144-171 | text with no `*` and no `[` goes through bold italic, the six badge passes, links, bold and italic unchanged |
| LinePasses.H1Line | newsletter.mjs:128-129 | a line is rewritten exactly when it starts with `# ` and has at least one more character, and then becomes `H1` of the rest |
| LinePasses.BannerLine | newsletter.mjs:131-138 | a line is rewritten exactly when it starts with `## ` plus at least one character, and then becomes the seven-line banner of the rest |
| LinePasses.H3Line | newsletter.mjs:140-141 | a line is rewritten exactly when it starts with `### ` plus at least one character, and then becomes `H3` of the rest |
| LinePasses.H1OnLine | newsletter.mjs:128-141 | on a `# t` line the three heading passes in order give exactly `H1(t)` |
| LinePasses.BannerOnLine | newsletter.mjs:128-141 | on a `## t` line the level-1 pass does not match, and the three passes give exactly `Banner(t)` |
| LinePasses.H3OnLine | newsletter.mjs:128-141 | on a `### t` line neither earlier level matches, and the result is exactly `H3(t)` |
| LinePasses.NoHeadingOnLine | newsletter.mjs:128-141 | a line with none of the three heading prefixes is kept by all three heading passes |
| LinePasses.BannerLeftAlone | newsletter.mjs:131-141 | the level-3 pass leaves every line of a banner unchanged |
| LinePasses.RuleLine | newsletter.mjs:174-175 | a line is replaced exactly when it is `---` and nothing else (so `----` and `--- ` are kept), and then becomes the rule |
| LinePasses.NestedItemLine | newsletter.mjs:179-180 | a line is rewritten exactly when it starts with two spaces, `- ` and at least one character, and then becomes the nested item of the rest |
| LinePasses.TopItemLine | newsletter.mjs:183-184 | a line is rewritten exactly when it starts with `- ` and at least one character, and then becomes the top-level item of the rest |
| LinePasses.ParagraphLine | newsletter.mjs:195-196 | a line is wrapped in `<p>` exactly when it is non-empty and does not start with `<`; otherwise it is kept |
| LinePasses.TagLineKept | newsletter.mjs:128-196 | a line starting with `<` is kept by every line pass: headings, rule, both items, paragraph |
| Emphasis.EmphasisAtMeaning | newsletter.mjs:144-171 | a bold-italic, bold or italic pattern matches exactly when a marker pair closes, and replaces pair and content by the tag around the content |
| Emphasis.EmphasisAt | newsletter.mjs:144-171 | the match of one emphasis pattern at a position; `EmphasisAtMeaning` and `ClosesUnique` state when it matches and what replaces the match |
| Emphasis.EmphasisPass | newsletter.mjs:144-171 | one emphasis pattern applied globally; `Wraps`, `ContentWraps`, `NoStarUnchanged`, `StrayStarKept` and `UnclosedBoldKept` state its effect |
| Emphasis.LineContent | newsletter.mjs:144-171 | text on one line without `*` is content every emphasis pattern admits |
| Emphasis.ContentWraps | newsletter.mjs:144-171 | a marker pair around content the pattern admits becomes the tag around that content; text before it without `*` is kept and scanning resumes after the pair |
| Emphasis.ClosesUnique | newsletter.mjs:144-171 | the lazy content has at most one closing marker: the nearest one |
| Emphasis.NoPartner | newsletter.mjs:144-171 | an opening marker with no later `*` does not match |
| Emphasis.Wraps | newsletter.mjs:144-171 | `***x***`, `**x**` or `*x*`, with non-empty `x` on one line and without `*`, becomes the tag around `x`; text before it without `*` is kept and scanning resumes after the closing marker |
| Emphasis.UnclosedBoldKept | newsletter.mjs:167-168 | `**` with no closing partner is left as literal characters |
| Emphasis.StrayStarKept | newsletter.mjs:171 | a single `*` without a partner is left untouched |
| Emphasis.ItalicStaysOnLine | newsletter.mjs:171 | an italic pair does not span a line feed: `*x\ny*` is kept |
| Emphasis.ItalicSpansReturn | newsletter.mjs:171 | `[^*\n]` excludes only the line feed: `*x\ry*`, with no `*` or line feed in `x` and `y`, becomes one `<em>` around `x\ry` |
| Emphasis.NoStarUnchanged | newsletter.mjs:144-171 | the three emphasis passes leave text without `*` unchanged |
| BadgeStars.TripleUnclosed | newsletter.mjs:144 | `***word**rest`, with no other `*`, has no closing `***` and does not match |
| BadgeStars.ItalicMisses | newsletter.mjs:144 | at none of the six `*`s of `*sig* sp **word**` does a bold-italic match start |
| BadgeStars.BoldMisses | newsletter.mjs:144 | at none of the four `*`s of `**sig** sp word` does a bold-italic match start |
| BadgeStars.BoldClaims | newsletter.mjs:167-168 | `**sig** rest`, without other `*`, becomes `Strong(sig)` followed by the rest |
| Badges.BadgeHit | newsletter.mjs:147-160 | a badge written in either spelling, in any letter case, with any white space, is a match of its pattern and becomes its pill |
| Badges.BadgeAt | newsletter.mjs:147-160 | the match of one badge pattern at a position; `BadgeHit` and `BadgeSound` state when it matches and what replaces the match |
| Badges.BadgePass | newsletter.mjs:147-160 | one badge pattern applied globally; `OtherBadgeKept` and `NoStarUnchanged` state what it leaves alone |
| Badges.Badges | newsletter.mjs:147-160 | the six badge passes in the script's order; `BadgesRender` states their joint effect on a badge |
| Badges.BadgeSound | newsletter.mjs:147-160 | every match of a badge pattern is such a badge, of that spelling and severity, and is replaced by that pill |
| Badges.TailMiss | newsletter.mjs:147-160 | a badge of one severity does not match the pattern of another severity |
| Badges.OtherBadgeKept | newsletter.mjs:147-160 | a badge is left alone by the pattern of every other spelling or severity |
| Badges.NoStarUnchanged | newsletter.mjs:147-160 | text without `*` is left alone by every badge pass |
| Badges.BadgesRender | newsletter.mjs:147-160 | the six badge passes in order turn one badge, between texts without `*`, into exactly its pill |
| Markup.PillCalm | newsletter.mjs:147-160 | a pill has no line break, `*`, `[`, list-item tag or paragraph tag and starts with `<`, so the link, bold and italic passes after the badges leave it alone |
| Ordering.BoldItalicKeepsBadge | newsletter.mjs:144-160 | the bold-italic pass, which runs before the badges, leaves a badge and text around it without `*` unchanged |
| Ordering.InlineBadge | newsletter.mjs:144-171 | a badge in either spelling and any severity comes out of all inline passes as exactly its pill, never as plain `<strong>` or `<em>` |
| Ordering.BoldFirstClaimsBadge | newsletter.mjs:155-168 | the bold pass alone would turn `**Hubbell Signal:** High` into `<strong>` around the signal text followed by the bare word, which is why the badges run first |
| Ordering.LaterPassesKeep | newsletter.mjs:163-171 | the link, bold and italic passes leave text without `*` and `[` unchanged |
| Ordering.CaptionEmphasised | newsletter.mjs:163-168 | a caption `**x**` copied into an anchor is turned into bold text inside it by the bold pass |
| Links.LinkHit | newsletter.mjs:163-164 | `[caption](url)` with a caption without `]` and an `http://` or `https://` address without `)` matches and becomes the anchor |
| Links.LinkAt | newsletter.mjs:163-164 | the match of the link pattern at a position; `LinkHit`, `LinkSound`, `OtherSchemeMiss` and `EmptyCaptionMiss` state when it matches and what replaces the match |
| Links.LinkPass | newsletter.mjs:163-164 | the link pattern applied globally; `LinkWraps` and `NoBracketUnchanged` state its effect |
| Links.LinkSound | newsletter.mjs:163-164 | every match of the link pattern is such a `[caption](url)` and is replaced by its anchor |
| Links.OtherSchemeMiss | newsletter.mjs:163-164 | a bracket and parenthesis sequence with another scheme does not match |
| Links.EmptyCaptionMiss | newsletter.mjs:163-164 | `[]` followed by anything does not match |
| Links.NoBracketUnchanged | newsletter.mjs:163-164 | text without `[` is left as it is |
| Links.LinkWraps | newsletter.mjs:163-164 | a link after text without `[` becomes its anchor and scanning resumes after it |
| Lists.GroupRows | newsletter.mjs:187-192 | a list pass over rows wraps every maximal run of its own items in one `<ul>`, with `</ul>` at the start of the row after the run or at the end, and keeps everything else |
| Lists.ItemEnd | newsletter.mjs:187-192 | where an item with the pass's marker ends: its contract keeps the end inside the text and the text starting with `<li`; `OwnItemEnd` and `ForeignMiss` state which items it accepts |
| Lists.GroupAt | newsletter.mjs:187-192 | the match of a list pattern at a position: the chain of the pass's own items there, each with its trailing line feed, wrapped in the list's `<ul>` and `</ul>`; `GroupRows` states the effect of its pass |
| Lists.NestedListPass | newsletter.mjs:187-188 | the nested-list grouper; `GroupRows`, and `ListLayout.ListPasses` with the top grouper, state its effect |
| Lists.TopListPass | newsletter.mjs:191-192 | the top-level grouper; `GroupRows` and `ListLayout.ListPasses` state its effect |
| Lists.InRun | newsletter.mjs:187-192 | the output of one run: its items as they are, then `</ul>` before the next row or at the end |
| ListLayout.ListPasses | newsletter.mjs:187-192 | the two list passes over item and other lines give `Listed`: every maximal run of nested items and every maximal run of top-level items opens and closes its own list |
| ListLayout.NoItemsKept | newsletter.mjs:187-192 | lines without items are left alone by both list passes |
| ListLayout.NestedBetweenTop | newsletter.mjs:179-192 | a nested item between two top-level items is not nested in the first: it closes that list, gets its own list, and the second top-level item opens a third |
| Cleanup.EmptyParagraphAt | newsletter.mjs:199 | a match is at least `<p></p>` long, fits the text and is replaced by nothing |
| Cleanup.CleanPass | newsletter.mjs:199 | the removal of empty paragraphs applied globally; `BlankParagraphRemoved`, `ScanUnopened`, `FilledParagraphKept` and `NotIdempotent` state its effect |
| Cleanup.EmptyParagraphHit | newsletter.mjs:199 | every `<p attrs>` followed by blanks and `</p>` is a match, whatever follows |
| Cleanup.EmptyParagraphSound | newsletter.mjs:199 | every match is such an empty paragraph, and only it is removed |
| Cleanup.ScanUnopened | newsletter.mjs:199 | text where no `<p` opens is passed over unchanged |
| Cleanup.UnopenedKept | newsletter.mjs:199 | text where no `<p` opens is kept as it is |
| Cleanup.BlankParagraphRemoved | newsletter.mjs:199 | a paragraph of blanks is removed, and scanning goes on after it |
| Cleanup.BlankParagraphGone | newsletter.mjs:199 | a paragraph of blanks alone leaves the empty string |
| Cleanup.FilledParagraphKept | newsletter.mjs:199 | a paragraph whose text is not blank and holds no paragraph tag is kept |
| Cleanup.NotIdempotent | newsletter.mjs:199 | an empty paragraph inside another leaves the outer one empty after one pass; only a second pass removes it |
| Document.RenderDocument | newsletter.mjs:124-202 | for a briefing of plain blocks, `Render` is the list layout of its entries followed by one rule per line: `<` lines stay, blank lines vanish, the rest become paragraphs |
| Document.FinalLineShape | newsletter.mjs:195-199 | each final line is a single line that is empty or starts with a tag |
| Document.EveryLineTagged | newsletter.mjs:195-199 | every output line of such a briefing is empty or starts with `<`: no text is left outside markup |
| Document.OneBlock | newsletter.mjs:124-202 | the output of a one-line briefing is the layout of that block's entries |
| Document.ProseParagraph | newsletter.mjs:195-196 | a line of plain prose becomes exactly one paragraph |
| Document.BlankVanishes | newsletter.mjs:195-199 | a blank line leaves nothing: wrapped as a paragraph, then removed as empty |
| Document.TitleHeading | newsletter.mjs:128-129 | `# t` becomes exactly `H1(t)`, with no paragraph around it |
| Document.SubsectionHeading | newsletter.mjs:140-141 | `### t` becomes exactly `H3(t)` |
| Document.DividerRule | newsletter.mjs:174-175 | `---` becomes exactly one rule |
| Document.BulletList | newsletter.mjs:183-192 | `- x` becomes a top-level list holding exactly one item |
| Document.SectionRowsWrapped | newsletter.mjs:131-196 | `## t` keeps the banner's first line, but each of its six indented lines is wrapped in a paragraph of its own |
| Document.TextAfterList | newsletter.mjs:183-196 | prose right after an item is not wrapped: `</ul>` is put in front of it and the paragraph pass skips lines that start with `<` |
| BadgeLines.Unheaded | newsletter.mjs:128-141 | a line that does not start with `#` is kept by the three heading passes |
| BadgeLines.TagLineFinished | newsletter.mjs:174-199 | a calm line that starts with `<` is kept by the rule, item, list and paragraph passes |
| BadgeLines.NestedItemListed | newsletter.mjs:187-192 | a nested item alone is put into a nested list of its own by the two list passes |
| BadgeLines.LoneNestedList | newsletter.mjs:187-199 | a nested item alone comes out of the list and paragraph passes as a nested list of one item |
| BadgeLines.LeadingBadgeInline | newsletter.mjs:128-171 | a line that starts with a badge is no heading, and the inline passes turn the badge into its pill |
| BadgeLines.PillLine | newsletter.mjs:174-199 | a pill followed by plain text starts with `<` and is kept by the rule, item, list and paragraph passes |
| BadgeLines.BadgeLineRender | newsletter.mjs:124-202 | a line that starts with a badge becomes its pill followed by the rest of the line, with no `<p>` around it |
| BadgeLines.NestedBadgeInline | newsletter.mjs:128-171 | a nested bullet with a badge in it is no heading, and the inline passes turn the badge into its pill |
| BadgeLines.NestedBadgeRender | newsletter.mjs:124-202 | a nested bullet `  - a badge b`, the form the briefing prompt asks for (newsletter.mjs:47), becomes a nested list of one item holding `a`, the pill and `b` |
| Recipients.Trim | newsletter.mjs:293 | the trimmed text is no longer than the input and neither starts nor ends with white space |
| Recipients.Recipients | newsletter.mjs:293 | the recipient list; `RecipientsAreAddresses` states that each is a trimmed non-empty piece without a comma, `RecipientsAppend` that the input order is kept, `OnePiece` what one piece gives |
| Recipients.ToField | newsletter.mjs:298 | the `to` field `join(", ")`; `RecipientsOfToField` reads it back as the same list |
| Recipients.TrimSplits | newsletter.mjs:293 | the input is blanks, the trimmed text, then blanks |
| Recipients.TrimOf | newsletter.mjs:293 | trimming a trimmed core between blanks gives the core back |
| Recipients.TrimIdempotent | newsletter.mjs:293 | trimming twice is trimming once |
| Recipients.TrimLeading | newsletter.mjs:293 | blanks in front do not change the trimmed text |
| Recipients.TrimEach | newsletter.mjs:293 | `.map(trim)` keeps the length and trims each piece in place |
| Recipients.NonEmpty | newsletter.mjs:293 | `.filter(Boolean)` keeps only non-empty pieces, each from the input |
| Recipients.RecipientsAreAddresses | newsletter.mjs:293 | every recipient is non-empty, trimmed and without a comma |
| Recipients.RecipientsAppend | newsletter.mjs:293 | a comma separates the recipients before it from those after it, in order |
| Recipients.OnePiece | newsletter.mjs:293 | a text without a comma names its trimmed self, or nobody when it is blank |
| Recipients.LeadingBlank | newsletter.mjs:293 | a blank in front of the list changes nothing |
| Recipients.RecipientsOfJoin | newsletter.mjs:293 | addresses joined with commas are read back as the same list |
| Recipients.RecipientsOfToField | newsletter.mjs:293-298 | reading the `to` field `join(", ")` as a recipient list gives the list back |
| Text.Split | newsletter.mjs:293 | `split(",")` gives at least one piece, none holding a comma |
| Text.JoinSplit | newsletter.mjs:293 | joining the pieces of a split with the separator gives the text back |
| Text.SplitJoin | newsletter.mjs:293 | splitting a join of pieces without the separator gives the pieces back |

## Left out

- Exact CSS: every `style` attribute is a short constant. It keeps the substrings later passes
  look for: `font-family:Georgia` in top-level items, paragraphs, bold text and links, and
  `border-left` in nested items. Tag names, other attributes, symbols, labels and the banner's
  line layout are exact.
- Document.RenderDocument: covers briefings without inline markup (no `*`, `[` or `<` in the
  text) with only `\n` as line break. The inline passes are characterised separately, pass by
  pass, and `Ordering.InlineBadge` composes them for badges. `BadgeLines.BadgeLineRender` and
  `BadgeLines.NestedBadgeRender` follow a badge through the whole pipeline on one line of
  otherwise plain text, with white space in the badge that stays on the line.
- Ordering.CaptionEmphasised: shows the bold pass on the anchor the link pass emits, not the
  whole inline pipeline on a link.
- Recipients.NonEmpty: states that every kept piece is non-empty and comes from the input, not
  that the input order is kept. The order follows from `Recipients.RecipientsAppend`.
- `fetchBriefing` (newsletter.mjs:100-121) is not part of this model: a network call to a foreign
  API.
- The SMTP transport and `sendMail` (newsletter.mjs:283-304) are I/O. Only the recipient
  expression and its `join` are modelled.
- The date helpers and the subject line (newsletter.mjs:20-25, 294) depend on the clock and on
  locale formatting.
- `renderEmail` (newsletter.mjs:205-279) is fixed HTML around the body, with no logic.
- The prompt text, the reading of configuration, console output and the process exit
  (newsletter.mjs:6-17, 28-97, 308-316) are configuration and plumbing.
- UTF-16: strings are sequences of Unicode scalar values. No pattern of the script treats a
  surrogate half specially.
