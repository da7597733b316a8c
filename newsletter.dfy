/** `markdownToHTML` (newsletter.mjs:124-202): the briefing's Markdown is rewritten by twenty
    regular-expression replacements, one pass after the other, each over the whole text the
    passes before it left. */
module Newsletter {
  import opened Text
  import opened Markup
  import opened LinePasses
  import opened Emphasis
  import opened Badges
  import opened Links
  import opened Lists
  import opened Cleanup

  /** The three heading passes (newsletter.mjs:128-141). */
  function Headings(s: string): string {
    H3Pass(BannerPass(H1Pass(s)))
  }

  /** Bold italic, the six badges, links, bold and italic (newsletter.mjs:144-171). */
  function Inline(s: string): string {
    EmphasisPass(Italic, EmphasisPass(Bold, LinkPass(Badges.Badges(EmphasisPass(BoldItalic, s)))))
  }

  /** Text without `*` and `[` goes through every inline pass unchanged. */
  lemma PlainInline(s: string)
    requires '*' !in s && '[' !in s
    ensures Inline(s) == s
  {
    Emphasis.NoStarUnchanged(BoldItalic, s);
    Badges.NoStarUnchanged(ItalicLead, High, s);
    Badges.NoStarUnchanged(ItalicLead, Medium, s);
    Badges.NoStarUnchanged(ItalicLead, Low, s);
    Badges.NoStarUnchanged(BoldLead, High, s);
    Badges.NoStarUnchanged(BoldLead, Medium, s);
    Badges.NoStarUnchanged(BoldLead, Low, s);
    NoBracketUnchanged(s);
    Emphasis.NoStarUnchanged(Bold, s);
    Emphasis.NoStarUnchanged(Italic, s);
  }

  /** Rules and the two item passes (newsletter.mjs:174-184). */
  function Blocks(s: string): string {
    TopItemPass(NestedItemPass(RulePass(s)))
  }

  /** The two list passes (newsletter.mjs:187-192). */
  function ListsOf(s: string): string {
    TopListPass(NestedListPass(s))
  }

  /** Paragraphs and the removal of empty ones (newsletter.mjs:195-199). */
  function Finish(s: string): string {
    CleanPass(ParagraphPass(s))
  }

  /** The HTML `markdownToHTML` returns for `md`. */
  function Render(md: string): string {
    Finish(ListsOf(Blocks(Inline(Headings(md)))))
  }

  /** `markdownToHTML` as the script writes it: `h` is reassigned by each pass in turn. */
  method MarkdownToHtml(md: string) returns (h: string)
    ensures h == Render(md)
  {
    h := md;
    h := H1Pass(h);
    h := BannerPass(h);
    h := H3Pass(h);
    h := EmphasisPass(BoldItalic, h);
    h := BadgePass(ItalicLead, High, h);
    h := BadgePass(ItalicLead, Medium, h);
    h := BadgePass(ItalicLead, Low, h);
    h := BadgePass(BoldLead, High, h);
    h := BadgePass(BoldLead, Medium, h);
    h := BadgePass(BoldLead, Low, h);
    h := LinkPass(h);
    h := EmphasisPass(Bold, h);
    h := EmphasisPass(Italic, h);
    h := RulePass(h);
    h := NestedItemPass(h);
    h := TopItemPass(h);
    h := NestedListPass(h);
    h := TopListPass(h);
    h := ParagraphPass(h);
    h := CleanPass(h);
  }
}
