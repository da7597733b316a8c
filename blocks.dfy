/** The line-anchored passes of `markdownToHTML`: headings (newsletter.mjs:128-141), rules and
    list items (newsletter.mjs:174-184) and paragraphs (newsletter.mjs:195-196). Each pattern has
    the shape `/^marker(.+)$/gm`; `.` does not match a line terminator, so each pass rewrites whole
    lines one by one, and a line is rewritten when it starts with the marker and has at least one
    more character. */
module LinePasses {
  import opened Text
  import opened Markup
  import opened Lines

  /** `/^# (.+)$/gm`. */
  function H1Line(l: string): (r: string)
    ensures r != l <==> StartsWith(l, "# ") && |l| > 2
    ensures r != l ==> r == H1(l[2..])
  {
    if StartsWith(l, "# ") && |l| > 2 then H1(l[2..]) else l
  }

  /** `/^## (.+)$/gm`: the line becomes the seven-line section banner. */
  function BannerLine(l: string): (r: string)
    ensures r != l <==> StartsWith(l, "## ") && |l| > 3
    ensures r != l ==> r == Banner(l[3..])
  {
    if StartsWith(l, "## ") && |l| > 3 then Banner(l[3..]) else l
  }

  /** `/^### (.+)$/gm`. */
  function H3Line(l: string): (r: string)
    ensures r != l <==> StartsWith(l, "### ") && |l| > 4
    ensures r != l ==> r == H3(l[4..])
  {
    if StartsWith(l, "### ") && |l| > 4 then H3(l[4..]) else l
  }

  /** `/^---$/gm`: only a line that is exactly three hyphens. */
  function RuleLine(l: string): (r: string)
    ensures r != l <==> l == "---"
    ensures r != l ==> r == Rule
  {
    if l == "---" then Rule else l
  }

  /** `/^  - (.+)$/gm`: a nested item, indented by two spaces. */
  function NestedItemLine(l: string): (r: string)
    ensures r != l <==> StartsWith(l, "  - ") && |l| > 4
    ensures r != l ==> r == NestedItem(l[4..])
  {
    if StartsWith(l, "  - ") && |l| > 4 then NestedItem(l[4..]) else l
  }

  /** `/^- (.+)$/gm`: a top-level item. */
  function TopItemLine(l: string): (r: string)
    ensures r != l <==> StartsWith(l, "- ") && |l| > 2
    ensures r != l ==> r == TopItem(l[2..])
  {
    if StartsWith(l, "- ") && |l| > 2 then TopItem(l[2..]) else l
  }

  /** `/^(?!<)(?!$)(.+)$/gm`: exactly the non-empty lines that do not start with `<` are wrapped. */
  function ParagraphLine(l: string): (r: string)
    ensures r == Paragraph(l) <==> l != [] && l[0] != '<'
    ensures r != Paragraph(l) ==> r == l
  {
    if l != [] && l[0] != '<' then Paragraph(l) else l
  }

  function H1Pass(s: string): string { MapLines(H1Line, s) }
  function BannerPass(s: string): string { MapLines(BannerLine, s) }
  function H3Pass(s: string): string { MapLines(H3Line, s) }
  function RulePass(s: string): string { MapLines(RuleLine, s) }
  function NestedItemPass(s: string): string { MapLines(NestedItemLine, s) }
  function TopItemPass(s: string): string { MapLines(TopItemLine, s) }
  function ParagraphPass(s: string): string { MapLines(ParagraphLine, s) }

  /** A line that does not start with `#` is no heading. */
  lemma NoHeading(l: string)
    requires l != [] && l[0] != '#'
    ensures H1Line(l) == l && BannerLine(l) == l && H3Line(l) == l
  {
  }

  /** A line that starts with `<` is no heading, no rule and no list item. */
  lemma TagLineKept(l: string)
    requires l != [] && l[0] == '<'
    ensures H1Line(l) == l && BannerLine(l) == l && H3Line(l) == l && RuleLine(l) == l
    ensures NestedItemLine(l) == l && TopItemLine(l) == l && ParagraphLine(l) == l
  {
  }

  /** The three heading passes in the script's order, on one line starting with `# `: the level-1
      heading, which the later heading passes keep. */
  lemma H1OnLine(l: string)
    requires LineFree(l) && StartsWith(l, "# ") && |l| > 2
    ensures H3Pass(BannerPass(H1Pass(l))) == H1(l[2..])
  {
    MapLinesOneLine(H1Line, l);
    var a := H1(l[2..]);
    HeadingsLineFree(l[2..]);
    TagLineKept(a);
    MapLinesOneLine(BannerLine, a);
    MapLinesOneLine(H3Line, a);
  }

  /** On a line starting with `## `: a `#` followed by `#` is no level-1 heading; the banner's
      lines are kept by the level-3 pass. */
  lemma BannerOnLine(l: string)
    requires LineFree(l) && StartsWith(l, "## ") && |l| > 3
    ensures H3Pass(BannerPass(H1Pass(l))) == Banner(l[3..])
  {
    StartsWithChars(l, "## ");
    StartsWithChars(l, "# ");
    assert l[1] == '#';
    MapLinesOneLine(H1Line, l);
    MapLinesOneLine(BannerLine, l);
    BannerLeftAlone(l[3..]);
  }

  /** On a line starting with `### `: neither of the first two levels matches. */
  lemma H3OnLine(l: string)
    requires LineFree(l) && StartsWith(l, "### ") && |l| > 4
    ensures H3Pass(BannerPass(H1Pass(l))) == H3(l[4..])
  {
    StartsWithChars(l, "### ");
    StartsWithChars(l, "## ");
    StartsWithChars(l, "# ");
    assert l[1] == '#' && l[2] == '#';
    MapLinesOneLine(H1Line, l);
    MapLinesOneLine(BannerLine, l);
    MapLinesOneLine(H3Line, l);
  }

  /** Any other line is kept by all three heading passes. */
  lemma NoHeadingOnLine(l: string)
    requires LineFree(l)
    requires !(StartsWith(l, "# ") && |l| > 2) && !(StartsWith(l, "## ") && |l| > 3)
    requires !(StartsWith(l, "### ") && |l| > 4)
    ensures H3Pass(BannerPass(H1Pass(l))) == l
  {
    MapLinesOneLine(H1Line, l);
    MapLinesOneLine(BannerLine, l);
    MapLinesOneLine(H3Line, l);
  }

  /** The level-3 pass leaves every line of a banner as it is. */
  lemma BannerLeftAlone(t: string)
    requires LineFree(t)
    ensures H3Pass(Banner(t)) == Banner(t)
  {
    var rows := BannerRows(t);
    BannerRowsLineFree(t);
    BannerRowsStart(t);
    MapLinesJoinLines(H3Line, rows);
    forall i | 0 <= i < 7 ensures H3Line(rows[i]) == rows[i] {
      NoHeading(rows[i]);
    }
    assert Each(H3Line, rows) == rows;
  }
}
