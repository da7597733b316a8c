/** What `markdownToHTML` (newsletter.mjs:124-202) makes of a briefing written line by line in the
    Markdown the script knows: headings of three levels, rules, top-level and nested items,
    prose and blank lines, with nothing for the inline passes to rewrite. The whole pipeline of
    twenty passes comes down to the list layout of the entries followed by one rule per line:
    lines that start with `<` stay, blank lines vanish and every other line becomes a
    paragraph. */
module Document {
  import opened Text
  import opened Markup
  import opened Lines
  import opened LinePasses
  import opened Emphasis
  import opened Badges
  import opened Links
  import opened Lists
  import opened ListLayout
  import opened Cleanup
  import opened Newsletter

  /** One line of a briefing, by the pass that claims it. */
  datatype Block =
    | Title(t: string)        // `# t`
    | Section(t: string)      // `## t`
    | Subsection(t: string)   // `### t`
    | Divider                 // `---`
    | Bullet(x: string)       // `- x`
    | SubBullet(x: string)    // `  - x`
    | Prose(t: string)        // a line that no line pass rewrites
    | Blank(ws: string)       // white space only

  /** A line no heading, rule or item pass of the script rewrites. */
  predicate Unclaimed(l: string) {
    && H1Line(l) == l && BannerLine(l) == l && H3Line(l) == l
    && RuleLine(l) == l && NestedItemLine(l) == l && TopItemLine(l) == l
  }

  predicate GoodBlock(b: Block) {
    match b
    case Title(t) => PlainText(t) && t != []
    case Section(t) => PlainText(t) && t != []
    case Subsection(t) => PlainText(t) && t != []
    case Divider => true
    case Bullet(x) => PlainText(x) && x != []
    case SubBullet(x) => PlainText(x) && x != []
    case Prose(t) => PlainText(t) && !AllSpace(t) && Unclaimed(t)
    case Blank(ws) => LineFree(ws) && AllSpace(ws)
  }

  predicate GoodDocument(d: seq<Block>) {
    d != [] && forall i :: 0 <= i < |d| ==> GoodBlock(d[i])
  }

  function SourceLine(b: Block): string {
    match b
    case Title(t) => "# " + t
    case Section(t) => "## " + t
    case Subsection(t) => "### " + t
    case Divider => "---"
    case Bullet(x) => "- " + x
    case SubBullet(x) => "  - " + x
    case Prose(t) => t
    case Blank(ws) => ws
  }

  function SourceLines(d: seq<Block>): (r: seq<string>)
    ensures |r| == |d| && forall i :: 0 <= i < |d| ==> r[i] == SourceLine(d[i])
  {
    if d == [] then [] else [SourceLine(d[0])] + SourceLines(d[1..])
  }

  /** The Markdown of a briefing: its lines joined by line feeds. */
  function Source(d: seq<Block>): string {
    Join(SourceLines(d), '\n')
  }

  /** A block after the three heading passes. */
  function HeadPiece(b: Block): string {
    match b
    case Title(t) => H1(t)
    case Section(t) => Banner(t)
    case Subsection(t) => H3(t)
    case _ => SourceLine(b)
  }

  function HeadPieces(d: seq<Block>): (r: seq<string>)
    ensures |r| == |d| && forall i :: 0 <= i < |d| ==> r[i] == HeadPiece(d[i])
  {
    if d == [] then [] else [HeadPiece(d[0])] + HeadPieces(d[1..])
  }

  function Others(ls: seq<string>): (es: seq<Entry>)
    ensures |es| == |ls| && forall i :: 0 <= i < |ls| ==> es[i] == Other(ls[i])
  {
    if ls == [] then [] else [Other(ls[0])] + Others(ls[1..])
  }

  /** The lines of a block as the list passes find them: items, and the other lines. */
  function EntriesOf(b: Block): (es: seq<Entry>)
    ensures es != []
  {
    match b
    case Title(t) => [Other(H1(t))]
    case Section(t) => Others(BannerRows(t))
    case Subsection(t) => [Other(H3(t))]
    case Divider => [Other(Rule)]
    case Bullet(x) => [Top(x)]
    case SubBullet(x) => [Sub(x)]
    case Prose(t) => [Other(t)]
    case Blank(ws) => [Other(ws)]
  }

  function Entries(d: seq<Block>): (es: seq<Entry>)
    ensures (d == []) == (es == [])
  {
    if d == [] then [] else EntriesOf(d[0]) + Entries(d[1..])
  }

  /** A block after the rule and item passes. */
  function BlockPiece(b: Block): string {
    Join(EntryTexts(EntriesOf(b)), '\n')
  }

  function BlockPieces(d: seq<Block>): (r: seq<string>)
    ensures |r| == |d| && forall i :: 0 <= i < |d| ==> r[i] == BlockPiece(d[i])
  {
    if d == [] then [] else [BlockPiece(d[0])] + BlockPieces(d[1..])
  }

  /** What the paragraph pass and the removal of empty paragraphs make of one line. */
  function FinalLine(l: string): string {
    if l == [] || l[0] == '<' then l else if AllSpace(l) then "" else Paragraph(l)
  }

  /** Text that stays on its line and opens or closes no paragraph. */
  predicate Quiet(s: string) {
    LineFree(s) && ParagraphFree(s)
  }

  predicate QuietEntry(e: Entry) {
    match e
    case Sub(x) => Quiet(x)
    case Top(x) => Quiet(x)
    case Other(s) => Quiet(s)
  }

  // ---------------------------------------------------------------------------------------------
  // Single blocks

  lemma PrefixedLine(p: string, t: string)
    ensures StartsWith(p + t, p) && (p + t)[|p|..] == t
  {
    assert (p + t)[..|p|] == p;
  }

  lemma LineFreeAppend(a: string, b: string)
    requires LineFree(a) && LineFree(b)
    ensures LineFree(a + b)
  {
  }

  /** The three heading passes on a line of a block. */
  lemma HeadLine(b: Block)
    requires GoodBlock(b)
    ensures Headings(SourceLine(b)) == HeadPiece(b)
  {
    match b
    case Title(t) => TitleHead(t);
    case Section(t) => SectionHead(t);
    case Subsection(t) => SubsectionHead(t);
    case Divider => DividerHead();
    case Bullet(x) => MarkedHead("- ", x);
    case SubBullet(x) => MarkedHead("  - ", x);
    case Prose(t) => NoHeadingOnLine(t);
    case Blank(ws) =>
      BlankUnclaimed(ws);
      NoHeadingOnLine(ws);
  }

  lemma TitleHead(t: string)
    requires PlainText(t) && t != []
    ensures Headings("# " + t) == H1(t)
  {
    PrefixedLine("# ", t);
    LineFreeAppend("# ", t);
    H1OnLine("# " + t);
  }

  lemma SectionHead(t: string)
    requires PlainText(t) && t != []
    ensures Headings("## " + t) == Banner(t)
  {
    PrefixedLine("## ", t);
    LineFreeAppend("## ", t);
    BannerOnLine("## " + t);
  }

  lemma SubsectionHead(t: string)
    requires PlainText(t) && t != []
    ensures Headings("### " + t) == H3(t)
  {
    PrefixedLine("### ", t);
    LineFreeAppend("### ", t);
    H3OnLine("### " + t);
  }

  lemma MarkedHead(p: string, x: string)
    requires p == "- " || p == "  - "
    requires PlainText(x)
    ensures Headings(p + x) == p + x
  {
    LineFreeAppend(p, x);
    assert (p + x)[0] == p[0];
    NoHeadingOnLine(p + x);
  }

  lemma DividerHead()
    ensures Headings("---") == "---"
  {
    assert "---"[..2][0] == '-';
    NoHeadingOnLine("---");
  }

  lemma SpaceIsNoMark(c: char)
    requires IsSpace(c)
    ensures c != '#' && c != '-'
  {
  }

  /** A blank line is no heading, rule or item. */
  lemma BlankUnclaimed(ws: string)
    requires AllSpace(ws)
    ensures Unclaimed(ws)
  {
    if |ws| >= 1 {
      SpaceIsNoMark(ws[0]);
    }
    if |ws| >= 3 {
      SpaceIsNoMark(ws[2]);
    }
    Unmarked(ws);
  }

  /** A line that starts with neither `#` nor `-` and has no `-` third is no heading, rule or
      item. */
  lemma Unmarked(l: string)
    requires l == [] || (l[0] != '#' && l[0] != '-')
    requires |l| < 3 || l[2] != '-'
    ensures Unclaimed(l)
  {
    if |l| >= 2 {
      assert l[..2][0] == l[0];
    }
    if |l| >= 4 {
      assert l[..4][2] == l[2];
    }
  }

  // ---------------------------------------------------------------------------------------------
  // Tags that stay quiet

  lemma CalmIsQuiet(s: string)
    requires Calm(s)
    ensures Quiet(s)
  {
  }

  lemma QuietAppend(a: string, b: string)
    requires Quiet(a) && Quiet(b)
    ensures Quiet(a + b)
  {
    NoOpenTagAppend(a, b, 'p');
    NoCloseTagAppend(a, b, 'p');
  }

  /** An item tag opens no paragraph. */
  lemma LiQuiet(style: string)
    requires Bland(style)
    ensures Quiet(Open("li", style)) && Quiet(Close("li"))
  {
    StyleNameBland();
    AttrBland("style", style);
    BlandIsPlain(Attr("style", style));
    var body := "li" + Attr("style", style) + ">";
    assert Open("li", style) == "<" + body;
    TagStart(body, 'p');
    TagStart("/li>", 'p');
    assert Close("li") == "<" + "/li>";
  }

  lemma RuleQuiet()
    ensures Quiet(Rule) && Inert(Rule) && Rule[0] == '<'
  {
    StyleNameBland();
    AttrBland("style", RuleStyle);
    BlandIsPlain(Attr("style", RuleStyle));
    var body := "hr" + Attr("style", RuleStyle) + "/>";
    assert Rule == "<" + body;
    TagStart(body, 'p');
    TagStart(body, 'l');
  }

  lemma ListTagsQuiet()
    ensures Quiet(NestedListOpen) && Quiet(TopListOpen) && Quiet(ListClose)
  {
    assert Bland("ul") && Bland(NestedListStyle) && Bland(TopListStyle);
    OpenCalm("ul", NestedListStyle);
    OpenCalm("ul", TopListStyle);
  }

  /** Items of quiet text are quiet and start with `<`. */
  lemma ItemQuiet(style: string, x: string)
    requires Bland(style) && Quiet(x)
    ensures Quiet(Item(style, x)) && Item(style, x)[0] == '<'
  {
    LiQuiet(style);
    QuietAppend(Open("li", style), x);
    QuietAppend(Open("li", style) + x, Close("li"));
  }

  lemma ItemsQuiet(x: string)
    requires Quiet(x)
    ensures Quiet(NestedItem(x)) && NestedItem(x)[0] == '<'
    ensures Quiet(TopItem(x)) && TopItem(x)[0] == '<'
  {
    assert Bland(NestedItemStyle) && Bland(SerifStyle);
    ItemQuiet(NestedItemStyle, x);
    ItemQuiet(SerifStyle, x);
  }

  // ---------------------------------------------------------------------------------------------
  // The rule and item passes on single blocks

  /** The rule pass and the two item passes on one line. */
  lemma LineBlocks(l: string, a: string, b: string, c: string)
    requires LineFree(l) && LineFree(a) && LineFree(b)
    requires RuleLine(l) == a && NestedItemLine(a) == b && TopItemLine(b) == c
    ensures Blocks(l) == c
  {
    MapLinesOneLine(RuleLine, l);
    MapLinesOneLine(NestedItemLine, a);
    MapLinesOneLine(TopItemLine, b);
  }

  /** A line that starts with `<` goes through the rule and item passes unchanged. */
  lemma TagBlocks(l: string)
    requires LineFree(l) && l != [] && l[0] == '<'
    ensures Blocks(l) == l
  {
    TagLineKept(l);
    LineBlocks(l, l, l, l);
  }

  lemma UnclaimedBlocks(l: string)
    requires LineFree(l) && Unclaimed(l)
    ensures Blocks(l) == l
  {
    LineBlocks(l, l, l, l);
  }

  lemma DividerBlocks()
    ensures Blocks("---") == Rule
  {
    RuleQuiet();
    TagLineKept(Rule);
    LineBlocks("---", Rule, Rule, Rule);
  }

  lemma BulletBlocks(x: string)
    requires PlainText(x) && x != []
    ensures Blocks("- " + x) == TopItem(x)
  {
    var l := "- " + x;
    PrefixedLine("- ", x);
    LineFreeAppend("- ", x);
    assert l[0] == '-' && l[1] == ' ';
    ItemsQuiet(x);
    LineBlocks(l, l, l, TopItem(x));
  }

  lemma SubBulletBlocks(x: string)
    requires Quiet(x) && x != []
    ensures Blocks("  - " + x) == NestedItem(x)
  {
    var l := "  - " + x;
    PrefixedLine("  - ", x);
    LineFreeAppend("  - ", x);
    assert l[0] == ' ' && |l| > 3;
    ItemsQuiet(x);
    TagLineKept(NestedItem(x));
    LineBlocks(l, l, NestedItem(x), NestedItem(x));
  }

  /** No line of a banner is a rule or an item. */
  lemma BannerBlocks(t: string)
    requires PlainText(t)
    ensures Blocks(Banner(t)) == Banner(t)
  {
    var rows := BannerRows(t);
    BannerRowsLineFree(t);
    BannerRowsKept(t);
    KeptLines(RuleLine, rows);
    KeptLines(NestedItemLine, rows);
    KeptLines(TopItemLine, rows);
  }

  /** A line pass that keeps each of some single lines keeps them joined. */
  lemma KeptLines(f: string -> string, ls: seq<string>)
    requires |ls| >= 1
    requires forall i :: 0 <= i < |ls| ==> LineFree(ls[i]) && f(ls[i]) == ls[i]
    ensures MapLines(f, Join(ls, '\n')) == Join(ls, '\n')
  {
    MapLinesJoinLines(f, ls);
    assert Each(f, ls) == ls;
  }

  lemma BannerRowsKept(t: string)
    ensures forall i :: 0 <= i < 7 ==> var row := BannerRows(t)[i];
      RuleLine(row) == row && NestedItemLine(row) == row && TopItemLine(row) == row
  {
    var rows := BannerRows(t);
    BannerRowsStart(t);
    BannerRowsIndent(t);
    forall i | 0 <= i < 7
      ensures RuleLine(rows[i]) == rows[i] && NestedItemLine(rows[i]) == rows[i]
        && TopItemLine(rows[i]) == rows[i]
    {
      if i == 0 {
        TagLineKept(rows[i]);
      } else {
        IndentedKept(rows[i]);
      }
    }
  }

  /** A line indented by a space, with a space third, is no rule and no item. */
  lemma IndentedKept(l: string)
    requires |l| >= 4 && l[0] == ' ' && l[2] == ' '
    ensures RuleLine(l) == l && NestedItemLine(l) == l && TopItemLine(l) == l
  {
    assert l[..4][2] == ' ' && l[..2][0] == ' ';
  }

  /** The banner lines after the first are indented by at least four spaces. */
  lemma BannerRowsIndent(t: string)
    ensures forall i :: 1 <= i < 7 ==> |BannerRows(t)[i]| >= 4 && BannerRows(t)[i][2] == ' '
  {
  }

  lemma OthersTexts(ls: seq<string>)
    ensures EntryTexts(Others(ls)) == ls
  {
  }

  /** The rule and item passes on a block after the heading passes. */
  lemma BlockLine(b: Block)
    requires GoodBlock(b)
    ensures Blocks(HeadPiece(b)) == BlockPiece(b)
  {
    match b
    case Title(t) =>
      HeadingsLineFree(t);
      TagBlocks(H1(t));
    case Section(t) =>
      BannerBlocks(t);
      OthersTexts(BannerRows(t));
    case Subsection(t) =>
      HeadingsLineFree(t);
      TagBlocks(H3(t));
    case Divider => DividerBlocks();
    case Bullet(x) => BulletBlocks(x);
    case SubBullet(x) => SubBulletBlocks(x);
    case Prose(t) => UnclaimedBlocks(t);
    case Blank(ws) =>
      BlankUnclaimed(ws);
      UnclaimedBlocks(ws);
  }

  // ---------------------------------------------------------------------------------------------
  // What each block brings to the later stages

  lemma BlankPlain(ws: string)
    requires LineFree(ws) && AllSpace(ws)
    ensures PlainText(ws)
  {
    forall k | 0 <= k < |ws| ensures ws[k] != '*' && ws[k] != '[' && ws[k] != '<' {
      assert IsSpace(ws[k]);
    }
  }

  /** A block leaves no `*` and no `[` for the inline passes. */
  lemma HeadLacks(b: Block)
    requires GoodBlock(b)
    ensures '*' !in HeadPiece(b) && '[' !in HeadPiece(b)
  {
    match b
    case Title(t) =>
      PlainIsCalm(t);
      HeadingsCalm(t);
    case Section(t) =>
      PlainIsCalm(t);
      BannerRowsCalm(t);
      JoinLacks(BannerRows(t), '*');
      JoinLacks(BannerRows(t), '[');
    case Subsection(t) =>
      PlainIsCalm(t);
      HeadingsCalm(t);
    case Divider =>
    case Bullet(x) =>
    case SubBullet(x) =>
    case Prose(t) =>
    case Blank(ws) => BlankPlain(ws);
  }

  lemma {:induction false} JoinLacks(ls: seq<string>, c: char)
    requires c != '\n'
    requires forall i :: 0 <= i < |ls| ==> c !in ls[i]
    ensures c !in Join(ls, '\n')
    decreases |ls|
  {
    if |ls| > 1 {
      JoinLacks(ls[1..], c);
    }
  }

  /** Every entry for the list passes. */
  predicate AllGood(es: seq<Entry>) {
    forall i :: 0 <= i < |es| ==> GoodEntry(es[i]) && QuietEntry(es[i])
  }

  lemma OthersGood(ls: seq<string>)
    requires forall i :: 0 <= i < |ls| ==> Calm(ls[i])
    ensures AllGood(Others(ls))
  {
  }

  lemma EntriesOfGood(b: Block)
    requires GoodBlock(b)
    ensures AllGood(EntriesOf(b))
  {
    match b
    case Title(t) =>
      PlainIsCalm(t);
      HeadingsCalm(t);
    case Section(t) =>
      PlainIsCalm(t);
      BannerRowsCalm(t);
      OthersGood(BannerRows(t));
    case Subsection(t) =>
      PlainIsCalm(t);
      HeadingsCalm(t);
    case Divider => RuleQuiet();
    case Bullet(x) =>
    case SubBullet(x) =>
    case Prose(t) =>
    case Blank(ws) => BlankPlain(ws);
  }

  // ---------------------------------------------------------------------------------------------
  // The stages on a whole briefing

  /** Three line passes over pieces joined by line feeds, when each piece comes out as given. */
  lemma ThreePasses(f: string -> string, g: string -> string, h: string -> string,
                    ms: seq<string>, ns: seq<string>)
    requires |ms| >= 1 && |ns| == |ms|
    requires forall i :: 0 <= i < |ms| ==> MapLines(h, MapLines(g, MapLines(f, ms[i]))) == ns[i]
    ensures MapLines(h, MapLines(g, MapLines(f, Join(ms, '\n')))) == Join(ns, '\n')
  {
    var m1 := Each(s => MapLines(f, s), ms);
    MapLinesJoin(f, ms);
    var m2 := Each(s => MapLines(g, s), m1);
    MapLinesJoin(g, m1);
    MapLinesJoin(h, m2);
    assert Each(s => MapLines(h, s), m2) == ns;
  }

  lemma SourceHeadings(d: seq<Block>)
    requires GoodDocument(d)
    ensures Headings(Source(d)) == Join(HeadPieces(d), '\n')
  {
    forall i | 0 <= i < |d| ensures Headings(SourceLine(d[i])) == HeadPiece(d[i]) {
      HeadLine(d[i]);
    }
    ThreePasses(H1Line, BannerLine, H3Line, SourceLines(d), HeadPieces(d));
  }

  lemma HeadsLack(d: seq<Block>)
    requires GoodDocument(d)
    ensures '*' !in Join(HeadPieces(d), '\n') && '[' !in Join(HeadPieces(d), '\n')
  {
    forall i | 0 <= i < |d| ensures '*' !in HeadPieces(d)[i] && '[' !in HeadPieces(d)[i] {
      HeadLacks(d[i]);
    }
    JoinLacks(HeadPieces(d), '*');
    JoinLacks(HeadPieces(d), '[');
  }

  lemma PiecesBlocks(d: seq<Block>)
    requires GoodDocument(d)
    ensures Blocks(Join(HeadPieces(d), '\n')) == Join(BlockPieces(d), '\n')
  {
    forall i | 0 <= i < |d| ensures Blocks(HeadPieces(d)[i]) == BlockPiece(d[i]) {
      BlockLine(d[i]);
    }
    ThreePasses(RuleLine, NestedItemLine, TopItemLine, HeadPieces(d), BlockPieces(d));
  }

  lemma {:induction false} EntryTextsAppend(xs: seq<Entry>, ys: seq<Entry>)
    ensures EntryTexts(xs + ys) == EntryTexts(xs) + EntryTexts(ys)
  {
    var l := EntryTexts(xs + ys);
    var r := EntryTexts(xs) + EntryTexts(ys);
    forall i | 0 <= i < |l| ensures l[i] == r[i] {
      if i < |xs| {
        assert (xs + ys)[i] == xs[i];
      } else {
        assert (xs + ys)[i] == ys[i - |xs|];
      }
    }
  }

  /** The pieces of the blocks, joined, are the lines of all entries, joined. */
  lemma {:induction false} Flatten(d: seq<Block>)
    requires d != []
    ensures Join(BlockPieces(d), '\n') == Join(EntryTexts(Entries(d)), '\n')
    decreases |d|
  {
    var head := EntryTexts(EntriesOf(d[0]));
    EntryTextsAppend(EntriesOf(d[0]), Entries(d[1..]));
    if |d| == 1 {
      assert Entries(d) == EntriesOf(d[0]);
    } else {
      Flatten(d[1..]);
      JoinAppend(head, EntryTexts(Entries(d[1..])), '\n');
    }
  }

  lemma AllGoodAppend(xs: seq<Entry>, ys: seq<Entry>)
    requires AllGood(xs) && AllGood(ys)
    ensures AllGood(xs + ys)
  {
  }

  lemma {:induction false} EntriesGood(d: seq<Block>)
    requires forall i :: 0 <= i < |d| ==> GoodBlock(d[i])
    ensures AllGood(Entries(d))
    decreases |d|
  {
    if d != [] {
      EntriesOfGood(d[0]);
      EntriesGood(d[1..]);
      AllGoodAppend(EntriesOf(d[0]), Entries(d[1..]));
    }
  }

  /** Every line the list passes leave is quiet. */
  lemma ListedLineQuiet(c: Context, e: Entry, last: bool)
    requires QuietEntry(e)
    ensures Quiet(ListedLine(c, e, last))
  {
    ListTagsQuiet();
    match e
    case Sub(x) =>
      ItemsQuiet(x);
      var a := if c == InTop then ListClose else "";
      var b := if c != InNested then NestedListOpen else "";
      var z := if last then ListClose else "";
      QuietAppend(a, b);
      QuietAppend(a + b, NestedItem(x));
      QuietAppend(a + b + NestedItem(x), z);
    case Top(x) =>
      ItemsQuiet(x);
      var a := if c == InNested then ListClose else "";
      var b := if c != InTop then TopListOpen else "";
      var z := if last then ListClose else "";
      QuietAppend(a, b);
      QuietAppend(a + b, TopItem(x));
      QuietAppend(a + b + TopItem(x), z);
    case Other(s) =>
      QuietAppend(if c != Outside then ListClose else "", s);
  }

  lemma {:induction false} ListedQuiet(c: Context, es: seq<Entry>)
    requires AllGood(es)
    ensures forall i :: 0 <= i < |es| ==> Quiet(Listed(c, es)[i])
    decreases |es|
  {
    if es != [] {
      ListedLineQuiet(c, es[0], |es| == 1);
      ListedQuiet(After(es[0]), es[1..]);
    }
  }

  /** The paragraph pass and the removal of empty paragraphs on one quiet line, in front of the
      rest of the text. */
  lemma LineCleaned(l: string, rest: string)
    requires Quiet(l)
    ensures CleanPass(ParagraphLine(l) + rest) == FinalLine(l) + CleanPass(rest)
  {
    if l == [] {
      assert ParagraphLine(l) + rest == rest;
    } else if l[0] == '<' {
      ScanUnopened(l, rest);
    } else if AllSpace(l) {
      BlankParagraphRemoved(l, rest);
    } else {
      FilledParagraphKept(l, rest);
    }
  }

  lemma EachTail(f: string -> string, ls: seq<string>)
    requires |ls| >= 1
    ensures Each(f, ls)[1..] == Each(f, ls[1..])
  {
  }

  lemma {:induction false} CleanLines(ls: seq<string>)
    requires |ls| >= 1
    requires forall i :: 0 <= i < |ls| ==> Quiet(ls[i])
    ensures CleanPass(Join(Each(ParagraphLine, ls), '\n')) == Join(Each(FinalLine, ls), '\n')
    decreases |ls|
  {
    if |ls| == 1 {
      LineCleaned(ls[0], "");
      assert ParagraphLine(ls[0]) + "" == ParagraphLine(ls[0]);
    } else {
      CleanStep(ls, Join(Each(ParagraphLine, ls[1..]), '\n'));
      EachTail(ParagraphLine, ls);
      EachTail(FinalLine, ls);
      CleanLines(ls[1..]);
    }
  }

  lemma CleanStep(ls: seq<string>, r: string)
    requires |ls| >= 2 && Quiet(ls[0])
    requires r == Join(Each(ParagraphLine, ls[1..]), '\n')
    ensures CleanPass(Join(Each(ParagraphLine, ls), '\n')) == FinalLine(ls[0]) + "\n" + CleanPass(r)
  {
    EachTail(ParagraphLine, ls);
    assert Join(Each(ParagraphLine, ls), '\n') == ParagraphLine(ls[0]) + ("\n" + r);
    LineCleaned(ls[0], "\n" + r);
    ScanUnopened("\n", r);
  }

  lemma FinishLines(ls: seq<string>)
    requires |ls| >= 1
    requires forall i :: 0 <= i < |ls| ==> Quiet(ls[i])
    ensures Finish(Join(ls, '\n')) == Join(Each(FinalLine, ls), '\n')
  {
    MapLinesJoinLines(ParagraphLine, ls);
    CleanLines(ls);
  }

  /** What `markdownToHTML` makes of a briefing: its entries laid out in lists, and each line
      then kept if it starts with `<`, dropped if it is blank and otherwise made a paragraph. */
  lemma RenderDocument(d: seq<Block>)
    requires GoodDocument(d)
    ensures Render(Source(d)) == Join(Each(FinalLine, Listed(Outside, Entries(d))), '\n')
  {
    var es := Entries(d);
    SourceHeadings(d);
    HeadsLack(d);
    PlainInline(Join(HeadPieces(d), '\n'));
    PiecesBlocks(d);
    Flatten(d);
    EntriesGood(d);
    ListPasses(es);
    ListedQuiet(Outside, es);
    FinishLines(Listed(Outside, es));
  }

  // ---------------------------------------------------------------------------------------------
  // Consequences

  /** A paragraph, a blank line and a kept tag line are each single lines. */
  lemma FinalLineShape(l: string)
    requires Quiet(l)
    ensures LineFree(FinalLine(l))
    ensures FinalLine(l) == [] || FinalLine(l)[0] == '<'
  {
    if l != [] && l[0] != '<' && !AllSpace(l) {
      assert Bland(SerifStyle);
      StyleNameBland();
      AttrBland("style", SerifStyle);
      assert Bland("p");
      OpenCalm("q", SerifStyle);
      ParagraphLineFree(l);
    }
  }

  lemma ParagraphLineFree(l: string)
    requires LineFree(l)
    ensures LineFree(Paragraph(l)) && Paragraph(l)[0] == '<'
  {
    StyleNameBland();
    AttrBland("style", SerifStyle);
    BlandIsPlain(Attr("style", SerifStyle));
  }

  /** Every line of the HTML of a briefing is empty or starts with a tag. */
  lemma EveryLineTagged(d: seq<Block>)
    requires GoodDocument(d)
    ensures forall l :: l in Split(Render(Source(d)), '\n') ==> l == [] || l[0] == '<'
  {
    var ls := Listed(Outside, Entries(d));
    RenderDocument(d);
    EntriesGood(d);
    ListedQuiet(Outside, Entries(d));
    forall i | 0 <= i < |ls|
      ensures LineFree(Each(FinalLine, ls)[i])
      ensures Each(FinalLine, ls)[i] == [] || Each(FinalLine, ls)[i][0] == '<'
    {
      FinalLineShape(ls[i]);
    }
    SplitJoin(Each(FinalLine, ls), '\n');
  }

  /** A briefing of one line. */
  lemma OneBlock(b: Block)
    requires GoodBlock(b)
    ensures Render(SourceLine(b)) == Join(Each(FinalLine, Listed(Outside, EntriesOf(b))), '\n')
  {
    RenderDocument([b]);
    SingleBlock(b);
  }

  lemma SingleBlock(b: Block)
    ensures Source([b]) == SourceLine(b) && Entries([b]) == EntriesOf(b)
  {
    assert Entries([b]) == EntriesOf(b) + [];
  }

  /** A line that is no item, alone. */
  lemma OtherAlone(l: string)
    ensures Join(Each(FinalLine, Listed(Outside, [Other(l)])), '\n') == FinalLine(l)
  {
    assert ListedLine(Outside, Other(l), true) == "" + l == l;
    assert Listed(Outside, [Other(l)]) == [l];
    assert Each(FinalLine, [l]) == [FinalLine(l)];
  }

  /** A line that starts with a tag, alone. */
  lemma TagAlone(l: string)
    requires l != [] && l[0] == '<'
    ensures Join(Each(FinalLine, [l]), '\n') == l
  {
    assert Each(FinalLine, [l]) == [l];
  }

  /** A line of prose becomes a paragraph. */
  lemma ProseParagraph(t: string)
    requires PlainText(t) && !AllSpace(t) && Unclaimed(t)
    ensures Render(t) == Paragraph(t)
  {
    OneBlock(Prose(t));
    OtherAlone(t);
  }

  /** A blank line leaves nothing. */
  lemma BlankVanishes(ws: string)
    requires LineFree(ws) && AllSpace(ws)
    ensures Render(ws) == ""
  {
    OneBlock(Blank(ws));
    OtherAlone(ws);
    BlankFinal(ws);
  }

  lemma BlankFinal(ws: string)
    requires AllSpace(ws)
    ensures FinalLine(ws) == ""
  {
    if ws != [] {
      assert IsSpace(ws[0]);
    }
  }

  lemma TitleHeading(t: string)
    requires PlainText(t) && t != []
    ensures Render("# " + t) == H1(t)
  {
    OneBlock(Title(t));
    OtherAlone(H1(t));
  }

  lemma SubsectionHeading(t: string)
    requires PlainText(t) && t != []
    ensures Render("### " + t) == H3(t)
  {
    OneBlock(Subsection(t));
    OtherAlone(H3(t));
  }

  lemma DividerRule()
    ensures Render("---") == Rule
  {
    OneBlock(Divider);
    OtherAlone(Rule);
    RuleQuiet();
  }

  lemma BulletAlone(x: string)
    ensures Join(Each(FinalLine, Listed(Outside, [Top(x)])), '\n') == TopListOpen + TopItem(x) + ListClose
  {
    var l := TopListOpen + TopItem(x) + ListClose;
    LoneTopLine(x);
    assert Listed(Outside, [Top(x)]) == [l];
    assert l[0] == TopListOpen[0] == '<';
    TagAlone(l);
  }

  lemma LoneTopLine(x: string)
    ensures ListedLine(Outside, Top(x), true) == TopListOpen + TopItem(x) + ListClose
  {
    assert "" + TopListOpen == TopListOpen;
  }

  /** A single item becomes a list of one item. */
  lemma BulletList(x: string)
    requires PlainText(x) && x != []
    ensures Render("- " + x) == TopListOpen + TopItem(x) + ListClose
  {
    OneBlock(Bullet(x));
    BulletAlone(x);
  }

  lemma BannerLines(t: string)
    ensures Join(Each(FinalLine, Listed(Outside, Others(BannerRows(t)))), '\n')
      == Join([BannerRows(t)[0]] + Each(Paragraph, BannerRows(t)[1..]), '\n')
  {
    var rows := BannerRows(t);
    ListedPlain(Others(rows));
    OthersTexts(rows);
    RowsFinal(t);
  }

  lemma RowsFinal(t: string)
    ensures Each(FinalLine, BannerRows(t)) == [BannerRows(t)[0]] + Each(Paragraph, BannerRows(t)[1..])
  {
    var rows := BannerRows(t);
    var r := [rows[0]] + Each(Paragraph, rows[1..]);
    BannerRowsStart(t);
    forall i | 0 <= i < 7 ensures FinalLine(rows[i]) == r[i] {
      if i > 0 {
        RowFinal(t, i);
      }
    }
  }

  lemma RowFinal(t: string, i: nat)
    requires 1 <= i < 7
    ensures FinalLine(BannerRows(t)[i]) == Paragraph(BannerRows(t)[i])
  {
    BannerRowsStart(t);
    NotBlank(BannerRows(t)[i]);
  }

  lemma NotBlank(l: string)
    requires l != [] && l[|l| - 1] == '>'
    ensures !AllSpace(l)
  {
  }

  /** The banner of a level-2 heading keeps its first line, but each of its six indented lines
      is then wrapped in a paragraph of its own, since the paragraph pass sees a line that does
      not start with `<`. */
  lemma SectionRowsWrapped(t: string)
    requires PlainText(t) && t != []
    ensures Render("## " + t) == Join([BannerRows(t)[0]] + Each(Paragraph, BannerRows(t)[1..]), '\n')
  {
    OneBlock(Section(t));
    BannerLines(t);
  }

  lemma TwoBlocks(x: string, t: string)
    ensures Source([Bullet(x), Prose(t)]) == "- " + x + "\n" + t
    ensures Entries([Bullet(x), Prose(t)]) == [Top(x), Other(t)]
  {
    var d := [Bullet(x), Prose(t)];
    assert d[1..] == [Prose(t)];
    assert SourceLines(d) == ["- " + x, t];
    assert Join(SourceLines(d), '\n') == "- " + x + "\n" + Join([t], '\n');
    assert Entries(d[1..]) == [Other(t)];
  }

  lemma AfterListLines(x: string, t: string)
    ensures Join(Each(FinalLine, Listed(Outside, [Top(x), Other(t)])), '\n')
      == TopListOpen + TopItem(x) + "\n" + ListClose + t
  {
    var es := [Top(x), Other(t)];
    assert es[1..] == [Other(t)];
    var ls := [TopListOpen + TopItem(x), ListClose + t];
    assert ListedLine(Outside, Top(x), false) == "" + TopListOpen + TopItem(x) + "" == ls[0];
    assert ListedLine(InTop, Other(t), true) == ls[1];
    assert Listed(Outside, es) == ls;
    assert ls[0][0] == TopListOpen[0] == '<' && ls[1][0] == ListClose[0] == '<';
    assert Each(FinalLine, ls) == ls;
    assert Join(ls, '\n') == ls[0] + "\n" + Join([ls[1]], '\n');
  }

  /** A line of prose right after an item is not made a paragraph: the closing tag of the list
      lands at its start, and the paragraph pass leaves lines that start with `<` alone. */
  lemma TextAfterList(x: string, t: string)
    requires PlainText(x) && x != []
    requires PlainText(t) && !AllSpace(t) && Unclaimed(t)
    ensures Render("- " + x + "\n" + t) == TopListOpen + TopItem(x) + "\n" + ListClose + t
  {
    RenderDocument([Bullet(x), Prose(t)]);
    TwoBlocks(x, t);
    AfterListLines(x, t);
  }
}
