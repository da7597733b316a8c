/** What the whole of `markdownToHTML` (newsletter.mjs:124-202) makes of a line that carries a
    badge: the pill that replaces the badge stands on that line through the block, list and
    paragraph passes. A line that starts with a badge starts with the pill's `<span`, so the
    paragraph pass does not wrap it; a badge inside a nested bullet, where the briefing prompt
    puts it (newsletter.mjs:47), ends up inside the nested list item. */
module BadgeLines {
  import opened Text
  import opened Markup
  import opened Lines
  import opened LinePasses
  import opened Badges
  import opened Lists
  import opened ListLayout
  import opened Newsletter
  import opened Ordering
  import opened Document

  /** A badge whose white space stays on the line has no line terminator and starts with `*`. */
  lemma BadgeTextLineFree(f: Spelling, v: Severity, sig: string, sp: string, word: string)
    requires BadgeParts(v, sig, sp, word) && LineFree(sp)
    ensures LineFree(BadgeText(f, sig, sp, word)) && BadgeText(f, sig, sp, word)[0] == '*'
  {
    WordsBland();
    BlandIsPlain(SignalText);
    BlandIsPlain(SeverityWord(v));
    VariantLineFree(sig, SignalText);
    VariantLineFree(word, SeverityWord(v));
  }

  /** A line that does not start with `#` is no heading. */
  lemma Unheaded(l: string)
    requires LineFree(l) && l != [] && l[0] != '#'
    ensures Headings(l) == l
  {
    NoHeading(l);
    MapLinesOneLine(H1Line, l);
    MapLinesOneLine(BannerLine, l);
    MapLinesOneLine(H3Line, l);
  }

  lemma EmptyFront(x: string, b: string)
    ensures "" + x + b == x + b
  {
  }

  lemma BulletFront(a: string, x: string, b: string)
    ensures "  - " + a + x + b == "  - " + (a + x + b)
  {
  }

  /** The pipeline, pass group by pass group. */
  lemma RenderSteps(md: string, h: string, i: string, bl: string, out: string)
    requires Headings(md) == h && Inline(h) == i && Blocks(i) == bl && Finish(ListsOf(bl)) == out
    ensures Render(md) == out
  {
  }

  // ---------------------------------------------------------------------------------------------
  // The list and paragraph passes on one line

  /** A quiet line that starts with `<` leaves the paragraph passes as it is. */
  lemma TagLineFinal(l: string)
    requires Quiet(l) && l != [] && l[0] == '<'
    ensures Finish(l) == l
  {
    assert Join([l], '\n') == l;
    FinishLines([l]);
    TagAlone(l);
  }

  /** A calm line is no item and the list passes leave it as it is. */
  lemma CalmLineUnlisted(y: string)
    requires Calm(y)
    ensures ListsOf(y) == y
  {
    var es := [Other(y)];
    assert EntryTexts(es) == [y];
    assert Join([y], '\n') == y;
    NoItemsKept(es);
  }

  /** A calm line that starts with `<` is no rule and no item, no list opens around it and it is
      kept as it is. */
  lemma TagLineFinished(y: string)
    requires Calm(y) && y != [] && y[0] == '<'
    ensures Blocks(y) == y && Finish(ListsOf(y)) == y
  {
    TagBlocks(y);
    CalmLineUnlisted(y);
    CalmIsQuiet(y);
    TagLineFinal(y);
  }

  lemma OneEntryListed(c: Context, e: Entry)
    ensures Listed(c, [e]) == [ListedLine(c, e, true)]
  {
    assert [e][1..] == [];
  }

  lemma LoneNestedLine(x: string)
    ensures Listed(Outside, [Sub(x)]) == [NestedListOpen + NestedItem(x) + ListClose]
  {
    OneEntryListed(Outside, Sub(x));
    EmptyFront(NestedListOpen, NestedItem(x));
  }

  /** The list passes put a nested item alone into a nested list of its own. */
  lemma NestedItemListed(x: string)
    requires ItemContent(x)
    ensures ListsOf(NestedItem(x)) == NestedListOpen + NestedItem(x) + ListClose
  {
    var es := [Sub(x)];
    var l := NestedListOpen + NestedItem(x) + ListClose;
    assert EntryTexts(es) == [NestedItem(x)];
    assert Join([NestedItem(x)], '\n') == NestedItem(x);
    ListPasses(es);
    LoneNestedLine(x);
    assert Join([l], '\n') == l;
  }

  lemma NestedOpenStart()
    ensures NestedListOpen[0] == '<'
  {
  }

  lemma QuietThree(o: string, x: string, c: string)
    requires Quiet(o) && Quiet(x) && Quiet(c) && o != [] && o[0] == '<'
    ensures Quiet(o + x + c) && (o + x + c)[0] == '<'
  {
    QuietAppend(o, x);
    QuietAppend(o + x, c);
  }

  lemma NestedListQuiet(x: string)
    requires Quiet(x)
    ensures Quiet(NestedListOpen + NestedItem(x) + ListClose)
    ensures (NestedListOpen + NestedItem(x) + ListClose)[0] == '<'
  {
    ListTagsQuiet();
    ItemsQuiet(x);
    NestedOpenStart();
    QuietThree(NestedListOpen, NestedItem(x), ListClose);
  }

  /** A nested item alone opens a nested list, holds the item and closes the list. */
  lemma LoneNestedList(x: string)
    requires Calm(x)
    ensures Finish(ListsOf(NestedItem(x))) == NestedListOpen + NestedItem(x) + ListClose
  {
    NestedItemListed(x);
    CalmIsQuiet(x);
    NestedListQuiet(x);
    TagLineFinal(NestedListOpen + NestedItem(x) + ListClose);
  }

  // ---------------------------------------------------------------------------------------------
  // Badge lines

  /** A line that starts with a badge is no heading, and the inline passes turn the badge into
      its pill. */
  lemma LeadingBadgeInline(f: Spelling, v: Severity, sig: string, sp: string, word: string,
    b: string)
    requires BadgeParts(v, sig, sp, word) && LineFree(sp) && PlainText(b)
    ensures Headings(BadgeText(f, sig, sp, word) + b) == BadgeText(f, sig, sp, word) + b
    ensures Inline(BadgeText(f, sig, sp, word) + b) == Pill(f, v) + b
  {
    var t := BadgeText(f, sig, sp, word);
    BadgeTextLineFree(f, v, sig, sp, word);
    Unheaded(t + b);
    InlineBadge(f, v, "", sig, sp, word, b);
    EmptyFront(t, b);
    EmptyFront(Pill(f, v), b);
  }

  /** A pill followed by plain text is a calm line that starts with `<`, and so the block, list
      and paragraph passes keep it. */
  lemma PillLine(f: Spelling, v: Severity, b: string)
    requires PlainText(b)
    ensures Blocks(Pill(f, v) + b) == Pill(f, v) + b
    ensures Finish(ListsOf(Pill(f, v) + b)) == Pill(f, v) + b && (Pill(f, v) + b)[0] == '<'
  {
    PillCalm(f, v);
    CalmTagFront(Pill(f, v), b);
  }

  /** A calm tag followed by plain text goes through the block, list and paragraph passes. */
  lemma CalmTagFront(p: string, b: string)
    requires Calm(p) && p != [] && p[0] == '<' && PlainText(b)
    ensures Blocks(p + b) == p + b && Finish(ListsOf(p + b)) == p + b && (p + b)[0] == '<'
  {
    PlainIsCalm(b);
    CalmAppend(p, b);
    TagLineFinished(p + b);
  }

  /** Each pass group on a line that starts with a badge. */
  lemma LeadingBadgeSteps(f: Spelling, v: Severity, sig: string, sp: string, word: string,
    b: string)
    requires BadgeParts(v, sig, sp, word) && LineFree(sp) && PlainText(b)
    ensures Headings(BadgeText(f, sig, sp, word) + b) == BadgeText(f, sig, sp, word) + b
    ensures Inline(BadgeText(f, sig, sp, word) + b) == Pill(f, v) + b
    ensures Blocks(Pill(f, v) + b) == Pill(f, v) + b
    ensures Finish(ListsOf(Pill(f, v) + b)) == Pill(f, v) + b && (Pill(f, v) + b)[0] == '<'
  {
    LeadingBadgeInline(f, v, sig, sp, word, b);
    PillLine(f, v, b);
  }

  /** A line that starts with a badge becomes the pill followed by the rest of the line, with no
      paragraph around it. */
  lemma BadgeLineRender(f: Spelling, v: Severity, sig: string, sp: string, word: string,
    b: string)
    requires BadgeParts(v, sig, sp, word) && LineFree(sp) && PlainText(b)
    ensures Render(BadgeText(f, sig, sp, word) + b) == Pill(f, v) + b
    ensures (Pill(f, v) + b)[0] == '<'
  {
    var l := BadgeText(f, sig, sp, word) + b;
    var y := Pill(f, v) + b;
    LeadingBadgeSteps(f, v, sig, sp, word, b);
    RenderSteps(l, l, y, y, y);
  }

  /** A nested bullet with a badge in it is no heading, and the inline passes turn the badge
      into its pill. */
  lemma NestedBadgeInline(f: Spelling, v: Severity, a: string, sig: string, sp: string,
    word: string, b: string)
    requires PlainText(a) && BadgeParts(v, sig, sp, word) && LineFree(sp) && PlainText(b)
    ensures Headings("  - " + a + BadgeText(f, sig, sp, word) + b)
      == "  - " + a + BadgeText(f, sig, sp, word) + b
    ensures Inline("  - " + a + BadgeText(f, sig, sp, word) + b) == "  - " + (a + Pill(f, v) + b)
  {
    var t := BadgeText(f, sig, sp, word);
    BadgeTextLineFree(f, v, sig, sp, word);
    Unheaded("  - " + a + t + b);
    InlineBadge(f, v, "  - " + a, sig, sp, word, b);
    BulletFront(a, Pill(f, v), b);
  }

  /** Plain text around a pill is calm and not empty. */
  lemma PillInside(f: Spelling, v: Severity, a: string, b: string)
    requires PlainText(a) && PlainText(b)
    ensures Calm(a + Pill(f, v) + b) && Quiet(a + Pill(f, v) + b) && a + Pill(f, v) + b != []
  {
    PlainIsCalm(a);
    PlainIsCalm(b);
    PillCalm(f, v);
    CalmAppend(a, Pill(f, v));
    CalmAppend(a + Pill(f, v), b);
    CalmIsQuiet(a + Pill(f, v) + b);
  }

  /** A nested bullet that carries a badge becomes a nested list of one item that holds the text
      with the pill in place of the badge. */
  lemma NestedBadgeRender(f: Spelling, v: Severity, a: string, sig: string, sp: string,
    word: string, b: string)
    requires PlainText(a) && BadgeParts(v, sig, sp, word) && LineFree(sp) && PlainText(b)
    ensures Render("  - " + a + BadgeText(f, sig, sp, word) + b)
      == NestedListOpen + NestedItem(a + Pill(f, v) + b) + ListClose
  {
    var l := "  - " + a + BadgeText(f, sig, sp, word) + b;
    var x := a + Pill(f, v) + b;
    NestedBadgeInline(f, v, a, sig, sp, word, b);
    PillInside(f, v, a, b);
    SubBulletBlocks(x);
    LoneNestedList(x);
    RenderSteps(l, l, "  - " + x, NestedItem(x), NestedListOpen + NestedItem(x) + ListClose);
  }
}
