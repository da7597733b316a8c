/** Why the badge passes stand where they do in `markdownToHTML` (newsletter.mjs:144-171):
    bold italic runs first but leaves a badge alone, the six badge passes turn it into its pill,
    and the link, bold and italic passes after them leave the pill alone. Run before the badge
    passes, the bold pass would have claimed the badge's `**…**` itself. The text the link pass
    emits is scanned by the emphasis passes after it like any other text. */
module Ordering {
  import opened Text
  import opened Scanner
  import opened Markup
  import opened Emphasis
  import opened Badges
  import opened Links
  import opened Newsletter
  import opened BadgeStars
  import Cleanup

  /** The bold-italic pass copies a badge in the italic spelling. */
  lemma BoldItalicKeepsItalic(v: Severity, sig: string, sp: string, word: string, b: string)
    requires BadgeParts(v, sig, sp, word) && '*' !in b
    ensures EmphasisPass(BoldItalic, BadgeText(ItalicLead, sig, sp, word) + b)
      == BadgeText(ItalicLead, sig, sp, word) + b
  {
    PartsFacts(v, sig, sp, word);
    Emphasis.StartsWithStar(BoldItalic);
    ItalicMisses(sig, sp, word, b);
    ItalicTextScan(EmphasisMatcher(BoldItalic), sig, sp, word, b);
  }

  /** The bold-italic pass copies a badge in the bold spelling. */
  lemma BoldItalicKeepsBold(v: Severity, sig: string, sp: string, word: string, b: string)
    requires BadgeParts(v, sig, sp, word) && '*' !in b
    ensures EmphasisPass(BoldItalic, BadgeText(BoldLead, sig, sp, word) + b)
      == BadgeText(BoldLead, sig, sp, word) + b
  {
    PartsFacts(v, sig, sp, word);
    Emphasis.StartsWithStar(BoldItalic);
    BoldMisses(sig, sp, word, b);
    BoldTextScan(EmphasisMatcher(BoldItalic), sig, sp, word, b);
  }

  /** The bold-italic pass, the first inline pass, copies a badge in either spelling and the
      text around it when that text has no `*`. */
  lemma BoldItalicKeepsBadge(f: Spelling, v: Severity, a: string, sig: string, sp: string,
    word: string, b: string)
    requires '*' !in a && BadgeParts(v, sig, sp, word) && '*' !in b
    ensures EmphasisPass(BoldItalic, a + BadgeText(f, sig, sp, word) + b)
      == a + BadgeText(f, sig, sp, word) + b
  {
    var x := BadgeText(f, sig, sp, word);
    Emphasis.StartsWithStar(BoldItalic);
    assert a + x + b == a + (x + b);
    ScanWithoutTrigger(EmphasisMatcher(BoldItalic), '*', a, x + b);
    match f
    case ItalicLead => BoldItalicKeepsItalic(v, sig, sp, word, b);
    case BoldLead => BoldItalicKeepsBold(v, sig, sp, word, b);
  }

  /** Badge before bold: a badge in either spelling, in text without `*` or `[` around it,
      comes out of the inline passes as exactly its pill; it never becomes a plain `<strong>` or
      `<em>`. */
  lemma InlineBadge(f: Spelling, v: Severity, a: string, sig: string, sp: string, word: string,
    b: string)
    requires '*' !in a && '[' !in a && BadgeParts(v, sig, sp, word) && '*' !in b && '[' !in b
    ensures Inline(a + BadgeText(f, sig, sp, word) + b) == a + Pill(f, v) + b
  {
    BoldItalicKeepsBadge(f, v, a, sig, sp, word, b);
    BadgesRender(f, v, a, sig, sp, word, b);
    PillCalm(f, v);
    CalmBetween(a, Pill(f, v), b);
    LaterPassesKeep(a + Pill(f, v) + b);
  }

  /** Calm text between two texts without `*` and `[` leaves none of either. */
  lemma CalmBetween(a: string, q: string, b: string)
    requires '*' !in a && '[' !in a && Calm(q) && '*' !in b && '[' !in b
    ensures '*' !in a + q + b && '[' !in a + q + b
  {
  }

  /** The link, bold and italic passes leave text without `*` and `[` alone. */
  lemma LaterPassesKeep(p: string)
    requires '*' !in p && '[' !in p
    ensures EmphasisPass(Italic, EmphasisPass(Bold, LinkPass(p))) == p
  {
    NoBracketUnchanged(p);
    Emphasis.NoStarUnchanged(Bold, p);
    Emphasis.NoStarUnchanged(Italic, p);
  }

  /** A case variant of a text with no line terminator has none either. */
  lemma VariantLineFree(x: string, w: string)
    requires SameIgnoringCase(x, w) && LineFree(w)
    ensures LineFree(x)
  {
    forall i | 0 <= i < |x| ensures !IsLineTerminator(x[i]) {
      assert AsciiUpper(x[i]) == AsciiUpper(w[i]);
    }
  }

  /** Bold before badges would be wrong: the bold pass alone turns the lead of a badge in the
      bold spelling into a `<strong>` around the signal text and leaves the severity as it
      stands. */
  lemma BoldFirstClaimsBadge(v: Severity, sig: string, sp: string, word: string)
    requires BadgeParts(v, sig, sp, word)
    ensures EmphasisPass(Bold, BadgeText(BoldLead, sig, sp, word)) == Strong(sig) + sp + word
  {
    PartsFacts(v, sig, sp, word);
    VariantLineFree(sig, SignalText);
    BoldClaims(sig, sp, word);
    assert BadgeText(BoldLead, sig, sp, word) == "**" + sig + "**" + sp + word;
  }

  /** The opening tag of an anchor to an address without `*` holds no `*`. */
  lemma AnchorOpenNoStar(url: string)
    requires '*' !in url
    ensures '*' !in Tag("a", Attr("href", url) + Attr("style", SerifStyle) + Attr("target", "_blank"))
  {
    Cleanup.SerifBland();
  }

  /** The link pass runs before bold, and the caption it copies into the anchor is scanned by
      the bold pass like any other text: a caption `**x**` ends up as bold text inside the
      anchor. */
  lemma CaptionEmphasised(url: string, x: string)
    requires '*' !in url && x != [] && '*' !in x && LineFree(x)
    ensures EmphasisPass(Bold, Anchor(url, "**" + x + "**")) == Anchor(url, Strong(x))
  {
    var o := Tag("a", Attr("href", url) + Attr("style", SerifStyle) + Attr("target", "_blank"));
    AnchorOpenNoStar(url);
    assert Anchor(url, "**" + x + "**") == Tag("a", Attr("href", url) + Attr("style", SerifStyle) + Attr("target", "_blank")) + "**" + x + "**" + Close("a");
    assert Anchor(url, Strong(x)) == Tag("a", Attr("href", url) + Attr("style", SerifStyle) + Attr("target", "_blank")) + Strong(x) + Close("a");
    Wraps(Bold, o, x, Close("a"));
    Emphasis.NoStarUnchanged(Bold, Close("a"));
  }
}
