/** The HTML the newsletter script emits. Every `style` attribute of the script is represented by
    a short constant that keeps the substrings the script's own later passes look for
    (`font-family:Georgia` in the top-level items, paragraphs, bold text and links, `border-left` in
    the nested items); tag names, the attributes other than `style`, the symbols and labels of the
    badges and the line layout of the section banner are those of the script. */
module Markup {
  import opened Text

  /** A character with no role in any pattern of the script: no line terminator, no `<`, `>`,
      `*` or `[`. */
  predicate BlandChar(c: char) {
    !IsLineTerminator(c) && c != '<' && c != '>' && c != '*' && c != '['
  }

  predicate Bland(s: string) {
    forall i :: 0 <= i < |s| ==> BlandChar(s[i])
  }

  /** ` name="value"`. */
  function Attr(name: string, value: string): string {
    " " + name + "=\"" + value + "\""
  }

  /** An opening tag with the attribute text `attrs`. */
  function Tag(name: string, attrs: string): string {
    "<" + name + attrs + ">"
  }

  /** `<name style="style">`. */
  function Open(name: string, style: string): string {
    Tag(name, Attr("style", style))
  }

  /** `</name>`. */
  function Close(name: string): string {
    "</" + name + ">"
  }

  const H1Style := "font-size:30px"
  const H3Style := "font-size:14px"
  const BannerTableStyle := "margin:28px 0"
  const BannerLeftStyle := "width:18px"
  const BannerTitleStyle := "padding:0 10px"
  const BannerLabelStyle := "color:#c8401a"
  const BannerRightStyle := "border-top:2px"
  const SerifStyle := "font-family:Georgia"
  const EmStyle := "color:#4b5563;"
  const RuleStyle := "border-top:1px"
  const NestedItemStyle := "border-left:2px"
  const NestedListStyle := "list-style:none"
  const TopListStyle := "margin:8px 0 14px"

  /** Level-1 heading (newsletter.mjs:128-129). */
  function H1(t: string): string {
    Open("h1", H1Style) + t + Close("h1")
  }

  const BannerTable := Tag("table", Attr("width", "100%") + Attr("cellpadding", "0")
    + Attr("cellspacing", "0") + Attr("style", BannerTableStyle))

  /** The seven lines of the section banner that replaces a level-2 heading
      (newsletter.mjs:131-138). */
  function BannerRows(t: string): (r: seq<string>)
    ensures |r| == 7
  {
    [ BannerTable + Tag("tr", ""),
      "      " + Open("td", BannerLeftStyle) + Close("td"),
      "      " + Open("td", BannerTitleStyle),
      "        " + Open("span", BannerLabelStyle) + t + Close("span"),
      "      " + Close("td"),
      "      " + Open("td", BannerRightStyle) + Close("td"),
      "    " + Close("tr") + Close("table") ]
  }

  /** The banner, its lines joined by line feeds; it starts with its opening `<table` tag. */
  function Banner(t: string): (r: string)
    ensures r != [] && r[0] == '<'
  {
    Join(BannerRows(t), '\n')
  }

  /** Level-3 heading (newsletter.mjs:140-141). */
  function H3(t: string): string {
    Open("h3", H3Style) + t + Close("h3")
  }

  /** `***x***` (newsletter.mjs:144). */
  function StrongEm(x: string): string {
    Tag("strong", "") + Tag("em", "") + x + Close("em") + Close("strong")
  }

  /** `**x**` (newsletter.mjs:167-168). */
  function Strong(x: string): string {
    Open("strong", SerifStyle) + x + Close("strong")
  }

  /** `*x*` (newsletter.mjs:171). */
  function Em(x: string): string {
    Open("em", EmStyle) + x + Close("em")
  }

  /** `[caption](url)` (newsletter.mjs:163-164). */
  function Anchor(url: string, caption: string): string {
    Tag("a", Attr("href", url) + Attr("style", SerifStyle) + Attr("target", "_blank"))
      + caption + Close("a")
  }

  /** The horizontal rule (newsletter.mjs:174-175). */
  const Rule := "<hr" + Attr("style", RuleStyle) + "/>"

  /** A list item whose opening tag carries `style` (newsletter.mjs:179-184). */
  function Item(style: string, x: string): string {
    Open("li", style) + x + Close("li")
  }

  function NestedItem(x: string): string {
    Item(NestedItemStyle, x)
  }

  function TopItem(x: string): string {
    Item(SerifStyle, x)
  }

  /** The opening tags of the nested and of the top-level lists, and the closing tag of
      both (newsletter.mjs:187-192). */
  const NestedListOpen := Open("ul", NestedListStyle)
  const TopListOpen := Open("ul", TopListStyle)
  const ListClose := Close("ul")

  /** A paragraph (newsletter.mjs:195-196). */
  function Paragraph(x: string): string {
    Open("p", SerifStyle) + x + Close("p")
  }

  /** The three severities of a Hubbell Signal badge and the two spellings of its source text:
      `*Hubbell Signal:* **High**` (ItalicLead) and `**Hubbell Signal:** High` (BoldLead). */
  datatype Severity = High | Medium | Low
  datatype Spelling = ItalicLead | BoldLead

  function SeverityWord(v: Severity): string {
    match v
    case High => "High"
    case Medium => "Medium"
    case Low => "Low"
  }

  function Label(v: Severity): string {
    match v
    case High => "HIGH"
    case Medium => "MEDIUM"
    case Low => "LOW"
  }

  function Symbol(v: Severity): string {
    match v
    case High => "\U{2B06}"
    case Medium => "\U{25C6}"
    case Low => "\U{25B8}"
  }

  function Background(v: Severity): string {
    match v
    case High => "#166534"
    case Medium => "#92400e"
    case Low => "#374151"
  }

  /** The outer style of the pill: the italic spelling adds `font-style:normal`. */
  function PillStyle(f: Spelling): string {
    match f
    case ItalicLead => "font-style:normal"
    case BoldLead => "font-size:10px"
  }

  /** The style of the coloured label: the italic spelling adds a letter spacing. */
  function LabelStyle(f: Spelling, v: Severity): string {
    "background:" + Background(v) + (match f case ItalicLead => ";letter-spacing" case BoldLead => "")
  }

  const SignalText := "Hubbell Signal:"

  /** The badge pill (newsletter.mjs:147-160). */
  function Pill(f: Spelling, v: Severity): string {
    Open("span", PillStyle(f)) + Symbol(v) + " " + Tag("strong", "") + SignalText
      + Close("strong") + " " + Open("span", LabelStyle(f, v)) + Label(v) + Close("span")
      + Close("span")
  }

  /** Every `<` of `s` is followed, inside `s`, by a character other than `c`: no tag whose name
      starts with `c` opens in `s`, whatever follows it. */
  predicate NoOpenTag(s: string, c: char) {
    forall k :: 0 <= k < |s| && s[k] == '<' ==> k + 1 < |s| && s[k + 1] != c
  }

  /** Every `<` of `s` is followed, inside `s`, by two characters other than `/` and `c`: no
      closing tag whose name starts with `c` occurs in `s`, whatever follows it. */
  predicate NoCloseTag(s: string, c: char) {
    forall k :: 0 <= k < |s| && s[k] == '<' ==> k + 2 < |s| && !(s[k + 1] == '/' && s[k + 2] == c)
  }

  /** Text that no pass after the headings can change, wherever it stands: it has no line
      terminator, no emphasis or link marker, opens or closes no list item and opens or closes
      no paragraph. */
  predicate Calm(s: string) {
    LineFree(s) && '*' !in s && '[' !in s
      && NoOpenTag(s, 'l') && NoCloseTag(s, 'l') && NoOpenTag(s, 'p') && NoCloseTag(s, 'p')
  }

  /** Text of a plain document line: no line terminator, no `*`, `[` or `<`. */
  predicate PlainText(s: string) {
    LineFree(s) && '*' !in s && '[' !in s && '<' !in s
  }

  lemma PlainIsCalm(s: string)
    requires PlainText(s)
    ensures Calm(s)
  {
  }

  lemma BlandIsPlain(s: string)
    requires Bland(s)
    ensures PlainText(s) && '>' !in s
  {
  }

  lemma CalmAppend(a: string, b: string)
    requires Calm(a) && Calm(b)
    ensures Calm(a + b)
  {
    NoOpenTagAppend(a, b, 'l');
    NoCloseTagAppend(a, b, 'l');
    NoOpenTagAppend(a, b, 'p');
    NoCloseTagAppend(a, b, 'p');
  }

  lemma NoOpenTagAppend(a: string, b: string, c: char)
    requires NoOpenTag(a, c) && NoOpenTag(b, c)
    ensures NoOpenTag(a + b, c)
  {
    forall k | 0 <= k < |a + b| && (a + b)[k] == '<'
      ensures k + 1 < |a + b| && (a + b)[k + 1] != c
    {
      if k < |a| {
        assert a[k] == '<';
      } else {
        assert b[k - |a|] == '<';
      }
    }
  }

  lemma NoCloseTagAppend(a: string, b: string, c: char)
    requires NoCloseTag(a, c) && NoCloseTag(b, c)
    ensures NoCloseTag(a + b, c)
  {
    forall k | 0 <= k < |a + b| && (a + b)[k] == '<'
      ensures k + 2 < |a + b| && !((a + b)[k + 1] == '/' && (a + b)[k + 2] == c)
    {
      if k < |a| {
        assert a[k] == '<';
      } else {
        assert b[k - |a|] == '<';
      }
    }
  }

  /** A `<` followed by text without `<`. */
  lemma TagStart(body: string, c: char)
    requires |body| >= 2 && '<' !in body
    ensures NoOpenTag("<" + body, c) <==> body[0] != c
    ensures NoCloseTag("<" + body, c) <==> !(body[0] == '/' && body[1] == c)
  {
    var s := "<" + body;
    assert s[0] == '<' && s[1] == body[0] && s[2] == body[1];
    forall k | 0 < k < |s| ensures s[k] != '<' {
      assert s[k] == body[k - 1];
    }
  }

  lemma AttrBland(name: string, value: string)
    requires Bland(name) && Bland(value)
    ensures Bland(Attr(name, value))
  {
    assert Bland(" ") && Bland("=\"") && Bland("\"");
  }

  /** An opening tag whose name does not start with `l` or `p` is calm, and so is its closing
      tag. */
  lemma TagCalm(name: string, attrs: string)
    requires |name| >= 1 && 'a' <= name[0] <= 'z' && name[0] != 'l' && name[0] != 'p'
    requires Bland(name) && Bland(attrs)
    ensures Calm(Tag(name, attrs)) && Calm(Close(name))
  {
    BlandIsPlain(name);
    BlandIsPlain(attrs);
    TagStart(name + attrs + ">", 'l');
    TagStart(name + attrs + ">", 'p');
    assert Tag(name, attrs) == "<" + (name + attrs + ">");
    TagStart("/" + name + ">", 'l');
    TagStart("/" + name + ">", 'p');
    assert Close(name) == "<" + ("/" + name + ">");
  }

  lemma OpenCalm(name: string, style: string)
    requires |name| >= 1 && 'a' <= name[0] <= 'z' && name[0] != 'l' && name[0] != 'p'
    requires Bland(name) && Bland(style)
    ensures Calm(Open(name, style)) && Calm(Close(name))
  {
    StyleNameBland();
    AttrBland("style", style);
    TagCalm(name, Attr("style", style));
  }

  lemma StyleNameBland()
    ensures Bland("style")
  {
  }

  lemma HeadingStylesBland()
    ensures Bland(H1Style) && Bland(H3Style) && Bland("h1") && Bland("h3")
  {
  }

  /** The tags of the headings are calm and open with `<`. */
  lemma HeadingTagsCalm()
    ensures Calm(Open("h1", H1Style)) && Calm(Close("h1")) && Open("h1", H1Style)[0] == '<'
    ensures Calm(Open("h3", H3Style)) && Calm(Close("h3")) && Open("h3", H3Style)[0] == '<'
  {
    HeadingStylesBland();
    OpenCalm("h1", H1Style);
    OpenCalm("h3", H3Style);
  }

  /** A heading stays on its line when its text does, and starts with `<`. */
  lemma HeadingsLineFree(t: string)
    requires LineFree(t)
    ensures LineFree(H1(t)) && H1(t)[0] == '<'
    ensures LineFree(H3(t)) && H3(t)[0] == '<'
  {
    HeadingTagsCalm();
  }

  /** A heading with calm text is calm. */
  lemma HeadingsCalm(t: string)
    requires Calm(t)
    ensures Calm(H1(t)) && Calm(H3(t))
  {
    HeadingTagsCalm();
    CalmAppend(Open("h1", H1Style), t);
    CalmAppend(Open("h1", H1Style) + t, Close("h1"));
    CalmAppend(Open("h3", H3Style), t);
    CalmAppend(Open("h3", H3Style) + t, Close("h3"));
  }

  lemma TableStylesBland()
    ensures Bland("td") && Bland("tr") && Bland("span") && Bland("table")
    ensures Bland(BannerLeftStyle) && Bland(BannerTitleStyle)
    ensures Bland(BannerLabelStyle) && Bland(BannerRightStyle)
  {
  }

  lemma TableAttrsBland()
    ensures Bland(Attr("width", "100%") + Attr("cellpadding", "0"))
    ensures Bland(Attr("cellspacing", "0") + Attr("style", BannerTableStyle))
  {
    assert Bland("width") && Bland("100%") && Bland("cellpadding") && Bland("0");
    assert Bland("cellspacing") && Bland(BannerTableStyle);
    StyleNameBland();
    AttrBland("width", "100%");
    AttrBland("cellpadding", "0");
    AttrBland("cellspacing", "0");
    AttrBland("style", BannerTableStyle);
  }

  lemma IndentsBland()
    ensures Bland("    ") && Bland("      ") && Bland("        ")
  {
  }

  /** The opening and closing tags of the banner are calm. */
  lemma BannerTagsCalm()
    ensures Calm(BannerTable) && Calm(Tag("tr", "")) && Calm(Close("tr")) && Calm(Close("table"))
    ensures Calm(Open("td", BannerLeftStyle)) && Calm(Open("td", BannerTitleStyle))
    ensures Calm(Open("td", BannerRightStyle)) && Calm(Close("td"))
    ensures Calm(Open("span", BannerLabelStyle)) && Calm(Close("span"))
  {
    TableStylesBland();
    TableAttrsBland();
    TagCalm("table", Attr("width", "100%") + Attr("cellpadding", "0")
      + (Attr("cellspacing", "0") + Attr("style", BannerTableStyle)));
    assert Attr("width", "100%") + Attr("cellpadding", "0")
      + (Attr("cellspacing", "0") + Attr("style", BannerTableStyle))
      == Attr("width", "100%") + Attr("cellpadding", "0")
      + Attr("cellspacing", "0") + Attr("style", BannerTableStyle);
    TagCalm("tr", "");
    OpenCalm("td", BannerLeftStyle);
    OpenCalm("td", BannerTitleStyle);
    OpenCalm("td", BannerRightStyle);
    OpenCalm("span", BannerLabelStyle);
  }

  lemma IndentsCalm()
    ensures Calm("    ") && Calm("      ") && Calm("        ")
  {
    IndentsBland();
    BlandIsPlain("    ");
    BlandIsPlain("      ");
    BlandIsPlain("        ");
  }

  /** The first line of the banner starts with `<`, the others with a space. */
  lemma BannerRowsStart(t: string)
    ensures BannerRows(t)[0][0] == '<'
    ensures forall i :: 1 <= i < 7 ==> BannerRows(t)[i][0] == ' '
  {
    assert BannerTable[0] == '<';
  }

  /** The banner's lines other than the title line are calm. */
  lemma BannerFrameCalm()
    ensures Calm(BannerTable + Tag("tr", ""))
    ensures Calm("      " + Open("td", BannerLeftStyle) + Close("td"))
    ensures Calm("      " + Open("td", BannerTitleStyle))
    ensures Calm("      " + Close("td"))
    ensures Calm("      " + Open("td", BannerRightStyle) + Close("td"))
    ensures Calm("    " + Close("tr") + Close("table"))
  {
    BannerTagsCalm();
    IndentsCalm();
    CalmAppend(BannerTable, Tag("tr", ""));
    CalmAppend("      ", Open("td", BannerLeftStyle));
    CalmAppend("      " + Open("td", BannerLeftStyle), Close("td"));
    CalmAppend("      ", Open("td", BannerTitleStyle));
    CalmAppend("      ", Close("td"));
    CalmAppend("      ", Open("td", BannerRightStyle));
    CalmAppend("      " + Open("td", BannerRightStyle), Close("td"));
    CalmAppend("    ", Close("tr"));
    CalmAppend("    " + Close("tr"), Close("table"));
  }

  /** Every line of the banner stays on its line when its title does. */
  lemma BannerRowsLineFree(t: string)
    requires LineFree(t)
    ensures forall i :: 0 <= i < 7 ==> LineFree(BannerRows(t)[i])
  {
    BannerFrameCalm();
    BannerTagsCalm();
    IndentsCalm();
  }

  /** Every line of the banner is calm when its title is. */
  lemma BannerRowsCalm(t: string)
    requires Calm(t)
    ensures forall i :: 0 <= i < 7 ==> Calm(BannerRows(t)[i])
  {
    BannerFrameCalm();
    BannerTagsCalm();
    IndentsCalm();
    CalmAppend("        ", Open("span", BannerLabelStyle));
    CalmAppend("        " + Open("span", BannerLabelStyle), t);
    CalmAppend("        " + Open("span", BannerLabelStyle) + t, Close("span"));
  }

  lemma BlandAppend(a: string, b: string)
    requires Bland(a) && Bland(b)
    ensures Bland(a + b)
  {
    forall i | 0 <= i < |a + b| ensures BlandChar((a + b)[i]) {
      if i < |a| {
        assert (a + b)[i] == a[i];
      } else {
        assert (a + b)[i] == b[i - |a|];
      }
    }
  }

  lemma SeverityPartsBland(v: Severity)
    ensures Bland(Background(v)) && Bland(Symbol(v)) && Bland(Label(v))
  {
    match v
    case High =>
    case Medium =>
    case Low =>
  }

  lemma PillStylesBland(f: Spelling, v: Severity)
    ensures Bland(PillStyle(f)) && Bland(LabelStyle(f, v))
  {
    SeverityPartsBland(v);
    assert Bland("background:");
    BlandAppend("background:", Background(v));
    match f
    case ItalicLead =>
      assert Bland("font-style:normal");
      assert Bland(";letter-spacing");
      BlandAppend("background:" + Background(v), ";letter-spacing");
    case BoldLead =>
      assert Bland("font-size:10px");
      assert "background:" + Background(v) + "" == "background:" + Background(v);
  }

  /** Six calm pieces make a calm text. */
  lemma CalmSix(a: string, b: string, c: string, d: string, e: string, f: string)
    requires Calm(a) && Calm(b) && Calm(c) && Calm(d) && Calm(e) && Calm(f)
    ensures Calm(a + b + c + d + e + f)
  {
    CalmAppend(a, b);
    CalmAppend(a + b, c);
    CalmAppend(a + b + c, d);
    CalmAppend(a + b + c + d, e);
    CalmAppend(a + b + c + d + e, f);
  }

  /** The tags of the pill are calm. */
  lemma PillTagsCalm(f: Spelling, v: Severity)
    ensures Calm(Open("span", PillStyle(f))) && Calm(Open("span", LabelStyle(f, v)))
    ensures Calm(Tag("strong", "")) && Calm(Close("strong")) && Calm(Close("span"))
  {
    PillStylesBland(f, v);
    assert Bland("span") && Bland("strong") && Bland("");
    OpenCalm("span", PillStyle(f));
    OpenCalm("span", LabelStyle(f, v));
    TagCalm("strong", "");
  }

  /** The text of the pill is calm. */
  lemma PillWordsCalm(v: Severity)
    ensures Calm(Symbol(v)) && Calm(SignalText) && Calm(" ") && Calm(Label(v))
  {
    SeverityPartsBland(v);
    assert Bland(SignalText) && Bland(" ");
    BlandIsPlain(Symbol(v));
    BlandIsPlain(SignalText);
    BlandIsPlain(" ");
    BlandIsPlain(Label(v));
  }

  /** The pill is calm and starts with `<`: no later pass changes it. */
  lemma PillCalm(f: Spelling, v: Severity)
    ensures Calm(Pill(f, v)) && Pill(f, v)[0] == '<'
  {
    PillTagsCalm(f, v);
    PillWordsCalm(v);
    var x := Open("span", PillStyle(f)) + Symbol(v) + " " + Tag("strong", "") + SignalText
      + Close("strong");
    CalmSix(Open("span", PillStyle(f)), Symbol(v), " ", Tag("strong", ""), SignalText, Close("strong"));
    CalmSix(x, " ", Open("span", LabelStyle(f, v)), Label(v), Close("span"), Close("span"));
  }
}
