/** The two list passes together (newsletter.mjs:186-192), on the lines the two item passes
    leave: nested items, top-level items and other lines. */
module ListLayout {
  import opened Text
  import opened Scanner
  import opened Markup
  import opened Lists

  const NestedHead := Open("li", NestedItemStyle)
  const TopHead := Open("li", SerifStyle)

  /** A marker with a character the text lacks is nowhere in it. */
  lemma AbsentCharNotFound(s: string, w: string, i: nat)
    requires 0 <= i < |w| && w[i] !in s
    ensures FindText(s, w, 0) == |s|
  {
  }

  /** The text of an opening tag `<li style="...">` whose style has no `<` or `>`. */
  lemma StyledHead(style: string)
    requires Bland(style)
    ensures ItemHead(Open("li", style))
    ensures Open("li", style)[3..|Open("li", style)| - 1] == " style=\"" + style + "\""
  {
    var h := Open("li", style);
    assert h == "<li style=\"" + style + "\">";
    forall k | 3 <= k < |h| - 1 ensures h[k] != '>' && h[k] != '<' {
      if 11 <= k < 11 + |style| {
        assert h[k] == style[k - 11];
        assert BlandChar(style[k - 11]);
      }
    }
  }

  /** A style that starts with the marker puts it right after `style="`. */
  lemma MarkerFirst(style: string, marker: string)
    requires StartsWith(style, marker) && marker != [] && marker[0] !in " style=\""
    ensures FindText(" style=\"" + style + "\"", marker, 0) == 8
  {
    var s := " style=\"" + style + "\"";
    assert s[8..] == style + "\"";
    assert s[8..][..|marker|] == style[..|marker|];
    forall k | 0 <= k < 8 ensures !StartsWith(s[k..], marker) {
      assert s[k..][0] == s[k] != marker[0];
    }
    FindTextAt(s, marker, 0, 8);
  }

  /** A marker with a character that neither the style nor the tag's own text holds. */
  lemma MarkerAbsent(style: string, marker: string, i: nat)
    requires 0 <= i < |marker| && marker[i] !in style && marker[i] !in " style=\""
    ensures FindText(" style=\"" + style + "\"", marker, 0) == |" style=\"" + style + "\""|
  {
    AbsentCharNotFound(" style=\"" + style + "\"", marker, i);
  }

  lemma NestedStyleStarts()
    ensures Bland(NestedItemStyle) && StartsWith(NestedItemStyle, NestedMarker) && NestedMarker[0] == 'b'
  {
  }

  lemma NestedStyleLacksG()
    ensures TopMarker[12] == 'G' && 'G' !in NestedItemStyle && 'G' !in " style=\""
  {
  }

  lemma TopStyleStarts()
    ensures Bland(SerifStyle) && StartsWith(SerifStyle, TopMarker) && TopMarker[0] == 'f'
  {
  }

  lemma TopStyleLacksB()
    ensures 'b' !in SerifStyle && 'b' !in " style=\"" && 'f' !in " style=\""
  {
  }

  /** Both opening tags are item heads, and each holds its own pass's marker only. */
  lemma NestedHeadShape()
    ensures ItemHead(NestedHead) && Holds(NestedMarker, NestedHead) && !Holds(TopMarker, NestedHead)
  {
    NestedStyleStarts();
    StyledHead(NestedItemStyle);
    TopStyleLacksB();
    MarkerFirst(NestedItemStyle, NestedMarker);
    NestedStyleLacksG();
    MarkerAbsent(NestedItemStyle, TopMarker, 12);
  }

  lemma TopHeadShape()
    ensures ItemHead(TopHead) && Holds(TopMarker, TopHead) && !Holds(NestedMarker, TopHead)
  {
    TopStyleStarts();
    StyledHead(SerifStyle);
    TopStyleLacksB();
    MarkerFirst(SerifStyle, TopMarker);
    MarkerAbsent(SerifStyle, NestedMarker, 0);
  }

  lemma ItemsAreLi(x: string)
    ensures NestedItem(x) == Li(NestedHead, x) && TopItem(x) == Li(TopHead, x)
  {
  }

  lemma NestedListTagsInert()
    ensures Inert(NestedListOpen) && Inert(ListClose)
  {
    assert Bland("ul") && Bland(NestedListStyle);
    OpenCalm("ul", NestedListStyle);
  }

  lemma TopListTagsInert()
    ensures Inert(TopListOpen) && Inert("")
  {
    assert Bland("ul") && Bland(TopListStyle);
    OpenCalm("ul", TopListStyle);
  }

  /** The list tags open no item. */
  lemma ListTagsInert()
    ensures Inert(NestedListOpen) && Inert(TopListOpen) && Inert(ListClose) && Inert("")
  {
    NestedListTagsInert();
    TopListTagsInert();
  }

  /** A line as the two item passes leave it: a nested item, a top-level item, or another line. */
  datatype Entry = Sub(x: string) | Top(x: string) | Other(s: string)

  function EntryText(e: Entry): string {
    match e
    case Sub(x) => NestedItem(x)
    case Top(x) => TopItem(x)
    case Other(s) => s
  }

  function EntryTexts(es: seq<Entry>): (ts: seq<string>)
    ensures |ts| == |es|
    ensures forall i :: 0 <= i < |es| ==> ts[i] == EntryText(es[i])
    decreases |es|
  {
    if es == [] then [] else [EntryText(es[0])] + EntryTexts(es[1..])
  }

  /** Item content holds no `<li` and no `</l`; another line holds no `<li`. */
  predicate GoodEntry(e: Entry) {
    match e
    case Sub(x) => ItemContent(x)
    case Top(x) => ItemContent(x)
    case Other(s) => Inert(s)
  }

  /** At least one line, every one good. */
  predicate GoodEntries(es: seq<Entry>) {
    es != [] && forall i :: 0 <= i < |es| ==> GoodEntry(es[i])
  }

  /** Which list the line above left open. */
  datatype Context = Outside | InNested | InTop

  function After(e: Entry): Context {
    match e
    case Sub(_) => InNested
    case Top(_) => InTop
    case Other(_) => Outside
  }

  /** A line as the two list passes leave it. A list that the line above left open and that this
      line does not continue is closed at the start of this line; an item that no list of its kind
      holds yet gets the opening tag of its list; an item on the last line closes its list after
      it. */
  function ListedLine(c: Context, e: Entry, last: bool): string {
    match e
    case Sub(x) =>
      (if c == InTop then ListClose else "") + (if c != InNested then NestedListOpen else "")
        + NestedItem(x) + (if last then ListClose else "")
    case Top(x) =>
      (if c == InNested then ListClose else "") + (if c != InTop then TopListOpen else "")
        + TopItem(x) + (if last then ListClose else "")
    case Other(s) =>
      (if c != Outside then ListClose else "") + s
  }

  function Listed(c: Context, es: seq<Entry>): (out: seq<string>)
    ensures |out| == |es|
    decreases |es|
  {
    if es == [] then []
    else [ListedLine(c, es[0], |es| == 1)] + Listed(After(es[0]), es[1..])
  }

  /** Opening tags for the nested (`nh`) and the top-level (`th`) items: each holds its own
      pass's marker and not the other's. */
  predicate ItemHeads(nh: string, th: string) {
    && ItemHead(nh) && Holds(NestedMarker, nh) && !Holds(TopMarker, nh)
    && ItemHead(th) && Holds(TopMarker, th) && !Holds(NestedMarker, th)
  }

  lemma ScriptHeads()
    ensures ItemHeads(NestedHead, TopHead)
  {
    NestedHeadShape();
    TopHeadShape();
  }

  /** The lines as rows of the nested pass: nested items are its own, top-level items (with
      opening tag `th`) foreign. */
  function NestedRow(th: string, e: Entry): Row {
    match e
    case Sub(x) => Row("", Own(x), "")
    case Top(x) => Row("", Foreign(th, x), "")
    case Other(s) => Row("", Bare(s), "")
  }

  function NestedRows(th: string, es: seq<Entry>): (rs: seq<Row>)
    ensures |rs| == |es|
    ensures forall i :: 0 <= i < |es| ==> rs[i] == NestedRow(th, es[i])
    decreases |es|
  {
    if es == [] then [] else [NestedRow(th, es[0])] + NestedRows(th, es[1..])
  }

  /** The lines the nested pass leaves, as rows of the top-level pass: the nested lists' tags
      are inert text around their items (with opening tag `nh`), which are foreign to this pass;
      `below` says whether the line above is a nested item. */
  function TopRow(nh: string, below: bool, e: Entry, last: bool): Row {
    match e
    case Sub(x) =>
      Row(if below then "" else NestedListOpen, Foreign(nh, x), if last then ListClose else "")
    case Top(x) => Row(if below then ListClose else "", Own(x), "")
    case Other(s) => Row(if below then ListClose else "", Bare(s), "")
  }

  function TopRows(nh: string, below: bool, es: seq<Entry>): (rs: seq<Row>)
    ensures |rs| == |es|
    decreases |es|
  {
    if es == [] then [] else [TopRow(nh, below, es[0], |es| == 1)] + TopRows(nh, es[0].Sub?, es[1..])
  }

  /** Each row of the top pass is made from its line and from whether the line above is a nested
      item. */
  lemma {:induction false} TopRowsAt(nh: string, below: bool, es: seq<Entry>, i: nat)
    requires i < |es|
    ensures TopRows(nh, below, es)[i]
      == TopRow(nh, if i == 0 then below else es[i - 1].Sub?, es[i], i == |es| - 1)
    decreases i
  {
    if i > 0 {
      TopRowsAt(nh, es[0].Sub?, es[1..], i - 1);
    }
  }

  /** Each line is the text of its row of the nested pass. */
  lemma NestedRowText(e: Entry)
    ensures RowText(NestedHead, NestedRow(TopHead, e)) == EntryText(e)
  {
    match e
    case Sub(x) => assert "" + Li(NestedHead, x) + "" == NestedItem(x);
    case Top(x) => assert "" + Li(TopHead, x) + "" == TopItem(x);
    case Other(s) => assert "" + s + "" == s;
  }

  lemma {:induction false} NestedTexts(es: seq<Entry>)
    ensures Texts(NestedHead, NestedRows(TopHead, es)) == EntryTexts(es)
    decreases |es|
  {
    if es != [] {
      NestedRowText(es[0]);
      assert NestedRows(TopHead, es)[1..] == NestedRows(TopHead, es[1..]);
      NestedTexts(es[1..]);
    }
  }

  /** A good line makes a good row for the nested pass, with nothing in front of its body. */
  lemma NestedRowGood(th: string, e: Entry)
    requires ItemHead(th) && !Holds(NestedMarker, th) && GoodEntry(e)
    ensures GoodRow(NestedMarker, NestedRow(th, e)) && NestedRow(th, e).pre == ""
  {
    ListTagsInert();
  }

  lemma NestedRowsGood(th: string, es: seq<Entry>)
    requires ItemHead(th) && !Holds(NestedMarker, th)
    requires forall i :: 0 <= i < |es| ==> GoodEntry(es[i])
    ensures GoodRows(NestedMarker, NestedRows(th, es))
  {
    var rs := NestedRows(th, es);
    forall k | 0 <= k < |rs| ensures GoodRow(NestedMarker, rs[k]) && rs[k].pre == "" {
      NestedRowGood(th, es[k]);
    }
  }

  /** What the nested pass leaves of a row is the text of the matching row of the top pass. */
  lemma NestedRowOut(nh: string, th: string, below: bool, e: Entry, last: bool)
    ensures RowOut(NestedListOpen, nh, below, NestedRow(th, e), last)
      == RowText(th, TopRow(nh, below, e, last))
  {
    match e
    case Sub(x) => NestedRowOutSub(nh, th, below, x, last);
    case Top(x) => NestedRowOutTop(nh, th, below, x, last);
    case Other(s) => NestedRowOutOther(nh, th, below, s, last);
  }

  lemma NestedRowOutSub(nh: string, th: string, below: bool, x: string, last: bool)
    ensures RowOut(NestedListOpen, nh, below, NestedRow(th, Sub(x)), last)
      == RowText(th, TopRow(nh, below, Sub(x), last))
  {
  }

  lemma NestedRowOutTop(nh: string, th: string, below: bool, x: string, last: bool)
    ensures RowOut(NestedListOpen, nh, below, NestedRow(th, Top(x)), last)
      == RowText(th, TopRow(nh, below, Top(x), last))
  {
  }

  lemma NestedRowOutOther(nh: string, th: string, below: bool, s: string, last: bool)
    ensures RowOut(NestedListOpen, nh, below, NestedRow(th, Other(s)), last)
      == RowText(th, TopRow(nh, below, Other(s), last))
  {
  }

  lemma {:induction false} NestedGrouped(nh: string, th: string, below: bool, es: seq<Entry>)
    ensures Grouped(NestedListOpen, nh, below, NestedRows(th, es)) == Texts(th, TopRows(nh, below, es))
    decreases |es|
  {
    if es != [] {
      NestedRowOut(nh, th, below, es[0], |es| == 1);
      assert NestedRows(th, es)[1..] == NestedRows(th, es[1..]);
      NestedGrouped(nh, th, es[0].Sub?, es[1..]);
    }
  }

  /** A row of the top pass made from a good line is good. */
  lemma TopRowGood(nh: string, below: bool, e: Entry, last: bool)
    requires ItemHead(nh) && !Holds(TopMarker, nh) && GoodEntry(e)
    ensures GoodRow(TopMarker, TopRow(nh, below, e, last))
  {
    ListTagsInert();
  }

  /** The row of a top-level item is the pass's own item, and has nothing in front of it unless
      a nested item is above it. */
  lemma TopRowOwn(nh: string, below: bool, e: Entry, last: bool)
    ensures TopRow(nh, below, e, last).body.Own? <==> e.Top?
    ensures e.Top? && !below ==> TopRow(nh, below, e, last).pre == ""
  {
  }

  lemma TopRowsGood(nh: string, below: bool, es: seq<Entry>)
    requires ItemHead(nh) && !Holds(TopMarker, nh)
    requires forall i :: 0 <= i < |es| ==> GoodEntry(es[i])
    ensures GoodRows(TopMarker, TopRows(nh, below, es))
  {
    var rs := TopRows(nh, below, es);
    forall k | 0 <= k < |rs| ensures GoodRow(TopMarker, rs[k]) {
      TopRowsAt(nh, below, es, k);
      TopRowGood(nh, if k == 0 then below else es[k - 1].Sub?, es[k], k == |es| - 1);
    }
    forall k | 0 < k < |rs| && rs[k - 1].body.Own? && rs[k].body.Own? ensures rs[k].pre == "" {
      TopRowsAt(nh, below, es, k - 1);
      TopRowsAt(nh, below, es, k);
      TopRowOwn(nh, if k == 1 then below else es[k - 2].Sub?, es[k - 1], k - 1 == |es| - 1);
      TopRowOwn(nh, es[k - 1].Sub?, es[k], k == |es| - 1);
    }
  }

  /** What the top pass leaves of its row of a line is the line as listed. */
  lemma TopRowOut(c: Context, e: Entry, last: bool)
    ensures RowOut(TopListOpen, TopHead, c == InTop, TopRow(NestedHead, c == InNested, e, last), last)
      == ListedLine(c, e, last)
  {
    match e
    case Sub(x) => TopRowOutSub(c, x, last);
    case Top(x) => TopRowOutTop(c, x, last);
    case Other(s) => TopRowOutOther(c, s, last);
  }

  lemma TopRowOutSub(c: Context, x: string, last: bool)
    ensures RowOut(TopListOpen, TopHead, c == InTop, TopRow(NestedHead, c == InNested, Sub(x), last), last)
      == ListedLine(c, Sub(x), last)
  {
    ItemsAreLi(x);
  }

  lemma TopRowOutTop(c: Context, x: string, last: bool)
    ensures RowOut(TopListOpen, TopHead, c == InTop, TopRow(NestedHead, c == InNested, Top(x), last), last)
      == ListedLine(c, Top(x), last)
  {
    ItemsAreLi(x);
  }

  lemma TopRowOutOther(c: Context, s: string, last: bool)
    ensures RowOut(TopListOpen, TopHead, c == InTop, TopRow(NestedHead, c == InNested, Other(s), last), last)
      == ListedLine(c, Other(s), last)
  {
  }

  lemma {:induction false} TopGrouped(c: Context, es: seq<Entry>)
    ensures Grouped(TopListOpen, TopHead, c == InTop, TopRows(NestedHead, c == InNested, es)) == Listed(c, es)
    decreases |es|
  {
    if es != [] {
      TopRowOut(c, es[0], |es| == 1);
      var c' := After(es[0]);
      assert TopRows(NestedHead, c == InNested, es)[1..] == TopRows(NestedHead, c' == InNested, es[1..]);
      TopGrouped(c', es[1..]);
    }
  }

  lemma TopGroupedStart(es: seq<Entry>)
    ensures Grouped(TopListOpen, TopHead, false, TopRows(NestedHead, false, es)) == Listed(Outside, es)
  {
    TopGrouped(Outside, es);
  }

  /** The nested pass over the lines. */
  lemma NestedPassLines(nh: string, th: string, es: seq<Entry>)
    requires ItemHeads(nh, th)
    requires es != [] && forall i :: 0 <= i < |es| ==> GoodEntry(es[i])
    ensures NestedListPass(Join(Texts(nh, NestedRows(th, es)), '\n'))
      == Join(Texts(th, TopRows(nh, false, es)), '\n')
  {
    NestedRowsGood(th, es);
    GroupRows(NestedMarker, NestedListOpen, nh, NestedRows(th, es));
    NestedGrouped(nh, th, false, es);
  }

  /** The top-level pass over what the nested pass leaves. */
  lemma TopPassLines(nh: string, th: string, es: seq<Entry>)
    requires ItemHeads(nh, th)
    requires es != [] && forall i :: 0 <= i < |es| ==> GoodEntry(es[i])
    ensures TopListPass(Join(Texts(th, TopRows(nh, false, es)), '\n'))
      == Join(Grouped(TopListOpen, th, false, TopRows(nh, false, es)), '\n')
  {
    TopRowsGood(nh, false, es);
    GroupRows(TopMarker, TopListOpen, th, TopRows(nh, false, es));
  }

  /** Both list passes over the rows of the lines, for opening tags `nh` and `th` that are those of
      the script. */
  lemma BothPasses(nh: string, th: string, es: seq<Entry>)
    requires nh == NestedHead && th == TopHead && GoodEntries(es)
    ensures TopListPass(NestedListPass(Join(Texts(nh, NestedRows(th, es)), '\n')))
      == Join(Grouped(TopListOpen, th, false, TopRows(nh, false, es)), '\n')
  {
    ScriptHeads();
    assert ItemHeads(nh, th);
    NestedPassLines(nh, th, es);
    TopPassLines(nh, th, es);
  }

  /** The two list passes over the lines the item passes leave: every maximal run of nested
      items and every maximal run of top-level items becomes a list of its own, as `Listed`
      describes line by line. */
  lemma ListPasses(es: seq<Entry>)
    requires GoodEntries(es)
    ensures TopListPass(NestedListPass(Join(EntryTexts(es), '\n'))) == Join(Listed(Outside, es), '\n')
  {
    BothPasses(NestedHead, TopHead, es);
    NestedTexts(es);
    TopGroupedStart(es);
  }

  /** Lines without items are listed as they are. */
  lemma {:induction false} ListedPlain(es: seq<Entry>)
    requires forall i :: 0 <= i < |es| ==> es[i].Other?
    ensures Listed(Outside, es) == EntryTexts(es)
    decreases |es|
  {
    if es != [] {
      assert ListedLine(Outside, es[0], |es| == 1) == "" + es[0].s == EntryText(es[0]);
      ListedPlain(es[1..]);
    }
  }

  /** Text without items is left alone by both list passes. */
  lemma NoItemsKept(es: seq<Entry>)
    requires GoodEntries(es) && forall i :: 0 <= i < |es| ==> es[i].Other?
    ensures TopListPass(NestedListPass(Join(EntryTexts(es), '\n'))) == Join(EntryTexts(es), '\n')
  {
    ListPasses(es);
    ListedPlain(es);
  }

  /** Three lines, listed one by one. */
  lemma ListedThree(c: Context, e0: Entry, e1: Entry, e2: Entry)
    ensures Listed(c, [e0, e1, e2])
      == [ListedLine(c, e0, false), ListedLine(After(e0), e1, false), ListedLine(After(e1), e2, true)]
  {
    var es := [e0, e1, e2];
    assert es[1..] == [e1, e2];
    assert es[1..][1..] == [e2];
    assert [e2][1..] == [];
    assert Listed(After(e1), [e2]) == [ListedLine(After(e1), e2, true)] + Listed(After(e2), []);
    assert Listed(After(e0), [e1, e2]) == [ListedLine(After(e0), e1, false)] + Listed(After(e1), [e2]);
  }

  lemma FirstTopLine(a: string)
    ensures ListedLine(Outside, Top(a), false) == TopListOpen + TopItem(a)
  {
    assert "" + TopListOpen == TopListOpen;
    assert TopListOpen + TopItem(a) + "" == TopListOpen + TopItem(a);
  }

  lemma SubAfterTopLine(b: string)
    ensures ListedLine(InTop, Sub(b), false) == ListClose + NestedListOpen + NestedItem(b)
  {
  }

  lemma LastTopAfterSubLine(c: string)
    ensures ListedLine(InNested, Top(c), true) == ListClose + TopListOpen + TopItem(c) + ListClose
  {
  }

  /** A nested item between two top-level items does not go inside the first item's list: it
      closes that list, gets a list of its own, and the second top-level item opens a third. */
  lemma NestedBetweenTop(a: string, b: string, c: string)
    ensures Listed(Outside, [Top(a), Sub(b), Top(c)])
      == [TopListOpen + TopItem(a), ListClose + NestedListOpen + NestedItem(b),
          ListClose + TopListOpen + TopItem(c) + ListClose]
  {
    ListedThree(Outside, Top(a), Sub(b), Top(c));
    FirstTopLine(a);
    SubAfterTopLine(b);
    LastTopAfterSubLine(c);
  }
}
