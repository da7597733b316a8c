/** The two list passes (newsletter.mjs:187-192): the global patterns
    `(<li[^>]*border-left[^>]*>[\s\S]*?<\/li>\n?)+` and
    `(<li[^>]*font-family:Georgia[^>]*>[\s\S]*?<\/li>\n?)+`, each replaced by its own `<ul>`
    around the whole match (`$&`). One repetition is an item: `<li`, an opening tag whose text up to
    its first `>` holds the marker, then everything up to the first `</li>` after that `>`, then one
    line feed when there is one. The repetition is greedy and each item's end is forced, so a match
    is the longest chain of such items that follow each other directly. */
module Lists {
  import opened Text
  import opened Scanner
  import opened Markup

  const NestedMarker := "border-left"
  const TopMarker := "font-family:Georgia"

  /** The length of the item at the start of `t` whose opening tag holds `marker`, its trailing
      line feed included. */
  function ItemEnd(marker: string, t: string): (r: Option<nat>)
    ensures r.Some? ==> 0 < r.value <= |t| && StartsWith(t, "<li")
  {
    if !StartsWith(t, "<li") then None
    else
      var gt := FindChar(t, '>', 3);
      if gt == |t| || FindText(t[3..gt], marker, 0) == gt - 3 then None
      else
        var f := FindText(t, "</li>", gt + 1);
        if f == |t| then None
        else if f + 5 < |t| && t[f + 5] == '\n' then Some(f + 6)
        else Some(f + 5)
  }

  /** The length of the chain of items at the start of `t`. */
  function ChainLength(marker: string, t: string): (n: nat)
    ensures n <= |t|
    decreases |t|
  {
    match ItemEnd(marker, t)
    case None => 0
    case Some(e) => e + ChainLength(marker, t[e..])
  }

  /** The match at the start of `t`: the chain of items, wrapped in `open` and `</ul>`. */
  function GroupAt(marker: string, open: string, t: string): Option<Hit> {
    if ItemEnd(marker, t).None? then None
    else
      var c := ChainLength(marker, t);
      Some(Hit(c, open + t[..c] + ListClose))
  }

  function GroupMatcher(marker: string, open: string): Matcher {
    t => GroupAt(marker, open, t)
  }

  function GroupPass(marker: string, open: string, s: string): string {
    Scan(GroupMatcher(marker, open), s)
  }

  /** newsletter.mjs:187-188. */
  function NestedListPass(s: string): string {
    GroupPass(NestedMarker, NestedListOpen, s)
  }

  /** newsletter.mjs:191-192. */
  function TopListPass(s: string): string {
    GroupPass(TopMarker, TopListOpen, s)
  }

  /** Text that opens no list item: wherever it stands, no `<li` starts inside it. */
  predicate Inert(s: string) {
    NoOpenTag(s, 'l')
  }

  /** Content of an item that holds no `<li` and no `</l`. */
  predicate ItemContent(x: string) {
    NoOpenTag(x, 'l') && NoCloseTag(x, 'l')
  }

  /** The opening tag of a list item: `<li`, attribute text without `<` or `>`, and `>`. */
  predicate ItemHead(h: string) {
    && 4 <= |h| && h[..3] == "<li" && h[|h| - 1] == '>'
    && (forall k :: 3 <= k < |h| - 1 ==> h[k] != '>')
    && (forall k :: 1 <= k < |h| ==> h[k] != '<')
  }

  /** The attribute text of the opening tag `h` holds the marker. */
  predicate Holds(marker: string, h: string)
    requires ItemHead(h)
  {
    FindText(h[3..|h| - 1], marker, 0) < |h| - 4
  }

  /** The item with opening tag `h` and content `x`. */
  function Li(h: string, x: string): string {
    h + x + Close("li")
  }

  /** No item starts where there is no `<li`. */
  lemma NoItemHere(marker: string, t: string)
    requires t == [] || t[0] != '<' || (|t| > 1 && t[1] != 'l')
    ensures ItemEnd(marker, t).None?
  {
  }

  /** Inert text followed by anything is passed over. */
  lemma ScanInert(marker: string, open: string, s: string, rest: string)
    requires Inert(s)
    ensures GroupPass(marker, open, s + rest) == s + GroupPass(marker, open, rest)
  {
    var m := GroupMatcher(marker, open);
    forall k | 0 <= k < |s| ensures m((s + rest)[k..]).None? {
      var t := (s + rest)[k..];
      assert t[0] == s[k];
      if s[k] == '<' {
        assert t[1] == s[k + 1];
      }
      NoItemHere(marker, t);
    }
    ScanSkip(m, s, rest);
  }

  /** No `</li>` starts inside item content, wherever the content stands. */
  lemma ContentNoClose(t: string, o: nat, x: string)
    requires ItemContent(x) && o + |x| <= |t|
    requires forall j :: 0 <= j < |x| ==> t[o + j] == x[j]
    ensures forall k :: o <= k < o + |x| ==> !StartsWith(t[k..], "</li>")
  {
    forall k | o <= k < o + |x| ensures !StartsWith(t[k..], "</li>") {
      StartsWithChars(t[k..], "</li>");
      if t[k] == '<' {
        assert x[k - o] == '<';
        assert t[k + 1] == x[k - o + 1] && t[k + 2] == x[k - o + 2];
      }
    }
  }

  /** An opening tag, whatever follows it: it starts with `<li`, and its first `>` is its last
      character. */
  lemma HeadTagEnd(h: string, rest: string)
    requires ItemHead(h)
    ensures StartsWith(h + rest, "<li")
    ensures FindChar(h + rest, '>', 3) == |h| - 1
    ensures (h + rest)[3..|h| - 1] == h[3..|h| - 1]
  {
    var t := h + rest;
    assert t[..3] == h[..3];
    forall k | 3 <= k < |h| - 1 ensures t[k] != '>' {
      assert t[k] == h[k];
    }
    assert t[|h| - 1] == h[|h| - 1];
    FindCharAt(t, '>', 3, |h| - 1);
  }

  /** The closing tag follows item content at its first `</li>`. */
  lemma CloseAfterContent(h: string, x: string, rest: string)
    requires ItemContent(x)
    ensures FindText(h + x + "</li>" + rest, "</li>", |h|) == |h| + |x|
  {
    var t := h + x + "</li>" + rest;
    forall j | 0 <= j < |x| ensures t[|h| + j] == x[j] {
    }
    ContentNoClose(t, |h|, x);
    StartsWithChars(t[|h| + |x|..], "</li>");
    FindTextAt(t, "</li>", |h|, |h| + |x|);
  }

  /** An item whose opening tag holds the marker, and whose content opens and closes no item, is
      one repetition, with the line feed after it when there is one. */
  lemma OwnItemEnd(marker: string, h: string, x: string, rest: string, e: nat)
    requires ItemHead(h) && Holds(marker, h) && ItemContent(x)
    requires e == |Li(h, x)| + if rest != [] && rest[0] == '\n' then 1 else 0
    ensures ItemEnd(marker, Li(h, x) + rest) == Some(e)
  {
    var t := Li(h, x) + rest;
    var g := |h| - 1;
    var f := |h| + |x|;
    OwnItemShape(marker, h, x, rest);
    assert e == if f + 5 < |t| && t[f + 5] == '\n' then f + 6 else f + 5 by {
      if rest != [] {
        assert t[f + 5] == rest[0];
      }
    }
    ItemEndAt(marker, t, g, f, e);
  }

  /** Where the opening tag and the `</li>` of such an item end. */
  lemma OwnItemShape(marker: string, h: string, x: string, rest: string)
    requires ItemHead(h) && Holds(marker, h) && ItemContent(x)
    ensures var t := Li(h, x) + rest;
      && StartsWith(t, "<li") && 3 <= |h| - 1 < |t| && FindChar(t, '>', 3) == |h| - 1
      && FindText(t[3..|h| - 1], marker, 0) < |h| - 1 - 3
      && FindText(t, "</li>", |h| - 1 + 1) == |h| + |x|
      && |Li(h, x)| == |h| + |x| + 5 && |t| == |Li(h, x)| + |rest|
  {
    var t := Li(h, x) + rest;
    var u := x + "</li>" + rest;
    assert t == h + u && |Li(h, x)| == |h| + |x| + 5 by {
      assert Close("li") == "</li>";
    }
    HeadTagEnd(h, u);
    assert FindText(t, "</li>", |h|) == |h| + |x| by {
      assert h + x + "</li>" + rest == t;
      CloseAfterContent(h, x, rest);
    }
  }

  /** The match of one repetition, from where its opening tag and its `</li>` end. */
  lemma ItemEndAt(marker: string, t: string, g: nat, f: nat, e: nat)
    requires StartsWith(t, "<li") && 3 <= g < |t| && FindChar(t, '>', 3) == g
    requires FindText(t[3..g], marker, 0) < g - 3
    requires FindText(t, "</li>", g + 1) == f && f < |t|
    requires e == if f + 5 < |t| && t[f + 5] == '\n' then f + 6 else f + 5
    ensures ItemEnd(marker, t) == Some(e)
  {
  }

  /** An item whose opening tag lacks the marker is not a repetition. */
  lemma ForeignMiss(marker: string, h: string, rest: string)
    requires ItemHead(h) && !Holds(marker, h)
    ensures ItemEnd(marker, h + rest).None?
  {
    HeadTagEnd(h, rest);
  }

  /** Past its first character an item with such content opens no item. */
  lemma ItemTailInert(h: string, x: string)
    requires ItemHead(h) && Inert(x)
    ensures Inert(Li(h, x)[1..])
  {
    assert NoOpenTag(h[1..], 'l') by {
      forall k | 0 <= k < |h[1..]| ensures h[1..][k] != '<' {
        assert h[1..][k] == h[k + 1];
      }
    }
    assert NoOpenTag("</li>", 'l');
    NoOpenTagAppend(h[1..], x, 'l');
    NoOpenTagAppend(h[1..] + x, "</li>", 'l');
    assert Li(h, x)[1..] == h[1..] + x + "</li>";
  }

  /** A line of the document as the list passes see it: inert text before and after a body that
      is an item of this pass (`Own`, whose opening tag is the pass's), an item of the other pass
      (`Foreign`, with its own opening tag), or no item (`Bare`). */
  datatype Body = Own(x: string) | Foreign(head: string, x: string) | Bare(s: string)
  datatype Row = Row(pre: string, body: Body, post: string)

  function BodyText(head: string, b: Body): string {
    match b
    case Own(x) => Li(head, x)
    case Foreign(h, x) => Li(h, x)
    case Bare(s) => s
  }

  function RowText(head: string, r: Row): string {
    r.pre + BodyText(head, r.body) + r.post
  }

  function Texts(head: string, rs: seq<Row>): (ts: seq<string>)
    ensures |ts| == |rs|
    decreases |rs|
  {
    if rs == [] then [] else [RowText(head, rs[0])] + Texts(head, rs[1..])
  }

  predicate GoodBody(marker: string, b: Body) {
    match b
    case Own(x) => ItemContent(x)
    case Foreign(h, x) => ItemHead(h) && !Holds(marker, h) && Inert(x)
    case Bare(s) => Inert(s)
  }

  /** Inert text around a good body; an own item ends its row. */
  predicate GoodRow(marker: string, r: Row) {
    Inert(r.pre) && Inert(r.post) && GoodBody(marker, r.body) && (r.body.Own? ==> r.post == "")
  }

  /** Good rows, where an own item right below another has nothing before it. */
  predicate GoodRows(marker: string, rs: seq<Row>) {
    && (forall k :: 0 <= k < |rs| ==> GoodRow(marker, rs[k]))
    && (forall k :: 0 < k < |rs| && rs[k - 1].body.Own? && rs[k].body.Own? ==> rs[k].pre == "")
  }

  /** A row as the pass leaves it, given whether the row above is an own item and whether it is
      the last row: a `</ul>` in front of the first row after a run of own items, the opening
      tag in front of the first own item of a run, and a `</ul>` after an own item that ends the
      document. */
  function RowOut(open: string, head: string, above: bool, r: Row, last: bool): string {
    (if above && !r.body.Own? then ListClose else "")
      + r.pre + (if r.body.Own? && !above then open else "")
      + BodyText(head, r.body) + r.post
      + (if r.body.Own? && last then ListClose else "")
  }

  /** The rows as the pass leaves them. */
  function Grouped(open: string, head: string, above: bool, rs: seq<Row>): (out: seq<string>)
    ensures |out| == |rs|
    decreases |rs|
  {
    if rs == [] then []
    else [RowOut(open, head, above, rs[0], |rs| == 1)] + Grouped(open, head, rs[0].body.Own?, rs[1..])
  }

  /** The number of own items the rows start with. */
  function RunLength(rs: seq<Row>): (n: nat)
    ensures n <= |rs|
    ensures forall k :: 0 <= k < n ==> rs[k].body.Own?
    ensures n < |rs| ==> !rs[n].body.Own?
    decreases |rs|
  {
    if rs == [] || !rs[0].body.Own? then 0 else 1 + RunLength(rs[1..])
  }

  lemma TextsCons(head: string, rs: seq<Row>)
    requires |rs| > 1
    ensures Join(Texts(head, rs), '\n') == RowText(head, rs[0]) + "\n" + Join(Texts(head, rs[1..]), '\n')
  {
    JoinCons(RowText(head, rs[0]), Texts(head, rs[1..]), '\n');
  }

  /** A row that is not an own item, followed by a line feed or by nothing, starts no item. */
  lemma NonOwnStart(marker: string, head: string, r: Row, rest: string)
    requires GoodRow(marker, r) && !r.body.Own?
    requires rest == [] || rest[0] == '\n'
    ensures ItemEnd(marker, RowText(head, r) + rest).None?
  {
    if r.pre != [] {
      PrefixedStart(marker, head, r, rest);
    } else if r.body.Foreign? {
      ForeignStart(marker, head, r, rest);
    } else {
      BareStart(marker, head, r, rest);
    }
  }

  lemma PrefixedStart(marker: string, head: string, r: Row, rest: string)
    requires Inert(r.pre) && r.pre != []
    ensures ItemEnd(marker, RowText(head, r) + rest).None?
  {
    InertStart(marker, r.pre, BodyText(head, r.body) + r.post + rest);
    assert RowText(head, r) + rest == r.pre + (BodyText(head, r.body) + r.post + rest);
  }

  lemma ForeignStart(marker: string, head: string, r: Row, rest: string)
    requires r.pre == [] && r.body.Foreign? && ItemHead(r.body.head) && !Holds(marker, r.body.head)
    ensures ItemEnd(marker, RowText(head, r) + rest).None?
  {
    var h := r.body.head;
    ForeignMiss(marker, h, r.body.x + Close("li") + r.post + rest);
    assert RowText(head, r) + rest == h + (r.body.x + Close("li") + r.post + rest);
  }

  lemma BareStart(marker: string, head: string, r: Row, rest: string)
    requires r.pre == [] && r.body.Bare? && Inert(r.body.s) && Inert(r.post)
    requires rest == [] || rest[0] == '\n'
    ensures ItemEnd(marker, RowText(head, r) + rest).None?
  {
    NoOpenTagAppend(r.body.s, r.post, 'l');
    InertLineStart(marker, r.body.s + r.post, rest);
    assert RowText(head, r) + rest == r.body.s + r.post + rest;
  }

  /** Inert text that is not empty starts no item, whatever follows it. */
  lemma InertStart(marker: string, a: string, b: string)
    requires Inert(a) && a != []
    ensures ItemEnd(marker, a + b).None?
  {
    var t := a + b;
    assert t[0] == a[0];
    if a[0] == '<' {
      assert t[1] == a[1];
    }
    NoItemHere(marker, t);
  }

  /** Inert text followed by a line feed or by nothing starts no item. */
  lemma InertLineStart(marker: string, a: string, rest: string)
    requires Inert(a) && (rest == [] || rest[0] == '\n')
    ensures ItemEnd(marker, a + rest).None?
  {
    if a != [] {
      InertStart(marker, a, rest);
    } else {
      assert a + rest == rest;
      NoItemHere(marker, rest);
    }
  }

  /** An item of the other pass is passed over, whatever follows it. */
  lemma ScanForeign(marker: string, open: string, h: string, x: string, rest: string)
    requires ItemHead(h) && !Holds(marker, h) && Inert(x)
    ensures GroupPass(marker, open, Li(h, x) + rest) == Li(h, x) + GroupPass(marker, open, rest)
  {
    var b := Li(h, x);
    ForeignItemMiss(marker, h, x, rest);
    ItemTailInert(h, x);
    ScanInert(marker, open, b[1..], rest);
    ScanFirstMiss(GroupMatcher(marker, open), b, rest);
  }

  /** An item of the other pass starts no item of this one, whatever follows it. */
  lemma ForeignItemMiss(marker: string, h: string, x: string, rest: string)
    requires ItemHead(h) && !Holds(marker, h)
    ensures ItemEnd(marker, Li(h, x) + rest).None?
  {
    ForeignMiss(marker, h, x + Close("li") + rest);
    assert Li(h, x) + rest == h + (x + Close("li") + rest);
  }

  /** A body that is not an own item is passed over, whatever follows it. */
  lemma ScanBody(marker: string, open: string, head: string, b: Body, rest: string)
    requires GoodBody(marker, b) && !b.Own?
    ensures GroupPass(marker, open, BodyText(head, b) + rest)
      == BodyText(head, b) + GroupPass(marker, open, rest)
  {
    if b.Foreign? {
      ScanForeign(marker, open, b.head, b.x, rest);
    } else {
      ScanInert(marker, open, b.s, rest);
    }
  }

  /** A row that is not an own item is passed over, whatever follows it. */
  lemma ScanNonOwn(marker: string, open: string, head: string, r: Row, rest: string)
    requires GoodRow(marker, r) && !r.body.Own?
    ensures GroupPass(marker, open, RowText(head, r) + rest)
      == RowText(head, r) + GroupPass(marker, open, rest)
  {
    var b := BodyText(head, r.body);
    ScanInert(marker, open, r.post, rest);
    ScanBody(marker, open, head, r.body, r.post + rest);
    ScanInert(marker, open, r.pre, b + (r.post + rest));
    ScanPieces(GroupMatcher(marker, open), r.pre, b, r.post, rest);
  }

  /** Own items with nothing before or after them, one per row. */
  predicate PlainRun(rs: seq<Row>) {
    forall k :: 0 <= k < |rs| ==>
      rs[k].body.Own? && rs[k].pre == "" && rs[k].post == "" && ItemContent(rs[k].body.x)
  }

  /** One item, then the chain after it. */
  lemma ChainStep(marker: string, t: string, e: nat)
    requires ItemEnd(marker, t) == Some(e)
    ensures ChainLength(marker, t) == e + ChainLength(marker, t[e..])
  {
  }

  /** An own item, then a line feed and more text: the chain goes on after the line feed. */
  lemma ItemThenMore(marker: string, h: string, x: string, u: string)
    requires ItemHead(h) && Holds(marker, h) && ItemContent(x)
    ensures ChainLength(marker, Li(h, x) + ("\n" + u)) == |Li(h, x)| + 1 + ChainLength(marker, u)
  {
    OwnItemEnd(marker, h, x, "\n" + u, |Li(h, x)| + 1);
    ChainAfterLine(marker, Li(h, x), u);
  }

  /** A repetition that ends with a line feed, then the chain after it. */
  lemma ChainAfterLine(marker: string, a: string, u: string)
    requires ItemEnd(marker, a + ("\n" + u)) == Some(|a| + 1)
    ensures ChainLength(marker, a + ("\n" + u)) == |a| + 1 + ChainLength(marker, u)
  {
    AroundLineFeed(a, u, []);
    ChainStep(marker, a + ("\n" + u), |a| + 1);
  }

  /** A last own item: the chain ends with it and the line feed after it, if any (`k` of them). */
  lemma ItemThenStop(marker: string, h: string, x: string, rest: string, k: nat)
    requires ItemHead(h) && Holds(marker, h) && ItemContent(x)
    requires rest == [] || (rest[0] == '\n' && ItemEnd(marker, rest[1..]).None?)
    requires k == if rest == [] then 0 else 1
    ensures ChainLength(marker, Li(h, x) + rest) == |Li(h, x)| + k
  {
    if rest == [] {
      ItemThenEnd(marker, h, x);
      assert Li(h, x) + rest == Li(h, x);
    } else {
      ItemThenBreak(marker, h, x, rest[1..]);
      assert rest == "\n" + rest[1..];
    }
  }

  /** A last own item that ends the text. */
  lemma ItemThenEnd(marker: string, h: string, x: string)
    requires ItemHead(h) && Holds(marker, h) && ItemContent(x)
    ensures ChainLength(marker, Li(h, x)) == |Li(h, x)|
  {
    var i := Li(h, x);
    assert i + [] == i;
    OwnItemEnd(marker, h, x, [], |i|);
    ChainStep(marker, i, |i|);
    assert i[|i|..] == [];
  }

  /** A last own item followed by a line feed and text that starts no item. */
  lemma ItemThenBreak(marker: string, h: string, x: string, after: string)
    requires ItemHead(h) && Holds(marker, h) && ItemContent(x)
    requires ItemEnd(marker, after).None?
    ensures ChainLength(marker, Li(h, x) + ("\n" + after)) == |Li(h, x)| + 1
  {
    OwnItemEnd(marker, h, x, "\n" + after, |Li(h, x)| + 1);
    ChainAfterLine(marker, Li(h, x), after);
  }

  /** The rows of a run, joined: the first item, then the others. */
  lemma RunTextCons(head: string, run: seq<Row>)
    requires |run| > 1 && PlainRun(run)
    ensures Join(Texts(head, run), '\n') == Li(head, run[0].body.x) + "\n" + Join(Texts(head, run[1..]), '\n')
  {
    TextsCons(head, run);
    assert RowText(head, run[0]) == Li(head, run[0].body.x);
  }

  /** A run of one item. */
  lemma RunChainOne(marker: string, head: string, run: seq<Row>, rest: string, k: nat)
    requires ItemHead(head) && Holds(marker, head)
    requires |run| == 1 && PlainRun(run)
    requires rest == [] || (rest[0] == '\n' && ItemEnd(marker, rest[1..]).None?)
    requires k == if rest == [] then 0 else 1
    ensures ChainLength(marker, Join(Texts(head, run), '\n') + rest) == |Join(Texts(head, run), '\n')| + k
  {
    assert Texts(head, run) == [RowText(head, run[0])];
    assert Join(Texts(head, run), '\n') == Li(head, run[0].body.x);
    ItemThenStop(marker, head, run[0].body.x, rest, k);
  }

  /** A run of more items: the first, its line feed, then the chain of the others. */
  lemma RunChainStep(marker: string, head: string, run: seq<Row>, rest: string)
    requires ItemHead(head) && Holds(marker, head)
    requires |run| > 1 && PlainRun(run)
    ensures var j := Join(Texts(head, run[1..]), '\n');
      && ChainLength(marker, Join(Texts(head, run), '\n') + rest)
        == |Li(head, run[0].body.x)| + 1 + ChainLength(marker, j + rest)
      && |Join(Texts(head, run), '\n')| == |Li(head, run[0].body.x)| + 1 + |j|
  {
    var x := run[0].body.x;
    var j := Join(Texts(head, run[1..]), '\n');
    RunTextCons(head, run);
    AroundLineFeed(Li(head, x), j, rest);
    ItemThenMore(marker, head, x, j + rest);
  }

  /** The items of a run follow each other directly, so the chain takes them all, and the line
      feed after the last one when one follows (`k` of them). */
  lemma {:induction false} RunChain(marker: string, head: string, run: seq<Row>, rest: string, k: nat)
    requires ItemHead(head) && Holds(marker, head)
    requires run != [] && PlainRun(run)
    requires rest == [] || (rest[0] == '\n' && ItemEnd(marker, rest[1..]).None?)
    requires k == if rest == [] then 0 else 1
    ensures ChainLength(marker, Join(Texts(head, run), '\n') + rest) == |Join(Texts(head, run), '\n')| + k
    decreases |run|
  {
    if |run| == 1 {
      RunChainOne(marker, head, run, rest, k);
    } else {
      RunChainStep(marker, head, run, rest);
      RunChain(marker, head, run[1..], rest, k);
    }
  }

  /** A run of items that ends the text is one match: the items inside the opening tag and
      `</ul>`. */
  lemma ScanRunEnd(marker: string, open: string, head: string, run: seq<Row>)
    requires ItemHead(head) && Holds(marker, head)
    requires run != [] && PlainRun(run)
    ensures var r := Join(Texts(head, run), '\n');
      GroupPass(marker, open, r) == open + r + ListClose
  {
    var r := Join(Texts(head, run), '\n');
    assert r + [] == r;
    RunChain(marker, head, run, [], 0);
    RunStart(marker, head, run, []);
    assert r[..|r|] == r;
    assert GroupAt(marker, open, r) == Some(Hit(|r|, open + r + ListClose));
    ScanHitAll(GroupMatcher(marker, open), r, open, ListClose);
  }

  /** A run of items followed by a line feed and text that starts no item is one match: the
      items and that line feed inside the opening tag and `</ul>`. */
  lemma ScanRunBreak(marker: string, open: string, head: string, run: seq<Row>, after: string)
    requires ItemHead(head) && Holds(marker, head)
    requires run != [] && PlainRun(run)
    requires ItemEnd(marker, after).None?
    ensures var r := Join(Texts(head, run), '\n');
      GroupPass(marker, open, r + ("\n" + after))
        == open + r + "\n" + ListClose + GroupPass(marker, open, after)
  {
    var r := Join(Texts(head, run), '\n');
    var t := r + ("\n" + after);
    assert ("\n" + after)[1..] == after;
    RunChain(marker, head, run, "\n" + after, 1);
    RunStart(marker, head, run, "\n" + after);
    assert t[..|r| + 1] == r + "\n";
    assert GroupAt(marker, open, t) == Some(Hit(|r| + 1, open + (r + "\n") + ListClose));
    ScanHitLine(GroupMatcher(marker, open), r, after, open, ListClose);
  }

  /** A run starts with an item. */
  lemma RunStart(marker: string, head: string, run: seq<Row>, rest: string)
    requires ItemHead(head) && Holds(marker, head)
    requires run != [] && PlainRun(run)
    ensures ItemEnd(marker, Join(Texts(head, run), '\n') + rest).Some?
  {
    var x := run[0].body.x;
    var ts := Texts(head, run);
    var r := Join(ts, '\n');
    assert ts[0] == Li(head, x) by {
      assert ts[0] == RowText(head, run[0]);
    }
    JoinFirst(ts, '\n');
    var u := r[|Li(head, x)|..] + rest;
    assert r + rest == Li(head, x) + u;
    OwnItemEnd(marker, head, x, u, |Li(head, x)| + if u != [] && u[0] == '\n' then 1 else 0);
  }

  /** The row after a run: `</ul>` in front of it. */
  lemma CloseAfterRun(open: string, head: string, rs: seq<Row>)
    requires rs != [] && !rs[0].body.Own?
    ensures Join(Grouped(open, head, true, rs), '\n') == ListClose + Join(Grouped(open, head, false, rs), '\n')
  {
    var a := RowOut(open, head, false, rs[0], |rs| == 1);
    assert RowOut(open, head, true, rs[0], |rs| == 1) == ListClose + a;
    var g := Grouped(open, head, false, rs[1..]);
    assert Grouped(open, head, true, rs) == [ListClose + a] + g;
    assert Grouped(open, head, false, rs) == [a] + g;
    if |rs| > 1 {
      JoinCons(ListClose + a, g, '\n');
      JoinCons(a, g, '\n');
    }
  }

  /** A run of one item, read from that item on. */
  lemma InRunOne(open: string, head: string, rs: seq<Row>)
    requires 1 <= |rs| && PlainRun(rs[..1]) && (1 < |rs| ==> !rs[1].body.Own?)
    ensures Join(Grouped(open, head, true, rs), '\n')
      == Join(Texts(head, rs[..1]), '\n')
        + if 1 < |rs| then "\n" + ListClose + Join(Grouped(open, head, false, rs[1..]), '\n')
          else ListClose
  {
    var i := BodyText(head, rs[0].body);
    assert rs[..1][0] == rs[0];
    assert RowText(head, rs[0]) == i;
    assert Texts(head, rs[..1]) == [i];
    var g := Grouped(open, head, true, rs[1..]);
    assert Grouped(open, head, true, rs) == [RowOut(open, head, true, rs[0], |rs| == 1)] + g;
    if |rs| > 1 {
      assert RowOut(open, head, true, rs[0], false) == i;
      JoinCons(i, g, '\n');
      CloseAfterRun(open, head, rs[1..]);
    } else {
      assert RowOut(open, head, true, rs[0], true) == i + ListClose;
    }
  }

  /** A run of more items, read from its first item on, given the same for its second item on. */
  lemma InRunStep(open: string, head: string, rs: seq<Row>, n: nat, tail: string)
    requires 2 <= n <= |rs| && PlainRun(rs[..n])
    requires tail == if n < |rs| then "\n" + ListClose + Join(Grouped(open, head, false, rs[n..]), '\n')
      else ListClose
    requires Join(Grouped(open, head, true, rs[1..]), '\n') == Join(Texts(head, rs[1..n]), '\n') + tail
    ensures Join(Grouped(open, head, true, rs), '\n') == Join(Texts(head, rs[..n]), '\n') + tail
  {
    var i := BodyText(head, rs[0].body);
    RunHeadOut(open, head, rs, n);
    assert rs[..n][1..] == rs[1..n];
    TextsCons(head, rs[..n]);
    assert rs[..n][0] == rs[0];
    assert RowText(head, rs[0]) == i;
    JoinStep(Join(Grouped(open, head, true, rs), '\n'), i, Join(Grouped(open, head, true, rs[1..]), '\n'),
      Join(Texts(head, rs[1..n]), '\n'), tail, Join(Texts(head, rs[..n]), '\n'));
  }

  /** The first item of a run that goes on is kept as it is, in front of the others. */
  lemma RunHeadOut(open: string, head: string, rs: seq<Row>, n: nat)
    requires 2 <= n <= |rs| && PlainRun(rs[..n])
    ensures Join(Grouped(open, head, true, rs), '\n')
      == BodyText(head, rs[0].body) + "\n" + Join(Grouped(open, head, true, rs[1..]), '\n')
  {
    var i := BodyText(head, rs[0].body);
    assert rs[..n][0] == rs[0];
    assert RowOut(open, head, true, rs[0], false) == i;
    var g := Grouped(open, head, true, rs[1..]);
    assert Grouped(open, head, true, rs) == [i] + g;
    JoinCons(i, g, '\n');
  }

  /** Regrouping of the pieces of a run. */
  lemma JoinStep(j: string, i: string, g: string, t1: string, tail: string, t: string)
    requires j == i + "\n" + g && g == t1 + tail && t == i + "\n" + t1
    ensures j == t + tail
  {
  }

  /** The output of a run, read from its first item on: the items as they are, then `</ul>`,
      in front of the next row or at the end. */
  lemma {:induction false} InRun(open: string, head: string, rs: seq<Row>, n: nat)
    requires 1 <= n <= |rs| && PlainRun(rs[..n]) && (n < |rs| ==> !rs[n].body.Own?)
    ensures Join(Grouped(open, head, true, rs), '\n')
      == Join(Texts(head, rs[..n]), '\n')
        + if n < |rs| then "\n" + ListClose + Join(Grouped(open, head, false, rs[n..]), '\n')
          else ListClose
    decreases n
  {
    if n == 1 {
      InRunOne(open, head, rs);
    } else {
      var tail := if n < |rs| then "\n" + ListClose + Join(Grouped(open, head, false, rs[n..]), '\n')
        else ListClose;
      assert PlainRun(rs[1..][..n - 1]) by {
        assert rs[1..][..n - 1] == rs[..n][1..];
      }
      InRun(open, head, rs[1..], n - 1);
      assert rs[1..][..n - 1] == rs[1..n];
      assert rs[1..][n - 1..] == rs[n..];
      InRunStep(open, head, rs, n, tail);
    }
  }

  lemma {:induction false} TextsAppend(head: string, xs: seq<Row>, ys: seq<Row>)
    ensures Texts(head, xs + ys) == Texts(head, xs) + Texts(head, ys)
    decreases |xs|
  {
    if xs == [] {
      assert xs + ys == ys;
    } else {
      assert (xs + ys)[1..] == xs[1..] + ys;
      TextsAppend(head, xs[1..], ys);
    }
  }

  /** The rows before `n` and those from `n` on are joined by a line feed. */
  lemma TextsSplit(head: string, rs: seq<Row>, n: nat)
    requires 0 < n < |rs|
    ensures Join(Texts(head, rs), '\n')
      == Join(Texts(head, rs[..n]), '\n') + "\n" + Join(Texts(head, rs[n..]), '\n')
  {
    assert rs == rs[..n] + rs[n..];
    TextsAppend(head, rs[..n], rs[n..]);
    JoinAppend(Texts(head, rs[..n]), Texts(head, rs[n..]), '\n');
  }

  /** The first row without what stands before its body. */
  function Unprefixed(rs: seq<Row>): seq<Row>
    requires rs != []
  {
    [Row("", rs[0].body, rs[0].post)] + rs[1..]
  }

  lemma TextsHead(head: string, rs: seq<Row>)
    requires rs != []
    ensures Join(Texts(head, rs), '\n') == rs[0].pre + Join(Texts(head, Unprefixed(rs)), '\n')
  {
    var us := Unprefixed(rs);
    var a := RowText(head, us[0]);
    assert RowText(head, rs[0]) == rs[0].pre + a;
    assert us[1..] == rs[1..];
    var t := Texts(head, rs[1..]);
    assert Texts(head, rs) == [rs[0].pre + a] + t;
    assert Texts(head, us) == [a] + t;
    if |rs| > 1 {
      JoinCons(rs[0].pre + a, t, '\n');
      JoinCons(a, t, '\n');
    }
  }

  lemma GroupedHead(open: string, head: string, rs: seq<Row>)
    requires rs != [] && rs[0].body.Own?
    ensures Join(Grouped(open, head, false, rs), '\n')
      == rs[0].pre + open + Join(Grouped(open, head, true, Unprefixed(rs)), '\n')
  {
    var us := Unprefixed(rs);
    var a := RowOut(open, head, true, us[0], |rs| == 1);
    assert RowOut(open, head, false, rs[0], |rs| == 1) == rs[0].pre + open + a;
    assert us[1..] == rs[1..];
    var g := Grouped(open, head, true, rs[1..]);
    assert Grouped(open, head, false, rs) == [rs[0].pre + open + a] + g;
    assert Grouped(open, head, true, us) == [a] + g;
    if |rs| > 1 {
      JoinCons(rs[0].pre + open + a, g, '\n');
      JoinCons(a, g, '\n');
    }
  }

  /** Under a good row sequence, the leading own items, their first one unprefixed, are a run. */
  lemma RunOfGoodRows(marker: string, rs: seq<Row>)
    requires rs != [] && rs[0].body.Own? && GoodRows(marker, rs)
    ensures var n := RunLength(rs);
      1 <= n && PlainRun(Unprefixed(rs)[..n]) && (n < |rs| ==> !Unprefixed(rs)[n].body.Own?)
  {
    var n := RunLength(rs);
    var us := Unprefixed(rs);
    forall k | 0 <= k < n
      ensures us[..n][k].body.Own? && us[..n][k].pre == "" && us[..n][k].post == ""
        && ItemContent(us[..n][k].body.x)
    {
      if k > 0 {
        assert us[k] == rs[k];
        assert rs[k - 1].body.Own?;
      }
    }
  }

  /** Rows from a non-item row on, joined: they start no item. */
  lemma NonOwnRowsStart(marker: string, head: string, rs: seq<Row>)
    requires rs != [] && !rs[0].body.Own? && GoodRow(marker, rs[0])
    ensures ItemEnd(marker, Join(Texts(head, rs), '\n')).None?
  {
    if |rs| == 1 {
      LastRowStart(marker, head, rs);
    } else {
      TextsCons(head, rs);
      NonOwnStart(marker, head, rs[0], "\n" + Join(Texts(head, rs[1..]), '\n'));
      assert RowText(head, rs[0]) + "\n" + Join(Texts(head, rs[1..]), '\n')
        == RowText(head, rs[0]) + ("\n" + Join(Texts(head, rs[1..]), '\n'));
    }
  }

  lemma LastRowStart(marker: string, head: string, rs: seq<Row>)
    requires |rs| == 1 && !rs[0].body.Own? && GoodRow(marker, rs[0])
    ensures ItemEnd(marker, Join(Texts(head, rs), '\n')).None?
  {
    assert Texts(head, rs) == [RowText(head, rs[0])];
    assert Join(Texts(head, rs), '\n') == RowText(head, rs[0]) + [];
    NonOwnStart(marker, head, rs[0], []);
  }

  lemma GoodRowsTail(marker: string, rs: seq<Row>, n: nat)
    requires GoodRows(marker, rs) && n <= |rs|
    ensures GoodRows(marker, rs[n..])
  {
    forall k | 0 <= k < |rs[n..]| ensures rs[n..][k] == rs[n + k] {
    }
  }

  /** A first row that is not an own item is output as it is. */
  lemma GroupedBareHead(open: string, head: string, rs: seq<Row>)
    requires |rs| > 1 && !rs[0].body.Own?
    ensures Join(Grouped(open, head, false, rs), '\n')
      == RowText(head, rs[0]) + "\n" + Join(Grouped(open, head, false, rs[1..]), '\n')
  {
    var a := RowText(head, rs[0]);
    assert RowOut(open, head, false, rs[0], false) == a;
    var g := Grouped(open, head, false, rs[1..]);
    assert Grouped(open, head, false, rs) == [a] + g;
    JoinCons(a, g, '\n');
  }

  /** The rows start with a row that is not an own item: it is passed over. */
  lemma GroupRowsBare(marker: string, open: string, head: string, rs: seq<Row>)
    requires |rs| > 1 && !rs[0].body.Own? && GoodRows(marker, rs)
    requires GroupPass(marker, open, Join(Texts(head, rs[1..]), '\n'))
      == Join(Grouped(open, head, false, rs[1..]), '\n')
    ensures GroupPass(marker, open, Join(Texts(head, rs), '\n'))
      == Join(Grouped(open, head, false, rs), '\n')
  {
    var a := RowText(head, rs[0]);
    var j := Join(Texts(head, rs[1..]), '\n');
    TextsCons(head, rs);
    ScanNonOwn(marker, open, head, rs[0], "\n" + j);
    ScanInert(marker, open, "\n", j);
    GroupedBareHead(open, head, rs);
    ScanLine(GroupMatcher(marker, open), Join(Texts(head, rs), '\n'), a, j,
      Join(Grouped(open, head, false, rs), '\n'), Join(Grouped(open, head, false, rs[1..]), '\n'));
  }

  /** Regrouping of a run that ends the rows. */
  lemma RunAtEnd(m: Matcher, s: string, pre: string, r: string, open: string, close: string,
                 o: string, g: string)
    requires s == pre + r && o == pre + open + g && g == r + close
    requires Scan(m, pre + r) == pre + Scan(m, r) && Scan(m, r) == open + r + close
    ensures Scan(m, s) == o
  {
  }

  /** The text and the output around a run followed by more rows, regrouped. */
  lemma Regroup(s: string, pre: string, r: string, after: string, open: string,
                close: string, o: string, g: string, ga: string)
    requires s == pre + (r + "\n" + after) && o == pre + open + g
    requires g == r + ("\n" + close + ga)
    ensures s == pre + (r + ("\n" + after))
    ensures o == pre + (open + r + "\n" + close + ga)
  {
    assert r + "\n" + after == r + ("\n" + after);
    assert open + r + "\n" + close + ga == open + (r + ("\n" + close + ga));
  }

  /** Regrouping of a run followed by more rows. */
  lemma RunThenMore(m: Matcher, s: string, pre: string, r: string, after: string, open: string,
                    close: string, o: string, g: string, ga: string)
    requires s == pre + (r + "\n" + after) && o == pre + open + g
    requires g == r + ("\n" + close + ga)
    requires Scan(m, pre + (r + ("\n" + after))) == pre + Scan(m, r + ("\n" + after))
    requires Scan(m, r + ("\n" + after)) == open + r + "\n" + close + Scan(m, after)
    requires Scan(m, after) == ga
    ensures Scan(m, s) == o
  {
    Regroup(s, pre, r, after, open, close, o, g, ga);
  }

  /** The rows start with a run of own items: the run is one match, then the rows after it. */
  lemma GroupRowsRun(marker: string, open: string, head: string, rs: seq<Row>)
    requires ItemHead(head) && Holds(marker, head)
    requires rs != [] && rs[0].body.Own? && GoodRows(marker, rs)
    requires RunLength(rs) < |rs| ==>
      GroupPass(marker, open, Join(Texts(head, rs[RunLength(rs)..]), '\n'))
        == Join(Grouped(open, head, false, rs[RunLength(rs)..]), '\n')
    ensures GroupPass(marker, open, Join(Texts(head, rs), '\n'))
      == Join(Grouped(open, head, false, rs), '\n')
  {
    if RunLength(rs) == |rs| {
      GroupRowsRunEnd(marker, open, head, rs);
    } else {
      GroupRowsRunBreak(marker, open, head, rs);
    }
  }

  /** Own items to the end of the rows: one match. */
  lemma GroupRowsRunEnd(marker: string, open: string, head: string, rs: seq<Row>)
    requires ItemHead(head) && Holds(marker, head)
    requires rs != [] && rs[0].body.Own? && GoodRows(marker, rs) && RunLength(rs) == |rs|
    ensures GroupPass(marker, open, Join(Texts(head, rs), '\n'))
      == Join(Grouped(open, head, false, rs), '\n')
  {
    var m := GroupMatcher(marker, open);
    var n := RunLength(rs);
    var us := Unprefixed(rs);
    var pre := rs[0].pre;
    RunOfGoodRows(marker, rs);
    TextsHead(head, rs);
    GroupedHead(open, head, rs);
    InRun(open, head, us, n);
    assert us[..n] == us;
    var r := Join(Texts(head, us), '\n');
    ScanRunEnd(marker, open, head, us);
    ScanInert(marker, open, pre, r);
    RunAtEnd(m, Join(Texts(head, rs), '\n'), pre, r, open, ListClose,
      Join(Grouped(open, head, false, rs), '\n'), Join(Grouped(open, head, true, us), '\n'));
  }

  /** A run of own items, then a row that is not one: the run is one match, then the rows from
      that row on. */
  lemma GroupRowsRunBreak(marker: string, open: string, head: string, rs: seq<Row>)
    requires ItemHead(head) && Holds(marker, head)
    requires rs != [] && rs[0].body.Own? && GoodRows(marker, rs) && RunLength(rs) < |rs|
    requires GroupPass(marker, open, Join(Texts(head, rs[RunLength(rs)..]), '\n'))
      == Join(Grouped(open, head, false, rs[RunLength(rs)..]), '\n')
    ensures GroupPass(marker, open, Join(Texts(head, rs), '\n'))
      == Join(Grouped(open, head, false, rs), '\n')
  {
    var m := GroupMatcher(marker, open);
    var n := RunLength(rs);
    var us := Unprefixed(rs);
    var pre := rs[0].pre;
    RunOfGoodRows(marker, rs);
    TextsHead(head, rs);
    GroupedHead(open, head, rs);
    InRun(open, head, us, n);
    var r := Join(Texts(head, us[..n]), '\n');
    var after := Join(Texts(head, rs[n..]), '\n');
    assert us[n..] == rs[n..];
    TextsSplit(head, us, n);
    assert rs[n..][0] == rs[n];
    NonOwnRowsStart(marker, head, rs[n..]);
    ScanRunBreak(marker, open, head, us[..n], after);
    ScanInert(marker, open, pre, r + ("\n" + after));
    RunThenMore(m, Join(Texts(head, rs), '\n'), pre, r, after, open, ListClose,
      Join(Grouped(open, head, false, rs), '\n'), Join(Grouped(open, head, true, us), '\n'),
      Join(Grouped(open, head, false, rs[n..]), '\n'));
  }

  /** One row that is not an own item. */
  lemma GroupRowsSingle(marker: string, open: string, head: string, rs: seq<Row>)
    requires |rs| == 1 && !rs[0].body.Own? && GoodRows(marker, rs)
    ensures GroupPass(marker, open, Join(Texts(head, rs), '\n'))
      == Join(Grouped(open, head, false, rs), '\n')
  {
    var a := RowText(head, rs[0]);
    assert Texts(head, rs) == [a];
    assert RowOut(open, head, false, rs[0], true) == a;
    assert Grouped(open, head, false, rs) == [a];
    ScanNonOwn(marker, open, head, rs[0], []);
    assert a + [] == a;
  }

  /** A list pass over rows: every maximal run of own items becomes one list, its opening tag in
      front of the first item, `</ul>` at the start of the row after the last item, or after the
      last item when it ends the text; everything else is kept. */
  lemma {:induction false} GroupRows(marker: string, open: string, head: string, rs: seq<Row>)
    requires ItemHead(head) && Holds(marker, head)
    requires rs != [] && GoodRows(marker, rs)
    ensures GroupPass(marker, open, Join(Texts(head, rs), '\n'))
      == Join(Grouped(open, head, false, rs), '\n')
    decreases |rs|
  {
    if !rs[0].body.Own? {
      if |rs| == 1 {
        GroupRowsSingle(marker, open, head, rs);
      } else {
        GoodRowsTail(marker, rs, 1);
        GroupRows(marker, open, head, rs[1..]);
        GroupRowsBare(marker, open, head, rs);
      }
    } else {
      var n := RunLength(rs);
      if n < |rs| {
        GoodRowsTail(marker, rs, n);
        GroupRows(marker, open, head, rs[n..]);
      }
      GroupRowsRun(marker, open, head, rs);
    }
  }
}
