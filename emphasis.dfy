/** Bold-italic, bold and italic (newsletter.mjs:144, 167-171): the global patterns
    `\*\*\*(.+?)\*\*\*`, `\*\*(.+?)\*\*` and `\*([^*\n]+?)\*`. Each takes an opening marker, at
    least one content character, and the nearest closing marker after it (the `?` makes the
    content lazy); a content character must not be a line terminator (`.`), or for italic neither
    `*` nor a line feed (`[^*\n]`). */
module Emphasis {
  import opened Text
  import opened Scanner
  import opened Markup

  datatype Emph = BoldItalic | Bold | Italic

  function Marker(e: Emph): (w: string)
    ensures w != [] && w[0] == '*'
  {
    match e
    case BoldItalic => "***"
    case Bold => "**"
    case Italic => "*"
  }

  /** The characters the content of a marker pair may hold. */
  predicate Allowed(e: Emph, ch: char) {
    match e
    case Italic => ch != '*' && ch != '\n'
    case _ => !IsLineTerminator(ch)
  }

  function Wrap(e: Emph, x: string): string {
    match e
    case BoldItalic => StrongEm(x)
    case Bold => Strong(x)
    case Italic => Em(x)
  }

  /** `t` starts with the marker of `e`, then content `t[|w|..k]`, then the marker again at `k`,
      the nearest one after the first content character. */
  predicate Closes(e: Emph, t: string, k: int) {
    var w := Marker(e);
    && |w| < k && k + |w| <= |t| && StartsWith(t, w) && StartsWith(t[k..], w)
    && (forall j :: |w| <= j < k ==> Allowed(e, t[j]))
    && (forall j :: |w| < j < k ==> !StartsWith(t[j..], w))
  }

  /** The search of the lazy content for its closing marker, at index `i`. */
  function CloseFrom(e: Emph, t: string, i: nat): (r: Option<nat>)
    requires StartsWith(t, Marker(e)) && |Marker(e)| < i <= |t|
    requires forall j :: |Marker(e)| <= j < i ==> Allowed(e, t[j])
    requires forall j :: |Marker(e)| < j < i ==> !StartsWith(t[j..], Marker(e))
    ensures r.Some? ==> Closes(e, t, r.value)
    ensures r.None? ==> forall k :: !Closes(e, t, k)
    decreases |t| - i
  {
    if i == |t| then None
    else if StartsWith(t[i..], Marker(e)) then Some(i)
    else if !Allowed(e, t[i]) then None
    else CloseFrom(e, t, i + 1)
  }

  /** Where the content of a marker pair at the start of `t` ends. */
  function ContentEnd(e: Emph, t: string): (r: Option<nat>)
    ensures r.Some? ==> Closes(e, t, r.value)
    ensures r.None? ==> forall k :: !Closes(e, t, k)
  {
    var w := Marker(e);
    if StartsWith(t, w) && |w| < |t| && Allowed(e, t[|w|]) then CloseFrom(e, t, |w| + 1)
    else None
  }

  /** The match of the pattern of `e` at the start of `t`. */
  function EmphasisAt(e: Emph, t: string): Option<Hit> {
    match ContentEnd(e, t)
    case Some(k) => Some(Hit(k + |Marker(e)|, Wrap(e, t[|Marker(e)|..k])))
    case None => None
  }

  function EmphasisMatcher(e: Emph): Matcher {
    t => EmphasisAt(e, t)
  }

  function EmphasisPass(e: Emph, s: string): string {
    Scan(EmphasisMatcher(e), s)
  }

  /** At most one closing marker qualifies. */
  lemma ClosesUnique(e: Emph, t: string, k: int, k': int)
    requires Closes(e, t, k) && Closes(e, t, k')
    ensures k == k'
  {
  }

  /** The pattern matches exactly when a marker pair closes, and then replaces the pair and its
      content by the tag around the content. */
  lemma EmphasisAtMeaning(e: Emph, t: string, k: int)
    ensures EmphasisAt(e, t).Some? ==> exists k' :: Closes(e, t, k')
    ensures Closes(e, t, k) ==>
      EmphasisAt(e, t) == Some(Hit(k + |Marker(e)|, Wrap(e, t[|Marker(e)|..k])))
  {
    if Closes(e, t, k) {
      ClosesUnique(e, t, k, ContentEnd(e, t).value);
    }
  }

  /** Every match starts with `*`. */
  lemma StartsWithStar(e: Emph)
    ensures forall t :: EmphasisMatcher(e)(t).Some? ==> t != [] && t[0] == '*'
  {
    forall t | EmphasisMatcher(e)(t).Some? ensures t != [] && t[0] == '*' {
      assert Closes(e, t, ContentEnd(e, t).value);
    }
  }

  /** Text without `*` is left alone. */
  lemma NoStarUnchanged(e: Emph, s: string)
    requires '*' !in s
    ensures EmphasisPass(e, s) == s
  {
    StartsWithStar(e);
    ScanIdentity(EmphasisMatcher(e), '*', s);
  }

  /** Without a later `*`, a marker has no partner. */
  lemma NoPartner(e: Emph, t: string)
    requires forall j :: |Marker(e)| <= j < |t| ==> t[j] != '*'
    ensures EmphasisAt(e, t).None?
  {
    forall k ensures !Closes(e, t, k) {
      if |Marker(e)| <= k < |t| {
        assert t[k] != '*';
      }
    }
  }

  /** Content the pattern of `e` admits between its markers: at least one character, no `*`, and
      only characters the pattern allows. */
  predicate Content(e: Emph, x: string) {
    x != [] && '*' !in x && forall i :: 0 <= i < |x| ==> Allowed(e, x[i])
  }

  /** Content on one line without `*` is content of every pattern. */
  lemma LineContent(e: Emph, x: string)
    requires x != [] && '*' !in x && LineFree(x)
    ensures Content(e, x)
  {
    forall i | 0 <= i < |x| ensures Allowed(e, x[i]) {
      assert !IsLineTerminator(x[i]);
    }
  }

  /** A marker pair around content closes at the second marker. */
  lemma PairCloses(e: Emph, x: string, b: string)
    requires Content(e, x)
    ensures Closes(e, Marker(e) + x + Marker(e) + b, |Marker(e)| + |x|)
  {
    var w := Marker(e);
    var t := w + x + w + b;
    var k := |w| + |x|;
    assert t[..|w|] == w;
    assert t[k..][..|w|] == w;
    forall j | |w| <= j < k ensures Allowed(e, t[j]) && t[j] != '*' {
      assert t[j] == x[j - |w|];
    }
  }

  /** The pattern matches such a pair at the start of a string, and replaces it by the tag around
      its content. */
  lemma PairHit(e: Emph, x: string, b: string)
    requires Content(e, x)
    ensures EmphasisAt(e, Marker(e) + x + Marker(e) + b)
      == Some(Hit(|Marker(e) + x + Marker(e)|, Wrap(e, x)))
  {
    var w := Marker(e);
    var t := w + x + w + b;
    var k := |w| + |x|;
    PairCloses(e, x, b);
    assert ContentEnd(e, t) == Some(k) by {
      ClosesUnique(e, t, k, ContentEnd(e, t).value);
    }
    assert t[|w|..k] == x;
  }

  /** A marker pair around content becomes the tag around it; text before it without `*` is
      kept, and scanning resumes after the closing marker. */
  lemma ContentWraps(e: Emph, a: string, x: string, b: string)
    requires '*' !in a && Content(e, x)
    ensures EmphasisPass(e, a + (Marker(e) + x + Marker(e)) + b) == a + Wrap(e, x) + EmphasisPass(e, b)
  {
    var w := Marker(e);
    PairHit(e, x, b);
    StartsWithStar(e);
    ScanHitAfter(EmphasisMatcher(e), '*', a, w + x + w, b, Wrap(e, x));
  }

  /** `**x**`, `***x***` or `*x*`, with `x` on one line and without `*`, becomes the tag around
      `x`; text before it without `*` is kept, and scanning resumes after the closing marker. */
  lemma Wraps(e: Emph, a: string, x: string, b: string)
    requires '*' !in a && x != [] && '*' !in x && LineFree(x)
    ensures EmphasisPass(e, a + (Marker(e) + x + Marker(e)) + b) == a + Wrap(e, x) + EmphasisPass(e, b)
  {
    LineContent(e, x);
    ContentWraps(e, a, x, b);
  }

  lemma ReturnBetween(x: string, y: string)
    requires '*' !in x && '*' !in y && '\n' !in x && '\n' !in y
    ensures Content(Italic, x + "\r" + y)
    ensures "" + (Marker(Italic) + (x + "\r" + y) + Marker(Italic)) + "" == "*" + x + "\r" + y + "*"
  {
    var c := x + "\r" + y;
    forall i | 0 <= i < |c| ensures Allowed(Italic, c[i]) {
      if i < |x| {
        assert c[i] == x[i];
      } else if i > |x| {
        assert c[i] == y[i - |x| - 1];
      }
    }
  }

  /** The italic pattern excludes only `*` and the line feed: its content may hold a carriage
      return (or a line or paragraph separator), so `*x\ry*` becomes one italic span. */
  lemma ItalicSpansReturn(x: string, y: string)
    requires '*' !in x && '*' !in y && '\n' !in x && '\n' !in y
    ensures EmphasisPass(Italic, "*" + x + "\r" + y + "*") == Em(x + "\r" + y)
  {
    ReturnBetween(x, y);
    ContentWraps(Italic, "", x + "\r" + y, "");
    assert "" + Em(x + "\r" + y) + EmphasisPass(Italic, "") == Em(x + "\r" + y);
  }

  /** An opening `**` with no closing partner is left as literal characters. */
  lemma UnclosedBoldKept(x: string)
    requires '*' !in x
    ensures EmphasisPass(Bold, "**" + x) == "**" + x
  {
    var u := "*" + x;
    NoPartner(Bold, "**" + x);
    assert "**" + x == ['*'] + u;
    ScanMiss(EmphasisMatcher(Bold), '*', u);
    assert !StartsWith(u, "**") by {
      if |u| >= 2 {
        assert u[1] == x[0];
      }
    }
    NoPartner(Bold, u);
    ScanMiss(EmphasisMatcher(Bold), '*', x);
    NoStarUnchanged(Bold, x);
  }

  /** A stray `*` with no partner is left as it is. */
  lemma StrayStarKept(a: string, b: string)
    requires '*' !in a && '*' !in b
    ensures EmphasisPass(Italic, a + "*" + b) == a + "*" + b
  {
    var t := "*" + b;
    NoPartner(Italic, t);
    ScanMiss(EmphasisMatcher(Italic), '*', b);
    NoStarUnchanged(Italic, b);
    StartsWithStar(Italic);
    ScanWithoutTrigger(EmphasisMatcher(Italic), '*', a, t);
    assert a + "*" + b == a + t;
  }

  /** An italic pair does not reach across a line feed. */
  lemma ItalicStaysOnLine(x: string, y: string)
    requires '*' !in x && '*' !in y
    ensures EmphasisPass(Italic, "*" + x + "\n" + y + "*") == "*" + x + "\n" + y + "*"
  {
    var rest := x + "\n" + y + "*";
    var t := "*" + rest;
    forall k ensures !Closes(Italic, t, k) {
      if 1 <= k < |t| - 1 {
        if k <= |x| {
          assert t[k] == x[k - 1];
        } else if k > |x| + 1 {
          assert t[k] == y[k - 2 - |x|];
        }
      } else if k == |t| - 1 {
        assert t[1 + |x|] == '\n';
      }
    }
    assert EmphasisAt(Italic, t).None?;
    ScanMiss(EmphasisMatcher(Italic), '*', rest);
    StrayStarKept(x + "\n" + y, "");
    assert x + "\n" + y + "*" + "" == rest;
    assert "*" + x + "\n" + y + "*" == t;
  }
}
