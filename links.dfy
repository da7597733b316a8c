/** Markdown links (newsletter.mjs:163-164): the global pattern
    `\[([^\]]+)\]\((https?:\/\/[^\)]+)\)`. A `[`, a caption of at least one character up to the
    first `]`, then `(`, the scheme `https://` or `http://`, at least one more character up to the
    first `)`, and that `)`. The caption and the address may span line breaks; nothing else in the
    pattern can backtrack into another choice, so the match at a position is unique. */
module Links {
  import opened Text
  import opened Scanner
  import opened Markup

  /** The length of the scheme the address at `u` starts with, or 0 when it has none. */
  function SchemeLength(u: string): (n: nat)
    ensures n == 8 <==> StartsWith(u, "https://")
    ensures n == 7 <==> StartsWith(u, "http://") && !StartsWith(u, "https://")
    ensures n == 0 || n == 7 || n == 8
  {
    if StartsWith(u, "https://") then 8 else if StartsWith(u, "http://") then 7 else 0
  }

  /** Where the caption and the address of a link at the start of `t` end: the `]` and the
      `)`, when the pattern matches there. */
  function LinkShape(t: string): (r: Option<(nat, nat)>)
    ensures r.Some? ==> 2 <= r.value.0 && r.value.0 + 2 < r.value.1 < |t|
  {
    if t == [] || t[0] != '[' then None
    else
      var j := FindChar(t, ']', 1);
      if j < 2 || j + 1 >= |t| || t[j + 1] != '(' then None
      else
        var n := SchemeLength(t[j + 2..]);
        if n == 0 then None
        else
          var e := FindChar(t, ')', j + 2 + n);
          if e == j + 2 + n || e == |t| then None
          else Some((j, e))
  }

  /** The match of the link pattern at the start of `t`. */
  function LinkAt(t: string): Option<Hit> {
    match LinkShape(t)
    case Some((j, e)) => Some(Hit(e + 1, Anchor(t[j + 2..e], t[1..j])))
    case None => None
  }

  function LinkMatcher(): Matcher {
    t => LinkAt(t)
  }

  function LinkPass(s: string): string {
    Scan(LinkMatcher(), s)
  }

  /** A caption and an address the pattern accepts. */
  predicate LinkParts(caption: string, url: string) {
    && caption != [] && ']' !in caption && ')' !in url
    && SchemeLength(url) > 0 && |url| > SchemeLength(url)
  }

  /** The text of a link. */
  function LinkText(caption: string, url: string): string {
    "[" + caption + "](" + url + ")"
  }

  /** The characters of `"[" + caption + "](" + u` at each index. */
  lemma LinkChars(caption: string, u: string)
    ensures forall k :: 1 <= k <= |caption| ==> ("[" + caption + "](" + u)[k] == caption[k - 1]
    ensures ("[" + caption + "](" + u)[0] == '['
    ensures ("[" + caption + "](" + u)[|caption| + 1] == ']'
    ensures ("[" + caption + "](" + u)[|caption| + 2] == '('
    ensures ("[" + caption + "](" + u)[|caption| + 3..] == u
  {
  }

  /** The caption ends at its first `]`, and the address follows the `(`. */
  lemma CaptionEnd(caption: string, u: string)
    requires ']' !in caption
    ensures FindChar("[" + caption + "](" + u, ']', 1) == |caption| + 1
  {
    LinkChars(caption, u);
  }

  /** The address ends at its first `)`. */
  lemma AddressEnd(t: string, i: nat, url: string, rest: string, n: nat)
    requires i <= |t| && n <= |url| && t[i..] == url + ")" + rest && ')' !in url
    ensures FindChar(t, ')', i + n) == i + |url|
  {
    forall k | i + n <= k < i + |url| ensures t[k] != ')' {
      assert t[k] == t[i..][k - i] == url[k - i];
    }
    assert t[i + |url|] == t[i..][|url|] == ')';
  }

  /** A scheme holds no `)`. */
  lemma SchemeWithoutParen(u: string)
    ensures forall k :: 0 <= k < SchemeLength(u) ==> u[k] != ')'
  {
    StartsWithChars(u, "https://");
    StartsWithChars(u, "http://");
  }

  /** A `)` after an address without `)` does not change its scheme. */
  lemma SchemeThrough(url: string, rest: string)
    requires ')' !in url
    ensures SchemeLength(url + ")" + rest) == SchemeLength(url)
  {
    var u := url + ")" + rest;
    StartsWithChars(u, "https://");
    StartsWithChars(url, "https://");
    StartsWithChars(u, "http://");
    StartsWithChars(url, "http://");
    if |url| < 8 {
      assert u[|url|] == ')';
    }
  }

  /** The conditions under which the link pattern matches, one by one. */
  lemma LinkShapeAt(t: string, j: nat, n: nat, e: nat)
    requires t != [] && t[0] == '[' && FindChar(t, ']', 1) == j && 2 <= j && j + 1 < |t|
    requires t[j + 1] == '(' && SchemeLength(t[j + 2..]) == n && n > 0
    requires FindChar(t, ')', j + 2 + n) == e && j + 2 + n < e < |t|
    ensures LinkShape(t) == Some((j, e))
  {
  }

  /** `[caption](url)` followed by anything is a link whose caption and address are those. */
  lemma LinkShapeHit(caption: string, url: string, rest: string)
    requires LinkParts(caption, url)
    ensures LinkShape(LinkText(caption, url) + rest) == Some((|caption| + 1, |caption| + 3 + |url|))
  {
    LinkTextThen(caption, url, rest);
    LinkShapeHitAt(caption, url, rest, LinkText(caption, url) + rest);
  }

  /** A link followed by more text, regrouped around the address. */
  lemma LinkTextThen(caption: string, url: string, rest: string)
    ensures LinkText(caption, url) + rest == "[" + caption + "](" + (url + ")" + rest)
  {
  }

  lemma LinkShapeHitAt(caption: string, url: string, rest: string, t: string)
    requires LinkParts(caption, url) && t == "[" + caption + "](" + (url + ")" + rest)
    ensures LinkShape(t) == Some((|caption| + 1, |caption| + 3 + |url|))
  {
    var n := SchemeLength(url);
    LinkConditions(caption, url, rest, t, n);
    LinkShapeAt(t, |caption| + 1, n, |caption| + 3 + |url|);
  }

  /** The conditions of `LinkShapeAt`, for a link followed by more text. */
  lemma LinkConditions(caption: string, url: string, rest: string, t: string, n: nat)
    requires LinkParts(caption, url) && t == "[" + caption + "](" + (url + ")" + rest)
    requires n == SchemeLength(url)
    ensures t != [] && t[0] == '[' && FindChar(t, ']', 1) == |caption| + 1 && |caption| + 2 < |t|
    ensures t[|caption| + 2] == '(' && SchemeLength(t[|caption| + 3..]) == n && n > 0
    ensures FindChar(t, ')', |caption| + 3 + n) == |caption| + 3 + |url|
    ensures |caption| + 3 + n < |caption| + 3 + |url| < |t|
  {
    var u := url + ")" + rest;
    LinkFrame(caption, u, t);
    CaptionEnd(caption, u);
    SchemeThrough(url, rest);
    AddressEnd(t, |caption| + 3, url, rest, n);
  }

  /** The brackets and the parenthesis around a caption, and the text after them. */
  lemma LinkFrame(caption: string, u: string, t: string)
    requires t == "[" + caption + "](" + u
    ensures |t| == |caption| + 3 + |u| && t[0] == '[' && t[|caption| + 2] == '('
    ensures t[|caption| + 3..] == u
  {
    LinkChars(caption, u);
  }

  /** `[caption](url)` followed by anything becomes the anchor to `url` with text `caption`. */
  lemma LinkHit(caption: string, url: string, rest: string)
    requires LinkParts(caption, url)
    ensures LinkAt(LinkText(caption, url) + rest)
      == Some(Hit(|LinkText(caption, url)|, Anchor(url, caption)))
  {
    LinkTextThen(caption, url, rest);
    LinkHitAt(caption, url, rest, LinkText(caption, url) + rest);
  }

  lemma LinkHitAt(caption: string, url: string, rest: string, t: string)
    requires LinkParts(caption, url) && t == "[" + caption + "](" + (url + ")" + rest)
    ensures LinkAt(t) == Some(Hit(|LinkText(caption, url)|, Anchor(url, caption)))
  {
    LinkShapeHitAt(caption, url, rest, t);
    LinkAtShape(t, |caption| + 1, |caption| + 3 + |url|);
    LinkSlices(caption, url, rest, t);
  }

  /** The caption and the address inside a link. */
  lemma LinkSlices(caption: string, url: string, rest: string, t: string)
    requires t == "[" + caption + "](" + (url + ")" + rest)
    ensures t[1..|caption| + 1] == caption && t[|caption| + 3..|caption| + 3 + |url|] == url
    ensures |LinkText(caption, url)| == |caption| + 4 + |url|
  {
    LinkChars(caption, url + ")" + rest);
  }

  /** Every match of the link pattern is `[caption](url)` for a caption and an address the
      pattern accepts, and is replaced by the anchor. */
  lemma LinkSound(t: string)
    requires LinkAt(t).Some?
    ensures exists caption, url :: (LinkParts(caption, url)
      && t[..LinkAt(t).value.len] == LinkText(caption, url)
      && LinkAt(t).value.out == Anchor(url, caption))
  {
    var (j, e) := LinkShape(t).value;
    LinkSoundAt(t, j, e);
    LinkAtShape(t, j, e);
    assert LinkParts(t[1..j], t[j + 2..e]);
  }

  /** A match whose `]` is at `j` and whose `)` is at `e` is the link made of what lies between. */
  lemma LinkSoundAt(t: string, j: nat, e: nat)
    requires LinkShape(t) == Some((j, e))
    ensures LinkParts(t[1..j], t[j + 2..e]) && t[..e + 1] == LinkText(t[1..j], t[j + 2..e])
  {
    var n := SchemeLength(t[j + 2..]);
    LinkShapeFacts(t, j, e, n);
    CaptionClean(t, j);
    AddressClean(t, j + 2, n, e);
    RestAfterAddress(t, j + 2, e);
    SchemeThrough(t[j + 2..e], t[e + 1..]);
    LinkSplit(t, j, e);
  }

  /** The hit of a match whose `]` is at `j` and whose `)` is at `e`. */
  lemma LinkAtShape(t: string, j: nat, e: nat)
    requires LinkShape(t) == Some((j, e))
    ensures LinkAt(t) == Some(Hit(e + 1, Anchor(t[j + 2..e], t[1..j])))
  {
  }

  /** What a match of the link pattern at the start of `t` consists of. */
  lemma LinkShapeFacts(t: string, j: nat, e: nat, n: nat)
    requires LinkShape(t) == Some((j, e)) && n == SchemeLength(t[j + 2..])
    ensures t[0] == '[' && 2 <= j && j + 1 < |t| && FindChar(t, ']', 1) == j
    ensures t[j] == ']' && t[j + 1] == '(' && n > 0
    ensures j + 2 + n < e < |t| && FindChar(t, ')', j + 2 + n) == e && t[e] == ')'
  {
  }

  /** A caption that ends at the first `]` holds no `]`. */
  lemma CaptionClean(t: string, j: nat)
    requires 1 <= j <= |t| && FindChar(t, ']', 1) == j
    ensures ']' !in t[1..j]
  {
    forall k | 0 <= k < j - 1 ensures t[1..j][k] != ']' {
      assert t[1..j][k] == t[k + 1];
    }
  }

  /** An address that ends at the first `)` after its scheme holds no `)`. */
  lemma AddressClean(t: string, i: nat, n: nat, e: nat)
    requires i + n <= e <= |t| && n == SchemeLength(t[i..]) && FindChar(t, ')', i + n) == e
    ensures ')' !in t[i..e]
  {
    SchemeWithoutParen(t[i..]);
    forall k | 0 <= k < e - i ensures t[i..e][k] != ')' {
      assert t[i..e][k] == t[i + k] == t[i..][k];
    }
  }

  /** The text from `i` on is the address up to the `)` at `e`, that `)`, and the rest. */
  lemma RestAfterAddress(t: string, i: nat, e: nat)
    requires i <= e < |t| && t[e] == ')'
    ensures t[i..] == t[i..e] + ")" + t[e + 1..]
  {
  }

  /** The text up to a `)` at `e` is the link made of its pieces. */
  lemma LinkSplit(t: string, j: nat, e: nat)
    requires 1 <= j && j + 2 <= e < |t| && t[0] == '[' && t[j] == ']' && t[j + 1] == '(' && t[e] == ')'
    ensures t[..e + 1] == LinkText(t[1..j], t[j + 2..e])
  {
    assert t[..e + 1] == t[..1] + t[1..j] + t[j..j + 2] + t[j + 2..e] + t[e..e + 1];
    assert t[..1] == "[" && t[j..j + 2] == "](" && t[e..e + 1] == ")";
  }

  /** A bracket and parenthesis sequence whose address has another scheme is left alone. */
  lemma OtherSchemeMiss(caption: string, url: string, rest: string)
    requires ']' !in caption && ')' !in url
    requires !StartsWith(url, "http://") && !StartsWith(url, "https://")
    ensures LinkAt(LinkText(caption, url) + rest).None?
  {
    var u := url + ")" + rest;
    var t := "[" + caption + "](" + u;
    assert LinkText(caption, url) + rest == t;
    LinkChars(caption, u);
    CaptionEnd(caption, u);
    SchemeThrough(url, rest);
  }

  /** An empty caption is left alone. */
  lemma EmptyCaptionMiss(rest: string)
    ensures LinkAt("[]" + rest).None?
  {
    assert ("[]" + rest)[1] == ']';
  }

  /** Every match starts with `[`. */
  lemma StartsWithBracket()
    ensures forall t :: LinkMatcher()(t).Some? ==> t != [] && t[0] == '['
  {
  }

  /** Text without `[` is left alone. */
  lemma NoBracketUnchanged(s: string)
    requires '[' !in s
    ensures LinkPass(s) == s
  {
    StartsWithBracket();
    ScanIdentity(LinkMatcher(), '[', s);
  }

  /** A link after text without `[` becomes the anchor, and scanning resumes after it. */
  lemma LinkWraps(a: string, caption: string, url: string, b: string)
    requires '[' !in a && LinkParts(caption, url)
    ensures LinkPass(a + LinkText(caption, url) + b) == a + Anchor(url, caption) + LinkPass(b)
  {
    LinkHit(caption, url, b);
    StartsWithBracket();
    ScanHitAfter(LinkMatcher(), '[', a, LinkText(caption, url), b, Anchor(url, caption));
  }
}
