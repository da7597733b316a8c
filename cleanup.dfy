/** The last pass of `markdownToHTML` (newsletter.mjs:198-199): the global pattern
    `<p[^>]*>\s*<\/p>` is removed. `[^>]*` runs to the first `>` and `\s*` over every blank after
    it; neither can give characters back to the rest of the pattern, so the match at a position is
    unique. Both may cross line breaks. */
module Cleanup {
  import opened Text
  import opened Scanner
  import opened Markup

  /** The match at the start of `t`: `<p`, attribute text up to the first `>`, that `>`, blanks,
      and `</p>`; it is replaced by nothing. */
  function EmptyParagraphAt(t: string): (r: Option<Hit>)
    ensures r.Some? ==> r.value.out == [] && 7 <= r.value.len <= |t|
  {
    if !StartsWith(t, "<p") then None
    else
      var j := FindChar(t, '>', 2);
      if j == |t| then None
      else
        var k := SpaceEnd(t, j + 1);
        if StartsWith(t[k..], "</p>") then Some(Hit(k + 4, "")) else None
  }

  function CleanMatcher(): Matcher {
    t => EmptyParagraphAt(t)
  }

  function CleanPass(s: string): string {
    Scan(CleanMatcher(), s)
  }

  /** Text in which no paragraph tag opens or closes, wherever it stands. */
  predicate ParagraphFree(s: string) {
    NoOpenTag(s, 'p') && NoCloseTag(s, 'p')
  }

  /** The text of an empty paragraph: an opening tag whose attribute text has no `>`, blanks,
      and the closing tag. */
  function EmptyParagraph(attrs: string, ws: string): string {
    "<p" + attrs + ">" + ws + "</p>"
  }

  /** The pieces of an empty paragraph, index by index. */
  lemma EmptyParagraphChars(attrs: string, ws: string, rest: string, t: string)
    requires t == EmptyParagraph(attrs, ws) + rest
    ensures |t| == |attrs| + |ws| + 7 + |rest| && t[0] == '<' && t[1] == 'p'
    ensures forall k :: 0 <= k < |attrs| ==> t[2 + k] == attrs[k]
    ensures t[2 + |attrs|] == '>'
    ensures forall k :: 0 <= k < |ws| ==> t[3 + |attrs| + k] == ws[k]
    ensures t[3 + |attrs| + |ws|..] == "</p>" + rest
  {
  }

  /** Every empty paragraph is removed, whatever follows it. */
  lemma EmptyParagraphHit(attrs: string, ws: string, rest: string)
    requires '>' !in attrs && AllSpace(ws)
    ensures EmptyParagraphAt(EmptyParagraph(attrs, ws) + rest)
      == Some(Hit(|EmptyParagraph(attrs, ws)|, ""))
  {
    EmptyParagraphHitAt(attrs, ws, rest, EmptyParagraph(attrs, ws) + rest);
  }

  lemma EmptyParagraphHitAt(attrs: string, ws: string, rest: string, t: string)
    requires '>' !in attrs && AllSpace(ws) && t == EmptyParagraph(attrs, ws) + rest
    ensures EmptyParagraphAt(t) == Some(Hit(|attrs| + |ws| + 7, ""))
  {
    var j := 2 + |attrs|;
    ParagraphOpening(attrs, ws, rest, t);
    BlanksThenClosing(attrs, ws, rest, t);
    HitSteps(t, j, j + 1 + |ws|);
  }

  /** The opening tag of a paragraph ends at the first `>` after `<p`. */
  lemma ParagraphOpening(a: string, x: string, rest: string, t: string)
    requires '>' !in a && t == EmptyParagraph(a, x) + rest
    ensures |t| >= 2 && t[0] == '<' && t[1] == 'p' && FindChar(t, '>', 2) == 2 + |a| < |t|
  {
    EmptyParagraphChars(a, x, rest, t);
    FindCharAt(t, '>', 2, 2 + |a|);
  }

  /** Blanks after the opening tag run up to the closing tag. */
  lemma BlanksThenClosing(a: string, ws: string, rest: string, t: string)
    requires AllSpace(ws) && t == EmptyParagraph(a, ws) + rest
    ensures SpaceEnd(t, 3 + |a|) == 3 + |a| + |ws| && StartsWith(t[3 + |a| + |ws|..], "</p>")
  {
    EmptyParagraphChars(a, ws, rest, t);
    SpaceEndAt(t, 3 + |a|, 3 + |a| + |ws|);
    ClosingStarts(t[3 + |a| + |ws|..], rest);
  }

  /** The conditions under which the pattern matches, one by one. */
  lemma HitSteps(t: string, j: nat, k: nat)
    requires |t| >= 2 && t[0] == '<' && t[1] == 'p'
    requires FindChar(t, '>', 2) == j && j < |t| && SpaceEnd(t, j + 1) == k
    requires StartsWith(t[k..], "</p>")
    ensures EmptyParagraphAt(t) == Some(Hit(k + 4, ""))
  {
    OpeningStarts(t);
  }

  /** The conditions under which the pattern fails after the opening tag, one by one. */
  lemma MissSteps(t: string, j: nat, k: nat)
    requires |t| >= 2 && t[0] == '<' && t[1] == 'p'
    requires FindChar(t, '>', 2) == j && j < |t| && SpaceEnd(t, j + 1) == k
    requires !StartsWith(t[k..], "</p>")
    ensures EmptyParagraphAt(t).None?
  {
    OpeningStarts(t);
  }

  lemma OpeningStarts(t: string)
    requires |t| >= 2 && t[0] == '<' && t[1] == 'p'
    ensures StartsWith(t, "<p")
  {
    assert t[..2] == "<p";
  }

  lemma ClosingStarts(u: string, rest: string)
    requires u == "</p>" + rest
    ensures StartsWith(u, "</p>")
  {
    assert u[..4] == "</p>";
  }

  /** Text that starts with another character than `<`, or with `<` and not `</p`, does not start
      with `</p>`. */
  lemma NotClosing(u: string)
    requires u == [] || u[0] != '<' || (|u| > 2 && (u[1] != '/' || u[2] != 'p'))
    ensures !StartsWith(u, "</p>")
  {
    if |u| >= 4 {
      assert u[..4][0] == u[0] && u[..4][1] == u[1] && u[..4][2] == u[2];
    }
  }

  /** `SpaceEnd` stops at the first character from `i` on that is no blank. */
  lemma {:induction false} SpaceEndAt(t: string, i: nat, e: nat)
    requires i <= e <= |t| && (e < |t| ==> !IsSpace(t[e]))
    requires forall k :: i <= k < e ==> IsSpace(t[k])
    ensures SpaceEnd(t, i) == e
    decreases e - i
  {
    if i < e {
      SpaceEndAt(t, i + 1, e);
    }
  }

  /** Every match is an empty paragraph, and only it is removed. */
  lemma EmptyParagraphSound(t: string)
    requires EmptyParagraphAt(t).Some?
    ensures exists attrs, ws :: ('>' !in attrs && AllSpace(ws)
      && t[..EmptyParagraphAt(t).value.len] == EmptyParagraph(attrs, ws))
  {
    var j := FindChar(t, '>', 2);
    var k := SpaceEnd(t, j + 1);
    SoundPieces(t, j, k);
    var attrs, ws := t[2..j], t[j + 1..k];
    assert '>' !in attrs && AllSpace(ws)
      && t[..EmptyParagraphAt(t).value.len] == EmptyParagraph(attrs, ws);
  }

  /** A match whose opening tag ends at `j` and whose blanks end at `k`, piece by piece. */
  lemma SoundPieces(t: string, j: nat, k: nat)
    requires StartsWith(t, "<p") && j == FindChar(t, '>', 2) && j < |t|
    requires k == SpaceEnd(t, j + 1) && StartsWith(t[k..], "</p>")
    ensures EmptyParagraphAt(t) == Some(Hit(k + 4, ""))
    ensures '>' !in t[2..j] && AllSpace(t[j + 1..k])
    ensures t[..k + 4] == EmptyParagraph(t[2..j], t[j + 1..k])
  {
    SliceFree(t, 2, j);
    SliceBlank(t, j + 1, k);
    SoundSplit(t, j, k);
  }

  lemma SliceFree(t: string, i: nat, j: nat)
    requires i <= j <= |t| && forall k :: i <= k < j ==> t[k] != '>'
    ensures '>' !in t[i..j]
  {
    forall n | 0 <= n < j - i ensures t[i..j][n] != '>' {
      assert t[i..j][n] == t[i + n];
    }
  }

  lemma SliceBlank(t: string, i: nat, j: nat)
    requires i <= j <= |t| && forall k :: i <= k < j ==> IsSpace(t[k])
    ensures AllSpace(t[i..j])
  {
    forall n | 0 <= n < j - i ensures IsSpace(t[i..j][n]) {
      assert t[i..j][n] == t[i + n];
    }
  }

  lemma SoundSplit(t: string, j: nat, k: nat)
    requires StartsWith(t, "<p") && 2 <= j < k <= |t| && t[j] == '>' && StartsWith(t[k..], "</p>")
    ensures t[..k + 4] == EmptyParagraph(t[2..j], t[j + 1..k])
  {
    assert t[..2] == "<p" && t[k..k + 4] == "</p>";
    assert t[..k + 4] == t[..2] + t[2..j] + [t[j]] + t[j + 1..k] + t[k..k + 4];
  }

  /** Every match starts with `<`. */
  lemma StartsWithAngle()
    ensures forall t :: CleanMatcher()(t).Some? ==> t != [] && t[0] == '<'
  {
  }

  /** No match starts where there is no `<p`. */
  lemma NoParagraphHere(t: string)
    requires t == [] || t[0] != '<' || (|t| > 1 && t[1] != 'p')
    ensures EmptyParagraphAt(t).None?
  {
  }

  /** Text in which no `<p` opens is passed over, whatever follows it. */
  lemma ScanUnopened(s: string, rest: string)
    requires NoOpenTag(s, 'p')
    ensures CleanPass(s + rest) == s + CleanPass(rest)
  {
    var m := CleanMatcher();
    forall k | 0 <= k < |s| ensures m((s + rest)[k..]).None? {
      var t := (s + rest)[k..];
      assert t[0] == s[k];
      if s[k] == '<' {
        assert t[1] == s[k + 1];
      }
      NoParagraphHere(t);
    }
    ScanSkip(m, s, rest);
  }

  /** Text in which no `<p` opens is left as it is. */
  lemma UnopenedKept(s: string)
    requires NoOpenTag(s, 'p')
    ensures CleanPass(s) == s
  {
    ScanUnopened(s, []);
    assert s + [] == s;
  }

  /** A paragraph of blanks is removed, and the text after it is scanned on. */
  lemma BlankParagraphRemoved(ws: string, rest: string)
    requires AllSpace(ws)
    ensures CleanPass(Paragraph(ws) + rest) == CleanPass(rest)
  {
    ParagraphAsEmpty(ws);
    SerifStyleNoAngle();
    EmptyParagraphHit(Attr("style", SerifStyle), ws, rest);
    ScanHit(CleanMatcher(), Paragraph(ws), rest, "");
  }

  /** A paragraph is an opening `<p` tag, its text and `</p>`. */
  lemma ParagraphAsEmpty(x: string)
    ensures Paragraph(x) == EmptyParagraph(Attr("style", SerifStyle), x)
  {
  }

  lemma SerifStyleNoAngle()
    ensures '>' !in Attr("style", SerifStyle) && Bland(Attr("style", SerifStyle))
  {
    StyleNameBland();
    SerifBland();
    AttrBland("style", SerifStyle);
    BlandIsPlain(Attr("style", SerifStyle));
  }

  lemma SerifBland()
    ensures Bland(SerifStyle)
  {
  }

  /** A paragraph whose text holds no paragraph tag and is not blank is kept, and the text after it is scanned on. */
  lemma FilledParagraphKept(x: string, rest: string)
    requires ParagraphFree(x) && !AllSpace(x)
    ensures CleanPass(Paragraph(x) + rest) == Paragraph(x) + CleanPass(rest)
  {
    var a := Attr("style", SerifStyle);
    ParagraphAsEmpty(x);
    SerifStyleNoAngle();
    FilledKept(a, x, rest);
  }

  lemma FilledKept(a: string, x: string, rest: string)
    requires Bland(a) && '>' !in a && ParagraphFree(x) && !AllSpace(x)
    ensures CleanPass(EmptyParagraph(a, x) + rest) == EmptyParagraph(a, x) + CleanPass(rest)
  {
    var p := EmptyParagraph(a, x);
    FilledParagraphMiss(a, x, rest, p + rest);
    ParagraphTail(a, x);
    ScanUnopened(p[1..], rest);
    ScanFirstMiss(CleanMatcher(), p, rest);
  }

  /** After its first character, a paragraph whose text opens no `<p` opens none. */
  lemma ParagraphTail(a: string, x: string)
    requires Bland(a) && NoOpenTag(x, 'p')
    ensures NoOpenTag(EmptyParagraph(a, x)[1..], 'p')
  {
    var h := "p" + a + ">";
    OpeningTail(a);
    ClosingUnopened();
    NoOpenTagAppend(h, x, 'p');
    NoOpenTagAppend(h + x, "</p>", 'p');
    assert EmptyParagraph(a, x)[1..] == h + x + "</p>";
  }

  lemma OpeningTail(a: string)
    requires Bland(a)
    ensures NoOpenTag("p" + a + ">", 'p')
  {
    var h := "p" + a + ">";
    forall k | 0 <= k < |h| ensures h[k] != '<' {
      if 1 <= k < |h| - 1 {
        assert h[k] == a[k - 1];
      }
    }
  }

  lemma ClosingUnopened()
    ensures NoOpenTag("</p>", 'p')
  {
  }

  /** The blanks after the opening tag of a paragraph with text that is not blank end inside
      the text, where no `</p>` starts. */
  lemma FilledParagraphMiss(a: string, x: string, rest: string, t: string)
    requires '>' !in a && ParagraphFree(x) && !AllSpace(x) && t == EmptyParagraph(a, x) + rest
    ensures EmptyParagraphAt(t).None?
  {
    var i := SpaceEnd(x, 0);
    FirstNonBlank(x, i);
    ParagraphOpening(a, x, rest, t);
    FilledBlanks(a, x, rest, t, i);
    MissSteps(t, 2 + |a|, 3 + |a| + i);
  }

  /** The blanks at the start of the text of a paragraph end where no `</p>` starts. */
  lemma FilledBlanks(a: string, x: string, rest: string, t: string, i: nat)
    requires ParagraphFree(x) && i < |x| && !IsSpace(x[i]) && i == SpaceEnd(x, 0)
    requires t == EmptyParagraph(a, x) + rest
    ensures SpaceEnd(t, 3 + |a|) == 3 + |a| + i && !StartsWith(t[3 + |a| + i..], "</p>")
  {
    EmptyParagraphChars(a, x, rest, t);
    SpaceEndAt(t, 3 + |a|, 3 + |a| + i);
    FilledNotClosing(x, i, t, 3 + |a|);
  }

  /** Text that is not blank has a character that is no blank, where `SpaceEnd` stops. */
  lemma FirstNonBlank(x: string, i: nat)
    requires !AllSpace(x) && i == SpaceEnd(x, 0)
    ensures i < |x| && !IsSpace(x[i])
  {
  }

  /** No `</p>` starts inside text that closes no paragraph. */
  lemma FilledNotClosing(x: string, i: nat, t: string, o: nat)
    requires ParagraphFree(x) && i < |x| && o + |x| <= |t| && forall k :: 0 <= k < |x| ==> t[o + k] == x[k]
    ensures !StartsWith(t[o + i..], "</p>")
  {
    var u := t[o + i..];
    assert u[0] == x[i];
    if x[i] == '<' {
      assert i + 2 < |x|;
      assert u[1] == t[o + i + 1] == x[i + 1];
      assert u[2] == t[o + i + 2] == x[i + 2];
    }
    NotClosing(u);
  }

  /** A paragraph of blanks standing alone disappears. */
  lemma BlankParagraphGone(ws: string)
    requires AllSpace(ws)
    ensures CleanPass(Paragraph(ws)) == ""
  {
    BlankParagraphRemoved(ws, "");
    assert Paragraph(ws) + "" == Paragraph(ws);
  }

  /** The pass is not idempotent: removing an empty paragraph inside another one leaves the
      outer one empty, and only a second pass removes it. */
  lemma NotIdempotent(a: string, b: string, ws: string)
    requires Bland(a) && '>' !in a && '>' !in b && AllSpace(ws)
    ensures CleanPass(EmptyParagraph(a, EmptyParagraph(b, ws))) == EmptyParagraph(a, "")
    ensures CleanPass(EmptyParagraph(a, "")) == ""
  {
    var inner := EmptyParagraph(b, ws);
    var h := "<p" + a + ">";
    NestedForm(a, inner);
    OuterMiss(a, b, ws, h + (inner + "</p>"));
    OpeningTail(a);
    ScanUnopened(h[1..], inner + "</p>");
    ScanFirstMiss(CleanMatcher(), h, inner + "</p>");
    EmptyParagraphHit(b, ws, "</p>");
    ScanHit(CleanMatcher(), inner, "</p>", "");
    ClosingUnopened();
    UnopenedKept("</p>");
    assert h + "</p>" == EmptyParagraph(a, "");
    EmptyParagraphHit(a, "", "");
    ScanHit(CleanMatcher(), EmptyParagraph(a, ""), "", "");
    assert EmptyParagraph(a, "") + "" == EmptyParagraph(a, "");
  }

  lemma NestedForm(a: string, inner: string)
    ensures EmptyParagraph(a, inner) == "<p" + a + ">" + (inner + "</p>")
    ensures ("<p" + a + ">")[1..] == "p" + a + ">"
  {
  }

  /** The outer paragraph is not empty while the inner one is there. */
  lemma OuterMiss(a: string, b: string, ws: string, t: string)
    requires '>' !in a && t == "<p" + a + ">" + (EmptyParagraph(b, ws) + "</p>")
    ensures EmptyParagraphAt(t).None?
  {
    var inner := EmptyParagraph(b, ws);
    var j := 2 + |a|;
    OuterChars(a, inner + "</p>", t);
    FindCharAt(t, '>', 2, j);
    SpaceEndAt(t, j + 1, j + 1);
    NotClosing(t[j + 1..]);
    MissSteps(t, j, j + 1);
  }

  lemma OuterChars(a: string, u: string, t: string)
    requires t == "<p" + a + ">" + u && |u| >= 2 && u[0] == '<' && u[1] == 'p'
    ensures |t| == |a| + 3 + |u| && t[0] == '<' && t[1] == 'p' && t[2 + |a|] == '>'
    ensures forall k :: 0 <= k < |a| ==> t[2 + k] == a[k]
    ensures t[3 + |a|] == '<' && t[4 + |a|] == 'p' && t[3 + |a|..] == u
  {
  }
}
