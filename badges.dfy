/** The six Hubbell Signal badge passes (newsletter.mjs:146-160), run in this order:
    `\*Hubbell Signal:\*\s*\*\*High\*\*`, the same for `Medium` and `Low`, then
    `\*\*Hubbell Signal:\*\*\s*High`, `Medium` and `Low`, each global and case-insensitive. A
    match is the lead (`*Hubbell Signal:*` or `**Hubbell Signal:**`) in any case, the longest run
    of white space after it, and the tail (`**High**` or `High`, and so on) in any case. The
    white space cannot give back characters to let the tail match, since every tail starts with a
    character that is not white space. */
module Badges {
  import opened Text
  import opened Scanner
  import opened Markup

  /** The lead of a spelling. */
  function Lead(f: Spelling): string {
    match f
    case ItalicLead => "*" + SignalText + "*"
    case BoldLead => "**" + SignalText + "**"
  }

  /** The severity part of a spelling. */
  function Tail(f: Spelling, v: Severity): string {
    match f
    case ItalicLead => "**" + SeverityWord(v) + "**"
    case BoldLead => SeverityWord(v)
  }

  /** The match of the badge pattern of spelling `f` and severity `v` at the start of `t`. */
  function BadgeAt(f: Spelling, v: Severity, t: string): Option<Hit> {
    if !StartsWithIgnoringCase(t, Lead(f)) then None
    else
      var w := SpaceEnd(t, |Lead(f)|);
      if StartsWithIgnoringCase(t[w..], Tail(f, v)) then Some(Hit(w + |Tail(f, v)|, Pill(f, v)))
      else None
  }

  function BadgeMatcher(f: Spelling, v: Severity): Matcher {
    t => BadgeAt(f, v, t)
  }

  function BadgePass(f: Spelling, v: Severity, s: string): string {
    Scan(BadgeMatcher(f, v), s)
  }

  /** The six badge passes in the script's order. */
  function Badges(s: string): string {
    var s1 := BadgePass(ItalicLead, High, s);
    var s2 := BadgePass(ItalicLead, Medium, s1);
    var s3 := BadgePass(ItalicLead, Low, s2);
    var s4 := BadgePass(BoldLead, High, s3);
    var s5 := BadgePass(BoldLead, Medium, s4);
    BadgePass(BoldLead, Low, s5)
  }

  /** A badge as written: a case variant `sig` of `Hubbell Signal:`, white space `sp` and a case
      variant `word` of the severity. */
  predicate BadgeParts(v: Severity, sig: string, sp: string, word: string) {
    SameIgnoringCase(sig, SignalText) && AllSpace(sp) && SameIgnoringCase(word, SeverityWord(v))
  }

  /** The lead of spelling `f` around a case variant `sig` of `Hubbell Signal:`. */
  function Lead'(f: Spelling, sig: string): string {
    match f
    case ItalicLead => "*" + sig + "*"
    case BoldLead => "**" + sig + "**"
  }

  /** The tail of spelling `f` around a case variant `word` of the severity. */
  function Tail'(f: Spelling, word: string): string {
    match f
    case ItalicLead => "**" + word + "**"
    case BoldLead => word
  }

  /** The text of a badge in spelling `f`. */
  function BadgeText(f: Spelling, sig: string, sp: string, word: string): string {
    Lead'(f, sig) + sp + Tail'(f, word)
  }

  /** Four pieces, split after the first. */
  lemma Split4(a: string, b: string, c: string, d: string)
    ensures (a + b + c + d)[..|a|] == a
    ensures (a + b + c + d)[|a|..] == b + (c + d)
    ensures (a + b + c + d)[|a| + |b|..] == c + d
  {
  }

  /** The upper case of a character is `*` only for `*`, and white space is its own upper case. */
  lemma UpperFacts(c: char)
    ensures AsciiUpper(c) == '*' <==> c == '*'
    ensures IsSpace(c) ==> AsciiUpper(c) == c
  {
  }

  lemma SameIgnoringCaseAppend(a: string, b: string, c: string, d: string)
    requires SameIgnoringCase(a, c) && SameIgnoringCase(b, d)
    ensures SameIgnoringCase(a + b, c + d)
  {
    forall i | 0 <= i < |a + b| ensures AsciiUpper((a + b)[i]) == AsciiUpper((c + d)[i]) {
      if i < |a| {
        assert (a + b)[i] == a[i] && (c + d)[i] == c[i];
      } else {
        assert (a + b)[i] == b[i - |a|] && (c + d)[i] == d[i - |a|];
      }
    }
  }

  lemma SameIgnoringCaseRefl(a: string)
    ensures SameIgnoringCase(a, a)
  {
  }

  /** A case variant of a text without `*` has no `*`, and its first character is not white
      space when that of the text is an upper-case letter. */
  lemma VariantFacts(x: string, w: string)
    requires SameIgnoringCase(x, w) && '*' !in w
    ensures '*' !in x
    ensures |w| > 0 && 'A' <= w[0] <= 'Z' ==> !IsSpace(x[0])
  {
    forall i | 0 <= i < |x| ensures x[i] != '*' {
      UpperFacts(x[i]);
      UpperFacts(w[i]);
    }
    if |w| > 0 && 'A' <= w[0] <= 'Z' {
      UpperFacts(x[0]);
    }
  }

  lemma WordsBland()
    ensures Bland(SignalText) && Bland("High") && Bland("Medium") && Bland("Low")
  {
  }

  /** The lead of a badge text is a case variant of the lead of its spelling. */
  lemma LeadVariant(f: Spelling, sig: string)
    requires SameIgnoringCase(sig, SignalText)
    ensures SameIgnoringCase(Lead'(f, sig), Lead(f))
  {
    SameIgnoringCaseRefl("*");
    SameIgnoringCaseRefl("**");
    match f
    case ItalicLead =>
      SameIgnoringCaseAppend("*", sig, "*", SignalText);
      SameIgnoringCaseAppend("*" + sig, "*", "*" + SignalText, "*");
    case BoldLead =>
      SameIgnoringCaseAppend("**", sig, "**", SignalText);
      SameIgnoringCaseAppend("**" + sig, "**", "**" + SignalText, "**");
  }

  /** The tail of a badge text is a case variant of the tail of its spelling and severity. */
  lemma TailVariant(f: Spelling, v: Severity, word: string)
    requires SameIgnoringCase(word, SeverityWord(v))
    ensures SameIgnoringCase(Tail'(f, word), Tail(f, v))
  {
    SameIgnoringCaseRefl("**");
    if f == ItalicLead {
      SameIgnoringCaseAppend("**", word, "**", SeverityWord(v));
      SameIgnoringCaseAppend("**" + word, "**", "**" + SeverityWord(v), "**");
    }
  }

  /** The first character of a tail is not white space. */
  lemma TailStart(f: Spelling, v: Severity, word: string, rest: string)
    requires SameIgnoringCase(word, SeverityWord(v))
    ensures Tail'(f, word) + rest != [] && !IsSpace((Tail'(f, word) + rest)[0])
  {
    WordsBland();
    VariantFacts(word, SeverityWord(v));
  }

  /** A badge text starts with a case variant of its lead. */
  lemma LeadMatches(f: Spelling, sig: string, sp: string, tl: string, rest: string)
    requires SameIgnoringCase(sig, SignalText)
    ensures StartsWithIgnoringCase(Lead'(f, sig) + sp + tl + rest, Lead(f))
  {
    Split4(Lead'(f, sig), sp, tl, rest);
    LeadVariant(f, sig);
  }

  /** The white space after the lead runs up to the tail. */
  lemma SpaceMatches(f: Spelling, v: Severity, sig: string, sp: string, word: string, rest: string)
    requires SameIgnoringCase(sig, SignalText) && AllSpace(sp)
    requires SameIgnoringCase(word, SeverityWord(v))
    ensures SpaceEnd(Lead'(f, sig) + sp + Tail'(f, word) + rest, |Lead(f)|)
      == |Lead'(f, sig)| + |sp|
  {
    var l := Lead'(f, sig);
    var t := l + sp + Tail'(f, word) + rest;
    LeadVariant(f, sig);
    Split4(l, sp, Tail'(f, word), rest);
    TailStart(f, v, word, rest);
    SpaceRun(t, |l|, sp, Tail'(f, word) + rest);
  }

  /** After the white space comes a case variant of the tail. */
  lemma TailMatches(f: Spelling, v: Severity, l: string, sp: string, word: string, rest: string)
    requires SameIgnoringCase(word, SeverityWord(v))
    ensures StartsWithIgnoringCase((l + sp + Tail'(f, word) + rest)[|l| + |sp|..], Tail(f, v))
  {
    var tl := Tail'(f, word);
    Split4(l, sp, tl, rest);
    TailVariant(f, v, word);
    assert (tl + rest)[..|tl|] == tl;
  }

  /** Written out as above, a badge is a match of its pattern, and becomes the pill. */
  lemma BadgeHit(f: Spelling, v: Severity, sig: string, sp: string, word: string, rest: string)
    requires BadgeParts(v, sig, sp, word)
    ensures BadgeAt(f, v, BadgeText(f, sig, sp, word) + rest)
      == Some(Hit(|BadgeText(f, sig, sp, word)|, Pill(f, v)))
  {
    var l := Lead'(f, sig);
    var t := l + sp + Tail'(f, word) + rest;
    LeadMatches(f, sig, sp, Tail'(f, word), rest);
    SpaceMatches(f, v, sig, sp, word, rest);
    TailMatches(f, v, l, sp, word, rest);
    TailVariant(f, v, word);
    BadgeAtSteps(f, v, t, |l| + |sp|);
    assert |l| + |sp| + |Tail(f, v)| == |BadgeText(f, sig, sp, word)|;
  }

  /** The conditions under which a badge pattern matches, one by one. */
  lemma BadgeAtSteps(f: Spelling, v: Severity, t: string, w: nat)
    requires StartsWithIgnoringCase(t, Lead(f)) && SpaceEnd(t, |Lead(f)|) == w
    requires StartsWithIgnoringCase(t[w..], Tail(f, v))
    ensures BadgeAt(f, v, t) == Some(Hit(w + |Tail(f, v)|, Pill(f, v)))
  {
  }

  /** White space `sp` at `n`, followed by a character that is not white space: the run of white
      space after `n` is `sp`. */
  lemma SpaceRun(t: string, n: nat, sp: string, u: string)
    requires n <= |t| && t[n..] == sp + u && AllSpace(sp) && u != [] && !IsSpace(u[0])
    ensures SpaceEnd(t, n) == n + |sp|
  {
    forall k | n <= k < n + |sp| ensures IsSpace(t[k]) {
      assert t[k] == t[n..][k - n] == sp[k - n];
    }
    assert t[n + |sp|] == t[n..][|sp|] == u[0];
    SpaceEndAt(t, n, n + |sp|);
  }

  /** The end of a run of white space is where white space stops. */
  lemma SpaceEndAt(t: string, i: nat, e: nat)
    requires i <= e < |t| && !IsSpace(t[e])
    requires forall k :: i <= k < e ==> IsSpace(t[k])
    ensures SpaceEnd(t, i) == e
    decreases e - i
  {
    if i < e {
      SpaceEndAt(t, i + 1, e);
    }
  }

  /** A case variant of `a + b` is a case variant of `a` followed by one of `b`. */
  lemma VariantSplit(x: string, a: string, b: string)
    requires SameIgnoringCase(x, a + b)
    ensures x == x[..|a|] + x[|a|..]
    ensures SameIgnoringCase(x[..|a|], a) && SameIgnoringCase(x[|a|..], b)
  {
    forall i | 0 <= i < |a| ensures AsciiUpper(x[..|a|][i]) == AsciiUpper(a[i]) {
      assert x[..|a|][i] == x[i] && (a + b)[i] == a[i];
    }
    forall i | 0 <= i < |b| ensures AsciiUpper(x[|a|..][i]) == AsciiUpper(b[i]) {
      assert x[|a|..][i] == x[|a| + i] && (a + b)[|a| + i] == b[i];
    }
  }

  /** The only case variant of a run of `*` is itself. */
  lemma StarVariant(x: string, w: string)
    requires SameIgnoringCase(x, w) && (w == "*" || w == "**")
    ensures x == w
  {
    forall i | 0 <= i < |x| ensures x[i] == w[i] {
      UpperFacts(x[i]);
    }
  }

  /** The lead a match starts with is the lead of its spelling around a case variant of
      `Hubbell Signal:`. */
  lemma LeadSound(f: Spelling, x: string)
    requires SameIgnoringCase(x, Lead(f))
    ensures exists sig :: SameIgnoringCase(sig, SignalText) && x == Lead'(f, sig)
  {
    var st := if f == ItalicLead then "*" else "**";
    assert Lead(f) == (st + SignalText) + st;
    VariantSplit(x, st + SignalText, st);
    var x1 := x[..|st| + |SignalText|];
    VariantSplit(x1, st, SignalText);
    StarVariant(x[|st| + |SignalText|..], st);
    StarVariant(x1[..|st|], st);
    var sig := x1[|st|..];
    assert x == Lead'(f, sig);
  }

  /** The tail a match ends with is the tail of its spelling around a case variant of the
      severity. */
  lemma TailSound(f: Spelling, v: Severity, x: string)
    requires SameIgnoringCase(x, Tail(f, v))
    ensures exists word :: SameIgnoringCase(word, SeverityWord(v)) && x == Tail'(f, word)
  {
    if f == ItalicLead {
      assert Tail(f, v) == ("**" + SeverityWord(v)) + "**";
      VariantSplit(x, "**" + SeverityWord(v), "**");
      var x1 := x[..2 + |SeverityWord(v)|];
      VariantSplit(x1, "**", SeverityWord(v));
      StarVariant(x[2 + |SeverityWord(v)|..], "**");
      StarVariant(x1[..2], "**");
      assert x == Tail'(f, x1[2..]);
    } else {
      assert x == Tail'(f, x);
    }
  }

  /** The space run between the lead and the tail of a match. */
  lemma SpaceRunSound(t: string, n: nat)
    requires n <= |t|
    ensures AllSpace(t[n..SpaceEnd(t, n)])
  {
    var sp := t[n..SpaceEnd(t, n)];
    forall k | 0 <= k < |sp| ensures IsSpace(sp[k]) {
      assert sp[k] == t[n + k];
    }
  }

  /** A match is its lead, its space run and its tail. */
  lemma MatchPieces(t: string, n: nat, w: nat, e: nat)
    requires n <= w <= e <= |t|
    ensures t[..e] == t[..n] + t[n..w] + t[w..][..e - w]
  {
  }

  /** Text that starts with the lead, a space run and the tail of a spelling in any case is a
      badge as written above. */
  lemma BadgeTextSound(f: Spelling, v: Severity, t: string, w: nat)
    requires StartsWithIgnoringCase(t, Lead(f)) && w == SpaceEnd(t, |Lead(f)|)
    requires StartsWithIgnoringCase(t[w..], Tail(f, v))
    ensures exists sig, sp, word :: (BadgeParts(v, sig, sp, word)
      && t[..w + |Tail(f, v)|] == BadgeText(f, sig, sp, word))
  {
    var n := |Lead(f)|;
    var m := |Tail(f, v)|;
    var x := t[w..][..m];
    LeadSound(f, t[..n]);
    var sig :| SameIgnoringCase(sig, SignalText) && t[..n] == Lead'(f, sig);
    TailSound(f, v, x);
    var word :| SameIgnoringCase(word, SeverityWord(v)) && x == Tail'(f, word);
    SpaceRunSound(t, n);
    MatchPieces(t, n, w, w + m);
    assert BadgeParts(v, sig, t[n..w], word);
    assert t[..w + m] == BadgeText(f, sig, t[n..w], word);
  }

  /** Every match of a badge pattern is a badge as written above, of that spelling and severity,
      and is replaced by the pill. */
  lemma BadgeSound(f: Spelling, v: Severity, t: string)
    requires BadgeAt(f, v, t).Some?
    ensures exists sig, sp, word :: (BadgeParts(v, sig, sp, word)
      && t[..BadgeAt(f, v, t).value.len] == BadgeText(f, sig, sp, word)
      && BadgeAt(f, v, t).value.out == Pill(f, v))
  {
    BadgeTextSound(f, v, t, SpaceEnd(t, |Lead(f)|));
  }

  /** Every match starts with `*`. */
  lemma StartsWithStar(f: Spelling, v: Severity)
    ensures forall t :: BadgeMatcher(f, v)(t).Some? ==> t != [] && t[0] == '*'
  {
    forall t | BadgeMatcher(f, v)(t).Some? ensures t != [] && t[0] == '*' {
      assert Lead(f)[0] == '*';
      assert AsciiUpper(t[..|Lead(f)|][0]) == AsciiUpper(Lead(f)[0]);
      UpperFacts(t[0]);
    }
  }

  /** Text without `*` is left alone by every badge pass. */
  lemma NoStarUnchanged(f: Spelling, v: Severity, s: string)
    requires '*' !in s
    ensures BadgePass(f, v, s) == s
  {
    StartsWithStar(f, v);
    ScanIdentity(BadgeMatcher(f, v), '*', s);
  }

  /** A badge text followed by text without `*` has its `*`s only in the badge text: no badge
      pattern matches further on. */
  lemma Mismatch(x: string, w: string, i: nat)
    requires i < |w| && (i < |x| ==> AsciiUpper(x[i]) != AsciiUpper(w[i]))
    ensures !StartsWithIgnoringCase(x, w)
  {
    if |w| <= |x| {
      assert x[..|w|][i] == x[i];
    }
  }

  /** A lead ends with `*`, at index 16 or later: text without `*` from index 16 on starts no
      badge. */
  lemma LateStarMiss(f: Spelling, v: Severity, u: string)
    requires forall j :: 16 <= j < |u| ==> u[j] != '*'
    ensures BadgeAt(f, v, u).None?
  {
    var i := |Lead(f)| - 1;
    assert Lead(f)[i] == '*';
    if i < |u| {
      UpperFacts(u[i]);
    }
    Mismatch(u, Lead(f), i);
  }

  /** Text without `*` after a prefix of at most 16 characters. */
  lemma StarFreeAfter(x: string, b: string)
    requires |x| <= 16 && '*' !in b
    ensures forall j :: 16 <= j < |x + b| ==> (x + b)[j] != '*'
  {
    forall j | 16 <= j < |x + b| ensures (x + b)[j] != '*' {
      assert (x + b)[j] == b[j - |x|];
    }
  }

  /** The severity words start with distinct upper-case letters. */
  lemma SeverityInitials(v: Severity, v': Severity)
    ensures 'A' <= SeverityWord(v)[0] <= 'Z' && AsciiUpper(SeverityWord(v)[0]) == SeverityWord(v)[0]
    ensures v != v' ==> SeverityWord(v)[0] != SeverityWord(v')[0]
  {
  }

  /** The first letter of a case variant of a severity word gives the severity away. */
  lemma WordInitial(v: Severity, v': Severity, word: string)
    requires SameIgnoringCase(word, SeverityWord(v)) && v != v'
    ensures word != [] && AsciiUpper(word[0]) != AsciiUpper(SeverityWord(v')[0]) && word[0] != '*'
  {
    SeverityInitials(v, v');
    SeverityInitials(v', v);
    UpperFacts(word[0]);
  }

  /** The conditions under which a badge pattern does not match. */
  lemma BadgeAtMiss(f: Spelling, v: Severity, t: string)
    requires !StartsWithIgnoringCase(t, Lead(f))
      || !StartsWithIgnoringCase(t[SpaceEnd(t, |Lead(f)|)..], Tail(f, v))
    ensures BadgeAt(f, v, t).None?
  {
  }

  /** The tail of a badge of one severity is not the tail of another. */
  lemma TailWordMiss(f: Spelling, v: Severity, v': Severity, word: string, rest: string)
    requires SameIgnoringCase(word, SeverityWord(v)) && v != v'
    ensures !StartsWithIgnoringCase(Tail'(f, word) + rest, Tail(f, v'))
  {
    WordInitial(v, v', word);
    var i := if f == ItalicLead then 2 else 0;
    assert (Tail'(f, word) + rest)[i] == word[0];
    Mismatch(Tail'(f, word) + rest, Tail(f, v'), i);
  }

  /** A badge of one severity does not match the pattern of another severity of its spelling:
      the lead and the white space match, the tail does not. */
  lemma TailMiss(f: Spelling, v: Severity, v': Severity, sig: string, sp: string, word: string,
    rest: string)
    requires BadgeParts(v, sig, sp, word) && v != v'
    ensures BadgeAt(f, v', BadgeText(f, sig, sp, word) + rest).None?
  {
    var l := Lead'(f, sig);
    var tl := Tail'(f, word);
    var t := l + sp + tl + rest;
    SpaceMatches(f, v, sig, sp, word, rest);
    Split4(l, sp, tl, rest);
    TailWordMiss(f, v, v', word, rest);
    BadgeAtMiss(f, v', t);
  }

  /** `**` followed by text without `*` is copied by a pass whose matches all start with `*`,
      when none starts at either `*`. */
  lemma StarPairScan(m: Matcher, x: string)
    requires forall t :: m(t).Some? ==> t != [] && t[0] == '*'
    requires '*' !in x && m("*" + x).None? && m("**" + x).None?
    ensures Scan(m, "**" + x) == "**" + x
  {
    assert "*" + x + "" == "*" + x;
    assert "*" + "" + ("*" + x) == "**" + x;
    ScanIdentity(m, '*', x);
    ScanMissStep(m, '*', x, "");
    ScanMissStep(m, '*', "", "*" + x);
  }

  /** The tail of a badge in the italic spelling, followed by text without `*`. */
  lemma ItalicTailScan(m: Matcher, word: string, b: string)
    requires forall t :: m(t).Some? ==> t != [] && t[0] == '*'
    requires '*' !in word && '*' !in b
    requires m("**" + word + "**" + b).None? && m("*" + word + "**" + b).None?
    requires m("**" + b).None? && m("*" + b).None?
    ensures Scan(m, "**" + word + "**" + b) == "**" + word + "**" + b
  {
    assert "*" + word + ("**" + b) == "*" + word + "**" + b;
    assert "*" + "" + ("*" + word + "**" + b) == "**" + word + "**" + b;
    StarPairScan(m, b);
    ScanMissStep(m, '*', word, "**" + b);
    ScanMissStep(m, '*', "", "*" + word + "**" + b);
  }

  /** The italic spelling of a badge text followed by `b`, bracketed from the right; the
      bracketing facts are stated one lemma each, which keeps each proof small. */
  lemma ItalicTextForm(sig: string, sp: string, word: string, b: string)
    ensures BadgeText(ItalicLead, sig, sp, word) + b == "*" + sig + ("*" + sp + ("**" + word + "**" + b))
  {
    ItalicGroups(sig, sp, word, b);
  }

  lemma ItalicGroups(sig: string, sp: string, word: string, b: string)
    ensures ("*" + sig + "*") + sp + ("**" + word + "**") + b == "*" + sig + ("*" + sp + ("**" + word + "**" + b))
  {
  }

  lemma ItalicStarsForm(sig: string, sp: string, word: string, b: string)
    ensures "*" + sig + "*" + sp + "**" + word + "**" + b == "*" + sig + ("*" + sp + ("**" + word + "**" + b))
  {
  }

  lemma ItalicSpaceForm(sp: string, word: string, b: string)
    ensures "*" + sp + "**" + word + "**" + b == "*" + sp + ("**" + word + "**" + b)
  {
  }

  /** The bold spelling of a badge text followed by `b`, bracketed from the right. */
  lemma BoldTextForm(sig: string, sp: string, word: string, b: string)
    ensures BadgeText(BoldLead, sig, sp, word) + b == "*" + "" + ("*" + sig + ("**" + (sp + word + b)))
  {
  }

  lemma BoldStarsForm(sig: string, sp: string, word: string, b: string)
    ensures "**" + sig + "**" + sp + word + b == "*" + "" + ("*" + sig + ("**" + (sp + word + b)))
  {
  }

  lemma BoldSignalForm(sig: string, sp: string, word: string, b: string)
    ensures "*" + sig + "**" + sp + word + b == "*" + sig + ("**" + (sp + word + b))
  {
  }

  lemma BoldSpaceForm(sp: string, word: string, b: string)
    ensures "**" + sp + word + b == "**" + (sp + word + b) && "*" + sp + word + b == "*" + (sp + word + b)
  {
  }

  /** A badge in the italic spelling, followed by text without `*`, is copied by a pass whose
      matches all start with `*` when none starts at its six `*`s. */
  lemma ItalicTextScan(m: Matcher, sig: string, sp: string, word: string, b: string)
    requires forall t :: m(t).Some? ==> t != [] && t[0] == '*'
    requires '*' !in sig && '*' !in sp && '*' !in word && '*' !in b
    requires m("*" + sig + "*" + sp + "**" + word + "**" + b).None?
    requires m("*" + sp + "**" + word + "**" + b).None?
    requires m("**" + word + "**" + b).None? && m("*" + word + "**" + b).None?
    requires m("**" + b).None? && m("*" + b).None?
    ensures Scan(m, BadgeText(ItalicLead, sig, sp, word) + b) == BadgeText(ItalicLead, sig, sp, word) + b
  {
    var r2 := "**" + word + "**" + b;
    var r1 := "*" + sp + r2;
    ItalicTextForm(sig, sp, word, b);
    ItalicStarsForm(sig, sp, word, b);
    ItalicSpaceForm(sp, word, b);
    ItalicTailScan(m, word, b);
    ScanMissStep(m, '*', sp, r2);
    ScanMissStep(m, '*', sig, r1);
  }

  /** The same for a badge in the bold spelling and its four `*`s. */
  lemma BoldTextScan(m: Matcher, sig: string, sp: string, word: string, b: string)
    requires forall t :: m(t).Some? ==> t != [] && t[0] == '*'
    requires '*' !in sig && '*' !in sp && '*' !in word && '*' !in b
    requires m("**" + sig + "**" + sp + word + b).None?
    requires m("*" + sig + "**" + sp + word + b).None?
    requires m("**" + sp + word + b).None? && m("*" + sp + word + b).None?
    ensures Scan(m, BadgeText(BoldLead, sig, sp, word) + b) == BadgeText(BoldLead, sig, sp, word) + b
  {
    var x := sp + word + b;
    var r1 := "*" + sig + ("**" + x);
    BoldTextForm(sig, sp, word, b);
    BoldStarsForm(sig, sp, word, b);
    BoldSignalForm(sig, sp, word, b);
    BoldSpaceForm(sp, word, b);
    StarPairScan(m, x);
    ScanMissStep(m, '*', sig, "**" + x);
    ScanMissStep(m, '*', "", r1);
  }

  /** What the pieces of a badge as written look like, character by character. */
  lemma PartsFacts(v: Severity, sig: string, sp: string, word: string)
    requires BadgeParts(v, sig, sp, word)
    ensures '*' !in sig && '*' !in sp && '*' !in word
    ensures |sig| == 15 && AsciiUpper(sig[0]) == 'H'
    ensures 1 <= |word| <= 6 && word[0] != '*' && !IsSpace(word[0])
    ensures sp != [] ==> sp[0] != '*' && AsciiUpper(sp[0]) != 'H'
  {
    WordsBland();
    BlandIsPlain(SignalText);
    BlandIsPlain(SeverityWord(v));
    VariantFacts(sig, SignalText);
    assert SignalText[0] == 'H';
    VariantFacts(word, SeverityWord(v));
    SeverityInitials(v, v);
    forall k | 0 <= k < |sp| ensures sp[k] != '*' {
      assert IsSpace(sp[k]);
    }
    if sp != [] {
      UpperFacts(sp[0]);
    }
  }

  /** At the first `*` of a badge in the italic spelling, only its own pattern matches. */
  lemma ItalicFirstMiss(f': Spelling, v': Severity, v: Severity, sig: string, sp: string,
    word: string, b: string)
    requires BadgeParts(v, sig, sp, word) && (f', v') != (ItalicLead, v)
    ensures BadgeAt(f', v', "*" + sig + "*" + sp + "**" + word + "**" + b).None?
  {
    var u := "*" + sig + "*" + sp + "**" + word + "**" + b;
    ItalicTextForm(sig, sp, word, b);
    ItalicStarsForm(sig, sp, word, b);
    if f' == ItalicLead {
      TailMiss(ItalicLead, v, v', sig, sp, word, b);
    } else {
      PartsFacts(v, sig, sp, word);
      assert u[1] == sig[0];
      Mismatch(u, Lead(BoldLead), 1);
      BadgeAtMiss(f', v', u);
    }
  }

  /** At the `*` closing its lead, no badge pattern matches. */
  lemma ItalicSecondMiss(f': Spelling, v': Severity, v: Severity, sig: string, sp: string,
    word: string, b: string)
    requires BadgeParts(v, sig, sp, word)
    ensures BadgeAt(f', v', "*" + sp + "**" + word + "**" + b).None?
  {
    var u := "*" + sp + "**" + word + "**" + b;
    PartsFacts(v, sig, sp, word);
    if sp != [] {
      assert u[1] == sp[0];
      Mismatch(u, Lead(f'), 1);
    } else {
      assert u[1] == '*' && u[2] == '*';
      Mismatch(u, Lead(f'), if f' == ItalicLead then 1 else 2);
    }
    BadgeAtMiss(f', v', u);
  }

  /** At the four `*`s of its tail, no badge pattern matches. */
  lemma ItalicLateMisses(f': Spelling, v': Severity, v: Severity, sig: string, sp: string,
    word: string, b: string)
    requires BadgeParts(v, sig, sp, word) && '*' !in b
    ensures BadgeAt(f', v', "**" + word + "**" + b).None?
    ensures BadgeAt(f', v', "*" + word + "**" + b).None?
    ensures BadgeAt(f', v', "**" + b).None? && BadgeAt(f', v', "*" + b).None?
  {
    PartsFacts(v, sig, sp, word);
    StarFreeAfter("**" + word + "**", b);
    StarFreeAfter("*" + word + "**", b);
    StarFreeAfter("**", b);
    StarFreeAfter("*", b);
    LateStarMiss(f', v', "**" + word + "**" + b);
    LateStarMiss(f', v', "*" + word + "**" + b);
    LateStarMiss(f', v', "**" + b);
    LateStarMiss(f', v', "*" + b);
  }

  /** At the first `*` of a badge in the bold spelling, only its own pattern matches. */
  lemma BoldFirstMiss(f': Spelling, v': Severity, v: Severity, sig: string, sp: string,
    word: string, b: string)
    requires BadgeParts(v, sig, sp, word) && (f', v') != (BoldLead, v)
    ensures BadgeAt(f', v', "**" + sig + "**" + sp + word + b).None?
  {
    var u := "**" + sig + "**" + sp + word + b;
    BoldTextForm(sig, sp, word, b);
    BoldStarsForm(sig, sp, word, b);
    if f' == BoldLead {
      TailMiss(BoldLead, v, v', sig, sp, word, b);
    } else {
      assert u[1] == '*';
      Mismatch(u, Lead(ItalicLead), 1);
      BadgeAtMiss(f', v', u);
    }
  }

  /** At the second `*` of a badge in the bold spelling, the italic lead matches but its tail
      does not, and the bold lead does not match. */
  lemma BoldSecondMiss(f': Spelling, v': Severity, v: Severity, sig: string, sp: string,
    word: string, b: string)
    requires BadgeParts(v, sig, sp, word)
    ensures BadgeAt(f', v', "*" + sig + "**" + sp + word + b).None?
  {
    if f' == ItalicLead {
      BoldSecondMissItalic(v', v, sig, sp, word, b);
    } else {
      BoldSecondMissBold(v', v, sig, sp, word, b);
    }
  }

  lemma BoldSecondMissItalic(v': Severity, v: Severity, sig: string, sp: string, word: string,
    b: string)
    requires BadgeParts(v, sig, sp, word)
    ensures BadgeAt(ItalicLead, v', "*" + sig + "**" + sp + word + b).None?
  {
    PartsFacts(v, sig, sp, word);
    BoldSecondItalicMiss(v', sig, sp + word + b);
    DoubleStar(sig, sp, word, b);
  }

  lemma DoubleStar(sig: string, sp: string, word: string, b: string)
    ensures "*" + sig + "**" + sp + word + b == "*" + sig + "*" + "*" + (sp + word + b)
  {
    assert "**" == "*" + "*";
  }

  lemma BoldSecondMissBold(v': Severity, v: Severity, sig: string, sp: string, word: string,
    b: string)
    requires BadgeParts(v, sig, sp, word)
    ensures BadgeAt(BoldLead, v', "*" + sig + "**" + sp + word + b).None?
  {
    var u := "*" + sig + "**" + sp + word + b;
    PartsFacts(v, sig, sp, word);
    assert u[1] == sig[0];
    Mismatch(u, Lead(BoldLead), 1);
    BadgeAtMiss(BoldLead, v', u);
  }

  /** `*sig**` followed by text that starts with neither `*` nor nothing: the italic lead matches,
      white space is empty, and the tail needs a second `*` it does not find. */
  lemma BoldSecondItalicMiss(v': Severity, sig: string, x: string)
    requires SameIgnoringCase(sig, SignalText) && x != [] && x[0] != '*'
    ensures BadgeAt(ItalicLead, v', "*" + sig + "*" + "*" + x).None?
  {
    var u := "*" + sig + "*" + "*" + x;
    LeadMatches(ItalicLead, sig, "", "*", x);
    assert Lead'(ItalicLead, sig) + "" + "*" + x == u;
    assert |Lead(ItalicLead)| == 17 && u[17] == '*';
    assert SpaceEnd(u, 17) == 17;
    assert u[17..][1] == x[0];
    Mismatch(u[17..], Tail(ItalicLead, v'), 1);
    BadgeAtMiss(ItalicLead, v', u);
  }

  /** At the two `*`s closing its lead, no badge pattern matches. */
  lemma BoldLateMisses(f': Spelling, v': Severity, v: Severity, sig: string, sp: string,
    word: string, b: string)
    requires BadgeParts(v, sig, sp, word) && '*' !in b
    ensures BadgeAt(f', v', "**" + sp + word + b).None? && BadgeAt(f', v', "*" + sp + word + b).None?
  {
    PartsFacts(v, sig, sp, word);
    assert '*' !in sp + word + b;
    StarFreeAfter("**", sp + word + b);
    StarFreeAfter("*", sp + word + b);
    BoldSpaceForm(sp, word, b);
    LateStarMiss(f', v', "**" + (sp + word + b));
    LateStarMiss(f', v', "*" + (sp + word + b));
  }

  /** A badge of one spelling and severity, followed by text without `*`, is left alone by the
      pattern of every other spelling or severity. */
  lemma OtherBadgeKept(f': Spelling, v': Severity, f: Spelling, v: Severity, sig: string,
    sp: string, word: string, b: string)
    requires BadgeParts(v, sig, sp, word) && '*' !in b && (f', v') != (f, v)
    ensures BadgePass(f', v', BadgeText(f, sig, sp, word) + b) == BadgeText(f, sig, sp, word) + b
  {
    PartsFacts(v, sig, sp, word);
    StartsWithStar(f', v');
    var m := BadgeMatcher(f', v');
    if f == ItalicLead {
      ItalicFirstMiss(f', v', v, sig, sp, word, b);
      ItalicSecondMiss(f', v', v, sig, sp, word, b);
      ItalicLateMisses(f', v', v, sig, sp, word, b);
      ItalicTextScan(m, sig, sp, word, b);
    } else {
      BoldFirstMiss(f', v', v, sig, sp, word, b);
      BoldSecondMiss(f', v', v, sig, sp, word, b);
      BoldLateMisses(f', v', v, sig, sp, word, b);
      BoldTextScan(m, sig, sp, word, b);
    }
  }

  /** A badge after text without `*` becomes the pill, and scanning resumes after it. */
  lemma BadgeWraps(f: Spelling, v: Severity, a: string, sig: string, sp: string, word: string,
    b: string)
    requires '*' !in a && BadgeParts(v, sig, sp, word)
    ensures BadgePass(f, v, a + BadgeText(f, sig, sp, word) + b) == a + Pill(f, v) + BadgePass(f, v, b)
  {
    BadgeHit(f, v, sig, sp, word, b);
    StartsWithStar(f, v);
    LeadMatches(f, sig, sp, Tail'(f, word), []);
    ScanHitAfter(BadgeMatcher(f, v), '*', a, BadgeText(f, sig, sp, word), b, Pill(f, v));
  }

  /** The same after text without `*`. */
  lemma OtherBadgeKeptAfter(f': Spelling, v': Severity, f: Spelling, v: Severity, a: string,
    sig: string, sp: string, word: string, b: string)
    requires '*' !in a && BadgeParts(v, sig, sp, word) && '*' !in b && (f', v') != (f, v)
    ensures BadgePass(f', v', a + BadgeText(f, sig, sp, word) + b) == a + BadgeText(f, sig, sp, word) + b
  {
    var t := BadgeText(f, sig, sp, word);
    OtherBadgeKept(f', v', f, v, sig, sp, word, b);
    StartsWithStar(f', v');
    ScanWithoutTrigger(BadgeMatcher(f', v'), '*', a, t + b);
    assert a + t + b == a + (t + b);
  }

  /** The six passes in order, when one of them turns `s` into `s'`, the others leave `s` as it
      is, and all of them leave `s'` as it is. */
  lemma BadgesSteps(f: Spelling, v: Severity, s: string, s': string)
    requires forall f': Spelling, v': Severity :: (f', v') != (f, v) ==> BadgePass(f', v', s) == s
    requires BadgePass(f, v, s) == s'
    requires forall f': Spelling, v': Severity :: BadgePass(f', v', s') == s'
    ensures Badges(s) == s'
  {
    var s1 := BadgePass(ItalicLead, High, s);
    assert s1 == if f == ItalicLead && v == High then s' else s;
    var s2 := BadgePass(ItalicLead, Medium, s1);
    assert s2 == if f == ItalicLead && v != Low then s' else s;
    var s3 := BadgePass(ItalicLead, Low, s2);
    assert s3 == if f == ItalicLead then s' else s;
    var s4 := BadgePass(BoldLead, High, s3);
    assert s4 == if f == ItalicLead || v == High then s' else s;
    var s5 := BadgePass(BoldLead, Medium, s4);
    assert s5 == if f == ItalicLead || v != Low then s' else s;
  }

  /** Text without `*` around a pill is left alone by every badge pattern. */
  lemma PillKept(a: string, f: Spelling, v: Severity, b: string)
    requires '*' !in a && '*' !in b
    ensures forall f': Spelling, v': Severity :: BadgePass(f', v', a + Pill(f, v) + b) == a + Pill(f, v) + b
  {
    PillCalm(f, v);
    var s' := a + Pill(f, v) + b;
    assert '*' !in s';
    forall f': Spelling, v': Severity ensures BadgePass(f', v', s') == s' {
      NoStarUnchanged(f', v', s');
    }
  }

  /** A badge in a line whose other text has no `*` becomes its pill, whichever of the six
      patterns it is written for; the other five leave it alone, and the pill holds no `*` for the
      later ones. */
  lemma BadgesRender(f: Spelling, v: Severity, a: string, sig: string, sp: string, word: string,
    b: string)
    requires '*' !in a && BadgeParts(v, sig, sp, word) && '*' !in b
    ensures Badges(a + BadgeText(f, sig, sp, word) + b) == a + Pill(f, v) + b
  {
    var s := a + BadgeText(f, sig, sp, word) + b;
    forall f': Spelling, v': Severity | (f', v') != (f, v) ensures BadgePass(f', v', s) == s {
      OtherBadgeKeptAfter(f', v', f, v, a, sig, sp, word, b);
    }
    BadgeWraps(f, v, a, sig, sp, word, b);
    NoStarUnchanged(f, v, b);
    PillKept(a, f, v, b);
    BadgesSteps(f, v, s, a + Pill(f, v) + b);
  }
}
