/** How the bold-italic pattern `\*\*\*(.+?)\*\*\*` (newsletter.mjs:144) sees the `*`s of a
    badge as written: at none of them does a match start. The pieces are arbitrary strings here;
    the badge module supplies what they look like. */
module BadgeStars {
  import opened Text
  import opened Markup
  import opened Emphasis

  /** The bold-italic pattern needs `***` at the start: a text whose first, second or third
      character is not `*` does not match. */
  lemma NotTripleMiss(t: string, i: nat)
    requires i < 3 && (i < |t| ==> t[i] != '*')
    ensures EmphasisAt(BoldItalic, t).None?
  {
    if StartsWith(t, "***") {
      assert t[..3][i] == t[i];
    }
  }

  /** `***` followed by text, `**` and more text, neither with `*`, has no closing `***`. */
  lemma TripleUnclosed(word: string, b: string)
    requires '*' !in word && '*' !in b
    ensures EmphasisAt(BoldItalic, "***" + word + "**" + b).None?
  {
    var t := "***" + word + "**" + b;
    forall k | 3 < k && k + 3 <= |t| ensures !StartsWith(t[k..], "***") {
      StarsAt(t, k);
      if k < 3 + |word| {
        assert t[k] == word[k - 3];
      } else {
        assert t[k + 2] == b[k - 3 - |word|];
      }
    }
  }

  /** A text with `***` at `k` has `*` at `k` and at `k + 2`. */
  lemma StarsAt(t: string, k: nat)
    requires k + 3 <= |t|
    ensures StartsWith(t[k..], "***") ==> t[k] == '*' && t[k + 2] == '*'
  {
    assert t[k..][..3][0] == t[k] && t[k..][..3][2] == t[k + 2];
  }

  /** The character after a leading `*` or `**` of the bold spelling's tail is not `*`. */
  lemma TailStart(sp: string, word: string, b: string)
    requires word != [] && word[0] != '*' && (sp != [] ==> sp[0] != '*')
    ensures ("**" + sp + word + b)[2] != '*' && ("*" + sp + word + b)[1] != '*'
  {
    if sp == [] {
      assert ("**" + sp + word + b)[2] == word[0];
      assert ("*" + sp + word + b)[1] == word[0];
    } else {
      assert ("**" + sp + word + b)[2] == sp[0];
      assert ("*" + sp + word + b)[1] == sp[0];
    }
  }

  /** The six `*`s of a badge in the italic spelling `*sig* sp **word**`, followed by text
      without `*`: no bold-italic match starts at any of them. */
  lemma ItalicMisses(sig: string, sp: string, word: string, b: string)
    requires sig != [] && sig[0] != '*' && (sp != [] ==> sp[0] != '*')
    requires word != [] && word[0] != '*' && '*' !in word && '*' !in b
    ensures EmphasisAt(BoldItalic, "*" + sig + "*" + sp + "**" + word + "**" + b).None?
    ensures EmphasisAt(BoldItalic, "*" + sp + "**" + word + "**" + b).None?
    ensures EmphasisAt(BoldItalic, "**" + word + "**" + b).None?
    ensures EmphasisAt(BoldItalic, "*" + word + "**" + b).None?
    ensures EmphasisAt(BoldItalic, "**" + b).None? && EmphasisAt(BoldItalic, "*" + b).None?
  {
    NotTripleMiss("*" + sig + "*" + sp + "**" + word + "**" + b, 1);
    if sp == [] {
      assert "*" + [] + "**" + word + "**" + b == "***" + word + "**" + b;
      TripleUnclosed(word, b);
    } else {
      NotTripleMiss("*" + sp + "**" + word + "**" + b, 1);
    }
    NotTripleMiss("**" + word + "**" + b, 2);
    NotTripleMiss("*" + word + "**" + b, 1);
    NotTripleMiss("**" + b, 2);
    NotTripleMiss("*" + b, 1);
  }

  /** The four `*`s of a badge in the bold spelling `**sig** sp word`, followed by text without
      `*`: no bold-italic match starts at any of them. */
  lemma BoldMisses(sig: string, sp: string, word: string, b: string)
    requires sig != [] && sig[0] != '*' && (sp != [] ==> sp[0] != '*')
    requires word != [] && word[0] != '*'
    ensures EmphasisAt(BoldItalic, "**" + sig + "**" + sp + word + b).None?
    ensures EmphasisAt(BoldItalic, "*" + sig + "**" + sp + word + b).None?
    ensures EmphasisAt(BoldItalic, "**" + sp + word + b).None?
    ensures EmphasisAt(BoldItalic, "*" + sp + word + b).None?
  {
    NotTripleMiss("**" + sig + "**" + sp + word + b, 2);
    NotTripleMiss("*" + sig + "**" + sp + word + b, 1);
    TailStart(sp, word, b);
    NotTripleMiss("**" + sp + word + b, 2);
    NotTripleMiss("*" + sp + word + b, 1);
  }

  /** The bold spelling regrouped as an empty prefix, the `**…**` lead and the rest. */
  lemma BoldForm(sig: string, sp: string, word: string)
    ensures "**" + sig + "**" + sp + word == "" + (Marker(Bold) + sig + Marker(Bold)) + (sp + word)
  {
  }

  /** `Strong(x)` followed by two texts, regrouped. */
  lemma StrongForm(x: string, sp: string, word: string)
    ensures "" + Strong(x) + (sp + word) == Strong(x) + sp + word
  {
  }

  /** The bold pattern on `**sig**` followed by text without `*`: the lead becomes a
      `<strong>` around `sig`. */
  lemma BoldClaims(sig: string, sp: string, word: string)
    requires sig != [] && '*' !in sig && LineFree(sig) && '*' !in sp && '*' !in word
    ensures EmphasisPass(Bold, "**" + sig + "**" + sp + word) == Strong(sig) + sp + word
  {
    Wraps(Bold, "", sig, sp + word);
    BoldForm(sig, sp, word);
    Emphasis.NoStarUnchanged(Bold, sp + word);
    StrongForm(sig, sp, word);
  }
}
