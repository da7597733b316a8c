/** `String.prototype.replace` with a global multiline pattern of the shape `/^...$/gm` whose body
    cannot match a line terminator: each line, that is each stretch between line terminators, is
    rewritten on its own and the terminators are kept. */
module Lines {
  import opened Text

  /** The first line terminator at or after `i`, or `|s|` when there is none. */
  function LineEnd(s: string, i: nat): (r: nat)
    requires i <= |s|
    ensures i <= r <= |s|
    ensures forall k :: i <= k < r ==> !IsLineTerminator(s[k])
    ensures r < |s| ==> IsLineTerminator(s[r])
    decreases |s| - i
  {
    if i == |s| || IsLineTerminator(s[i]) then i else LineEnd(s, i + 1)
  }

  /** Every line of `s` replaced by its image under `f`. */
  function MapLines(f: string -> string, s: string): string
    decreases |s|
  {
    var e := LineEnd(s, 0);
    if e == |s| then f(s) else f(s[..e]) + [s[e]] + MapLines(f, s[e + 1..])
  }

  /** `f` applied to every element. */
  function Each(f: string -> string, ls: seq<string>): (r: seq<string>)
    ensures |r| == |ls|
    ensures forall i :: 0 <= i < |ls| ==> r[i] == f(ls[i])
  {
    seq(|ls|, i requires 0 <= i < |ls| => f(ls[i]))
  }

  /** A string with no line terminator is a single line. */
  lemma MapLinesOneLine(f: string -> string, s: string)
    requires LineFree(s)
    ensures MapLines(f, s) == f(s)
  {
    assert LineEnd(s, 0) == |s|;
  }

  /** `LineEnd` stops at the first line terminator from `i` on. */
  lemma {:induction false} LineEndAt(s: string, i: nat, r: nat)
    requires i <= r < |s| && IsLineTerminator(s[r])
    requires forall k :: i <= k < r ==> !IsLineTerminator(s[k])
    ensures LineEnd(s, i) == r
    decreases r - i
  {
    if i < r {
      LineEndAt(s, i + 1, r);
    }
  }

  /** A line feed separates the lines before it from those after it. */
  lemma {:induction false} MapLinesAround(f: string -> string, a: string, b: string)
    ensures MapLines(f, a + "\n" + b) == MapLines(f, a) + "\n" + MapLines(f, b)
    decreases |a|
  {
    var e := LineEnd(a, 0);
    if e == |a| {
      MapLinesAroundLast(f, a, b);
    } else {
      MapLinesAround(f, a[e + 1..], b);
      MapLinesAroundStep(f, a, b, e);
    }
  }

  /** The last line of `a` ends at the line feed. */
  lemma MapLinesAroundLast(f: string -> string, a: string, b: string)
    requires LineEnd(a, 0) == |a|
    ensures MapLines(f, a + "\n" + b) == MapLines(f, a) + "\n" + MapLines(f, b)
  {
    var s := a + "\n" + b;
    assert forall k :: 0 <= k < |a| ==> s[k] == a[k];
    assert s[|a|] == '\n';
    LineEndAt(s, 0, |a|);
    assert s[..|a|] == a && s[|a| + 1..] == b;
  }

  /** The first line of `a` ends before the line feed. */
  lemma MapLinesAroundStep(f: string -> string, a: string, b: string, e: nat)
    requires e == LineEnd(a, 0) && e < |a|
    requires MapLines(f, a[e + 1..] + "\n" + b) == MapLines(f, a[e + 1..]) + "\n" + MapLines(f, b)
    ensures MapLines(f, a + "\n" + b) == MapLines(f, a) + "\n" + MapLines(f, b)
  {
    var s := a + "\n" + b;
    AroundSlices(a, b, e);
    MapLinesFirst(f, s, e);
    MapLinesFirst(f, a, e);
    FeedRegroup(f(a[..e]) + [a[e]], MapLines(f, a[e + 1..]), MapLines(f, b));
  }

  /** The first line of `a + "\n" + b` is that of `a` when `a` holds a line terminator. */
  lemma AroundSlices(a: string, b: string, e: nat)
    requires e == LineEnd(a, 0) && e < |a|
    ensures LineEnd(a + "\n" + b, 0) == e
    ensures (a + "\n" + b)[..e] == a[..e] && (a + "\n" + b)[e] == a[e]
    ensures (a + "\n" + b)[e + 1..] == a[e + 1..] + "\n" + b
  {
    var s := a + "\n" + b;
    assert a + ("\n" + b) == a + "\n" + b;
    SliceFirst(a, "\n" + b, e + 1);
    SliceFirst(a, "\n" + b, e);
    assert s[e] == a[e];
    assert a[e + 1..] + ("\n" + b) == a[e + 1..] + "\n" + b;
    LineEndAt(s, 0, e);
  }

  /** The first line of a text that holds a line terminator, rewritten. */
  lemma MapLinesFirst(f: string -> string, s: string, e: nat)
    requires e == LineEnd(s, 0) && e < |s|
    ensures MapLines(f, s) == f(s[..e]) + [s[e]] + MapLines(f, s[e + 1..])
  {
  }

  lemma FeedRegroup(h: string, t: string, m: string)
    ensures h + (t + "\n" + m) == h + t + "\n" + m
  {
    assert h + ((t + "\n") + m) == h + (t + "\n") + m;
    assert h + (t + "\n") == h + t + "\n";
  }

  /** On a document given as a list of blocks joined by line feeds, a line pass rewrites each
      block on its own. */
  lemma {:induction false} MapLinesJoin(f: string -> string, ms: seq<string>)
    requires |ms| >= 1
    ensures MapLines(f, Join(ms, '\n')) == Join(Each(s => MapLines(f, s), ms), '\n')
    decreases |ms|
  {
    if |ms| > 1 {
      MapLinesAround(f, ms[0], Join(ms[1..], '\n'));
      MapLinesJoin(f, ms[1..]);
      assert Each(s => MapLines(f, s), ms)[1..] == Each(s => MapLines(f, s), ms[1..]);
    }
  }

  /** On single lines joined by line feeds, a line pass is `f` on each of them. */
  lemma MapLinesJoinLines(f: string -> string, ls: seq<string>)
    requires |ls| >= 1
    requires forall i :: 0 <= i < |ls| ==> LineFree(ls[i])
    ensures MapLines(f, Join(ls, '\n')) == Join(Each(f, ls), '\n')
  {
    MapLinesJoin(f, ls);
    forall i | 0 <= i < |ls| ensures MapLines(f, ls[i]) == f(ls[i]) {
      MapLinesOneLine(f, ls[i]);
    }
    assert Each(s => MapLines(f, s), ls) == Each(f, ls);
  }
}
