/** `String.prototype.replace` with a global regular expression: the string is scanned from left
    to right; where the pattern matches, the match is replaced and scanning resumes after it, and
    elsewhere the character is copied. Each pattern is given by a matcher that says whether the
    pattern matches at the start of a string and, if so, how long the match is and what replaces
    it. None of the script's patterns looks behind the current position, so a match at a position
    depends only on the text from that position on. */
module Scanner {
  import opened Text

  datatype Hit = Hit(len: nat, out: string)

  type Matcher = string -> Option<Hit>

  /** The match of `m` at the start of `s`, when it is a non-empty prefix of `s`. */
  function HitAt(m: Matcher, s: string): Option<Hit>
  {
    if s != [] && m(s).Some? && 0 < m(s).value.len <= |s| then m(s) else None
  }

  function Scan(m: Matcher, s: string): string
    decreases |s|
  {
    if s == [] then []
    else match HitAt(m, s)
      case Some(h) => h.out + Scan(m, s[h.len..])
      case None => [s[0]] + Scan(m, s[1..])
  }

  /** Text in which no match starts is copied unchanged. */
  lemma {:induction false} ScanSkip(m: Matcher, a: string, b: string)
    requires forall k :: 0 <= k < |a| ==> m((a + b)[k..]).None?
    ensures Scan(m, a + b) == a + Scan(m, b)
    decreases |a|
  {
    if a != [] {
      assert (a + b)[0..] == a + b;
      assert (a + b)[1..] == a[1..] + b;
      forall k | 0 <= k < |a[1..]|
        ensures m((a[1..] + b)[k..]).None?
      {
        assert (a[1..] + b)[k..] == (a + b)[k + 1..];
      }
      ScanSkip(m, a[1..], b);
    }
  }

  /** A match at the start is replaced and scanning resumes after it. */
  lemma ScanHit(m: Matcher, a: string, b: string, out: string)
    requires a != [] && m(a + b) == Some(Hit(|a|, out))
    ensures Scan(m, a + b) == out + Scan(m, b)
  {
    assert (a + b)[|a|..] == b;
  }

  /** A match that takes a whole line and its line feed, wrapped in `open` and `close`. */
  lemma ScanHitLine(m: Matcher, r: string, after: string, open: string, close: string)
    requires m(r + ("\n" + after)) == Some(Hit(|r| + 1, open + (r + "\n") + close))
    ensures Scan(m, r + ("\n" + after)) == open + r + "\n" + close + Scan(m, after)
  {
    var u := r + "\n";
    Assoc(r, "\n", after);
    ScanHit(m, u, after, open + u + close);
    Assoc(open, r, "\n");
  }

  /** A match that takes the whole text, wrapped in `open` and `close`. */
  lemma ScanHitAll(m: Matcher, r: string, open: string, close: string)
    requires r != [] && m(r) == Some(Hit(|r|, open + r + close))
    ensures Scan(m, r) == open + r + close
  {
    assert r + [] == r;
    ScanHit(m, r, [], open + r + close);
  }

  /** No match at the start of `b`, and none inside it after its first character. */
  lemma ScanFirstMiss(m: Matcher, b: string, rest: string)
    requires b != [] && m(b + rest).None?
    requires Scan(m, b[1..] + rest) == b[1..] + Scan(m, rest)
    ensures Scan(m, b + rest) == b + Scan(m, rest)
  {
    FirstAndRest(b, rest, Scan(m, rest));
    ScanMiss(m, b[0], b[1..] + rest);
  }

  /** No match at the start: the first character is copied. */
  lemma ScanMiss(m: Matcher, c: char, b: string)
    requires m([c] + b).None?
    ensures Scan(m, [c] + b) == [c] + Scan(m, b)
  {
    assert ([c] + b)[1..] == b;
  }

  /** When every match starts with the character `c`, text without `c` is copied unchanged. */
  lemma ScanWithoutTrigger(m: Matcher, c: char, a: string, b: string)
    requires forall t :: m(t).Some? ==> t != [] && t[0] == c
    requires c !in a
    ensures Scan(m, a + b) == a + Scan(m, b)
  {
    forall k | 0 <= k < |a| ensures m((a + b)[k..]).None? {
      assert (a + b)[k..][0] == a[k];
    }
    ScanSkip(m, a, b);
  }

  /** When every match starts with `c`, a string without `c` is left as it is. */
  lemma ScanIdentity(m: Matcher, c: char, a: string)
    requires forall t :: m(t).Some? ==> t != [] && t[0] == c
    requires c !in a
    ensures Scan(m, a) == a
  {
    ScanWithoutTrigger(m, c, a, []);
    assert a + [] == a;
  }

  /** Text without the character `c` that starts every match, then a match: the text is copied,
      the match replaced, and scanning resumes after it. */
  lemma ScanHitAfter(m: Matcher, c: char, a: string, hit: string, b: string, out: string)
    requires forall t :: m(t).Some? ==> t != [] && t[0] == c
    requires c !in a && hit != [] && m(hit + b) == Some(Hit(|hit|, out))
    ensures Scan(m, a + hit + b) == a + out + Scan(m, b)
  {
    ScanHit(m, hit, b, out);
    ScanWithoutTrigger(m, c, a, hit + b);
    assert a + hit + b == a + (hit + b);
  }

  /** No match at a `c` followed by text without `c`: both are copied. */
  lemma ScanMissThen(m: Matcher, c: char, x: string, rest: string)
    requires forall t :: m(t).Some? ==> t != [] && t[0] == c
    requires m([c] + x + rest).None? && c !in x
    ensures Scan(m, [c] + x + rest) == [c] + x + Scan(m, rest)
  {
    assert [c] + x + rest == [c] + (x + rest);
    ScanMiss(m, c, x + rest);
    ScanWithoutTrigger(m, c, x, rest);
  }

  /** The same, when the scan already copies the rest. */
  lemma ScanMissStep(m: Matcher, c: char, x: string, rest: string)
    requires forall t :: m(t).Some? ==> t != [] && t[0] == c
    requires m([c] + x + rest).None? && c !in x && Scan(m, rest) == rest
    ensures Scan(m, [c] + x + rest) == [c] + x + rest
  {
    ScanMissThen(m, c, x, rest);
  }

  /** Three pieces, each passed over whatever follows it, are passed over together. */
  lemma ScanPieces(m: Matcher, p: string, b: string, q: string, rest: string)
    requires Scan(m, q + rest) == q + Scan(m, rest)
    requires Scan(m, b + (q + rest)) == b + Scan(m, q + rest)
    requires Scan(m, p + (b + (q + rest))) == p + Scan(m, b + (q + rest))
    ensures Scan(m, p + b + q + rest) == p + b + q + Scan(m, rest)
  {
    Assoc(p, b, q + rest);
    Assoc(p + b, q, rest);
    Assoc(p, b, q + Scan(m, rest));
    Assoc(p + b, q, Scan(m, rest));
  }

  /** A line passed over, its line feed passed over, then the lines after it. */
  lemma ScanLine(m: Matcher, s: string, a: string, j: string, o: string, oj: string)
    requires s == a + "\n" + j && o == a + "\n" + oj
    requires Scan(m, a + ("\n" + j)) == a + Scan(m, "\n" + j)
    requires Scan(m, "\n" + j) == "\n" + Scan(m, j) && Scan(m, j) == oj
    ensures Scan(m, s) == o
  {
    Assoc(a, "\n", j);
  }
}
