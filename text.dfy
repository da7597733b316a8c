/** Characters and strings as the JavaScript regular expressions of the newsletter script see them.
    Strings are sequences of Unicode scalar values; none of the patterns of the script treats a
    UTF-16 surrogate half specially, so a character outside the BMP behaves like one code unit. */
module Text {

  datatype Option<T> = None | Some(value: T)

  /** The characters that end a line for `^`, `$` and `.` in a JavaScript regular expression. */
  predicate IsLineTerminator(c: char) {
    c == '\n' || c == '\r' || c == '\U{2028}' || c == '\U{2029}'
  }

  /** The class `\s` of a JavaScript regular expression; `String.prototype.trim` removes the same set. */
  predicate IsSpace(c: char) {
    || c == '\t' || c == '\n' || c == '\U{000B}' || c == '\U{000C}' || c == '\r' || c == ' '
    || c == '\U{00A0}' || c == '\U{1680}' || ('\U{2000}' <= c <= '\U{200A}')
    || c == '\U{2028}' || c == '\U{2029}' || c == '\U{202F}' || c == '\U{205F}'
    || c == '\U{3000}' || c == '\U{FEFF}'
  }

  predicate LineFree(s: string) {
    '\n' !in s && '\r' !in s && '\U{2028}' !in s && '\U{2029}' !in s
  }

  predicate AllSpace(s: string) {
    forall i :: 0 <= i < |s| ==> IsSpace(s[i])
  }

  /** Upper case of an ASCII letter; every other character is its own upper case. Under the `i`
      flag (without `u`) JavaScript never matches a non-ASCII character against an ASCII one, so
      this is exactly the case folding the badge patterns need. */
  function AsciiUpper(c: char): (u: char)
    ensures 'a' <= c <= 'z' ==> 'A' <= u <= 'Z'
    ensures !('a' <= c <= 'z') ==> u == c
  {
    if 'a' <= c <= 'z' then (c as int - 32) as char else c
  }

  predicate SameIgnoringCase(s: string, w: string) {
    |s| == |w| && forall i :: 0 <= i < |s| ==> AsciiUpper(s[i]) == AsciiUpper(w[i])
  }

  predicate StartsWith(s: string, w: string) {
    |w| <= |s| && s[..|w|] == w
  }

  /** `w` is a prefix of `s` exactly when `s` agrees with `w` at each index of `w`. */
  lemma StartsWithChars(s: string, w: string)
    ensures StartsWith(s, w) <==> |w| <= |s| && forall i :: 0 <= i < |w| ==> s[i] == w[i]
  {
    if |w| <= |s| && forall i :: 0 <= i < |w| ==> s[i] == w[i] {
      assert s[..|w|] == w;
    }
  }

  predicate StartsWithIgnoringCase(s: string, w: string) {
    |w| <= |s| && SameIgnoringCase(s[..|w|], w)
  }

  /** The first index at or after `i` that holds `c`, or `|s|` when there is none. */
  function FindChar(s: string, c: char, i: nat): (r: nat)
    requires i <= |s|
    ensures i <= r <= |s|
    ensures forall k :: i <= k < r ==> s[k] != c
    ensures r < |s| ==> s[r] == c
    decreases |s| - i
  {
    if i == |s| || s[i] == c then i else FindChar(s, c, i + 1)
  }

  /** The first index at or after `i` that is not `\s`, that is, the end of the greedy match of
      `\s*` started at `i`. */
  function SpaceEnd(s: string, i: nat): (r: nat)
    requires i <= |s|
    ensures i <= r <= |s|
    ensures forall k :: i <= k < r ==> IsSpace(s[k])
    ensures r < |s| ==> !IsSpace(s[r])
    decreases |s| - i
  {
    if i == |s| || !IsSpace(s[i]) then i else SpaceEnd(s, i + 1)
  }

  /** The first index at or after `i` where `w` occurs in `s`, or `|s|` when it occurs nowhere
      from `i` on: the end of the lazy match of `[\s\S]*?` followed by `w`. */
  function FindText(s: string, w: string, i: nat): (r: nat)
    requires i <= |s|
    ensures i <= r <= |s|
    ensures forall k :: i <= k < r ==> !StartsWith(s[k..], w)
    ensures r < |s| ==> StartsWith(s[r..], w)
    decreases |s| - i
  {
    if i == |s| || StartsWith(s[i..], w) then i else FindText(s, w, i + 1)
  }

  /** `FindChar` stops at the first `c` from `i` on. */
  lemma {:induction false} FindCharAt(s: string, c: char, i: nat, r: nat)
    requires i <= r < |s| && s[r] == c
    requires forall k :: i <= k < r ==> s[k] != c
    ensures FindChar(s, c, i) == r
    decreases r - i
  {
    if i < r {
      FindCharAt(s, c, i + 1, r);
    }
  }

  /** `FindText` stops at the first occurrence of `w` from `i` on. */
  lemma {:induction false} FindTextAt(s: string, w: string, i: nat, r: nat)
    requires i <= r < |s| && StartsWith(s[r..], w)
    requires forall k :: i <= k < r ==> !StartsWith(s[k..], w)
    ensures FindText(s, w, i) == r
    decreases r - i
  {
    if i < r {
      FindTextAt(s, w, i + 1, r);
    }
  }

  predicate Occurs(s: string, w: string) {
    exists k :: 0 <= k <= |s| && StartsWith(s[k..], w)
  }

  /** A character of `w` that `s` lacks rules out every occurrence of `w` in `s`. */
  lemma AbsentCharRulesOut(s: string, w: string, c: char)
    requires c in w && c !in s
    ensures !Occurs(s, w)
  {
  }

  /** `ls.join(sep)`. */
  function Join(ls: seq<string>, sep: char): string
  {
    if |ls| == 0 then "" else if |ls| == 1 then ls[0] else ls[0] + [sep] + Join(ls[1..], sep)
  }

  /** `s.split(sep)` for a one-character separator: the pieces between the separators, in order;
      a string without the separator is one piece, the empty string included. */
  function Split(s: string, sep: char): (r: seq<string>)
    ensures |r| >= 1
    ensures forall i :: 0 <= i < |r| ==> sep !in r[i]
    decreases |s|
  {
    var i := FindChar(s, sep, 0);
    if i == |s| then [s] else [s[..i]] + Split(s[i + 1..], sep)
  }

  /** A string split into its first character and the others, in front of two others. */
  lemma FirstAndRest(b: string, x: string, y: string)
    requires b != []
    ensures b + x == [b[0]] + (b[1..] + x) && [b[0]] + (b[1..] + y) == b + y
  {
    assert b == [b[0]] + b[1..];
  }

  /** Concatenation regrouped. */
  lemma Assoc(a: string, b: string, c: string)
    ensures a + (b + c) == a + b + c
  {
  }

  /** Slicing a concatenation within its first part. */
  lemma SliceFirst(a: string, c: string, i: nat)
    requires i <= |a|
    ensures (a + c)[i..] == a[i..] + c && (a + c)[..i] == a[..i]
  {
  }

  /** A line feed between two strings, regrouped, and what follows it. */
  lemma AroundLineFeed(a: string, u: string, rest: string)
    ensures a + "\n" + u == a + ("\n" + u)
    ensures a + "\n" + u + rest == a + "\n" + (u + rest) == a + ("\n" + (u + rest))
    ensures (a + ("\n" + u))[|a| + 1..] == u
  {
  }

  /** One more piece in front. */
  lemma JoinCons(a: string, ls: seq<string>, sep: char)
    requires |ls| > 0
    ensures Join([a] + ls, sep) == a + [sep] + Join(ls, sep)
  {
    assert ([a] + ls)[1..] == ls;
  }

  /** A join starts with its first piece. */
  lemma JoinFirst(ls: seq<string>, sep: char)
    requires |ls| > 0
    ensures |ls[0]| <= |Join(ls, sep)| && Join(ls, sep) == ls[0] + Join(ls, sep)[|ls[0]|..]
  {
  }

  lemma {:induction false} JoinAppend(xs: seq<string>, ys: seq<string>, sep: char)
    requires |xs| > 0 && |ys| > 0
    ensures Join(xs + ys, sep) == Join(xs, sep) + [sep] + Join(ys, sep)
    decreases |xs|
  {
    if |xs| == 1 {
      assert (xs + ys)[1..] == ys;
    } else {
      assert (xs + ys)[1..] == xs[1..] + ys;
      JoinAppend(xs[1..], ys, sep);
    }
  }

  /** Joining the pieces gives the string back. */
  lemma {:induction false} JoinSplit(s: string, sep: char)
    ensures Join(Split(s, sep), sep) == s
    decreases |s|
  {
    var i := FindChar(s, sep, 0);
    if i < |s| {
      var rest := Split(s[i + 1..], sep);
      JoinSplit(s[i + 1..], sep);
      assert ([s[..i]] + rest)[1..] == rest;
      assert s == s[..i] + [sep] + s[i + 1..];
    }
  }

  /** Splitting a join gives the pieces back, when no piece holds the separator. */
  lemma {:induction false} SplitJoin(ls: seq<string>, sep: char)
    requires |ls| >= 1
    requires forall i :: 0 <= i < |ls| ==> sep !in ls[i]
    ensures Split(Join(ls, sep), sep) == ls
    decreases |ls|
  {
    var s := Join(ls, sep);
    if |ls| == 1 {
      assert FindChar(s, sep, 0) == |s|;
    } else {
      var rest := Join(ls[1..], sep);
      assert s == ls[0] + [sep] + rest;
      assert s[|ls[0]|] == sep;
      assert forall k :: 0 <= k < |ls[0]| ==> s[k] == ls[0][k];
      assert FindChar(s, sep, 0) == |ls[0]|;
      assert s[..|ls[0]|] == ls[0];
      assert s[|ls[0]| + 1..] == rest;
      SplitJoin(ls[1..], sep);
    }
  }
}
