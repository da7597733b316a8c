/** The recipient list of the newsletter (newsletter.mjs:293): the configured `TO_EMAILS` text is
    split at every comma, each piece is trimmed, and the pieces left empty are dropped. The list
    is later joined with `", "` into the `to` field of the message (newsletter.mjs:298). */
module Recipients {
  import opened Text

  /** `s.trim()`: `s` without the `\s` characters at its start and at its end. */
  function Trim(s: string): (r: string)
    ensures |r| <= |s|
    ensures r == [] || (!IsSpace(r[0]) && !IsSpace(r[|r| - 1]))
  {
    var i := SpaceEnd(s, 0);
    if i == |s| then [] else s[i..BlankStart(s, |s|)]
  }

  /** The first index of the run of `\s` characters that ends at `j`. */
  function BlankStart(s: string, j: nat): (r: nat)
    requires j <= |s|
    ensures r <= j
    ensures forall k :: r <= k < j ==> IsSpace(s[k])
    ensures r > 0 ==> !IsSpace(s[r - 1])
  {
    if j == 0 || !IsSpace(s[j - 1]) then j else BlankStart(s, j - 1)
  }

  /** Text with no `\s` at either end. */
  predicate Trimmed(s: string) {
    s == [] || (!IsSpace(s[0]) && !IsSpace(s[|s| - 1]))
  }

  /** `.map(e => e.trim())`. */
  function TrimEach(ps: seq<string>): (r: seq<string>)
    ensures |r| == |ps| && forall i :: 0 <= i < |ps| ==> r[i] == Trim(ps[i])
  {
    if ps == [] then [] else [Trim(ps[0])] + TrimEach(ps[1..])
  }

  /** `.filter(Boolean)`: the non-empty strings, in their order. */
  function NonEmpty(ps: seq<string>): (r: seq<string>)
    ensures |r| <= |ps|
    ensures forall i :: 0 <= i < |r| ==> r[i] != [] && r[i] in ps
  {
    if ps == [] then []
    else if ps[0] == [] then NonEmpty(ps[1..])
    else [ps[0]] + NonEmpty(ps[1..])
  }

  /** `TO_EMAILS.split(",").map(e => e.trim()).filter(Boolean)`. */
  function Recipients(toEmails: string): seq<string> {
    NonEmpty(TrimEach(Split(toEmails, ',')))
  }

  /** `recipients.join(", ")`. */
  function ToField(rs: seq<string>): string
  {
    if |rs| == 0 then "" else if |rs| == 1 then rs[0] else rs[0] + ", " + ToField(rs[1..])
  }

  /** An address the list can hold: not empty, trimmed and without a comma. */
  predicate Address(a: string) {
    a != [] && Trimmed(a) && ',' !in a
  }

  /** Trimming cuts a blank start and a blank end off and keeps what lies between: `s` is
      blanks, `Trim(s)`, and blanks. */
  lemma TrimSplits(s: string)
    ensures SpaceEnd(s, 0) + |Trim(s)| <= |s|
    ensures s == s[..SpaceEnd(s, 0)] + Trim(s) + s[SpaceEnd(s, 0) + |Trim(s)|..]
    ensures AllSpace(s[..SpaceEnd(s, 0)]) && AllSpace(s[SpaceEnd(s, 0) + |Trim(s)|..])
  {
    var i := SpaceEnd(s, 0);
    BlankSlice(s, 0, i);
    if i == |s| {
      assert s[i..] == [] && s == s[..i] + [] + [];
    } else {
      var j := BlankStart(s, |s|);
      BlankSlice(s, j, |s|);
      assert s == s[..i] + s[i..j] + s[j..];
    }
  }

  lemma BlankSlice(s: string, i: nat, j: nat)
    requires i <= j <= |s| && forall k :: i <= k < j ==> IsSpace(s[k])
    ensures AllSpace(s[i..j]) && (j == |s| ==> AllSpace(s[i..]))
  {
    forall n | 0 <= n < j - i ensures IsSpace(s[i..j][n]) {
      assert s[i..j][n] == s[i + n];
    }
  }

  /** Conversely, trimming a trimmed text between blanks gives that text back. */
  lemma TrimOf(lead: string, core: string, trail: string)
    requires AllSpace(lead) && AllSpace(trail) && Trimmed(core)
    ensures Trim(lead + core + trail) == core
  {
    var s := lead + core + trail;
    CoreChars(lead, core, trail, s);
    if core == [] {
      SpaceEndPast(s, 0, |s|);
    } else {
      SpaceEndPast(s, 0, |lead|);
      BlankStartAt(s, |s|, |lead| + |core|);
      assert s[|lead|..|lead| + |core|] == core;
    }
  }

  lemma CoreChars(lead: string, core: string, trail: string, s: string)
    requires s == lead + core + trail
    ensures |s| == |lead| + |core| + |trail|
    ensures forall k :: 0 <= k < |lead| ==> s[k] == lead[k]
    ensures forall k :: 0 <= k < |core| ==> s[|lead| + k] == core[k]
    ensures forall k :: 0 <= k < |trail| ==> s[|lead| + |core| + k] == trail[k]
  {
  }

  /** `SpaceEnd` stops at the first character from `i` on that is no blank. */
  lemma {:induction false} SpaceEndPast(s: string, i: nat, e: nat)
    requires i <= e <= |s| && (e < |s| ==> !IsSpace(s[e]))
    requires forall k :: i <= k < e ==> IsSpace(s[k])
    ensures SpaceEnd(s, i) == e
    decreases e - i
  {
    if i < e {
      SpaceEndPast(s, i + 1, e);
    }
  }

  /** `BlankStart` stops after the last character before `j` that is no blank. */
  lemma {:induction false} BlankStartAt(s: string, j: nat, r: nat)
    requires 0 < r <= j <= |s| && !IsSpace(s[r - 1])
    requires forall k :: r <= k < j ==> IsSpace(s[k])
    ensures BlankStart(s, j) == r
    decreases j
  {
    if r < j {
      BlankStartAt(s, j - 1, r);
    }
  }

  /** Trimming twice is trimming once. */
  lemma TrimIdempotent(s: string)
    ensures Trim(Trim(s)) == Trim(s)
  {
    assert [] + Trim(s) + [] == Trim(s);
    TrimOf([], Trim(s), []);
  }

  /** Blanks in front do not change the trimmed text. */
  lemma TrimLeading(ws: string, s: string)
    requires AllSpace(ws)
    ensures Trim(ws + s) == Trim(s)
  {
    TrimSplits(s);
    var i := SpaceEnd(s, 0);
    var lead, trail := s[..i], s[i + |Trim(s)|..];
    BlankAppend(ws, lead);
    LeadRegroup(ws, lead, Trim(s), trail, s);
    TrimOf(ws + lead, Trim(s), trail);
  }

  lemma LeadRegroup(ws: string, lead: string, core: string, trail: string, s: string)
    requires s == lead + core + trail
    ensures ws + s == (ws + lead) + core + trail
  {
  }

  lemma BlankAppend(a: string, b: string)
    requires AllSpace(a) && AllSpace(b)
    ensures AllSpace(a + b)
  {
  }

  /** Every recipient is an address: not empty, trimmed, without a comma. */
  lemma RecipientsAreAddresses(toEmails: string)
    ensures forall i :: 0 <= i < |Recipients(toEmails)| ==> Address(Recipients(toEmails)[i])
  {
    var ps := Split(toEmails, ',');
    forall p | p in TrimEach(ps) ensures Trimmed(p) && ',' !in p && Trim(p) == p {
      var k :| 0 <= k < |ps| && TrimEach(ps)[k] == p;
      TrimIdempotent(ps[k]);
      TrimPiece(ps[k]);
    }
  }

  /** The trimmed text is a piece of the text, so a comma-free text trims to a comma-free one. */
  lemma TrimPiece(s: string)
    requires ',' !in s
    ensures ',' !in Trim(s)
  {
    TrimSplits(s);
    var i := SpaceEnd(s, 0);
    forall k | 0 <= k < |Trim(s)| ensures Trim(s)[k] != ',' {
      assert Trim(s)[k] == s[i + k];
    }
  }

  /** `filter` distributes over concatenation. */
  lemma {:induction false} NonEmptyAppend(xs: seq<string>, ys: seq<string>)
    ensures NonEmpty(xs + ys) == NonEmpty(xs) + NonEmpty(ys)
    decreases |xs|
  {
    if xs != [] {
      assert (xs + ys)[0] == xs[0] && (xs + ys)[1..] == xs[1..] + ys;
      NonEmptyAppend(xs[1..], ys);
    } else {
      assert xs + ys == ys;
    }
  }

  /** `map` distributes over concatenation. */
  lemma TrimEachAppend(xs: seq<string>, ys: seq<string>)
    ensures TrimEach(xs + ys) == TrimEach(xs) + TrimEach(ys)
  {
  }

  /** Splitting at a comma between two texts splits each of them. */
  lemma {:induction false} SplitAppend(a: string, b: string)
    ensures Split(a + "," + b, ',') == Split(a, ',') + Split(b, ',')
    decreases |a|
  {
    var s := a + "," + b;
    var i := FindChar(a, ',', 0);
    if i == |a| {
      CommaAfterFirst(a, b, s);
      SplitFirst(s, |a|);
      SplitWhole(a);
    } else {
      CommaInFirst(a, b, s, i);
      SplitAppend(a[i + 1..], b);
      SplitAppendStep(a, b, s, i);
    }
  }

  lemma SplitAppendStep(a: string, b: string, s: string, i: nat)
    requires s == a + "," + b && i < |a| && i == FindChar(a, ',', 0)
    requires FindChar(s, ',', 0) == i && s[..i] == a[..i] && s[i + 1..] == a[i + 1..] + "," + b
    requires Split(a[i + 1..] + "," + b, ',') == Split(a[i + 1..], ',') + Split(b, ',')
    ensures Split(s, ',') == Split(a, ',') + Split(b, ',')
  {
    SplitFirst(s, i);
    SplitFirst(a, i);
    ConsAppend(a[..i], Split(a[i + 1..], ','), Split(b, ','));
  }

  lemma ConsAppend(x: string, xs: seq<string>, ys: seq<string>)
    ensures [x] + (xs + ys) == [x] + xs + ys
  {
  }

  /** The first piece ends at the first separator. */
  lemma SplitFirst(s: string, i: nat)
    requires i < |s| && i == FindChar(s, ',', 0)
    ensures Split(s, ',') == [s[..i]] + Split(s[i + 1..], ',')
  {
  }

  lemma SplitWhole(s: string)
    requires FindChar(s, ',', 0) == |s|
    ensures Split(s, ',') == [s]
  {
  }

  lemma CommaAfterFirst(a: string, b: string, s: string)
    requires s == a + "," + b && FindChar(a, ',', 0) == |a|
    ensures FindChar(s, ',', 0) == |a| && s[..|a|] == a && s[|a| + 1..] == b
  {
    FindCharAt(s, ',', 0, |a|);
  }

  lemma CommaInFirst(a: string, b: string, s: string, i: nat)
    requires s == a + "," + b && i < |a| && i == FindChar(a, ',', 0)
    ensures FindChar(s, ',', 0) == i && s[..i] == a[..i] && s[i + 1..] == a[i + 1..] + "," + b
  {
    FindCharAt(s, ',', 0, i);
  }

  /** A comma separates the recipients before it from those after it. */
  lemma RecipientsAppend(a: string, b: string)
    ensures Recipients(a + "," + b) == Recipients(a) + Recipients(b)
  {
    SplitAppend(a, b);
    TrimEachAppend(Split(a, ','), Split(b, ','));
    NonEmptyAppend(TrimEach(Split(a, ',')), TrimEach(Split(b, ',')));
  }

  /** Text without a comma names one recipient, its trimmed self, or none when it is blank. */
  lemma OnePiece(s: string)
    requires ',' !in s
    ensures Trim(s) != [] ==> Recipients(s) == [Trim(s)]
    ensures Trim(s) == [] ==> Recipients(s) == []
  {
    assert FindChar(s, ',', 0) == |s|;
    assert Split(s, ',') == [s];
  }

  /** Addresses joined with commas are read back as they were. */
  lemma {:induction false} RecipientsOfJoin(rs: seq<string>)
    requires |rs| >= 1 && forall i :: 0 <= i < |rs| ==> Address(rs[i])
    ensures Recipients(Join(rs, ',')) == rs
    decreases |rs|
  {
    TrimOf([], rs[0], []);
    assert [] + rs[0] + [] == rs[0];
    OnePiece(rs[0]);
    if |rs| > 1 {
      RecipientsOfJoin(rs[1..]);
      RecipientsAppend(rs[0], Join(rs[1..], ','));
      assert rs == [rs[0]] + rs[1..];
    }
  }

  /** The `to` field of the message names the recipients again: reading it as a recipient list
      gives the list back. */
  lemma {:induction false} RecipientsOfToField(rs: seq<string>)
    requires forall i :: 0 <= i < |rs| ==> Address(rs[i])
    ensures Recipients(ToField(rs)) == rs
    decreases |rs|
  {
    if |rs| == 0 {
      OnePiece("");
    } else if |rs| == 1 {
      AddressAlone(rs[0]);
    } else {
      RecipientsOfToField(rs[1..]);
      ToFieldStep(rs);
    }
  }

  /** An address read as a recipient list is that one address. */
  lemma AddressAlone(a: string)
    requires Address(a)
    ensures Recipients(a) == [a]
  {
    TrimOf([], a, []);
    assert [] + a + [] == a;
    OnePiece(a);
  }

  lemma ToFieldStep(rs: seq<string>)
    requires |rs| > 1 && forall i :: 0 <= i < |rs| ==> Address(rs[i])
    requires Recipients(ToField(rs[1..])) == rs[1..]
    ensures Recipients(ToField(rs)) == rs
  {
    var tail := ToField(rs[1..]);
    AddressAlone(rs[0]);
    ToFieldFirst(rs);
    RecipientsAppend(rs[0], " " + tail);
    LeadingBlank(tail);
    ListFirst(rs);
  }

  lemma ToFieldFirst(rs: seq<string>)
    requires |rs| > 1
    ensures ToField(rs) == rs[0] + "," + (" " + ToField(rs[1..]))
  {
  }

  lemma ListFirst(rs: seq<string>)
    requires |rs| > 0
    ensures rs == [rs[0]] + rs[1..]
  {
  }

  /** A blank in front of a recipient list changes nothing: only its first piece sees it, and
      trimming removes it. */
  lemma LeadingBlank(s: string)
    ensures Recipients(" " + s) == Recipients(s)
  {
    var i := FindChar(s, ',', 0);
    if i == |s| {
      BlankFirst(s[..i]);
      assert s[..i] == s;
    } else {
      var a, b := s[..i], s[i + 1..];
      assert s == a + "," + b;
      assert " " + s == (" " + a) + "," + b;
      RecipientsAppend(a, b);
      RecipientsAppend(" " + a, b);
      BlankFirst(a);
    }
  }

  /** A blank in front of a comma-free piece changes nothing. */
  lemma BlankFirst(a: string)
    requires ',' !in a
    ensures Recipients(" " + a) == Recipients(a)
  {
    assert AllSpace(" ");
    TrimLeading(" ", a);
    OnePiece(a);
    OnePiece(" " + a);
  }
}
