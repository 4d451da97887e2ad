/** What the reference scan leaves behind. On a hand whose cards are all
    unmarked, the claimed blocks are exactly the marked cards, with
    consecutive markers and one collate id per meld; the blocks left over are
    exactly the unmarked cards. Runs are unextendable, and on a face-sorted
    hand the groups take every card of their face. */
module Layout {
  import opened Cards
  import opened Hands
  import opened Sorting
  import opened Scans
  import opened Blocks

  /** A sequence meld: three or more cards of one suit with consecutive faces. */
  predicate RunMeld(m: seq<Card>) {
    |m| >= 3 && forall k | 0 <= k < |m| :: m[k].suit == m[0].suit && m[k].face == m[0].face + k
  }

  /** A group meld: three or four cards of one face. */
  predicate GroupMeld(m: seq<Card>) {
    3 <= |m| <= 4 && forall k | 0 <= k < |m| :: m[k].face == m[0].face
  }

  /** The cards of `s` carry the consecutive markers `m, m + 1, ...`. */
  predicate MarkersFrom(s: seq<Card>, m: int) {
    forall k | 0 <= k < |s| :: s[k].marker == m + k
  }

  /** The i-th meld of `ms` carries collate id `g + 1 + i` on every card. */
  predicate CollatesFrom(ms: seq<seq<Card>>, g: int) {
    forall i, k | 0 <= i < |ms| && 0 <= k < |ms[i]| :: ms[i][k].collate == g + 1 + i
  }

  /** No card of `hold` continues the run below its lowest or above its
      highest card. */
  ghost predicate Unextendable(m: seq<Card>, hold: set<(int, int)>) {
    |m| > 0
    && (m[0].suit, m[0].face - 1) !in hold
    && (m[|m| - 1].suit, m[|m| - 1].face + 1) !in hold
  }

  // ------------------------------------------------------------ sequences of melds

  lemma FlattenCons(a: seq<Card>, ms: seq<seq<Card>>)
    ensures Flatten([a] + ms) == a + Flatten(ms)
  {
    assert ([a] + ms)[1..] == ms;
  }

  lemma {:induction false} FlattenAppend(a: seq<seq<Card>>, b: seq<seq<Card>>)
    ensures Flatten(a + b) == Flatten(a) + Flatten(b)
    decreases |a|
  {
    if |a| == 0 {
      assert a + b == b;
    } else {
      assert (a + b)[1..] == a[1..] + b;
      FlattenAppend(a[1..], b);
    }
  }

  lemma MarkersFromAppend(a: seq<Card>, b: seq<Card>, m: int)
    requires MarkersFrom(a, m) && MarkersFrom(b, m + |a|)
    ensures MarkersFrom(a + b, m)
  {
    forall k | 0 <= k < |a + b|
      ensures (a + b)[k].marker == m + k
    {
      if k >= |a| {
        assert (a + b)[k] == b[k - |a|];
      }
    }
  }

  lemma CollatesFromAppend(a: seq<seq<Card>>, b: seq<seq<Card>>, g: int)
    requires CollatesFrom(a, g) && CollatesFrom(b, g + |a|)
    ensures CollatesFrom(a + b, g)
  {
    forall i, k | 0 <= i < |a + b| && 0 <= k < |(a + b)[i]|
      ensures (a + b)[i][k].collate == g + 1 + i
    {
      if i >= |a| {
        assert (a + b)[i] == b[i - |a|];
      } else {
        assert (a + b)[i] == a[i];
      }
    }
  }

  // ------------------------------------------------------------ marked and unmarked

  /** A claimed block is marked throughout while its markers stay below the
      sentinel. */
  lemma AnnotateMarked(b: seq<Card>, c: Counters)
    requires c.marker + |b| <= DefaultMarker
    ensures forall k | 0 <= k < |b| :: IsMarked(Annotate(b, c)[k])
    ensures MarkersIncreasing(Annotate(b, c))
    ensures forall k | 0 <= k < |b| :: c.marker <= Annotate(b, c)[k].marker < c.marker + |b|
  {
  }

  /** On an unmarked hand the scan splits the cards exactly: the marked cards
      of the result are its melds and the unmarked ones what it left. */
  lemma {:induction false} ScanSplits(rel: Rel, h: seq<Card>, i: int, c: Counters)
    requires 0 <= i <= |h| && AllReset(h)
    requires c.marker + (|h| - i) <= DefaultMarker
    ensures Marked(Placed(rel, h, i, c)) == Flatten(Scan(rel, h, i, c).melds)
    ensures Unmarked(Placed(rel, h, i, c)) == Scan(rel, h, i, c).rest
    decreases |h| - i
  {
    if i < |h| {
      var e := BlockEnd(rel, h, i);
      if e - i >= 3 {
        var a, n := Annotate(h[i..e], c), Advance(c, e - i);
        PlacedClaimed(rel, h, i, e, c);
        ScanClaimed(rel, h, i, e, c);
        ScanSplits(rel, h, e, n);
        AnnotateMarked(h[i..e], c);
        MarkedOfAllMarked(a);
        MarkedAppend(a, Placed(rel, h, e, n));
        UnmarkedAppend(a, Placed(rel, h, e, n));
        FlattenCons(a, Scan(rel, h, e, n).melds);
      } else {
        var b := h[i..e];
        PlacedSkipped(rel, h, i, e, c);
        ScanSkipped(rel, h, i, e, c);
        ScanSplits(rel, h, e, c);
        MarkedOfNoneMarked(b);
        MarkedAppend(b, Placed(rel, h, e, c));
        UnmarkedAppend(b, Placed(rel, h, e, c));
      }
    }
  }

  /** Markers never go down along the in-place result, the claimed ones stay
      below the sentinel and none is below the counter the scan started at. */
  lemma {:induction false} ScanMarkers(rel: Rel, h: seq<Card>, i: int, c: Counters)
    requires 0 <= i <= |h| && AllReset(h)
    requires c.marker + (|h| - i) <= DefaultMarker
    ensures MarkersIncreasing(Placed(rel, h, i, c))
    ensures forall k | 0 <= k < |Placed(rel, h, i, c)| && IsMarked(Placed(rel, h, i, c)[k]) ::
      c.marker <= Placed(rel, h, i, c)[k].marker
    decreases |h| - i
  {
    if i < |h| {
      var e := BlockEnd(rel, h, i);
      if e - i >= 3 {
        var a, n := Annotate(h[i..e], c), Advance(c, e - i);
        PlacedClaimed(rel, h, i, e, c);
        ScanMarkers(rel, h, e, n);
        AnnotateMarked(h[i..e], c);
        MarkersAppend(a, Placed(rel, h, e, n), n.marker);
      } else {
        var b := h[i..e];
        PlacedSkipped(rel, h, i, e, c);
        ScanMarkers(rel, h, e, c);
        MarkersAppend(b, Placed(rel, h, e, c), c.marker);
      }
    }
  }

  /** Two stretches with increasing markers, every marker of the first below
      `m` and every marker of the second at least `m`, join into one. */
  lemma MarkersAppend(a: seq<Card>, b: seq<Card>, m: int)
    requires MarkersIncreasing(a) && MarkersIncreasing(b)
    requires forall k | 0 <= k < |a| && IsMarked(a[k]) :: a[k].marker < m
    requires forall k | 0 <= k < |b| && IsMarked(b[k]) :: m <= b[k].marker
    ensures MarkersIncreasing(a + b)
  {
    var s := a + b;
    forall i, j | 0 <= i < j < |s| && IsMarked(s[i]) && IsMarked(s[j])
      ensures s[i].marker < s[j].marker
    {
      if j < |a| {
        assert s[i] == a[i] && s[j] == a[j];
      } else if i >= |a| {
        assert s[i] == b[i - |a|] && s[j] == b[j - |a|];
      } else {
        assert s[i] == a[i] && s[j] == b[j - |a|];
      }
    }
  }

  /** The melds of a scan, laid out one after the other, carry consecutive
      markers from the counter the scan started with. */
  lemma {:induction false} ScanMarkersFrom(rel: Rel, h: seq<Card>, i: int, c: Counters)
    requires 0 <= i <= |h|
    ensures MarkersFrom(Flatten(Scan(rel, h, i, c).melds), c.marker)
    decreases |h| - i
  {
    if i < |h| {
      var e := BlockEnd(rel, h, i);
      if e - i >= 3 {
        var a, n := Annotate(h[i..e], c), Advance(c, e - i);
        ScanMarkersFrom(rel, h, e, n);
        ScanClaimed(rel, h, i, e, c);
        FlattenCons(a, Scan(rel, h, e, n).melds);
        MarkersFromAppend(a, Flatten(Scan(rel, h, e, n).melds), c.marker);
      } else {
        ScanSkipped(rel, h, i, e, c);
        ScanMarkersFrom(rel, h, e, c);
      }
    }
  }

  /** The j-th meld of a scan carries the j-th collate id after the one the
      scan started with. */
  lemma {:induction false} ScanCollates(rel: Rel, h: seq<Card>, i: int, c: Counters)
    requires 0 <= i <= |h|
    ensures CollatesFrom(Scan(rel, h, i, c).melds, c.collate)
    decreases |h| - i
  {
    if i < |h| {
      var e := BlockEnd(rel, h, i);
      if e - i >= 3 {
        var a, n := Annotate(h[i..e], c), Advance(c, e - i);
        ScanCollates(rel, h, e, n);
        ScanClaimed(rel, h, i, e, c);
        CollatesFromAppend([a], Scan(rel, h, e, n).melds, c.collate);
      } else {
        ScanSkipped(rel, h, i, e, c);
        ScanCollates(rel, h, e, c);
      }
    }
  }

  /** What an unmarked hand's scan leaves is still reset. */
  lemma {:induction false} ScanRestReset(rel: Rel, h: seq<Card>, i: int, c: Counters)
    requires 0 <= i <= |h| && AllReset(h)
    ensures AllReset(Scan(rel, h, i, c).rest)
    decreases |h| - i
  {
    if i < |h| {
      var e := BlockEnd(rel, h, i);
      if e - i >= 3 {
        ScanClaimed(rel, h, i, e, c);
        ScanRestReset(rel, h, e, Advance(c, e - i));
      } else {
        ScanSkipped(rel, h, i, e, c);
        ScanRestReset(rel, h, e, c);
      }
    }
  }

  // ------------------------------------------------------------ shape of the melds

  lemma AnnotatedRun(h: seq<Card>, i: int, e: int, c: Counters)
    requires 0 <= i && e - i >= 3 && e <= |h| && Chained(Run, h, i, e)
    ensures RunMeld(Annotate(h[i..e], c))
  {
    SequenceFromChain(h, i, e - 1, e - 1);
  }

  lemma AnnotatedGroup(u: seq<Card>, i: int, e: int, c: Counters)
    requires 0 <= i && 3 <= e - i <= 4 && e <= |u| && Chained(Set, u, i, e)
    ensures GroupMeld(Annotate(u[i..e], c))
  {
    forall k | i <= k < e
      ensures u[k].face == u[i].face
    {
      SameFaceInChain(u, i, e, k);
    }
  }

  /** Every meld of the run scan is a sequence meld. */
  lemma {:induction false} ScanRuns(h: seq<Card>, i: int, c: Counters)
    requires 0 <= i <= |h|
    ensures forall j | 0 <= j < |Scan(Run, h, i, c).melds| :: RunMeld(Scan(Run, h, i, c).melds[j])
    decreases |h| - i
  {
    if i < |h| {
      var e := BlockEnd(Run, h, i);
      if e - i >= 3 {
        var n := Advance(c, e - i);
        ScanClaimed(Run, h, i, e, c);
        ScanRuns(h, e, n);
        AnnotatedRun(h, i, e, c);
      } else {
        ScanSkipped(Run, h, i, e, c);
        ScanRuns(h, e, c);
      }
    }
  }

  /** Every meld of the group scan is a group meld, given no five cards of
      one face in a row. */
  lemma {:induction false} ScanGroups(u: seq<Card>, i: int, c: Counters)
    requires 0 <= i <= |u| && NoFiveAlike(u)
    ensures forall j | 0 <= j < |Scan(Set, u, i, c).melds| :: GroupMeld(Scan(Set, u, i, c).melds[j])
    decreases |u| - i
  {
    if i < |u| {
      var e := BlockEnd(Set, u, i);
      if e - i >= 3 {
        var n := Advance(c, e - i);
        ScanClaimed(Set, u, i, e, c);
        ScanGroups(u, e, n);
        BlockAtMostFour(u, i);
        AnnotatedGroup(u, i, e, c);
      } else {
        ScanSkipped(Set, u, i, e, c);
        ScanGroups(u, e, c);
      }
    }
  }

  // ------------------------------------------------------------ runs: maximal and complete

  lemma ValidMember(h: seq<Card>, y: Card)
    requires AllValid(h) && y in h
    ensures Valid(y)
  {
    var j :| 0 <= j < |h| && h[j] == y;
  }

  /** In a hand in strictly ascending id order, the card whose id is one
      above that of the card at `k` sits right after it. */
  lemma Successor(h: seq<Card>, k: int, y: Card)
    requires IdAscending(h) && 0 <= k < |h| && y in h && Id(y) == Id(h[k]) + 1
    ensures k + 1 < |h| && h[k + 1] == y
  {
    var j :| 0 <= j < |h| && h[j] == y;
  }

  /** ... and the card whose id is one below sits right before it. */
  lemma Predecessor(h: seq<Card>, k: int, y: Card)
    requires IdAscending(h) && 0 <= k < |h| && y in h && Id(y) + 1 == Id(h[k])
    ensures k > 0 && h[k - 1] == y
  {
    var j :| 0 <= j < |h| && h[j] == y;
  }

  /** The card of `hold` that continues the run upwards from the card at `k`
      is the next card of the hand. */
  lemma UpLink(h: seq<Card>, k: int)
    requires IdAscending(h) && AllValid(h) && 0 <= k < |h|
    requires (h[k].suit, h[k].face + 1) in Holding(h)
    ensures LinkAt(Run, h, k)
  {
    var y :| y in h && (y.suit, y.face) == (h[k].suit, h[k].face + 1);
    ValidMember(h, y);
    Successor(h, k, y);
  }

  /** The card of `hold` that continues the run downwards from the card at
      `k` is the previous card of the hand. */
  lemma DownLink(h: seq<Card>, k: int)
    requires IdAscending(h) && AllValid(h) && 0 <= k < |h|
    requires (h[k].suit, h[k].face - 1) in Holding(h)
    ensures LinkAt(Run, h, k - 1)
  {
    var y :| y in h && (y.suit, y.face) == (h[k].suit, h[k].face - 1);
    ValidMember(h, y);
    Predecessor(h, k, y);
  }

  /** A block start cannot be extended downwards by any card of the hand. */
  lemma StartUnextendable(h: seq<Card>, i: int)
    requires IdAscending(h) && AllValid(h) && 0 <= i < |h| && !LinkAt(Run, h, i - 1)
    ensures (h[i].suit, h[i].face - 1) !in Holding(h)
  {
    if (h[i].suit, h[i].face - 1) in Holding(h) {
      DownLink(h, i);
    }
  }

  /** A block end cannot be extended upwards by any card of the hand. */
  lemma EndUnextendable(h: seq<Card>, e: int)
    requires IdAscending(h) && AllValid(h) && 0 < e <= |h| && !LinkAt(Run, h, e - 1)
    ensures (h[e - 1].suit, h[e - 1].face + 1) !in Holding(h)
  {
    if (h[e - 1].suit, h[e - 1].face + 1) in Holding(h) {
      UpLink(h, e - 1);
    }
  }

  /** Every meld of `ms` is unextendable by the cards of `hold`. */
  ghost predicate AllUnextendable(ms: seq<seq<Card>>, hold: set<(int, int)>) {
    forall j | 0 <= j < |ms| :: Unextendable(ms[j], hold)
  }

  lemma AllUnextendableCons(a: seq<Card>, ms: seq<seq<Card>>, hold: set<(int, int)>)
    requires Unextendable(a, hold) && AllUnextendable(ms, hold)
    ensures AllUnextendable([a] + ms, hold)
  {
    forall j | 0 <= j < |[a] + ms|
      ensures Unextendable(([a] + ms)[j], hold)
    {
      if j > 0 {
        assert ([a] + ms)[j] == ms[j - 1];
      }
    }
  }

  /** A claimed block whose edge cards cannot be extended gives an
      unextendable meld. */
  lemma ClaimedUnextendable(h: seq<Card>, i: int, e: int, c: Counters, hold: set<(int, int)>)
    requires 0 <= i < e <= |h|
    requires (h[i].suit, h[i].face - 1) !in hold
    requires (h[e - 1].suit, h[e - 1].face + 1) !in hold
    ensures Unextendable(Annotate(h[i..e], c), hold)
  {
    var a := Annotate(h[i..e], c);
    assert a[0] == Tag(h[i], c.marker, c.collate + 1);
    assert a[|a| - 1] == Tag(h[e - 1], c.marker + (e - 1 - i), c.collate + 1);
  }

  /** A block has no link into it from the left and none out of it to the right. */
  lemma BlockEdges(rel: Rel, h: seq<Card>, i: int, e: int)
    requires 0 <= i < |h| && BlockStart(rel, h, i) && e == BlockEnd(rel, h, i)
    ensures !LinkAt(rel, h, i - 1) && !LinkAt(rel, h, e - 1)
  {
  }

  lemma MaximalClaimed(h: seq<Card>, i: int, e: int, c: Counters)
    requires IdAscending(h) && AllValid(h) && BlockStart(Run, h, i)
    requires 0 <= i < |h| && e == BlockEnd(Run, h, i) && e - i >= 3
    requires AllUnextendable(Scan(Run, h, e, Advance(c, e - i)).melds, Holding(h))
    ensures AllUnextendable(Scan(Run, h, i, c).melds, Holding(h))
  {
    BlockEdges(Run, h, i, e);
    StartUnextendable(h, i);
    EndUnextendable(h, e);
    ClaimedUnextendable(h, i, e, c, Holding(h));
    ScanClaimed(Run, h, i, e, c);
    AllUnextendableCons(Annotate(h[i..e], c), Scan(Run, h, e, Advance(c, e - i)).melds, Holding(h));
  }

  /** The run scan's melds cannot be extended by any card of the hand. */
  lemma {:induction false} ScanRunsMaximal(h: seq<Card>, i: int, c: Counters)
    requires IdAscending(h) && AllValid(h) && BlockStart(Run, h, i)
    ensures AllUnextendable(Scan(Run, h, i, c).melds, Holding(h))
    decreases |h| - i
  {
    if i < |h| {
      var e := BlockEnd(Run, h, i);
      if e - i >= 3 {
        ScanRunsMaximal(h, e, Advance(c, e - i));
        MaximalClaimed(h, i, e, c);
      } else {
        ScanSkipped(Run, h, i, e, c);
        ScanRunsMaximal(h, e, c);
      }
    }
  }

  /** The card at `k` lies in three linked neighbours: as the first, the
      middle or the last of them. */
  predicate InThree(rel: Rel, h: seq<Card>, k: int) {
    || (LinkAt(rel, h, k) && LinkAt(rel, h, k + 1))
    || (LinkAt(rel, h, k - 1) && LinkAt(rel, h, k))
    || (LinkAt(rel, h, k - 2) && LinkAt(rel, h, k - 1))
  }

  /** In a hand in ascending id order, a card that could lie in some
      three-card sequence of the hand does lie in three linked neighbours. */
  lemma InSomeRunInThree(h: seq<Card>, k: int)
    requires IdAscending(h) && AllValid(h) && 0 <= k < |h|
    requires InSomeRun(Holding(h), h[k].suit, h[k].face)
    ensures InThree(Run, h, k)
  {
    var hold, s, f := Holding(h), h[k].suit, h[k].face;
    if (s, f + 1) in hold && (s, f + 2) in hold {
      TwoUp(h, k);
    } else if (s, f - 1) in hold && (s, f + 1) in hold {
      DownLink(h, k);
      UpLink(h, k);
    } else {
      TwoDown(h, k);
    }
  }

  lemma TwoUp(h: seq<Card>, k: int)
    requires IdAscending(h) && AllValid(h) && 0 <= k < |h|
    requires (h[k].suit, h[k].face + 1) in Holding(h) && (h[k].suit, h[k].face + 2) in Holding(h)
    ensures LinkAt(Run, h, k) && LinkAt(Run, h, k + 1)
  {
    UpLink(h, k);
    assert h[k + 1].suit == h[k].suit && h[k + 1].face == h[k].face + 1;
    UpLink(h, k + 1);
  }

  lemma TwoDown(h: seq<Card>, k: int)
    requires IdAscending(h) && AllValid(h) && 0 <= k < |h|
    requires (h[k].suit, h[k].face - 1) in Holding(h) && (h[k].suit, h[k].face - 2) in Holding(h)
    ensures LinkAt(Run, h, k - 2) && LinkAt(Run, h, k - 1)
  {
    DownLink(h, k);
    assert h[k - 1].suit == h[k].suit && h[k - 1].face == h[k].face - 1;
    DownLink(h, k - 1);
  }

  /** A card in three linked neighbours, at or after a block start, ends up
      in a meld of the scan. */
  lemma {:induction false} InThreeClaimed(rel: Rel, h: seq<Card>, i: int, c: Counters, k: int)
    requires BlockStart(rel, h, i) && i <= k < |h| && InThree(rel, h, k)
    ensures Reset(h[k]) in ResetAll(Flatten(Scan(rel, h, i, c).melds))
    decreases |h| - i
  {
    var e := BlockEnd(rel, h, i);
    BlockEdges(rel, h, i, e);
    if k < e {
      ThreeInsideBlock(rel, h, i, e, k);
      ClaimedMember(rel, h, i, e, c, k);
    } else if e - i >= 3 {
      InThreeClaimed(rel, h, e, Advance(c, e - i), k);
      LaterMember(rel, h, i, e, c, Reset(h[k]));
    } else {
      ScanSkipped(rel, h, i, e, c);
      InThreeClaimed(rel, h, e, c, k);
    }
  }

  /** Three linked neighbours inside a block without links at its edges make
      the block at least three long. */
  lemma ThreeInsideBlock(rel: Rel, h: seq<Card>, i: int, e: int, k: int)
    requires 0 <= i <= k < e <= |h| && InThree(rel, h, k)
    requires !LinkAt(rel, h, i - 1) && !LinkAt(rel, h, e - 1)
    ensures e - i >= 3
  {
  }

  /** Every card of a claimed block is in the melds of the scan. */
  lemma ClaimedMember(rel: Rel, h: seq<Card>, i: int, e: int, c: Counters, k: int)
    requires 0 <= i < |h| && e == BlockEnd(rel, h, i) && e - i >= 3 && i <= k < e
    ensures Reset(h[k]) in ResetAll(Flatten(Scan(rel, h, i, c).melds))
  {
    var a, n := Annotate(h[i..e], c), Advance(c, e - i);
    ScanClaimed(rel, h, i, e, c);
    FlattenCons(a, Scan(rel, h, e, n).melds);
    var f := Flatten(Scan(rel, h, i, c).melds);
    assert f[k - i] == a[k - i];
    assert ResetAll(f)[k - i] == Reset(h[k]);
  }

  /** What the melds after a claimed block hold, the whole scan holds. */
  lemma LaterMember(rel: Rel, h: seq<Card>, i: int, e: int, c: Counters, x: Card)
    requires 0 <= i < |h| && e == BlockEnd(rel, h, i) && e - i >= 3
    requires x in ResetAll(Flatten(Scan(rel, h, e, Advance(c, e - i)).melds))
    ensures x in ResetAll(Flatten(Scan(rel, h, i, c).melds))
  {
    var a, n := Annotate(h[i..e], c), Advance(c, e - i);
    ScanClaimed(rel, h, i, e, c);
    FlattenCons(a, Scan(rel, h, e, n).melds);
    ResetAllAppend(a, Flatten(Scan(rel, h, e, n).melds));
  }

  // ------------------------------------------------------------ groups: complete

  lemma SortedAppend(k: Key, a: seq<Card>, b: seq<Card>)
    requires Sorted(k, a) && Sorted(k, b)
    requires forall i, j | 0 <= i < |a| && 0 <= j < |b| :: KeyOf(k, a[i]) <= KeyOf(k, b[j])
    ensures Sorted(k, a + b)
  {
    var s := a + b;
    forall i, j | 0 <= i < j < |s|
      ensures KeyOf(k, s[i]) <= KeyOf(k, s[j])
    {
      if j < |a| {
        assert s[i] == a[i] && s[j] == a[j];
      } else if i >= |a| {
        assert s[i] == b[i - |a|] && s[j] == b[j - |a|];
      } else {
        assert s[i] == a[i] && s[j] == b[j - |a|];
      }
    }
  }

  /** On a face-sorted hand a block of one face is followed by a higher face. */
  lemma SetBlockFaces(u: seq<Card>, i: int, e: int)
    requires Sorted(ByFace, u) && 0 <= i < |u| && e == BlockEnd(Set, u, i)
    ensures forall k | i <= k < e :: u[k].face == u[i].face
    ensures e < |u| ==> u[i].face < u[e].face
  {
    forall k | i <= k < e
      ensures u[k].face == u[i].face
    {
      SameFaceInChain(u, i, e, k);
    }
    if e < |u| {
      assert KeyOf(ByFace, u[e - 1]) <= KeyOf(ByFace, u[e]);
    }
  }

  /** No card of any meld of `ms` shares a face with a card of `rest`. */
  predicate FacesApart(ms: seq<seq<Card>>, rest: seq<Card>) {
    forall j, x, k | 0 <= j < |ms| && 0 <= x < |ms[j]| && 0 <= k < |rest| :: ms[j][x].face != rest[k].face
  }

  /** Every card of the melds `ms` has a face of at least `f`. */
  predicate MeldFacesFrom(ms: seq<seq<Card>>, f: int) {
    forall j, x | 0 <= j < |ms| && 0 <= x < |ms[j]| :: f <= ms[j][x].face
  }

  /** Every card of `r` has a face of at least `f`. */
  predicate FacesFrom(r: seq<Card>, f: int) {
    forall k | 0 <= k < |r| :: f <= r[k].face
  }

  lemma MeldFacesFromCons(a: seq<Card>, ms: seq<seq<Card>>, f: int)
    requires FacesFrom(a, f) && MeldFacesFrom(ms, f)
    ensures MeldFacesFrom([a] + ms, f)
  {
    var r: seq<seq<Card>> := [a] + ms;
    forall j, x | 0 <= j < |r| && 0 <= x < |r[j]|
      ensures f <= r[j][x].face
    {
      if j > 0 {
        assert r[j] == ms[j - 1];
      }
    }
  }

  lemma FacesFromAppend(a: seq<Card>, b: seq<Card>, f: int)
    requires FacesFrom(a, f) && FacesFrom(b, f)
    ensures FacesFrom(a + b, f)
  {
    forall k | 0 <= k < |a + b|
      ensures f <= (a + b)[k].face
    {
      if k >= |a| {
        assert (a + b)[k] == b[k - |a|];
      }
    }
  }

  /** A claimed or skipped block of one face: its cards carry that face. */
  lemma BlockFacesFrom(u: seq<Card>, i: int, e: int, c: Counters)
    requires 0 <= i < e <= |u|
    requires forall k | i <= k < e :: u[k].face == u[i].face
    ensures FacesFrom(u[i..e], u[i].face)
    ensures FacesFrom(Annotate(u[i..e], c), u[i].face)
  {
  }

  /** On a face-sorted hand no card the group scan leaves or claims from `i`
      on has a face below that of the card at `i`. */
  lemma {:induction false} SetScanAbove(u: seq<Card>, i: int, c: Counters)
    requires Sorted(ByFace, u) && 0 <= i < |u|
    ensures FacesFrom(Scan(Set, u, i, c).rest, u[i].face)
    ensures MeldFacesFrom(Scan(Set, u, i, c).melds, u[i].face)
    decreases |u| - i
  {
    var e := BlockEnd(Set, u, i);
    SetBlockFaces(u, i, e);
    BlockFacesFrom(u, i, e, c);
    var n := if e - i >= 3 then Advance(c, e - i) else c;
    var t := Scan(Set, u, e, n);
    if e < |u| {
      SetScanAbove(u, e, n);
    }
    assert FacesFrom(t.rest, u[i].face) && MeldFacesFrom(t.melds, u[i].face);
    if e - i >= 3 {
      ScanClaimed(Set, u, i, e, c);
      MeldFacesFromCons(Annotate(u[i..e], c), t.melds, u[i].face);
    } else {
      ScanSkipped(Set, u, i, e, c);
      FacesFromAppend(u[i..e], t.rest, u[i].face);
    }
  }

  /** What the group scan leaves of a face-sorted hand is face-sorted, holds
      at most two cards of a face, and shares no face with any group. */
  lemma {:induction false} SetScanRest(u: seq<Card>, i: int, c: Counters)
    requires Sorted(ByFace, u) && 0 <= i <= |u|
    ensures Sorted(ByFace, Scan(Set, u, i, c).rest)
    ensures forall k | 0 <= k && k + 2 < |Scan(Set, u, i, c).rest| ::
      Scan(Set, u, i, c).rest[k].face != Scan(Set, u, i, c).rest[k + 2].face
    ensures FacesApart(Scan(Set, u, i, c).melds, Scan(Set, u, i, c).rest)
    decreases |u| - i
  {
    if i < |u| {
      var e := BlockEnd(Set, u, i);
      SetBlockFaces(u, i, e);
      var n := if e - i >= 3 then Advance(c, e - i) else c;
      SetScanRest(u, e, n);
      var t := Scan(Set, u, e, n);
      if e < |u| {
        SetScanAbove(u, e, n);
      }
      assert FacesFrom(t.rest, u[i].face + 1) && MeldFacesFrom(t.melds, u[i].face + 1);
      if e - i >= 3 {
        ScanClaimed(Set, u, i, e, c);
        SetClaimedRest(u, i, e, c, t);
      } else {
        ScanSkipped(Set, u, i, e, c);
        SetSkippedRest(u, i, e, t);
      }
    }
  }

  lemma SetClaimedRest(u: seq<Card>, i: int, e: int, c: Counters, t: ScanResult)
    requires 0 <= i < e <= |u|
    requires forall k | i <= k < e :: u[k].face == u[i].face
    requires FacesFrom(t.rest, u[i].face + 1)
    requires FacesApart(t.melds, t.rest)
    ensures FacesApart([Annotate(u[i..e], c)] + t.melds, t.rest)
  {
    var ms: seq<seq<Card>> := [Annotate(u[i..e], c)] + t.melds;
    forall j, x, k | 0 <= j < |ms| && 0 <= x < |ms[j]| && 0 <= k < |t.rest|
      ensures ms[j][x].face != t.rest[k].face
    {
      if j > 0 {
        assert ms[j] == t.melds[j - 1];
      } else {
        assert ms[0][x].face == u[i + x].face;
      }
    }
  }

  lemma SetSkippedRest(u: seq<Card>, i: int, e: int, t: ScanResult)
    requires 0 <= i < e <= |u| && e - i < 3
    requires forall k | i <= k < e :: u[k].face == u[i].face
    requires FacesFrom(t.rest, u[i].face + 1) && MeldFacesFrom(t.melds, u[i].face + 1)
    requires Sorted(ByFace, t.rest)
    requires forall k | 0 <= k && k + 2 < |t.rest| :: t.rest[k].face != t.rest[k + 2].face
    requires FacesApart(t.melds, t.rest)
    ensures Sorted(ByFace, u[i..e] + t.rest)
    ensures forall k | 0 <= k && k + 2 < |u[i..e] + t.rest| :: (u[i..e] + t.rest)[k].face != (u[i..e] + t.rest)[k + 2].face
    ensures FacesApart(t.melds, u[i..e] + t.rest)
  {
    var b := u[i..e];
    var r := b + t.rest;
    SortedAppend(ByFace, b, t.rest);
    forall k | 0 <= k && k + 2 < |r|
      ensures r[k].face != r[k + 2].face
    {
      if k < |b| {
        assert r[k + 2] == t.rest[k + 2 - |b|];
      } else {
        assert r[k] == t.rest[k - |b|] && r[k + 2] == t.rest[k + 2 - |b|];
      }
    }
    forall j, x, k | 0 <= j < |t.melds| && 0 <= x < |t.melds[j]| && 0 <= k < |r|
      ensures t.melds[j][x].face != r[k].face
    {
      if k >= |b| {
        assert r[k] == t.rest[k - |b|];
      }
    }
  }

  /** A face-sorted hand of distinct reset cards of the deck has no five
      cards of one face: there are only four suits. */
  lemma FaceSortedNoFive(u: seq<Card>)
    requires Sorted(ByFace, u) && AllValid(u) && AllReset(u) && NoDup(u)
    ensures NoFiveAlike(u)
  {
    forall k | 0 <= k && k + 4 < |u|
      ensures FifthDiffers(u, k)
    {
      assert Valid(u[k]) && Valid(u[k + 1]) && Valid(u[k + 2]) && Valid(u[k + 3]) && Valid(u[k + 4]);
      if u[k].face == u[k + 4].face {
        forall a, b | k <= a < b <= k + 4
          ensures u[a].suit != u[b].suit
        {
          NoDupDistinct(u, a, b);
          assert KeyOf(ByFace, u[k]) <= KeyOf(ByFace, u[a]) <= KeyOf(ByFace, u[b]) <= KeyOf(ByFace, u[k + 4]);
        }
      }
    }
  }
}
