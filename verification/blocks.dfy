/** A block-wise reading of the two greedy scans. A hand splits into maximal
    blocks of linked neighbours: cards that continue each other as a run
    (same suit, next face) or that share a face. Both scans claim exactly the
    blocks of three or more cards, left to right, and leave the rest. This
    module defines that reading and proves that the literal loops of the
    source compute it. */
module Blocks {
  import opened Cards
  import opened Hands
  import opened Scans

  /** Which relation links neighbours: runs of one suit, or sets of one face. */
  datatype Rel = Run | Set

  predicate Linked(rel: Rel, a: Card, b: Card) {
    match rel
    case Run => Next(a, b)
    case Set => a.face == b.face
  }

  /** Position `i` begins a block: nothing before it links to it. */
  predicate BlockStart(rel: Rel, h: seq<Card>, i: int) {
    0 <= i <= |h| && (i == 0 || i == |h| || !Linked(rel, h[i - 1], h[i]))
  }

  /** The card at `k` links to the card after it. */
  predicate LinkAt(rel: Rel, h: seq<Card>, k: int) {
    0 <= k && k + 1 < |h| && Linked(rel, h[k], h[k + 1])
  }

  /** Cards `i..e-1` are linked one to the next. */
  predicate Chained(rel: Rel, h: seq<Card>, i: int, e: int) {
    forall k | i <= k < e - 1 :: LinkAt(rel, h, k)
  }

  /** The end (exclusive) of the block that starts at `i`: the first place
      where the chain of links breaks. */
  function BlockEnd(rel: Rel, h: seq<Card>, i: int): (e: int)
    requires 0 <= i < |h|
    ensures i < e <= |h|
    ensures Chained(rel, h, i, e)
    ensures e == |h| || !Linked(rel, h[e - 1], h[e])
    decreases |h| - i
  {
    if i + 1 < |h| && Linked(rel, h[i], h[i + 1]) then BlockEnd(rel, h, i + 1) else i + 1
  }

  /** The cards of a block as a meld claims them: consecutive markers from
      the counter, and the next collate id. */
  function Annotate(b: seq<Card>, c: Counters): (r: seq<Card>)
    ensures |r| == |b|
    ensures forall k | 0 <= k < |b| :: r[k] == Tag(b[k], c.marker + k, c.collate + 1)
  {
    seq(|b|, k requires 0 <= k < |b| => Tag(b[k], c.marker + k, c.collate + 1))
  }

  /** The melds of a scan, in order. */
  function Flatten(ms: seq<seq<Card>>): seq<Card> {
    if |ms| == 0 then [] else ms[0] + Flatten(ms[1..])
  }

  /** What a scan produces: the melds it claimed, the cards it left, in
      order, and the counters afterwards. */
  datatype ScanResult = ScanResult(melds: seq<seq<Card>>, rest: seq<Card>, next: Counters)

  /** The reference scan from block start `i`: a block of three or more
      cards becomes a meld, a shorter block is left as it is. */
  function Scan(rel: Rel, h: seq<Card>, i: int, c: Counters): (r: ScanResult)
    requires 0 <= i <= |h|
    ensures |Flatten(r.melds)| + |r.rest| == |h| - i
    ensures r.next == Counters(c.marker + |Flatten(r.melds)|, c.collate + |r.melds|)
    decreases |h| - i
  {
    if i == |h| then ScanResult([], [], c)
    else
      var e := BlockEnd(rel, h, i);
      if e - i >= 3 then
        var r := Scan(rel, h, e, Advance(c, e - i));
        ScanResult([Annotate(h[i..e], c)] + r.melds, r.rest, r.next)
      else
        var r := Scan(rel, h, e, c);
        ScanResult(r.melds, h[i..e] + r.rest, r.next)
  }

  /** The same scan written back in place: the hand from `i` on, with the
      claimed blocks annotated where they stand. */
  function Placed(rel: Rel, h: seq<Card>, i: int, c: Counters): (r: seq<Card>)
    requires 0 <= i <= |h|
    ensures |r| == |h| - i
    decreases |h| - i
  {
    if i == |h| then []
    else
      var e := BlockEnd(rel, h, i);
      if e - i >= 3 then Annotate(h[i..e], c) + Placed(rel, h, e, Advance(c, e - i))
      else h[i..e] + Placed(rel, h, e, c)
  }

  /** No five cards in a row of one face: a face-sorted hand of distinct
      cards has at most four of each face. */
  predicate NoFiveAlike(u: seq<Card>) {
    forall k | 0 <= k && k + 4 < |u| :: FifthDiffers(u, k)
  }

  /** The card four places after `k` has another face. */
  predicate FifthDiffers(u: seq<Card>, k: int) {
    0 <= k && k + 4 < |u| && u[k].face != u[k + 4].face
  }

  // ------------------------------------------------------------ window tests

  /** isSequence tests exactly a chain of at least three run links. */
  lemma IsSequenceChained(h: seq<Card>, start: int, end: int)
    requires 0 <= start
    ensures IsSequence(h, start, end) <==> 2 <= end - start && end < |h| && Chained(Run, h, start, end + 1)
  {
    if 2 <= end - start && end < |h| {
      if IsSequence(h, start, end) {
        forall k | start <= k < end
          ensures Next(h[k], h[k + 1])
        {
        }
      }
      if Chained(Run, h, start, end + 1) {
        SequenceFromChain(h, start, end, end);
      }
    }
  }

  lemma {:induction false} SequenceFromChain(h: seq<Card>, start: int, end: int, j: int)
    requires 0 <= start <= j <= end < |h|
    requires Chained(Run, h, start, end + 1)
    ensures forall k | start <= k <= j :: h[start].suit == h[k].suit && h[start].face == h[k].face - k + start
    decreases j - start
  {
    if j > start {
      SequenceFromChain(h, start, end, j - 1);
      assert LinkAt(Run, h, j - 1);
    }
  }

  /** isGroup tests exactly a chain of two or three face links. */
  lemma IsGroupChained(u: seq<Card>, start: int, end: int)
    requires 0 <= start
    ensures IsGroup(u, start, end) <==> 2 <= end - start <= 3 && end < |u| && Chained(Set, u, start, end + 1)
  {
    if 2 <= end - start <= 3 && end < |u| {
      if Chained(Set, u, start, end + 1) {
        assert LinkAt(Set, u, start) && LinkAt(Set, u, start + 1);
        if end - start == 3 {
          assert LinkAt(Set, u, start + 2);
        }
      }
      if IsGroup(u, start, end) {
        forall k | start <= k < end
          ensures LinkAt(Set, u, k)
        {
          assert u[start].face == u[k].face;
          assert u[start].face == u[k + 1].face;
        }
      }
    }
  }

  // ------------------------------------------------------------ congruence

  /** Links look only at suit and face, which a claim never changes. */
  lemma TagKeepsLinks(rel: Rel, a: Card, b: Card, m: int, g: int)
    ensures Linked(rel, Tag(a, m, g), b) == Linked(rel, a, b)
    ensures Linked(rel, b, Tag(a, m, g)) == Linked(rel, b, a)
  {
  }

  lemma {:induction false} BlockEndSuffix(rel: Rel, h1: seq<Card>, h2: seq<Card>, i: int)
    requires |h1| == |h2| && 0 <= i < |h1|
    requires forall k | i <= k < |h1| :: h1[k] == h2[k]
    ensures BlockEnd(rel, h1, i) == BlockEnd(rel, h2, i)
    decreases |h1| - i
  {
    if i + 1 < |h1| {
      BlockEndSuffix(rel, h1, h2, i + 1);
    }
  }

  /** The scan from `i` reads only the cards from `i` on. */
  lemma ScanSuffix(rel: Rel, h1: seq<Card>, h2: seq<Card>, i: int, c: Counters)
    requires |h1| == |h2| && 0 <= i <= |h1|
    requires forall k | i <= k < |h1| :: h1[k] == h2[k]
    ensures Placed(rel, h1, i, c) == Placed(rel, h2, i, c)
    ensures Scan(rel, h1, i, c) == Scan(rel, h2, i, c)
  {
    PlacedSuffix(rel, h1, h2, i, c);
    ScanResultSuffix(rel, h1, h2, i, c);
  }

  lemma {:induction false} PlacedSuffix(rel: Rel, h1: seq<Card>, h2: seq<Card>, i: int, c: Counters)
    requires |h1| == |h2| && 0 <= i <= |h1|
    requires forall k | i <= k < |h1| :: h1[k] == h2[k]
    ensures Placed(rel, h1, i, c) == Placed(rel, h2, i, c)
    decreases |h1| - i
  {
    if i < |h1| {
      BlockEndSuffix(rel, h1, h2, i);
      var e := BlockEnd(rel, h1, i);
      SameSlice(h1, h2, i, e);
      if e - i >= 3 {
        PlacedSuffix(rel, h1, h2, e, Advance(c, e - i));
        PlacedClaimed(rel, h1, i, e, c);
        PlacedClaimed(rel, h2, i, e, c);
      } else {
        PlacedSuffix(rel, h1, h2, e, c);
        PlacedSkipped(rel, h1, i, e, c);
        PlacedSkipped(rel, h2, i, e, c);
      }
    }
  }

  lemma {:induction false} ScanResultSuffix(rel: Rel, h1: seq<Card>, h2: seq<Card>, i: int, c: Counters)
    requires |h1| == |h2| && 0 <= i <= |h1|
    requires forall k | i <= k < |h1| :: h1[k] == h2[k]
    ensures Scan(rel, h1, i, c) == Scan(rel, h2, i, c)
    decreases |h1| - i
  {
    if i < |h1| {
      BlockEndSuffix(rel, h1, h2, i);
      var e := BlockEnd(rel, h1, i);
      SameSlice(h1, h2, i, e);
      ScanResultSuffix(rel, h1, h2, e, if e - i >= 3 then Advance(c, e - i) else c);
    }
  }

  /** One step of the in-place scan over a long block. */
  lemma PlacedClaimed(rel: Rel, h: seq<Card>, i: int, e: int, c: Counters)
    requires 0 <= i < |h| && e == BlockEnd(rel, h, i) && e - i >= 3
    ensures Placed(rel, h, i, c) == Annotate(h[i..e], c) + Placed(rel, h, e, Advance(c, e - i))
  {
  }

  /** One step of the in-place scan over a short block. */
  lemma PlacedSkipped(rel: Rel, h: seq<Card>, i: int, e: int, c: Counters)
    requires 0 <= i < |h| && e == BlockEnd(rel, h, i) && e - i < 3
    ensures Placed(rel, h, i, c) == h[i..e] + Placed(rel, h, e, c)
  {
  }

  lemma SameSlice(h1: seq<Card>, h2: seq<Card>, i: int, e: int)
    requires |h1| == |h2| && 0 <= i <= e <= |h1|
    requires forall k | i <= k < |h1| :: h1[k] == h2[k]
    ensures h1[i..e] == h2[i..e]
  {
  }

  /** Fewer than three cards left: nothing more is claimed. */
  lemma {:induction false} ShortTail(rel: Rel, h: seq<Card>, i: int, c: Counters)
    requires 0 <= i <= |h| && |h| - i < 3
    ensures Placed(rel, h, i, c) == h[i..]
    ensures Scan(rel, h, i, c) == ScanResult([], h[i..], c)
    decreases |h| - i
  {
    if i < |h| {
      var e := BlockEnd(rel, h, i);
      ShortTail(rel, h, e, c);
      assert h[i..e] + h[e..] == h[i..];
    }
  }

  /** Claiming the block `i..e-1` in place, seen as a slice. */
  lemma ClaimBlock(h: seq<Card>, i: int, e: int, c: Counters)
    requires 0 <= i < e <= |h|
    ensures Claim(h, i, e - 1, c).0[..e] == h[..i] + Annotate(h[i..e], c)
  {
    ClaimAt(h, i, e - 1, c);
    var r := Claim(h, i, e - 1, c).0;
    var a := h[..i] + Annotate(h[i..e], c);
    assert |r[..e]| == |a|;
    forall k | 0 <= k < e
      ensures r[..e][k] == a[k]
    {
      if k >= i {
        assert a[k] == Annotate(h[i..e], c)[k - i];
      }
    }
  }

  /** A claim leaves every card after the block alone. */
  lemma ClaimSuffix(h: seq<Card>, i: int, e: int, c: Counters)
    requires 0 <= i < e <= |h|
    ensures forall k | e <= k < |h| :: Claim(h, i, e - 1, c).0[k] == h[k]
  {
    ClaimAt(h, i, e - 1, c);
  }

  /** After the claim the next position still begins a block. */
  lemma ClaimKeepsBlockStart(rel: Rel, h: seq<Card>, i: int, e: int, c: Counters)
    requires 0 <= i < e <= |h|
    requires BlockStart(rel, h, e)
    ensures BlockStart(rel, Claim(h, i, e - 1, c).0, e)
  {
    var r := Claim(h, i, e - 1, c).0;
    if 0 < e < |h| {
      ClaimAt(h, i, e - 1, c);
      assert r[e - 1] == Tag(h[e - 1], c.marker + (e - 1 - i), c.collate + 1);
      assert r[e] == h[e];
      TagKeepsLinks(rel, h[e - 1], h[e], c.marker + (e - 1 - i), c.collate + 1);
    }
  }

  /** A claim never changes a face. */
  lemma ClaimKeepsFaces(h: seq<Card>, i: int, e: int, c: Counters)
    requires 0 <= i < e <= |h|
    ensures forall k | 0 <= k < |h| :: Claim(h, i, e - 1, c).0[k].face == h[k].face
  {
    ClaimAt(h, i, e - 1, c);
  }

  /** One step of the reference scan over a long block: it becomes the
      first meld. */
  lemma ScanClaimed(rel: Rel, h: seq<Card>, i: int, e: int, c: Counters)
    requires 0 <= i < |h| && e == BlockEnd(rel, h, i) && e - i >= 3
    ensures Scan(rel, h, i, c) == ScanResult([Annotate(h[i..e], c)] + Scan(rel, h, e, Advance(c, e - i)).melds,
                                             Scan(rel, h, e, Advance(c, e - i)).rest, Scan(rel, h, e, Advance(c, e - i)).next)
  {
  }

  /** One step of the reference scan over a short block: its cards are left. */
  lemma ScanSkipped(rel: Rel, h: seq<Card>, i: int, e: int, c: Counters)
    requires 0 <= i < |h| && e == BlockEnd(rel, h, i) && e - i < 3
    ensures Scan(rel, h, i, c) == ScanResult(Scan(rel, h, e, c).melds, h[i..e] + Scan(rel, h, e, c).rest, Scan(rel, h, e, c).next)
  {
  }

  /** Claiming a long block in place and scanning on from its end is the
      reference scan from its start. */
  lemma ClaimedStep(rel: Rel, h: seq<Card>, i: int, e: int, c: Counters, m: (seq<Card>, Counters))
    requires 0 <= i < |h| && e == BlockEnd(rel, h, i) && e - i >= 3
    requires m == Claim(h, i, e - 1, c)
    ensures m.0[..e] + Placed(rel, m.0, e, m.1) == h[..i] + Placed(rel, h, i, c)
  {
    var a, b, p := h[..i], Annotate(h[i..e], c), Placed(rel, h, e, m.1);
    assert m.0[..e] == a + b by {
      ClaimBlock(h, i, e, c);
    }
    assert Placed(rel, m.0, e, m.1) == p by {
      ClaimSuffix(h, i, e, c);
      PlacedSuffix(rel, m.0, h, e, m.1);
    }
    assert Placed(rel, h, i, c) == b + p by {
      PlacedClaimed(rel, h, i, e, c);
    }
    AppendAssoc(a, b, p);
  }

  lemma AppendAssoc<T>(a: seq<T>, b: seq<T>, p: seq<T>)
    ensures (a + b) + p == a + (b + p)
  {
  }

  /** The counters after claiming a long block in place and scanning on. */
  lemma ClaimedNext(rel: Rel, h: seq<Card>, i: int, e: int, c: Counters, m: (seq<Card>, Counters))
    requires 0 <= i < |h| && e == BlockEnd(rel, h, i) && e - i >= 3
    requires m == Claim(h, i, e - 1, c)
    ensures Scan(rel, m.0, e, m.1).next == Scan(rel, h, i, c).next
  {
    ClaimSuffix(h, i, e, c);
    ScanResultSuffix(rel, m.0, h, e, m.1);
    ScanClaimed(rel, h, i, e, c);
  }

  /** Passing over a short block is the reference scan from its start. */
  lemma SkipStep(rel: Rel, h: seq<Card>, i: int, e: int, c: Counters)
    requires 0 <= i < |h| && e == BlockEnd(rel, h, i) && e - i < 3
    ensures h[..e] + Placed(rel, h, e, c) == h[..i] + Placed(rel, h, i, c)
    ensures Scan(rel, h, e, c).next == Scan(rel, h, i, c).next
  {
    var a, b, p := h[..i], h[i..e], Placed(rel, h, e, c);
    assert h[..e] == a + b;
    assert Placed(rel, h, i, c) == b + p by {
      PlacedSkipped(rel, h, i, e, c);
    }
    AppendAssoc(a, b, p);
    ScanSkipped(rel, h, i, e, c);
  }

  // ------------------------------------------------------------ findSequence

  /** From inside a block of fewer than three cards the scan walks to the
      block's end without claiming anything. */
  lemma {:induction false} SequenceSkip(h: seq<Card>, j: int, e: int, c: Counters)
    requires 0 <= j <= e <= |h| && e - j <= 2
    requires e == |h| || (0 < e && !Next(h[e - 1], h[e]))
    ensures FindSequence(h, j, j + 2, false, c) == FindSequence(h, e, e + 2, false, c)
    decreases e - j
  {
    if j < e {
      if j + 2 < |h| {
        IsSequenceChained(h, j, j + 2);
        assert !IsSequence(h, j, j + 2) by {
          assert !LinkAt(Run, h, e - 1);
        }
        FindSequenceSlide(h, j, c);
        SequenceSkip(h, j + 1, e, c);
      } else {
        FindSequenceExit(h, j, j + 2, false, c);
        FindSequenceExit(h, e, e + 2, false, c);
      }
    }
  }

  /** Inside a block of three or more cards the scan grows its window to the
      block's end and claims the whole block. */
  lemma {:induction false} SequenceGrow(h: seq<Card>, i: int, e: int, end: int, inRun: bool, c: Counters)
    requires 0 <= i < |h| && e == BlockEnd(Run, h, i) && e - i >= 3
    requires i + 2 <= end < e
    requires inRun == (end > i + 2)
    ensures FindSequence(h, i, end, inRun, c) == FindSequence(Claim(h, i, e - 1, c).0, e, e + 2, false, Claim(h, i, e - 1, c).1)
    decreases e - end
  {
    IsSequenceChained(h, i, end);
    assert IsSequence(h, i, end);
    if end < |h| - 1 {
      FindSequenceExtend(h, i, end, inRun, c);
      if end + 1 < e {
        SequenceGrow(h, i, e, end + 1, true, c);
      } else {
        IsSequenceChained(h, i, end + 1);
        assert !IsSequence(h, i, end + 1) by {
          assert !LinkAt(Run, h, e - 1);
        }
        FindSequenceClose(h, i, e, c);
      }
    } else {
      FindSequenceLast(h, i, end, inRun, c);
      var m := Claim(h, i, e - 1, c);
      FindSequenceExit(m.0, e, e + 2, false, m.1);
    }
  }

  /** findSequence, started at a block start, computes the reference scan. */
  lemma {:induction false} SequenceScan(h: seq<Card>, i: int, c: Counters)
    requires BlockStart(Run, h, i)
    ensures FindSequence(h, i, i + 2, false, c) == (h[..i] + Placed(Run, h, i, c), Scan(Run, h, i, c).next)
    decreases |h| - i, 1
  {
    if i + 2 >= |h| {
      ShortTail(Run, h, i, c);
      FindSequenceExit(h, i, i + 2, false, c);
      assert h[..i] + h[i..] == h;
    } else if BlockEnd(Run, h, i) - i >= 3 {
      SequenceScanClaimed(h, i, c);
    } else {
      var e := BlockEnd(Run, h, i);
      SequenceSkip(h, i, e, c);
      SequenceScan(h, e, c);
      SkipStep(Run, h, i, e, c);
    }
  }

  lemma {:induction false} SequenceScanClaimed(h: seq<Card>, i: int, c: Counters)
    requires BlockStart(Run, h, i) && i < |h| && BlockEnd(Run, h, i) - i >= 3
    ensures FindSequence(h, i, i + 2, false, c) == (h[..i] + Placed(Run, h, i, c), Scan(Run, h, i, c).next)
    decreases |h| - i, 0
  {
    var e := BlockEnd(Run, h, i);
    var m := Claim(h, i, e - 1, c);
    SequenceGrow(h, i, e, i + 2, false, c);
    ClaimKeepsBlockStart(Run, h, i, e, c);
    SequenceScan(m.0, e, m.1);
    ClaimedStep(Run, h, i, e, c, m);
    ClaimedNext(Run, h, i, e, c, m);
  }

  // ------------------------------------------------------------ findGroup

  lemma {:induction false} GroupSkip(u: seq<Card>, j: int, e: int, c: Counters)
    requires 0 <= j <= e <= |u| && e - j <= 2
    requires e == |u| || (0 < e && u[e - 1].face != u[e].face)
    ensures FindGroupLoop(u, j, j + 2, c) == FindGroupLoop(u, e, e + 2, c)
    decreases e - j
  {
    if j < e {
      if j + 2 < |u| {
        IsGroupChained(u, j, j + 2);
        assert !IsGroup(u, j, j + 2) by {
          assert !LinkAt(Set, u, e - 1);
        }
        FindGroupLoopSlide(u, j, c);
        GroupSkip(u, j + 1, e, c);
      } else {
        FindGroupLoopExit(u, j, c);
        FindGroupLoopExit(u, e, c);
      }
    }
  }

  lemma NoFiveAlikeKept(u: seq<Card>, v: seq<Card>)
    requires |u| == |v| && forall k | 0 <= k < |u| :: u[k].face == v[k].face
    requires NoFiveAlike(u)
    ensures NoFiveAlike(v)
  {
    forall k | 0 <= k && k + 4 < |v|
      ensures FifthDiffers(v, k)
    {
      assert FifthDiffers(u, k);
    }
  }

  /** Under at most four cards of a face, a block of one face has at most
      four cards. */
  lemma BlockAtMostFour(u: seq<Card>, i: int)
    requires 0 <= i < |u| && NoFiveAlike(u)
    ensures BlockEnd(Set, u, i) - i <= 4
  {
    var e := BlockEnd(Set, u, i);
    if i + 4 < |u| {
      assert FifthDiffers(u, i);
      assert !Chained(Set, u, i, i + 5) by {
        if Chained(Set, u, i, i + 5) {
          SameFaceInChain(u, i, i + 5, i + 4);
        }
      }
    }
  }

  /** Every card of a chain of face links has the first card's face. */
  lemma {:induction false} SameFaceInChain(u: seq<Card>, i: int, e: int, j: int)
    requires 0 <= i <= j < e <= |u| && Chained(Set, u, i, e)
    ensures u[j].face == u[i].face
    decreases j - i
  {
    if j > i {
      SameFaceInChain(u, i, e, j - 1);
      assert LinkAt(Set, u, j - 1);
    }
  }

  /** The group scan from a block start claims one block and moves to the
      next block start; after a group of four it first revisits the fourth
      card, which cannot start another group. */
  lemma GroupStep(u: seq<Card>, i: int, e: int, c: Counters)
    requires 0 <= i && i + 2 < |u| && NoFiveAlike(u)
    requires e == BlockEnd(Set, u, i) && e - i >= 3
    ensures FindGroupLoop(u, i, i + 2, c) == FindGroupLoop(Claim(u, i, e - 1, c).0, e, e + 2, Claim(u, i, e - 1, c).1)
  {
    BlockAtMostFour(u, i);
    IsGroupChained(u, i, i + 2);
    IsGroupChained(u, i, i + 3);
    FindGroupLoopClaim(u, i, c);
    if e - i == 4 {
      assert IsGroup(u, i, i + 3);
      var m := Claim(u, i, e - 1, c);
      assert e == |m.0| || m.0[e - 1].face != m.0[e].face by {
        if e < |u| {
          ClaimKeepsFaces(u, i, e, c);
          assert !LinkAt(Set, u, e - 1);
        }
      }
      GroupSkip(m.0, i + 3, e, m.1);
    } else {
      assert !IsGroup(u, i, i + 3) by {
        if i + 3 < |u| {
          assert !LinkAt(Set, u, i + 2);
        }
      }
    }
  }

  /** The findGroup loop, started at a block start, computes the reference
      scan, given no five cards of one face. */
  lemma {:induction false} GroupScan(u: seq<Card>, i: int, c: Counters)
    requires BlockStart(Set, u, i) && NoFiveAlike(u)
    ensures FindGroupLoop(u, i, i + 2, c) == (u[..i] + Placed(Set, u, i, c), Scan(Set, u, i, c).next)
    decreases |u| - i, 1
  {
    if i + 2 >= |u| {
      ShortTail(Set, u, i, c);
      FindGroupLoopExit(u, i, c);
      assert u[..i] + u[i..] == u;
    } else if BlockEnd(Set, u, i) - i >= 3 {
      GroupScanClaimed(u, i, c);
    } else {
      var e := BlockEnd(Set, u, i);
      GroupSkip(u, i, e, c);
      GroupScan(u, e, c);
      SkipStep(Set, u, i, e, c);
    }
  }

  lemma {:induction false} GroupScanClaimed(u: seq<Card>, i: int, c: Counters)
    requires BlockStart(Set, u, i) && NoFiveAlike(u) && i + 2 < |u| && BlockEnd(Set, u, i) - i >= 3
    ensures FindGroupLoop(u, i, i + 2, c) == (u[..i] + Placed(Set, u, i, c), Scan(Set, u, i, c).next)
    decreases |u| - i, 0
  {
    var e := BlockEnd(Set, u, i);
    var m := Claim(u, i, e - 1, c);
    GroupStep(u, i, e, c);
    ClaimKeepsBlockStart(Set, u, i, e, c);
    ClaimKeepsFaces(u, i, e, c);
    NoFiveAlikeKept(u, m.0);
    GroupScan(m.0, e, m.1);
    ClaimedStep(Set, u, i, e, c, m);
    ClaimedNext(Set, u, i, e, c, m);
  }

  /** findGroup computes the reference scan of the whole sublist. */
  lemma FindGroupIsScan(u: seq<Card>, c: Counters)
    requires NoFiveAlike(u)
    ensures FindGroup(u, c) == (Placed(Set, u, 0, c), Scan(Set, u, 0, c).next)
  {
    if |u| <= 2 {
      ShortTail(Set, u, 0, c);
    } else {
      GroupScan(u, 0, c);
      assert u[..0] + Placed(Set, u, 0, c) == Placed(Set, u, 0, c);
    }
  }

  /** findSequence computes the reference scan of the whole hand. */
  lemma FindSequenceIsScan(h: seq<Card>, c: Counters)
    ensures FindSequence(h, 0, 2, false, c) == (Placed(Run, h, 0, c), Scan(Run, h, 0, c).next)
  {
    SequenceScan(h, 0, c);
    assert h[..0] + Placed(Run, h, 0, c) == Placed(Run, h, 0, c);
  }
}
