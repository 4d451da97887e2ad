/** The two greedy scans of the meld engine, written as the source writes them:
    index loops over the hand that test a window, mark it in place and move
    on. Each loop becomes a recursive function whose parameters are the loop
    variables; the counters of the hand object (next marker, last collate id)
    are threaded through explicitly. */
module Scans {
  import opened Cards
  import opened Hands

  /** The two counters a hand keeps while melding: the next meld marker to
      hand out and the last collate id used. */
  datatype Counters = Counters(marker: int, collate: int)

  /** The counters after a meld of `n` cards has been claimed. */
  function Advance(c: Counters, n: int): Counters {
    Counters(c.marker + n, c.collate + 1)
  }

  /** The loop of markSequence and markGroup: cards `i..end` get consecutive
      markers starting at `m` and collate id `g`. */
  function Stamp(h: seq<Card>, i: int, end: int, m: int, g: int): (r: seq<Card>)
    requires 0 <= i && end < |h|
    ensures |r| == |h|
    ensures forall k | 0 <= k < |h| ::
      r[k] == (if i <= k <= end then Tag(h[k], m + (k - i), g) else h[k])
    decreases end - i + 1
  {
    if i > end then h
    else Stamp(h[i := Tag(h[i], m, g)], i + 1, end, m + 1, g)
  }

  /** Marks cards `start..end` as one meld. The source first writes the old
      collate id to the first card and then overwrites it inside the loop,
      so the net effect is one fresh collate id on every card of the meld. */
  function Claim(h: seq<Card>, start: int, end: int, c: Counters): (r: (seq<Card>, Counters))
    requires 0 <= start <= end
    ensures end >= |h| ==> r == (h, c)
    ensures end < |h| ==> r.1 == Advance(c, end - start + 1)
    ensures |r.0| == |h|
  {
    if end >= |h| then (h, c)
    else
      var first := h[start := SetCollate(h[start], c.collate)];
      (Stamp(first, start, end, c.marker, c.collate + 1), Advance(c, end - start + 1))
  }

  /** What a claim writes: the cards of the window get consecutive markers
      from the counter and the next collate id; every other card is left
      alone. The collate id written first to the window's first card does
      not survive. */
  lemma ClaimAt(h: seq<Card>, start: int, end: int, c: Counters)
    requires 0 <= start <= end < |h|
    ensures forall k | 0 <= k < |h| ::
      Claim(h, start, end, c).0[k] == (if start <= k <= end then Tag(h[k], c.marker + (k - start), c.collate + 1) else h[k])
  {
  }

  /** markSequence: an out-of-range or empty window changes nothing. */
  function MarkSequence(h: seq<Card>, start: int, end: int, c: Counters): (r: (seq<Card>, Counters))
    requires 0 <= start
    ensures end >= |h| || start > end ==> r == (h, c)
    ensures |r.0| == |h|
  {
    if end >= |h| || start > end then (h, c) else Claim(h, start, end, c)
  }

  /** markGroup: only an out-of-range window is refused. */
  function MarkGroup(u: seq<Card>, start: int, end: int, c: Counters): (r: (seq<Card>, Counters))
    requires 0 <= start <= end
    ensures end >= |u| ==> r == (u, c)
    ensures |r.0| == |u|
  {
    Claim(u, start, end, c)
  }

  /** isSequence: at least three cards, all in range, of the first card's
      suit, each face one above the previous. */
  predicate IsSequence(h: seq<Card>, start: int, end: int)
    requires 0 <= start
  {
    if end - start < 2 || end >= |h| then false
    else forall k | start + 1 <= k <= end ::
      h[start].suit == h[k].suit && h[start].face == h[k].face - k + start
  }

  /** isGroup: three or four cards, all in range, of the first card's face. */
  predicate IsGroup(u: seq<Card>, start: int, end: int)
    requires 0 <= start
  {
    if end - start < 2 || end - start > 3 || end >= |u| then false
    else forall k | start + 1 <= k <= end :: u[start].face == u[k].face
  }

  /** The while loop of findSequence with its loop variables `start`, `end`
      and `inRun` (the source's `sequence` flag). */
  function FindSequence(h: seq<Card>, start: int, end: int, inRun: bool, c: Counters): (r: (seq<Card>, Counters))
    requires 0 <= start < end
    ensures |r.0| == |h|
    decreases |h| - start, |h| - end
  {
    if end >= |h| then (h, c)
    else if IsSequence(h, start, end) then
      if end >= |h| - 1 then
        var m := MarkSequence(h, start, end, c);
        FindSequence(m.0, start, end + 1, inRun, m.1)
      else
        FindSequence(h, start, end + 1, true, c)
    else if inRun then
      var m := MarkSequence(h, start, end - 1, c);
      FindSequence(m.0, end, end + 2, false, m.1)
    else
      FindSequence(h, start + 1, start + 3, false, c)
  }

  /** The while loop of findGroup. After a group the scan restarts right
      after the first three cards, so after a group of four it looks at that
      group's fourth card again. */
  function FindGroupLoop(u: seq<Card>, start: int, end: int, c: Counters): (r: (seq<Card>, Counters))
    requires 0 <= start && end == start + 2
    ensures |r.0| == |u|
    decreases |u| - start
  {
    if end >= |u| then (u, c)
    else if IsGroup(u, start, end) then
      var m := if IsGroup(u, start, end + 1) then MarkGroup(u, start, end + 1, c) else MarkGroup(u, start, end, c);
      FindGroupLoop(m.0, end + 1, end + 3, m.1)
    else
      FindGroupLoop(u, start + 1, start + 3, c)
  }

  /** findGroup: fewer than three cards hold no group. */
  function FindGroup(u: seq<Card>, c: Counters): (r: (seq<Card>, Counters))
    ensures |r.0| == |u|
    ensures |u| <= 2 ==> r == (u, c)
  {
    if |u| <= 2 then (u, c) else FindGroupLoop(u, 0, 2, c)
  }

  /** getUnmarkedCardIndex: the first position of an unmarked card, or -1. */
  function UnmarkedIndex(h: seq<Card>, i: nat := 0): (r: int)
    requires i <= |h|
    ensures r == -1 <==> forall k | i <= k < |h| :: IsMarked(h[k])
    ensures r != -1 ==> i <= r < |h| && !IsMarked(h[r]) && forall k | i <= k < r :: IsMarked(h[k])
    decreases |h| - i
  {
    if i == |h| then -1
    else if h[i].marker == DefaultMarker then i
    else UnmarkedIndex(h, i + 1)
  }

  // ------------------------------------------------------------ the scans keep the cards

  /** A claim only writes annotations. */
  lemma ClaimKeepsCards(h: seq<Card>, start: int, end: int, c: Counters)
    requires 0 <= start <= end
    ensures ResetAll(Claim(h, start, end, c).0) == ResetAll(h)
  {
    var r := Claim(h, start, end, c).0;
    if end < |h| {
      ClaimAt(h, start, end, c);
      forall k | 0 <= k < |h|
        ensures Reset(r[k]) == Reset(h[k])
      {
      }
    }
  }

  /** findSequence only writes annotations: every position keeps its card. */
  lemma {:induction false} FindSequenceKeepsCards(h: seq<Card>, start: int, end: int, inRun: bool, c: Counters)
    requires 0 <= start < end
    ensures ResetAll(FindSequence(h, start, end, inRun, c).0) == ResetAll(h)
    decreases |h| - start, |h| - end
  {
    if end < |h| {
      if IsSequence(h, start, end) {
        if end >= |h| - 1 {
          var m := MarkSequence(h, start, end, c);
          ClaimKeepsCards(h, start, end, c);
          FindSequenceKeepsCards(m.0, start, end + 1, inRun, m.1);
        } else {
          FindSequenceKeepsCards(h, start, end + 1, true, c);
        }
      } else if inRun {
        var m := MarkSequence(h, start, end - 1, c);
        if start <= end - 1 {
          ClaimKeepsCards(h, start, end - 1, c);
        }
        FindSequenceKeepsCards(m.0, end, end + 2, false, m.1);
      } else {
        FindSequenceKeepsCards(h, start + 1, start + 3, false, c);
      }
    }
  }

  /** The findGroup loop only writes annotations. */
  lemma {:induction false} FindGroupLoopKeepsCards(u: seq<Card>, start: int, end: int, c: Counters)
    requires 0 <= start && end == start + 2
    ensures ResetAll(FindGroupLoop(u, start, end, c).0) == ResetAll(u)
    decreases |u| - start
  {
    if end < |u| {
      if IsGroup(u, start, end) {
        var last := if IsGroup(u, start, end + 1) then end + 1 else end;
        var m := MarkGroup(u, start, last, c);
        ClaimKeepsCards(u, start, last, c);
        FindGroupLoopKeepsCards(m.0, end + 1, end + 3, m.1);
      } else {
        FindGroupLoopKeepsCards(u, start + 1, start + 3, c);
      }
    }
  }

  lemma FindGroupKeepsCards(u: seq<Card>, c: Counters)
    ensures ResetAll(FindGroup(u, c).0) == ResetAll(u)
  {
    if |u| > 2 {
      FindGroupLoopKeepsCards(u, 0, 2, c);
    }
  }

  // ------------------------------------------------------------ single loop steps

  /** The loop ends once the window runs past the hand. */
  lemma FindSequenceExit(h: seq<Card>, start: int, end: int, inRun: bool, c: Counters)
    requires 0 <= start < end && end >= |h|
    ensures FindSequence(h, start, end, inRun, c) == (h, c)
  {
  }

  /** A sequence window that can still grow grows by one card. */
  lemma FindSequenceExtend(h: seq<Card>, start: int, end: int, inRun: bool, c: Counters)
    requires 0 <= start < end < |h| - 1 && IsSequence(h, start, end)
    ensures FindSequence(h, start, end, inRun, c) == FindSequence(h, start, end + 1, true, c)
  {
  }

  /** A sequence window that reaches the last card is marked, and the loop ends. */
  lemma FindSequenceLast(h: seq<Card>, start: int, end: int, inRun: bool, c: Counters)
    requires 0 <= start < end == |h| - 1 && IsSequence(h, start, end)
    ensures FindSequence(h, start, end, inRun, c) == Claim(h, start, end, c)
  {
    var m := MarkSequence(h, start, end, c);
    FindSequenceExit(m.0, start, end + 1, inRun, m.1);
  }

  /** A grown window that fails is marked up to its previous end, and the
      scan restarts right after it. */
  lemma FindSequenceClose(h: seq<Card>, start: int, end: int, c: Counters)
    requires 0 <= start < end - 1 && end < |h| && !IsSequence(h, start, end)
    ensures FindSequence(h, start, end, true, c) == FindSequence(Claim(h, start, end - 1, c).0, end, end + 2, false, Claim(h, start, end - 1, c).1)
  {
  }

  /** A fresh window that fails slides one card on. */
  lemma FindSequenceSlide(h: seq<Card>, start: int, c: Counters)
    requires 0 <= start && start + 2 < |h| && !IsSequence(h, start, start + 2)
    ensures FindSequence(h, start, start + 2, false, c) == FindSequence(h, start + 1, start + 3, false, c)
  {
  }

  lemma FindGroupLoopExit(u: seq<Card>, start: int, c: Counters)
    requires 0 <= start && start + 2 >= |u|
    ensures FindGroupLoop(u, start, start + 2, c) == (u, c)
  {
  }

  /** A window of three that is a group is marked with its fourth card when
      that card has the same face too; the scan goes on after the first three. */
  lemma FindGroupLoopClaim(u: seq<Card>, start: int, c: Counters)
    requires 0 <= start && start + 2 < |u| && IsGroup(u, start, start + 2)
    ensures var last := if IsGroup(u, start, start + 3) then start + 3 else start + 2;
            FindGroupLoop(u, start, start + 2, c) == FindGroupLoop(Claim(u, start, last, c).0, start + 3, start + 5, Claim(u, start, last, c).1)
  {
  }

  lemma FindGroupLoopSlide(u: seq<Card>, start: int, c: Counters)
    requires 0 <= start && start + 2 < |u| && !IsGroup(u, start, start + 2)
    ensures FindGroupLoop(u, start, start + 2, c) == FindGroupLoop(u, start + 1, start + 3, c)
  {
  }
}
