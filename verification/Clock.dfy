/**
 The clock search of page_alloc for a frame to evict: skip pinned frames, give every frame
 with R set a second chance.
 */
module ClockSearch {

  const FRAME_PAGES := 2048

  /** The frame d places after p. */
  function Ahead(p: nat, d: nat): nat {
    (p + d) % FRAME_PAGES
  }

  lemma AheadNext(p: nat, d: nat)
    ensures Ahead(Ahead(p, d), 1) == Ahead(p, d + 1)
  {
  }

  lemma AheadWraps(p: nat, d: nat)
    ensures Ahead(p, d % FRAME_PAGES) == Ahead(p, d)
  {
  }

  /** Within one revolution no frame comes up twice. */
  lemma AheadOnce(p: nat, d: nat, e: nat)
    requires p < FRAME_PAGES && d < FRAME_PAGES && e < FRAME_PAGES
    ensures Ahead(p, d) == Ahead(p, e) <==> d == e
  {
  }

  /** The search passes over the frame as long as this holds. */
  predicate Passed(pinned: seq<bool>, r: seq<bool>, f: nat)
    requires |pinned| == |r| == FRAME_PAGES
  {
    f < FRAME_PAGES && (pinned[f] || r[f])
  }

  /** One turn of the loop. */
  function Turn(s: (seq<bool>, nat)): (seq<bool>, nat) {
    (if s.1 < |s.0| then s.0[s.1 := false] else s.0, Ahead(s.1, 1))
  }

  function Turns(r: seq<bool>, p: nat, n: nat): (seq<bool>, nat) {
    if n == 0 then (r, p) else Turn(Turns(r, p, n - 1))
  }

  lemma {:induction false} TurnsShape(r: seq<bool>, p: nat, n: nat)
    requires |r| == FRAME_PAGES && p < FRAME_PAGES
    ensures |Turns(r, p, n).0| == FRAME_PAGES && Turns(r, p, n).1 == Ahead(p, n)
  {
    if n == 0 {
    } else {
      TurnsShape(r, p, n - 1);
      AheadNext(p, n - 1);
    }
  }

  /** The loop does not stop after k turns. */
  ghost predicate GoesOn(pinned: seq<bool>, r: seq<bool>, p: nat, k: nat)
    requires |pinned| == |r| == FRAME_PAGES && p < FRAME_PAGES
  {
    TurnsShape(r, p, k);
    Passed(pinned, Turns(r, p, k).0, Turns(r, p, k).1)
  }

  /** The loop stops after exactly n turns. */
  ghost predicate StopsAfter(pinned: seq<bool>, r: seq<bool>, p: nat, n: nat)
    requires |pinned| == |r| == FRAME_PAGES && p < FRAME_PAGES
  {
    !GoesOn(pinned, r, p, n) && forall k :: 0 <= k < n ==> GoesOn(pinned, r, p, k)
  }

  /** After n turns, R is clear on the frames passed and untouched elsewhere. */
  lemma {:induction false} TurnsClear(r: seq<bool>, p: nat, n: nat, d: nat)
    requires |r| == FRAME_PAGES && p < FRAME_PAGES && d < FRAME_PAGES
    ensures |Turns(r, p, n).0| == FRAME_PAGES && Turns(r, p, n).0[Ahead(p, d)] == (d >= n && r[Ahead(p, d)])
  {
    if n == 0 {
    } else {
      TurnsClear(r, p, n - 1, d);
      TurnsShape(r, p, n - 1);
      if n - 1 < FRAME_PAGES {
        AheadOnce(p, d, n - 1);
      }
    }
  }

  /** In the first revolution R counts, from the second on only pinning does. */
  lemma GoesOnMeans(pinned: seq<bool>, r: seq<bool>, p: nat, k: nat)
    requires |pinned| == |r| == FRAME_PAGES && p < FRAME_PAGES
    ensures GoesOn(pinned, r, p, k) <==> pinned[Ahead(p, k)] || (k < FRAME_PAGES && r[Ahead(p, k)])
  {
    TurnsShape(r, p, k);
    TurnsClear(r, p, k, k % FRAME_PAGES);
    AheadWraps(p, k);
  }

  /** How far ahead a frame is. */
  function Distance(p: nat, f: nat): nat
    requires p < FRAME_PAGES && f < FRAME_PAGES
  {
    if f >= p then f - p else f + FRAME_PAGES - p
  }

  /** With every frame pinned the loop never stops. */
  lemma PinnedForever(pinned: seq<bool>, r: seq<bool>, p: nat, k: nat)
    requires |pinned| == |r| == FRAME_PAGES && p < FRAME_PAGES
    requires forall f :: 0 <= f < FRAME_PAGES ==> pinned[f]
    ensures GoesOn(pinned, r, p, k)
  {
  }

  /** With some frame unpinned it stops in the second revolution at the latest. */
  lemma StopsInTwo(pinned: seq<bool>, r: seq<bool>, p: nat, f: nat)
    requires |pinned| == |r| == FRAME_PAGES && p < FRAME_PAGES && f < FRAME_PAGES && !pinned[f]
    ensures !GoesOn(pinned, r, p, FRAME_PAGES + Distance(p, f))
    ensures !r[f] ==> !GoesOn(pinned, r, p, Distance(p, f))
  {
    GoesOnMeans(pinned, r, p, FRAME_PAGES + Distance(p, f));
    GoesOnMeans(pinned, r, p, Distance(p, f));
  }

  /**
   The frame the loop stops at: the first unpinned frame in clock order whose R is clear; if
   R is set on every unpinned frame, the first unpinned one.
   */
  lemma VictimIs(pinned: seq<bool>, r: seq<bool>, p: nat, n: nat)
    requires |pinned| == |r| == FRAME_PAGES && p < FRAME_PAGES && StopsAfter(pinned, r, p, n)
    ensures n < 2 * FRAME_PAGES && !pinned[Ahead(p, n)]
    ensures if exists f :: 0 <= f < FRAME_PAGES && !pinned[f] && !r[f]
      then n < FRAME_PAGES && !r[Ahead(p, n)] && forall d :: 0 <= d < n ==> pinned[Ahead(p, d)] || r[Ahead(p, d)]
      else n >= FRAME_PAGES && forall d :: 0 <= d < n - FRAME_PAGES ==> pinned[Ahead(p, d)]
  {
    GoesOnMeans(pinned, r, p, n);
    StopsInTwo(pinned, r, p, Ahead(p, n));
    if f :| 0 <= f < FRAME_PAGES && !pinned[f] && !r[f] {
      StopsInTwo(pinned, r, p, f);
    }
    forall d | 0 <= d < n ensures pinned[Ahead(p, d)] || (d < FRAME_PAGES && r[Ahead(p, d)]) {
      assert GoesOn(pinned, r, p, d);
      GoesOnMeans(pinned, r, p, d);
    }
    forall d | 0 <= d < n - FRAME_PAGES ensures pinned[Ahead(p, d)] {
      assert GoesOn(pinned, r, p, d + FRAME_PAGES);
      GoesOnMeans(pinned, r, p, d + FRAME_PAGES);
      assert Ahead(p, d + FRAME_PAGES) == Ahead(p, d);
    }
  }

  /** The loop of page_alloc; with every frame pinned it would not end. */
  method FindVictim(pinned: array<bool>, r: array<bool>, start: nat) returns (clock: nat, ghost n: nat)
    requires pinned.Length == r.Length == FRAME_PAGES && pinned != r && start < FRAME_PAGES
    requires exists f :: 0 <= f < FRAME_PAGES && !pinned[f]
    modifies r
    ensures StopsAfter(pinned[..], old(r[..]), start, n) && clock == Ahead(start, n)
    ensures r[..] == Turns(old(r[..]), start, n).0
  {
    ghost var pins, r0 := pinned[..], r[..];
    ghost var f :| 0 <= f < FRAME_PAGES && !pins[f];
    StopsInTwo(pins, r0, start, f);
    clock := start;
    n := 0;
    while pinned[clock] || r[clock]
      invariant n <= FRAME_PAGES + Distance(start, f) && clock == Ahead(start, n) && r[..] == Turns(r0, start, n).0
      invariant forall k :: 0 <= k < n ==> GoesOn(pins, r0, start, k)
      decreases FRAME_PAGES + Distance(start, f) - n
    {
      TurnsShape(r0, start, n);
      assert GoesOn(pins, r0, start, n);
      ghost var before := r[..];
      if r[clock] {
        r[clock] := false;
      }
      assert r[..] == before[clock := false];
      AheadNext(start, n);
      clock := (clock + 1) % FRAME_PAGES;
      n := n + 1;
    }
    TurnsShape(r0, start, n);
  }
}
