/** Trap-field layout of a room: eight distinct board squares drawn by
    rejection sampling, avoiding the four safe squares. */
module Traps {

  const TRAP_COUNT: nat := 8
  const BOARD_SIZE: int := 40
  const SAFE_ZONES: seq<int> := [0, 10, 20, 30]

  /** A value of the random source: a real in [0, 1). */
  predicate IsDraw(u: real) {
    0.0 <= u < 1.0
  }

  predicate AllDraws(draws: seq<real>) {
    forall k :: 0 <= k < |draws| ==> IsDraw(draws[k])
  }

  /** The board square a draw selects: floor(u * 40). */
  function Square(u: real): (r: int)
    requires IsDraw(u)
    ensures 0 <= r < BOARD_SIZE
  {
    (u * 40.0).Floor
  }

  predicate Distinct(s: seq<int>) {
    forall i, j :: 0 <= i < j < |s| ==> s[i] != s[j]
  }

  /** A partial layout: distinct squares on the board, none of them safe. */
  predicate IsPartialLayout(traps: seq<int>) {
    && |traps| <= TRAP_COUNT
    && Distinct(traps)
    && forall k :: 0 <= k < |traps| ==> 0 <= traps[k] < BOARD_SIZE && traps[k] !in SAFE_ZONES
  }

  /** A complete layout: exactly eight such squares. */
  predicate IsLayout(traps: seq<int>) {
    IsPartialLayout(traps) && |traps| == TRAP_COUNT
  }

  /** Rejection sampling over a finite stream of draws: each draw's square
      is kept when it is new and not safe, until eight are kept. */
  function Sample(traps: seq<int>, draws: seq<real>): (r: seq<int>)
    requires AllDraws(draws)
    decreases |draws|
    ensures |traps| <= |r| && r[..|traps|] == traps
    ensures IsPartialLayout(traps) ==> IsPartialLayout(r)
  {
    if |traps| >= TRAP_COUNT || draws == [] then traps
    else
      var s := Square(draws[0]);
      Sample(if s !in traps && s !in SAFE_ZONES then traps + [s] else traps, draws[1..])
  }

  /** The sampling loop ends within `draws`: the stream yields eight acceptable squares. */
  predicate Completes(draws: seq<real>) {
    AllDraws(draws) && |Sample([], draws)| == TRAP_COUNT
  }

  /** The squares that any draw of `draws` would contribute. */
  function EligibleSquares(draws: seq<real>): set<int>
    requires AllDraws(draws)
  {
    set k | 0 <= k < |draws| && Square(draws[k]) !in SAFE_ZONES :: Square(draws[k])
  }

  function Elements(s: seq<int>): set<int> {
    set x | x in s
  }

  lemma {:induction false} DistinctCard(s: seq<int>)
    requires Distinct(s)
    ensures |Elements(s)| == |s|
  {
    if s != [] {
      var init := s[..|s| - 1];
      assert Distinct(init);
      DistinctCard(init);
      assert Elements(s) == Elements(init) + {s[|s| - 1]};
      assert s[|s| - 1] !in Elements(init);
    }
  }

  /** The eligible squares of a stream: those of its first draw and those of the rest. */
  lemma EligibleSquaresCons(draws: seq<real>)
    requires AllDraws(draws) && draws != []
    ensures var s := Square(draws[0]);
      EligibleSquares(draws) == (if s in SAFE_ZONES then {} else {s}) + EligibleSquares(draws[1..])
  {
    var s, rest := Square(draws[0]), draws[1..];
    forall x | x in EligibleSquares(draws)
      ensures x in (if s in SAFE_ZONES then {} else {s}) + EligibleSquares(rest)
    {
      var k :| 0 <= k < |draws| && Square(draws[k]) !in SAFE_ZONES && x == Square(draws[k]);
      if k > 0 { assert draws[k] == rest[k - 1]; }
    }
    forall x | x in EligibleSquares(rest) ensures x in EligibleSquares(draws) {
      var k :| 0 <= k < |rest| && Square(rest[k]) !in SAFE_ZONES && x == Square(rest[k]);
      assert rest[k] == draws[k + 1];
    }
  }

  /** Keeping a new, non-safe square extends a partial layout that is not yet full. */
  lemma Keep(traps: seq<int>, s: int)
    requires IsPartialLayout(traps) && |traps| < TRAP_COUNT
    requires 0 <= s < BOARD_SIZE && s !in traps && s !in SAFE_ZONES
    ensures IsPartialLayout(traps + [s])
    ensures Elements(traps + [s]) == Elements(traps) + {s}
  {
  }

  /** One draw of rejection sampling: it leaves a partial layout and keeps
      the kept-plus-eligible squares as they were. */
  lemma SampleStep(traps: seq<int>, draws: seq<real>) returns (next: seq<int>)
    requires AllDraws(draws) && IsPartialLayout(traps)
    requires |traps| < TRAP_COUNT && draws != []
    ensures IsPartialLayout(next)
    ensures Sample(traps, draws) == Sample(next, draws[1..])
    ensures Elements(next) + EligibleSquares(draws[1..]) == Elements(traps) + EligibleSquares(draws)
  {
    var s := Square(draws[0]);
    EligibleSquaresCons(draws);
    if s !in traps && s !in SAFE_ZONES {
      Keep(traps, s);
      next := traps + [s];
    } else {
      next := traps;
    }
  }

  /** Rejection sampling starting from a partial layout completes as soon as
      the squares already kept and the eligible squares of the remaining
      draws number at least eight. */
  lemma {:induction false} SampleCompletes(traps: seq<int>, draws: seq<real>)
    requires AllDraws(draws) && IsPartialLayout(traps)
    requires |Elements(traps) + EligibleSquares(draws)| >= TRAP_COUNT
    ensures |Sample(traps, draws)| == TRAP_COUNT
    decreases |draws|
  {
    if |traps| >= TRAP_COUNT {
    } else if draws == [] {
      assert Elements(traps) + EligibleSquares(draws) == Elements(traps);
      DistinctCard(traps);
      assert false;
    } else {
      var next := SampleStep(traps, draws);
      SampleCompletes(next, draws[1..]);
    }
  }

  /** Any stream with at least eight distinct eligible squares completes the loop. */
  lemma EnoughSquaresComplete(draws: seq<real>)
    requires AllDraws(draws)
    requires |EligibleSquares(draws)| >= TRAP_COUNT
    ensures Completes(draws)
  {
    assert Elements([]) + EligibleSquares(draws) == EligibleSquares(draws);
    SampleCompletes([], draws);
  }

  /** generateTrapFields: draw squares until eight distinct non-safe ones are kept. */
  method GenerateTrapFields(draws: seq<real>) returns (traps: seq<int>)
    requires Completes(draws)
    ensures IsLayout(traps)
    ensures traps == Sample([], draws)
  {
    traps := [];
    var i := 0;
    while |traps| < TRAP_COUNT
      invariant 0 <= i <= |draws|
      invariant IsPartialLayout(traps)
      invariant Sample(traps, draws[i..]) == Sample([], draws)
      decreases |draws| - i
    {
      assert draws[i..] != [];
      var r := Square(draws[i]);
      assert draws[i..][1..] == draws[i + 1..];
      if r !in traps && r !in SAFE_ZONES {
        traps := traps + [r];
      }
      i := i + 1;
    }
  }
}
