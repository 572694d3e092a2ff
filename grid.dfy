/**
 * The 48-cell trap layout a player builds (`maps_create`, app.py) and the
 * computed expressions over it that the raid handlers share: counts of a
 * cell code, the list of indices holding a code, and the number of safe
 * cells raiders have not opened yet.
 */
module Grid {
  import opened Wrappers

  const SIZE: nat := 48

  const EMPTY: int := 0
  const WALL: int := 1
  const TRAP: int := 2
  const PIT: int := 3
  const CHEST: int := 4

  const TRAPS: nat := 4
  const PITS: nat := 2
  /** A chest takes two adjacent cells. */
  const CHEST_CELLS: nat := 2

  /** The creator may claim once fewer than this many safe cells are left. */
  const CLAIM_TARGET: nat := 12

  /** `sum(1 for x in g if x == c)` */
  function Count(g: seq<int>, c: int): (n: nat)
    ensures n <= |g|
  {
    if g == [] then 0
    else Count(g[..|g| - 1], c) + (if g[|g| - 1] == c then 1 else 0)
  }

  /** `[i for i, x in enumerate(g) if x == c]`: exactly the indices holding `c`, increasing. */
  function Indices(g: seq<int>, c: int): (r: seq<nat>)
    ensures |r| == Count(g, c)
    ensures forall k :: 0 <= k < |r| ==> r[k] < |g| && g[r[k]] == c
    ensures forall i :: 0 <= i < |g| && g[i] == c ==> i in r
    ensures forall k, l :: 0 <= k < l < |r| ==> r[k] < r[l]
  {
    if g == [] then []
    else
      var n := |g| - 1;
      var r := Indices(g[..n], c);
      assert forall i :: 0 <= i < n && g[i] == c ==> i in r by {
        forall i | 0 <= i < n && g[i] == c ensures i in r {
          assert g[..n][i] == c;
        }
      }
      r + (if g[n] == c then [n] else [])
  }

  function Abs(x: int): nat
  {
    if x < 0 then -x else x
  }

  /** Why `maps_create` turns a grid down (all answered with status 400). */
  datatype LayoutError = InvalidGrid | InvalidPlacement | ChestNotAdjacent

  /**
   * The validation of `maps_create`, in the source's order: a missing or
   * wrongly sized grid, then the trap, pit and chest counts, then the
   * adjacency of the two chest cells.  Walls and other codes are not looked at.
   */
  function CheckLayout(grid: Option<seq<int>>): Option<LayoutError>
  {
    if grid.None? || |grid.value| == 0 || |grid.value| != SIZE then Some(InvalidGrid)
    else
      var g := grid.value;
      if Count(g, TRAP) != TRAPS || Count(g, PIT) != PITS || Count(g, CHEST) != CHEST_CELLS then
        Some(InvalidPlacement)
      else
        var chests := Indices(g, CHEST);
        if |chests| != 2 || Abs(chests[0] as int - chests[1] as int) != 1 then Some(ChestNotAdjacent)
        else None
  }

  /**
   * A layout accepted for storage, stated without the index list: 48
   * cells, four traps, two pits, and two chest cells side by side in the
   * flat sequence (row boundaries are not considered).
   */
  ghost predicate WellFormed(g: seq<int>)
  {
    && |g| == SIZE
    && Count(g, TRAP) == TRAPS
    && Count(g, PIT) == PITS
    && Count(g, CHEST) == CHEST_CELLS
    && exists i :: 0 <= i < |g| - 1 && g[i] == CHEST && g[i + 1] == CHEST
  }

  /** `maps_create` accepts a grid exactly when it is well formed. */
  lemma CheckLayoutAcceptsWellFormed(g: seq<int>)
    ensures CheckLayout(Some(g)) == None <==> WellFormed(g)
  {
    var chests := Indices(g, CHEST);
    if CheckLayout(Some(g)) == None {
      assert g[chests[0]] == CHEST && chests[1] == chests[0] + 1;
    }
    if WellFormed(g) {
      var i :| 0 <= i < |g| - 1 && g[i] == CHEST && g[i + 1] == CHEST;
      assert i in chests && i + 1 in chests;
      assert chests[0] == i && chests[1] == i + 1;
    }
  }

  predicate Scored(c: int)
  {
    c == TRAP || c == PIT || c == CHEST
  }

  /** Two grids of one length that agree wherever either holds a trap, a pit or a chest. */
  predicate SameScoredCells(g: seq<int>, h: seq<int>)
  {
    |g| == |h| && forall i :: 0 <= i < |g| && (Scored(g[i]) || Scored(h[i])) ==> g[i] == h[i]
  }

  lemma {:induction false} SameScoredCellsCounts(g: seq<int>, h: seq<int>, c: int)
    requires SameScoredCells(g, h) && Scored(c)
    ensures Count(g, c) == Count(h, c) && Indices(g, c) == Indices(h, c)
  {
    if g != [] {
      var n := |g| - 1;
      assert SameScoredCells(g[..n], h[..n]) by {
        forall i | 0 <= i < n && (Scored(g[..n][i]) || Scored(h[..n][i])) ensures g[..n][i] == h[..n][i] {
          assert g[..n][i] == g[i] && h[..n][i] == h[i];
        }
      }
      SameScoredCellsCounts(g[..n], h[..n], c);
      assert Scored(g[n]) || Scored(h[n]) ==> g[n] == h[n];
    }
  }

  /** The wall count and every code other than 2, 3 and 4 play no part in the check. */
  lemma LayoutIgnoresOtherCodes(g: seq<int>, h: seq<int>)
    requires SameScoredCells(g, h)
    ensures CheckLayout(Some(g)) == CheckLayout(Some(h))
  {
    SameScoredCellsCounts(g, h, TRAP);
    SameScoredCellsCounts(g, h, PIT);
    SameScoredCellsCounts(g, h, CHEST);
  }

  // ---------------------------------------------------------------------
  // Safe cells.

  /** Empty and chest cells are the ones that pay. */
  predicate IsSafe(c: int)
  {
    c == EMPTY || c == CHEST
  }

  /**
   * `sum(1 for i, x in enumerate(grid) if x in [0, 4] and i not in dug)`,
   * computed alike by `my_tombs` and `my_tombs_claim`.
   */
  function SafeRemaining(g: seq<int>, dug: seq<int>): (n: nat)
    ensures n <= |g|
  {
    if g == [] then 0
    else SafeRemaining(g[..|g| - 1], dug) + (if IsSafe(g[|g| - 1]) && |g| - 1 !in dug then 1 else 0)
  }

  /** Before any digging every empty and chest cell is counted. */
  lemma {:induction false} SafeRemainingUndug(g: seq<int>)
    ensures SafeRemaining(g, []) == Count(g, EMPTY) + Count(g, CHEST)
  {
    if g != [] {
      SafeRemainingUndug(g[..|g| - 1]);
    }
  }

  /** Opening one more cell lowers the count by one exactly when it is a safe cell not yet opened. */
  lemma {:induction false} SafeRemainingAfterDig(g: seq<int>, dug: seq<int>, x: int)
    ensures SafeRemaining(g, dug + [x])
         == SafeRemaining(g, dug) - (if 0 <= x < |g| && IsSafe(g[x]) && x !in dug then 1 else 0)
  {
    if g != [] {
      var n := |g| - 1;
      SafeRemainingAfterDig(g[..n], dug, x);
      assert 0 <= x < n ==> g[..n][x] == g[x];
    }
  }

  /** Opening cells never raises the count. */
  lemma {:induction false} SafeRemainingMonotone(g: seq<int>, dug: seq<int>, more: seq<int>)
    requires forall x :: x in dug ==> x in more
    ensures SafeRemaining(g, more) <= SafeRemaining(g, dug)
  {
    if g != [] {
      SafeRemainingMonotone(g[..|g| - 1], dug, more);
    }
  }

  /** `safe_cells < 12`, the test both `can_claim` and the claim itself use. */
  predicate Claimable(g: seq<int>, dug: seq<int>)
  {
    SafeRemaining(g, dug) < CLAIM_TARGET
  }

  /** Once claimable, a map stays claimable however many more cells are opened. */
  lemma ClaimableStays(g: seq<int>, dug: seq<int>, more: seq<int>)
    requires Claimable(g, dug)
    requires forall x :: x in dug ==> x in more
    ensures Claimable(g, more)
  {
    SafeRemainingMonotone(g, dug, more);
  }

  /** `len([x for x in dug if grid[x] == 2])`: opened trap cells, repeats counted. */
  function Deaths(g: seq<int>, dug: seq<int>): (n: nat)
    requires forall k :: 0 <= k < |dug| ==> 0 <= dug[k] < |g|
    ensures n <= |dug|
  {
    if dug == [] then 0
    else Deaths(g, dug[..|dug| - 1]) + (if g[dug[|dug| - 1]] == TRAP then 1 else 0)
  }
}
