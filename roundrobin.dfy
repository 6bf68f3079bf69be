/**
 * Round-robin selection over the liveness flags of a backend pool: the
 * cursor is advanced by one, reduced modulo the pool size, and the pool is
 * scanned cyclically from there for the first live backend.  If the scan
 * had to skip backends, the cursor is moved to the backend chosen.
 */
module RoundRobin {
  import opened Wrappers

  /** Index of the backend `k` steps after `start` in a pool of `n`. */
  function At(start: nat, k: nat, n: nat): (i: nat)
    requires n > 0
    ensures i < n
  {
    (start + k) % n
  }

  /** Number of steps forward from `start` to `i` in a pool of `n`. */
  function Dist(start: nat, i: nat, n: nat): (k: nat)
    requires n > 0
    ensures k < n
  {
    (i - start) % n
  }

  lemma AtDist(start: nat, i: nat, n: nat)
    requires start < n && i < n
    ensures At(start, Dist(start, i, n), n) == i
  {
    if start <= i {
      ModUnique(i - start, 0, i - start, n);
      ModUnique(i, 0, i, n);
    } else {
      ModUnique(i - start, -1, i - start + n, n);
      ModUnique(i + n, 1, i, n);
    }
  }

  lemma DistAt(start: nat, k: nat, n: nat)
    requires start < n && k < n
    ensures Dist(start, At(start, k, n), n) == k
  {
    if start + k < n {
      ModUnique(start + k, 0, start + k, n);
      ModUnique(k, 0, k, n);
    } else {
      ModUnique(start + k, 1, start + k - n, n);
      ModUnique(k - n, -1, k, n);
    }
  }

  /** The index the cursor designates once advanced: where a scan starts. */
  function NextStart(cursor: nat, n: nat): (i: nat)
    requires n > 0
    ensures i < n
    ensures i == At(cursor, 1, n)
  {
    (cursor + 1) % n
  }

  /**
   * Offset, counted from `start`, of the first live backend at offset `k` or
   * later within one cycle; none when all of them are down.
   */
  function ScanFrom(alive: seq<bool>, start: nat, k: nat): (r: Option<nat>)
    requires start < |alive| && k <= |alive|
    ensures r.Some? ==> k <= r.value < |alive| && alive[At(start, r.value, |alive|)]
    ensures r.Some? ==> forall j | k <= j < r.value :: !alive[At(start, j, |alive|)]
    ensures r.None? <==> forall j | k <= j < |alive| :: !alive[At(start, j, |alive|)]
    decreases |alive| - k
  {
    if k == |alive| then None
    else if alive[At(start, k, |alive|)] then Some(k)
    else ScanFrom(alive, start, k + 1)
  }

  /** A scan reports the first offset at which it meets a live backend. */
  lemma ScanFindsFirst(alive: seq<bool>, start: nat, m: nat)
    requires start < |alive| && m < |alive|
    requires alive[At(start, m, |alive|)]
    requires forall k | 0 <= k < m :: !alive[At(start, k, |alive|)]
    ensures ScanFrom(alive, start, 0) == Some(m)
  {
  }

  /**
   * The first live backend in cyclic order from `start`: it is live, and
   * every backend fewer steps from `start` is down.
   */
  function Select(alive: seq<bool>, start: nat): (r: Option<nat>)
    requires start < |alive|
    ensures r.Some? ==> r.value < |alive| && alive[r.value]
    ensures r.Some? ==> forall i | 0 <= i < |alive| && Dist(start, i, |alive|) < Dist(start, r.value, |alive|) :: !alive[i]
  {
    match ScanFrom(alive, start, 0)
    case None => None
    case Some(k) =>
      var n := |alive|;
      DistAt(start, k, n);
      assert forall i | 0 <= i < n && Dist(start, i, n) < k :: !alive[i] by {
        forall i | 0 <= i < n && Dist(start, i, n) < k ensures !alive[i] {
          AtDist(start, i, n);
        }
      }
      Some(At(start, k, n))
  }

  /** The scan finds nothing exactly when every backend is down. */
  lemma SelectNoneIffAllDown(alive: seq<bool>, start: nat)
    requires start < |alive|
    ensures Select(alive, start).None? <==> forall i | 0 <= i < |alive| :: !alive[i]
  {
    var n := |alive|;
    if Select(alive, start).None? {
      forall i | 0 <= i < n ensures !alive[i] {
        AtDist(start, i, n);
      }
    }
  }

  /** What one call of the selection returns and leaves in the cursor. */
  datatype Choice = Choice(picked: Option<nat>, cursor: nat)

  /**
   * One selection from `cursor`: the first live backend from the advanced
   * cursor; the cursor keeps its increment unless backends were skipped, in
   * which case it is overwritten with the chosen index.
   */
  function Pick(alive: seq<bool>, cursor: nat): (c: Choice)
    requires |alive| > 0
    ensures c.picked == Select(alive, NextStart(cursor, |alive|))
    ensures c.picked.None? || c.picked == Some(NextStart(cursor, |alive|)) ==> c.cursor == cursor + 1
    ensures c.picked.Some? && c.picked.value != NextStart(cursor, |alive|) ==> c.cursor == c.picked.value
  {
    var start := NextStart(cursor, |alive|);
    var sel := Select(alive, start);
    Choice(sel, if sel.Some? && sel.value != start then sel.value else cursor + 1)
  }

  lemma ModSucc(a: int, n: int)
    requires n > 0
    ensures (a + 1) % n == (a % n + 1) % n
  {
    var q, r := a / n, a % n;
    assert a == q * n + r;
    if r + 1 < n {
      ModUnique(a + 1, q, r + 1, n);
      ModUnique(r + 1, 0, r + 1, n);
    } else {
      assert (q + 1) * n == q * n + n;
      ModUnique(a + 1, q + 1, 0, n);
      ModUnique(n, 1, 0, n);
    }
  }

  lemma ModUnique(x: int, q: int, r: int, n: int)
    requires n > 0 && 0 <= r < n && x == q * n + r
    ensures x % n == r
  {
    var q', r' := x / n, x % n;
    assert x == q' * n + r';
    assert (q - q') * n == r' - r;
    if q' < q {
      MulAtLeast(q - q', n);
    } else if q' > q {
      MulAtLeast(q' - q, n);
    }
  }

  lemma MulAtLeast(d: int, n: int)
    requires d >= 1 && n > 0
    ensures d * n >= n
  {
    assert d * n == (d - 1) * n + n;
    if d > 1 {
      MulAtLeast(d - 1, n);
    }
  }

  /**
   * Rotation: while some backend is live, every call picks one, and the
   * next call's scan starts just after it, whether or not the cursor was
   * overwritten.
   */
  lemma NextScanStartsAfterPick(alive: seq<bool>, cursor: nat)
    requires true in alive
    ensures Pick(alive, cursor).picked.Some?
    ensures NextStart(Pick(alive, cursor).cursor, |alive|) == (Pick(alive, cursor).picked.value + 1) % |alive|
  {
    var n := |alive|;
    SelectNoneIffAllDown(alive, NextStart(cursor, n));
    var c := Pick(alive, cursor);
    if c.picked.value == NextStart(cursor, n) {
      ModSucc(cursor + 1, n);
    }
  }

  /** A call from cursor 0 or 3 skips the down backend 1 and moves the cursor to 2. */
  lemma SkipStep(cursor: nat)
    requires cursor == 0 || cursor == 3
    ensures Pick([true, false, true], cursor) == Choice(Some(2), 2)
  {
    var alive := [true, false, true];
    assert NextStart(cursor, 3) == 1;
    assert !alive[At(1, 0, 3)] && alive[At(1, 1, 3)];
    assert ScanFrom(alive, 1, 0) == Some(1);
  }

  /** A call from cursor 2 starts at the live backend 0 and keeps the increment. */
  lemma DirectStep()
    ensures Pick([true, false, true], 2) == Choice(Some(0), 3)
  {
    var alive := [true, false, true];
    assert NextStart(2, 3) == 0;
    assert alive[At(0, 0, 3)];
    assert ScanFrom(alive, 0, 0) == Some(0);
  }

  /**
   * Three backends with the middle one down, cursor 0: successive calls pick
   * backend 2, then 0, then 2, then 0, never 1; the cursor goes 2, 3, 2, 3.
   */
  lemma SkipsDownBackend()
    ensures var alive := [true, false, true];
      var c1 := Pick(alive, 0);
      var c2 := Pick(alive, c1.cursor);
      var c3 := Pick(alive, c2.cursor);
      var c4 := Pick(alive, c3.cursor);
      c1.picked == Some(2) && c2.picked == Some(0) && c3.picked == Some(2) && c4.picked == Some(0)
  {
    SkipStep(0);
    DirectStep();
    SkipStep(3);
  }
}
