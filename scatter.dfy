/** How `RandomPosition` and `LayoutObjectAtRandom` pick cells from the free-cell list:
    the retry filter, where a stream of index draws makes the retry loop stop, what a run
    of picks does to the list, and how many objects a layout asks for. */
module Scatter {
  import opened Options
  import opened Lists
  import opened Grid

  /** The retry condition of `RandomPosition`. `&&` binds tighter than `||`, so it reads
      `(isEnemy && x < 1.5) || y < 1.5`: row 1 is refused for every kind of object, and
      column 1 only for enemies. */
  predicate Rejected(isEnemy: bool, c: Cell) {
    (isEnemy && (c.x as real) < 1.5) || (c.y as real) < 1.5
  }

  /** A cell passes the filter exactly when y >= 2, and for an enemy also x >= 2. */
  lemma AcceptedCells(isEnemy: bool, c: Cell)
    ensures !Rejected(isEnemy, c) <==> c.y >= 2 && (isEnemy ==> c.x >= 2)
  {
    assert (c.y as real) < 1.5 <==> c.y <= 1;
    assert (c.x as real) < 1.5 <==> c.x <= 1;
  }

  /** Where the retry loop of `RandomPosition` stops when its k-th and later index draws are
      draws[k], draws[k + 1], ...: the position of the first draw that indexes the list and
      names a cell the filter accepts. None when the stream runs out first, or when a draw
      the loop would read falls outside the list: `Random.Range(0, Count)` draws only
      indices of a non-empty list, and on an empty list the index 0 it returns fails. */
  function Stop(free: seq<Cell>, isEnemy: bool, draws: seq<int>, k: nat): (r: Option<nat>)
    ensures r.Some? ==> k <= r.value < |draws| && 0 <= draws[r.value] < |free|
                        && !Rejected(isEnemy, free[draws[r.value]])
    ensures r.Some? ==> forall j :: k <= j < r.value ==> 0 <= draws[j] < |free| && Rejected(isEnemy, free[draws[j]])
    decreases |draws| - k
  {
    if k >= |draws| || !(0 <= draws[k] < |free|) then None
    else if !Rejected(isEnemy, free[draws[k]]) then Some(k)
    else Stop(free, isEnemy, draws, k + 1)
  }

  /** The retry loop does stop when its draws index the list up to one that names an
      accepted cell j: it stops there or at an earlier accepted draw. */
  lemma {:induction false} StopFinds(free: seq<Cell>, isEnemy: bool, draws: seq<int>, k: nat, j: nat)
    requires k <= j < |draws|
    requires forall i :: k <= i <= j ==> 0 <= draws[i] < |free|
    requires !Rejected(isEnemy, free[draws[j]])
    ensures Stop(free, isEnemy, draws, k).Some? && Stop(free, isEnemy, draws, k).value <= j
    decreases j - k
  {
    if Rejected(isEnemy, free[draws[k]]) {
      StopFinds(free, isEnemy, draws, k + 1, j);
    }
  }

  /** When no cell of the list passes the filter, the retry loop of `RandomPosition` never
      stops, whatever it draws. */
  lemma NeverStops(free: seq<Cell>, isEnemy: bool, draws: seq<int>, k: nat)
    requires forall c :: c in free ==> Rejected(isEnemy, c)
    ensures Stop(free, isEnemy, draws, k) == None
  {
  }

  /** The free list left by a run of picks, and the cells picked, in order. */
  datatype Picks = Picks(free: seq<Cell>, placed: seq<Cell>)

  /** The picks of successive `RandomPosition(isEnemy)` calls on the list `free`, the i-th
      call reading the draw stream streams[i]. None when some call would not stop. */
  function Run(free: seq<Cell>, isEnemy: bool, streams: seq<seq<int>>): Option<Picks>
    decreases |streams|
  {
    if streams == [] then Some(Picks(free, []))
    else
      var last := streams[|streams| - 1];
      match Run(free, isEnemy, streams[..|streams| - 1])
      case None => None
      case Some(p) =>
        match Stop(p.free, isEnemy, last, 0)
        case None => None
        case Some(k) => Some(Picks(RemoveAt(p.free, last[k]), p.placed + [p.free[last[k]]]))
  }

  /** A run that stops for all its streams also stops for each prefix of them. */
  lemma {:induction false} RunPrefix(free: seq<Cell>, isEnemy: bool, streams: seq<seq<int>>, i: nat)
    requires Run(free, isEnemy, streams).Some?
    requires i <= |streams|
    ensures Run(free, isEnemy, streams[..i]).Some?
    decreases |streams|
  {
    if i < |streams| {
      var init := streams[..|streams| - 1];
      assert init[..i] == streams[..i];
      RunPrefix(free, isEnemy, init, i);
    } else {
      assert streams[..i] == streams;
    }
  }

  /** The (i + 1)-th pick of a run that stops: it continues the first i picks. */
  lemma RunStep(free: seq<Cell>, isEnemy: bool, streams: seq<seq<int>>, i: nat, left: seq<Cell>, placed: seq<Cell>)
    requires Run(free, isEnemy, streams).Some?
    requires i < |streams|
    requires Run(free, isEnemy, streams[..i]) == Some(Picks(left, placed))
    ensures Stop(left, isEnemy, streams[i], 0).Some?
    ensures var j := streams[i][Stop(left, isEnemy, streams[i], 0).value];
      Run(free, isEnemy, streams[..i + 1]) == Some(Picks(RemoveAt(left, j), placed + [left[j]]))
  {
    RunPrefix(free, isEnemy, streams, i + 1);
    assert streams[..i + 1][..i] == streams[..i];
  }

  /** A run takes one cell per stream out of the list: the cells it places and the cells
      it leaves are together exactly the cells it started with, and each placed cell passed
      the filter. */
  lemma {:induction false} RunSpec(free: seq<Cell>, isEnemy: bool, streams: seq<seq<int>>)
    requires Run(free, isEnemy, streams).Some?
    ensures var p := Run(free, isEnemy, streams).value;
      |p.placed| == |streams| && |p.free| == |free| - |streams| &&
      multiset(p.placed) + multiset(p.free) == multiset(free) &&
      forall c :: c in p.placed ==> !Rejected(isEnemy, c)
    decreases |streams|
  {
    if streams != [] {
      var init := streams[..|streams| - 1];
      RunSpec(free, isEnemy, init);
      var p := Run(free, isEnemy, init).value;
      var last := streams[|streams| - 1];
      var k := Stop(p.free, isEnemy, last, 0).value;
      var i := last[k];
      assert multiset(RemoveAt(p.free, i)) + multiset{p.free[i]} == multiset(p.free);
    }
  }

  /** On a list without repetitions, a run places pairwise different cells, each from the
      list, and none of them stays in the list. */
  lemma RunDistinct(free: seq<Cell>, isEnemy: bool, streams: seq<seq<int>>)
    requires Distinct(free)
    requires Run(free, isEnemy, streams).Some?
    ensures var p := Run(free, isEnemy, streams).value;
      Distinct(p.placed + p.free) &&
      (forall c :: c in p.placed ==> c in free && c !in p.free) &&
      (forall c :: c in p.free ==> c in free)
  {
    RunSpec(free, isEnemy, streams);
    var p := Run(free, isEnemy, streams).value;
    DistinctSplit(free, p.placed, p.free);
  }

  /** C#'s `a / 2` on int, which truncates toward zero. */
  function Half(a: int): (r: int)
    ensures a >= 0 ==> 0 <= a - 2 * r <= 1
    ensures a < 0 ==> 0 <= 2 * r - a <= 1
  {
    if a >= 0 then a / 2 else -((-a) / 2)
  }

  /** Halving an even number is exact. */
  lemma HalfDouble(a: int, b: int)
    ensures Half(a * 2 * b) == a * b
  {
    assert a * 2 * b == 2 * (a * b);
  }

  /** The number of objects `LayoutObjectAtRandom` places: the drawn count plus
      `level * levelScale / 2`. */
  function ObjectCount(drawn: int, level: int, levelScale: int): int {
    drawn + Half(level * levelScale)
  }

  /** The number of times the `for (i = 0; i < count; i++)` loop runs. */
  function Times(count: int): nat {
    if count > 0 then count else 0
  }

  function Pow2(k: nat): (r: nat)
    ensures r >= 1
  {
    if k == 0 then 1 else 2 * Pow2(k - 1)
  }

  /** `(int)Mathf.Log(level, 2f)` for level >= 1, read as the exact integer logarithm. */
  function Log2(n: int): (k: nat)
    requires n >= 1
    ensures Pow2(k) <= n < 2 * Pow2(k)
  {
    if n < 2 then 0 else 1 + Log2(n / 2)
  }
}
