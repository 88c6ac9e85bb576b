/** The per-cell counts `buildAggBoard` takes over a pool of sampled boards:
    `Counter` over the concatenated cell lists, and how many boards hold each
    cell. */
module Counting {
  import opened Seqs
  import opened Cells

  /** How many boards of the pool contain cell `c`. */
  function Holding(boards: seq<set<Cell>>, c: Cell): (n: nat)
    ensures n <= |boards|
    ensures n > 0 <==> c in UnionAll(boards)
  {
    if boards == [] then 0
    else
      var init := boards[..|boards| - 1];
      assert forall k :: 0 <= k < |init| ==> init[k] == boards[k];
      Holding(init, c) + if c in boards[|boards| - 1] then 1 else 0
  }

  /** `dict(Counter(cells))`: every listed cell mapped to how often it is
      listed. */
  function Counter(cells: seq<Cell>): (m: map<Cell, nat>)
    ensures m.Keys == Elems(cells)
    ensures forall c :: c in m ==> m[c] == multiset(cells)[c]
  {
    map c | c in cells :: multiset(cells)[c]
  }

  /** The counts of a pool of boards: each cell of some board mapped to the
      number of boards holding it. */
  function Tally(boards: seq<set<Cell>>): (m: map<Cell, nat>)
    ensures m.Keys == UnionAll(boards)
    ensures forall c :: c in m ==> 1 <= m[c] <= |boards|
  {
    map c | c in UnionAll(boards) :: Holding(boards, c)
  }

  /** Counting the concatenated cell lists of the boards counts, for each
      cell, the boards that hold it. */
  lemma {:induction false} CounterIsTally(cells: seq<Cell>, boards: seq<set<Cell>>)
    requires forall c :: multiset(cells)[c] == Holding(boards, c)
    ensures Counter(cells) == Tally(boards)
  {
    forall c ensures c in cells <==> c in UnionAll(boards) {
      assert c in cells <==> multiset(cells)[c] > 0;
    }
  }

  /** Adding one more board adds one to the count of each of its cells. */
  lemma {:induction false} HoldingSnoc(boards: seq<set<Cell>>, b: set<Cell>, c: Cell)
    ensures Holding(boards + [b], c) == Holding(boards, c) + if c in b then 1 else 0
  {
    assert (boards + [b])[..|boards|] == boards;
  }

  /** Appending the cells of one more board, each once, keeps the list's
      counts equal to the pool's. */
  lemma {:induction false} AppendBoard(cells: seq<Cell>, boards: seq<set<Cell>>, xs: seq<Cell>)
    requires forall c :: multiset(cells)[c] == Holding(boards, c)
    requires Distinct(xs)
    ensures forall c :: multiset(cells + xs)[c] == Holding(boards + [Elems(xs)], c)
  {
    forall c ensures multiset(cells + xs)[c] == Holding(boards + [Elems(xs)], c) {
      DistinctCount(xs, c);
      HoldingSnoc(boards, Elems(xs), c);
    }
  }

  /** `[j for i in lboards for j in list(i)]`: the cells of every board of
      the pool, each board listed in some order. */
  method PoolCells(lboards: seq<set<Cell>>) returns (cells: seq<Cell>)
    ensures forall c :: multiset(cells)[c] == Holding(lboards, c)
  {
    cells := [];
    var k := 0;
    while k < |lboards|
      invariant 0 <= k <= |lboards|
      invariant forall c :: multiset(cells)[c] == Holding(lboards[..k], c)
    {
      var xs := Enumerate(lboards[k]);
      AppendBoard(cells, lboards[..k], xs);
      assert lboards[..k + 1] == lboards[..k] + [Elems(xs)];
      cells := cells + xs;
      k := k + 1;
    }
    assert lboards[..k] == lboards;
  }

  /** `for i in hits: del aggDict[i]`, the keys taken in the order `keys`:
      `missing` when a key is not there (a `KeyError`), which stops the
      deletions at that key. */
  method DeleteAll(m: map<Cell, nat>, keys: seq<Cell>) returns (m': map<Cell, nat>, missing: bool)
    requires Distinct(keys)
    ensures missing <==> !(Elems(keys) <= m.Keys)
    ensures !missing ==> m' == m - Elems(keys)
    ensures m'.Keys <= m.Keys && forall c :: c in m' ==> m'[c] == m[c]
  {
    m', missing := m, false;
    var k := 0;
    while k < |keys|
      invariant 0 <= k <= |keys|
      invariant Elems(keys[..k]) <= m.Keys
      invariant m' == m - Elems(keys[..k])
    {
      assert keys[..k + 1] == keys[..k] + [keys[k]];
      if keys[k] !in m' {
        assert keys[k] !in m by {
          assert keys[k] !in keys[..k];
        }
        missing := true;
        return;
      }
      m' := m' - {keys[k]};
      k := k + 1;
    }
    assert keys[..k] == keys;
  }

  /** `max(aggDict, key=aggDict.get)`: the first key, in the order the map
      yields them, with the largest count. */
  method ArgMax(m: map<Cell, nat>) returns (best: Cell)
    requires m != map[]
    ensures best in m
    ensures forall c :: c in m ==> m[c] <= m[best]
  {
    var keys := Enumerate(m.Keys);
    assert keys[0] in Elems(keys);
    best := keys[0];
    var k := 1;
    while k < |keys|
      invariant 1 <= k <= |keys|
      invariant best in m
      invariant forall i :: 0 <= i < k ==> m[keys[i]] <= m[best]
    {
      if m[keys[k]] > m[best] {
        best := keys[k];
      }
      k := k + 1;
    }
    forall c | c in m ensures m[c] <= m[best] {
      assert c in Elems(keys);
    }
  }

  /** Lines 325-328 of the Bayesian `play()`, 187-190 of the statistics
      one: the hit cells are deleted from the counts
      (a `KeyError` when one of them is missing) and a cell with the largest
      count left is the next shot (a `ValueError` when nothing is left). */
  method Choose(agg: map<Cell, nat>, hits: set<Cell>) returns (r: Outcome<Cell>, agg': map<Cell, nat>)
    ensures !r.OutOfFuel?
    ensures r.Raised? <==> !(hits <= agg.Keys) || agg.Keys <= hits
    ensures hits <= agg.Keys ==> agg' == agg - hits
    ensures r.Ok? ==> r.value in agg && r.value !in hits
    ensures r.Ok? ==> forall c :: c in agg && c !in hits ==> agg[c] <= agg[r.value]
  {
    var hitList := Enumerate(hits);
    var missing;
    agg', missing := DeleteAll(agg, hitList);
    if missing {
      return Raised, agg';
    }
    if agg' == map[] {
      assert agg.Keys - hits == agg'.Keys == {};
      forall c | c in agg ensures c in hits {
        assert c !in agg.Keys - hits;
      }
      return Raised, agg';
    }
    var best := ArgMax(agg');
    assert forall c :: c in agg && c !in hits ==> c in agg' && agg'[c] == agg[c];
    r := Ok(best);
  }
}
