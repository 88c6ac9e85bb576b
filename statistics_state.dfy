/** The steps of the statistics variant's game object on the knowledge it
    keeps: `updateOrientations` (the sink loop and the pruning loop, each
    with its size tests) and `buildAggBoard` (a fixed number of conditional
    boards, counted per cell). Each loop is a method proved against the
    steps on `Knowledge` shared with the Bayesian variant. */
module StatisticsState {
  import opened Seqs
  import opened Cells
  import opened Counting
  import opened Evidence
  import opened Sampling
  import opened GameState
  import opened StatisticsSampler

  // ---------------------------------------------------------------------
  // updateOrientations
  // ---------------------------------------------------------------------

  /** Lines 64-70: every boat whose cells have all been hit (the size test
      of line 66) is marked sunk, its cells join `hitsSunk`, and its list
      becomes its true location. */
  method SinkLoop(boats: seq<Boat>, hits: set<Cell>, cond: map<Name, seq<Placement>>,
                  sunk: set<Name>, hitsSunk: set<Cell>)
    returns (cond': map<Name, seq<Placement>>, sunk': set<Name>, hitsSunk': set<Cell>)
    requires Distinct(BoatNames(boats))
    ensures cond' == FixSunk(cond, boats, hits)
    ensures sunk' == sunk + SunkNow(boats, hits)
    ensures hitsSunk' == hitsSunk + SunkCells(boats, hits)
  {
    cond', sunk', hitsSunk' := cond, sunk, hitsSunk;
    assert FixSunk(cond, boats[..0], hits) == cond;
    var k := 0;
    while k < |boats|
      invariant 0 <= k <= |boats|
      invariant cond' == FixSunk(cond, boats[..k], hits)
      invariant sunk' == sunk + SunkNow(boats[..k], hits)
      invariant hitsSunk' == hitsSunk + SunkCells(boats[..k], hits)
    {
      SinkStep(cond, boats, hits, k, cond', sunk', hitsSunk', sunk, hitsSunk);
      cond', sunk', hitsSunk' := SinkBoat(boats[k], hits, cond', sunk', hitsSunk');
      k := k + 1;
    }
    assert boats[..k] == boats;
  }

  /** Lines 65-70 for one boat: when the size test of line 66 finds every
      cell hit, the boat's cells join `hitsSunk`, its name the sunk ships,
      and its list becomes its true location; otherwise nothing changes. */
  method SinkBoat(b: Boat, hits: set<Cell>, cond: map<Name, seq<Placement>>, sunk: set<Name>, hitsSunk: set<Cell>)
    returns (cond': map<Name, seq<Placement>>, sunk': set<Name>, hitsSunk': set<Cell>)
    ensures b.location <= hits ==>
      cond' == cond[b.name := [b.location]] && sunk' == sunk + {b.name} && hitsSunk' == hitsSunk + b.location
    ensures !(b.location <= hits) ==> cond' == cond && sunk' == sunk && hitsSunk' == hitsSunk
  {
    cond', sunk', hitsSunk' := cond, sunk, hitsSunk;
    var boat, location := b.name, b.location;
    if AllHit(location, hits) {
      hitsSunk' := hitsSunk' + location;
      sunk' := sunk' + {boat};
      cond' := cond'[boat := [location]];
    }
  }

  /** Line 79's test applied to one ship's list: the layouts passing it,
      in their order. */
  function KeptBySize(configs: seq<Placement>, misses: set<Cell>, hitsSunk: set<Cell>, len: nat, sunkNum: nat)
    : (r: seq<Placement>)
    ensures forall p :: p in r <==> p in configs && KeepsLayout(p, misses, hitsSunk, len, sunkNum)
  {
    Filter(configs, p => KeepsLayout(p, misses, hitsSunk, len, sunkNum))
  }

  /** Lines 77-80: `new_orient`, built by appending each layout that
      passes the size test. */
  method KeepLayouts(configs: seq<Placement>, misses: set<Cell>, hitsSunk: set<Cell>, len: nat, sunkNum: nat)
    returns (newOrient: seq<Placement>)
    ensures newOrient == KeptBySize(configs, misses, hitsSunk, len, sunkNum)
  {
    newOrient := [];
    var k := 0;
    while k < |configs|
      invariant 0 <= k <= |configs|
      invariant newOrient == KeptBySize(configs[..k], misses, hitsSunk, len, sunkNum)
    {
      var config := configs[k];
      assert configs[..k + 1][..k] == configs[..k];
      if KeepsLayout(config, misses, hitsSunk, len, sunkNum) {
        newOrient := newOrient + [config];
      }
      k := k + 1;
    }
    assert configs[..k] == configs;
  }

  /** For layouts of the ship's length and `sunkNum` the number of sunk
      cells, the size test keeps exactly the candidates `Prune` keeps:
      those avoiding the misses and the sunk ships. */
  lemma {:induction false} KeptBySizeIsPrune(configs: seq<Placement>, misses: set<Cell>, hitsSunk: set<Cell>, len: nat)
    requires forall p :: p in configs ==> |p| == len
    ensures KeptBySize(configs, misses, hitsSunk, len, |hitsSunk|) == Prune(configs, misses, hitsSunk)
  {
    FilterCongruent(configs, p => KeepsLayout(p, misses, hitsSunk, len, |hitsSunk|),
                    p => Survives(p, misses, hitsSunk));
  }

  /** Lines 72-82 as written: every ship not marked sunk keeps the layouts
      passing the size test for its length, with `sunkNum` the number of
      sunk cells. */
  function PruneBySize(cond: map<Name, seq<Placement>>, sunk: set<Name>, misses: set<Cell>,
                       hitsSunk: set<Cell>, lengths: map<Name, nat>): (r: map<Name, seq<Placement>>)
    requires forall n :: n in cond ==> n in lengths
    ensures r.Keys == cond.Keys
    ensures forall n :: n in cond ==>
      r[n] == if n in sunk then cond[n] else KeptBySize(cond[n], misses, hitsSunk, lengths[n], |hitsSunk|)
  {
    map n | n in cond :: if n in sunk then cond[n] else KeptBySize(cond[n], misses, hitsSunk, lengths[n], |hitsSunk|)
  }

  /** The pruning step computed with the size tests is the shared
      pruning step when every candidate has its ship's length. */
  lemma {:induction false} PruneBySizeIsPruneAll(cond: map<Name, seq<Placement>>, sunk: set<Name>, misses: set<Cell>,
                                                 hitsSunk: set<Cell>, lengths: map<Name, nat>)
    requires forall n :: n in cond ==> n in lengths
    requires forall n, p :: n in cond && p in cond[n] ==> |p| == lengths[n]
    ensures PruneBySize(cond, sunk, misses, hitsSunk, lengths) == PruneAll(cond, sunk, misses, hitsSunk)
  {
    var a, b := PruneBySize(cond, sunk, misses, hitsSunk, lengths), PruneAll(cond, sunk, misses, hitsSunk);
    forall n | n in cond ensures a[n] == b[n] {
      if n !in sunk {
        assert b[n] == Prune(cond[n], misses, hitsSunk);
        KeptBySizeIsPrune(cond[n], misses, hitsSunk, lengths[n]);
      }
    }
  }

  /** Candidates drawn from a catalog of layouts of the ship's length have
      that length. */
  lemma {:induction false} CandidateLengths(cond: map<Name, seq<Placement>>, catalog: map<Name, seq<Placement>>,
                                            dim: nat, lengths: map<Name, nat>)
    requires CatalogShape(catalog, dim, lengths) && WithinCatalog(cond, catalog) && cond.Keys <= catalog.Keys
    ensures forall n :: n in cond ==> n in lengths
    ensures forall n, p :: n in cond && p in cond[n] ==> |p| == lengths[n]
  {
  }

  /** Lines 72-82: `sunkNum = len(hitsSunk)`, then every ship not marked
      sunk, taken in the order `keys` of `set(self.names)`, keeps the
      layouts passing the size test. */
  method PruneLoop(keys: seq<Name>, sunk: set<Name>, misses: set<Cell>, hitsSunk: set<Cell>,
                   lengths: map<Name, nat>, cond: map<Name, seq<Placement>>)
    returns (cond': map<Name, seq<Placement>>)
    requires Distinct(keys) && cond.Keys == Elems(keys)
    requires forall n :: n in keys ==> n in lengths
    ensures cond' == PruneBySize(cond, sunk, misses, hitsSunk, lengths)
  {
    var sunkNum := |hitsSunk|;
    cond' := cond;
    var k := 0;
    while k < |keys|
      invariant 0 <= k <= |keys|
      invariant cond'.Keys == cond.Keys
      invariant forall i :: 0 <= i < k ==>
                  cond'[keys[i]] == if keys[i] in sunk then cond[keys[i]]
                                    else KeptBySize(cond[keys[i]], misses, hitsSunk, lengths[keys[i]], sunkNum)
      invariant forall i :: k <= i < |keys| ==> cond'[keys[i]] == cond[keys[i]]
    {
      var name := keys[k];
      if name !in sunk {
        var newOrient := KeepLayouts(cond'[name], misses, hitsSunk, lengths[name], sunkNum);
        cond' := cond'[name := newOrient];
      }
      k := k + 1;
    }
    forall n | n in cond' ensures cond'[n] == PruneBySize(cond, sunk, misses, hitsSunk, lengths)[n] {
      assert n in Elems(keys);
    }
  }

  /** `updateOrientations()` on the knowledge: the sink step, then the
      pruning step, computed with the size tests. The names are taken in
      the order `keys` of `set(self.names)`. */
  method Update(r: Rules, k: Knowledge, keys: seq<Name>) returns (k': Knowledge)
    requires Inv(r, k)
    requires Distinct(keys) && Elems(keys) == Elems(r.names)
    ensures k' == Pruned(Sink(k))
    ensures Inv(r, k') && Settled(k'.cond, k'.sunk, k'.misses, k'.hitsSunk)
  {
    InvFacts(r, k);
    SinkKeeps(r, k);
    var c1, s, hs1 := SinkLoop(k.boats, k.hits, k.cond, k.sunk, k.hitsSunk);
    var k1 := k.(sunk := s, hitsSunk := hs1, cond := c1);
    PrunedKeeps(r, k1);
    CandidateLengths(c1, r.catalog, r.dim, r.lengths);
    PruneBySizeIsPruneAll(c1, s, k.misses, hs1, r.lengths);
    var c2 := PruneLoop(keys, s, k.misses, hs1, r.lengths, c1);
    k' := k1.(cond := c2);
  }

  // ---------------------------------------------------------------------
  // buildAggBoard
  // ---------------------------------------------------------------------

  /** One call of `randomConditionalBoard(order)` after
      `updateOrientations`: it never raises, since every ship keeps its true
      location among its candidates, and the board it draws agrees with the
      shots. */
  method DrawBoard(r: Rules, k: Knowledge, order: seq<Name>, patience: nat, fuel: nat)
    returns (res: Outcome<seq<Cell>>)
    requires Inv(r, k) && Settled(k.cond, k.sunk, k.misses, k.hitsSunk)
    requires multiset(order) == multiset(r.names)
    ensures !res.Raised?
    ensures res.Ok? ==> Distinct(res.value)
    ensures res.Ok? ==> Agrees(Elems(res.value), k.hits, k.misses) && Elems(res.value) <= Grid(r.dim)
  {
    InvFacts(r, k);
    CandidatesLeft(r, k);
    assert k.hitsSunk <= Grid(r.dim) && k.hitsSunk !! k.misses;
    PermutationDistinct(r.names, order);
    var temp, placed := RandomConditionalBoard(k.cond, k.hits, k.boats, r.names, k.sunk, order, patience, fuel);
    if temp.OutOfFuel? {
      return OutOfFuel;
    }
    assert !temp.Raised? by {
      forall n | n in r.names && n in k.sunk ensures n in order && n in BoatNames(k.boats) {
        assert n in Elems(r.names);
      }
      forall n | n in order ensures n in k.cond && k.cond[n] != [] {
        assert n in Elems(order);
      }
    }
    SampleAgrees(r, k.cond, k.sunk, k.hits, k.misses, k.hitsSunk, temp.value, placed,
                 Elems(order) - (Elems(r.names) * k.sunk));
    res := temp;
  }

  /** Lines 123-127: `draws` boards (as many as the time budget `lag`
      allows), their cells listed one board after another in `boards`.
      `pool` holds the boards themselves; each agrees with the shots. */
  method DrawBoards(r: Rules, k: Knowledge, order: seq<Name>, draws: nat, patience: nat, fuel: nat)
    returns (res: Outcome<seq<Cell>>, ghost pool: seq<set<Cell>>)
    requires Inv(r, k) && Settled(k.cond, k.sunk, k.misses, k.hitsSunk)
    requires multiset(order) == multiset(r.names)
    ensures !res.Raised?
    ensures res.Ok? ==> |pool| == draws && PoolAgrees(pool, k.hits, k.misses)
    ensures res.Ok? ==> forall b :: b in pool ==> b <= Grid(r.dim)
    ensures res.Ok? ==> forall c :: multiset(res.value)[c] == Holding(pool, c)
  {
    var boards: seq<Cell> := [];
    pool := [];
    var numIter := 0;
    while numIter < draws
      invariant numIter <= draws && |pool| == numIter
      invariant forall b :: b in pool ==> Agrees(b, k.hits, k.misses) && b <= Grid(r.dim)
      invariant forall c :: multiset(boards)[c] == Holding(pool, c)
    {
      var temp := DrawBoard(r, k, order, patience, fuel);
      if temp.OutOfFuel? {
        return OutOfFuel, pool;
      }
      AppendBoard(boards, pool, temp.value);
      boards, pool := boards + temp.value, pool + [Elems(temp.value)];
      numIter := numIter + 1;
    }
    res := Ok(boards);
  }

  /** `dict(counts.most_common(n))`: the `n` entries with the largest
      counts, or all of them when there are no more than `n`; which of
      equally counted entries are kept is left open. */
  method MostCommon(counts: map<Cell, nat>, n: nat) returns (top: map<Cell, nat>)
    ensures top.Keys <= counts.Keys && |top.Keys| == Min(|counts.Keys|, n)
    ensures forall c :: c in top ==> top[c] == counts[c]
    ensures forall c, d :: c in top && d in counts && d !in top ==> counts[d] <= counts[c]
    ensures |counts.Keys| <= n ==> top == counts
  {
    top := map[];
    while |top.Keys| < n && top.Keys != counts.Keys
      invariant Leading(top, counts) && |top.Keys| <= n
      decreases |counts.Keys - top.Keys|
    {
      var c0 :| c0 in counts.Keys && c0 !in top.Keys;
      assert c0 in counts - top.Keys;
      var best := ArgMax(counts - top.Keys);
      assert forall c :: c in counts && c !in top ==> c in counts - top.Keys;
      LeadingGrows(top, counts, best);
      top := top[best := counts[best]];
    }
    SplitSize(counts.Keys, top.Keys);
    if top.Keys != counts.Keys {
      var c0 :| c0 in counts.Keys && c0 !in top.Keys;
      assert c0 in counts.Keys - top.Keys;
    }
  }

  /** `top` holds some entries of `counts`, each at least as large as any
      entry left out. */
  ghost predicate Leading(top: map<Cell, nat>, counts: map<Cell, nat>) {
    && top.Keys <= counts.Keys
    && (forall c :: c in top ==> top[c] == counts[c])
    && (forall c, d :: c in top && d in counts && d !in top ==> counts[d] <= counts[c])
  }

  /** Adding a largest entry left out keeps the leading entries leading,
      and leaves one entry fewer out. */
  lemma {:induction false} LeadingGrows(top: map<Cell, nat>, counts: map<Cell, nat>, best: Cell)
    requires Leading(top, counts)
    requires best in counts && best !in top
    requires forall c :: c in counts && c !in top ==> counts[c] <= counts[best]
    ensures Leading(top[best := counts[best]], counts)
    ensures |counts.Keys - top[best := counts[best]].Keys| < |counts.Keys - top.Keys|
  {
    var top' := top[best := counts[best]];
    forall c, d | c in top' && d in counts && d !in top' ensures counts[d] <= counts[c] {
      if c != best {
        assert c in top;
      }
    }
    assert counts.Keys - top'.Keys == (counts.Keys - top.Keys) - {best};
  }

  /** A subset and the rest of a set together number its elements. */
  lemma {:induction false} SplitSize(all: set<Cell>, part: set<Cell>)
    requires part <= all
    ensures |all| == |part| + |all - part|
  {
    assert all == part + (all - part);
    DisjointByCount(part, all - part);
  }

  /** A pool of boards lying on the board has counts for at most `dim *
      dim` cells, so `most_common(dim ** 2)` keeps every count. */
  lemma {:induction false} TallyFits(dim: nat, pool: seq<set<Cell>>)
    requires forall b :: b in pool ==> b <= Grid(dim)
    ensures |Tally(pool).Keys| <= dim * dim
  {
    forall c | c in Tally(pool) ensures c in Grid(dim) {
      var i :| 0 <= i < |pool| && c in pool[i];
      assert pool[i] in pool;
    }
    SubsetCard(Tally(pool).Keys, Grid(dim));
  }

  /** `buildAggBoard()` on the knowledge: the ships ordered by their
      candidate counts before the update (ties in the order `keys` of the
      dictionary), `updateOrientations`, then `draws` boards drawn in that
      order, and the number of boards holding each cell. `done` is false
      when a draw ran out of fuel. */
  method Build(r: Rules, k: Knowledge, keys: seq<Name>, draws: nat, patience: nat, fuel: nat)
    returns (k': Knowledge, agg: map<Cell, nat>, done: bool, ghost pool: seq<set<Cell>>)
    requires Inv(r, k)
    requires Distinct(keys) && Elems(keys) == Elems(r.names)
    ensures k' == Pruned(Sink(k))
    ensures Inv(r, k') && Settled(k'.cond, k'.sunk, k'.misses, k'.hitsSunk)
    ensures done ==> |pool| == draws && PoolAgrees(pool, k.hits, k.misses)
    ensures done ==> (forall b :: b in pool ==> b <= Grid(r.dim)) && agg == Tally(pool)
  {
    InvFacts(r, k);
    forall n | n in keys ensures n in k.cond {
      assert n in Elems(r.names);
    }
    var order := ShipOrder(k.cond, keys);
    DistinctSameElems(keys, r.names);
    k' := Update(r, k, keys);
    var boards;
    boards, pool := DrawBoards(r, k', order, draws, patience, fuel);
    if boards.OutOfFuel? {
      return k', map[], false, pool;
    }
    CounterIsTally(boards.value, pool);
    TallyFits(r.dim, pool);
    agg := MostCommon(Counter(boards.value), r.dim * r.dim);
    done := true;
  }

  /** `refreshGame()` on the knowledge: a newly drawn hidden board, placed
      in the fixed order `self.order`, with no shots, nothing sunk and the
      whole catalog as candidates. Drawing never raises, since every ship
      of the old board had a layout. */
  method Redraw(r: Rules, k: Knowledge, fuel: nat) returns (res: Outcome<Knowledge>)
    requires Inv(r, k)
    ensures !res.Raised?
    ensures res.Ok? ==> Inv(r, res.value)
    ensures res.Ok? ==> res.value == Initial(res.value.boats, res.value.board, r.catalog, k.order)
    ensures res.Ok? ==> BoatNames(res.value.boats) == k.order
  {
    CatalogCovers(r, k.boats, k.board);
    forall n | n in k.order ensures n in r.catalog && r.catalog[n] != [] {
      assert n in multiset(k.order);
      assert n in multiset(r.names);
    }
    var drawn := RandomBoard(r.catalog, k.order, fuel);
    if drawn.OutOfFuel? {
      return OutOfFuel;
    }
    if drawn.Raised? {
      assert false;
    }
    InitialKeeps(r, drawn.value.0, drawn.value.1, k.order);
    res := Ok(Initial(drawn.value.0, drawn.value.1, r.catalog, k.order));
  }
}
