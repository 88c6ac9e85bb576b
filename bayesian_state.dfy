/** The steps of the Bayesian game object (BayesianSampling/Battleship.py)
    on the `Knowledge` it keeps: its layout catalog, a fresh game, the
    whole of `updateOrientations` (the sink and pruning steps shared with
    the statistics variant, then the narrowing on hits and the new placing
    order) and the topping-up of the pool in `buildAggBoard`. Each step is
    a function on `Knowledge` with a lemma proving it keeps `Inv`, and the
    loops that compute the steps are methods proved against the
    functions. */
module BayesianState {
  import opened Seqs
  import opened Cells
  import opened Ordering
  import opened Layouts
  import opened Counting
  import opened Evidence
  import opened BayesianSampler
  import opened Sampling
  import opened GameState

  // ---------------------------------------------------------------------
  // The catalog
  // ---------------------------------------------------------------------

  /** `possibleShipsDict`: every ship's layouts, as listed by
      `generateComponentLayouts`. */
  function Catalog(dim: nat, lengths: map<Name, nat>): (m: map<Name, seq<Placement>>)
    ensures m.Keys == lengths.Keys
  {
    map n | n in lengths :: ComponentLayouts(dim, lengths[n])
  }

  /** Every catalog layout has its ship's length and lies on the board. */
  lemma {:induction false} CatalogLayouts(dim: nat, lengths: map<Name, nat>, n: Name, p: Placement)
    requires n in lengths && p in Catalog(dim, lengths)[n]
    ensures |p| == lengths[n]
    ensures p <= Grid(dim)
  {
    InComponentLayouts(dim, lengths[n], p);
    StraightRunInBounds(p, lengths[n], dim);
  }

  /** The catalog has that shape. */
  lemma {:induction false} CatalogHasShape(dim: nat, lengths: map<Name, nat>)
    ensures CatalogShape(Catalog(dim, lengths), dim, lengths)
  {
    forall n, p | n in Catalog(dim, lengths) && p in Catalog(dim, lengths)[n]
      ensures |p| == lengths[n] && p <= Grid(dim)
    {
      CatalogLayouts(dim, lengths, n, p);
    }
  }

  // ---------------------------------------------------------------------
  // refreshGame and guess
  // ---------------------------------------------------------------------

  /** `refreshGame()` on the knowledge: a newly drawn hidden board with no
      shots, nothing sunk, the whole catalog as candidates and an empty
      pool; the order is kept. Drawing never raises, since every ship of the
      old board had a layout. */
  method Redraw(r: Rules, k: Knowledge, fuel: nat) returns (res: Outcome<Knowledge>)
    requires Inv(r, k)
    ensures !res.Raised?
    ensures res.Ok? ==> Inv(r, res.value)
    ensures res.Ok? ==> res.value == Initial(res.value.boats, res.value.board, r.catalog, k.order)
  {
    CatalogCovers(r, k.boats, k.board);
    var drawn := RandomBoard(r.catalog, r.names, fuel);
    if drawn.OutOfFuel? {
      return OutOfFuel;
    }
    if drawn.Raised? {
      assert false;
    }
    InitialKeeps(r, drawn.value.0, drawn.value.1, k.order);
    res := Ok(Initial(drawn.value.0, drawn.value.1, r.catalog, k.order));
  }

  /** A pool that agrees with some shots agrees with fewer of them. */
  lemma PoolAgreesFewer(pool: seq<set<Cell>>, hits: set<Cell>, misses: set<Cell>, hits': set<Cell>, misses': set<Cell>)
    requires PoolAgrees(pool, hits, misses) && hits' <= hits && misses' <= misses
    ensures PoolAgrees(pool, hits', misses')
  {
  }

  // ---------------------------------------------------------------------
  // updateOrientations, step by step
  // ---------------------------------------------------------------------

  /** Lines 121-129: the unique-owner loop over the hits, in the order
      `hs` the set yields them. */
  function Narrowed(k: Knowledge, names: seq<Name>, hs: seq<Cell>): Knowledge {
    k.(cond := NarrowAll(k.cond, names, hs))
  }

  /** Narrowing on hits keeps the invariant and any settledness. */
  lemma {:induction false} NarrowedKeeps(r: Rules, k: Knowledge, hs: seq<Cell>)
    requires Inv(r, k)
    requires forall h :: h in hs ==> h in k.hits
    ensures Inv(r, Narrowed(k, r.names, hs))
    ensures Settled(k.cond, k.sunk, k.misses, k.hitsSunk) ==>
            Settled(Narrowed(k, r.names, hs).cond, k.sunk, k.misses, k.hitsSunk)
    ensures forall n :: n in k.cond ==> multiset(Narrowed(k, r.names, hs).cond[n]) <= multiset(k.cond[n])
  {
    InvFacts(r, k);
    var c := NarrowAll(k.cond, r.names, hs);
    NarrowAllShrinks(k.cond, r.names, hs);
    ShrinkKeeps(k.cond, c, r.catalog, k.sunk, k.misses, k.hitsSunk);
    NarrowAllAdmits(k.cond, r.names, k.boats, hs);
  }

  /** Line 132: `self.order`, the ship names by ascending candidate count. */
  function Reordered(k: Knowledge, names: seq<Name>): Knowledge
    requires forall n :: n in names ==> n in k.cond
  {
    k.(order := ShipOrder(k.cond, names))
  }

  /** `updateOrientations()`, with the hits taken in the order `hs`. */
  function Updated(k: Knowledge, names: seq<Name>, hs: seq<Cell>): (k': Knowledge)
    requires forall n :: n in names ==> n in k.cond
    ensures k'.boats == k.boats && k'.board == k.board && k'.hits == k.hits && k'.misses == k.misses
    ensures k'.pool == k.pool
  {
    Reordered(Narrowed(Pruned(Sink(k)), names, hs), names)
  }

  /** `updateOrientations` keeps the invariant, leaves every list of a
      ship not sunk free of misses and sunk cells, only ever drops
      candidates, and orders the ships by their remaining candidates. */
  lemma {:induction false} UpdatedKeeps(r: Rules, k: Knowledge, hs: seq<Cell>)
    requires Inv(r, k)
    requires forall h :: h in hs ==> h in k.hits
    ensures forall n :: n in r.names ==> n in k.cond
    ensures var k' := Updated(k, r.names, hs);
      && Inv(r, k')
      && Settled(k'.cond, k'.sunk, k'.misses, k'.hitsSunk)
      && (forall n :: n in k.cond ==> multiset(k'.cond[n]) <= multiset(k.cond[n]))
      && k'.sunk == k.sunk + SunkNow(k.boats, k.hits)
      && SortedBy(k'.order, Counts(k'.cond))
  {
    var k1 := Sink(k);
    SinkKeeps(r, k);
    var k2 := Pruned(k1);
    PrunedKeeps(r, k1);
    var k3 := Narrowed(k2, r.names, hs);
    NarrowedKeeps(r, k2, hs);
    assert forall n :: n in r.names ==> n in k3.cond;
  }

  /** The sink loop, lines 106-112, over the boats in order. */
  method SinkLoop(boats: seq<Boat>, hits: set<Cell>, cond: map<Name, seq<Placement>>,
                  sunk: set<Name>, hitsSunk: set<Cell>)
    returns (cond': map<Name, seq<Placement>>, sunk': set<Name>, hitsSunk': set<Cell>)
    requires Distinct(BoatNames(boats))
    ensures cond' == FixSunk(cond, boats, hits)
    ensures sunk' == sunk + SunkNow(boats, hits)
    ensures hitsSunk' == hitsSunk + SunkCells(boats, hits)
  {
    cond', sunk', hitsSunk' := cond, sunk, hitsSunk;
    assert FixSunk(cond, boats[..0], hits) == cond;
    var k := 0;
    while k < |boats|
      invariant 0 <= k <= |boats|
      invariant cond' == FixSunk(cond, boats[..k], hits)
      invariant sunk' == sunk + SunkNow(boats[..k], hits)
      invariant hitsSunk' == hitsSunk + SunkCells(boats[..k], hits)
    {
      SinkStep(cond, boats, hits, k, cond', sunk', hitsSunk', sunk, hitsSunk);
      cond', sunk', hitsSunk' := SinkBoat(boats[k], hits, cond', sunk', hitsSunk');
      k := k + 1;
    }
    assert boats[..k] == boats;
  }

  /** One boat of the sink loop, lines 107-112: a boat whose location is a
      subset of the hits joins the sunk ships and cells, and its list
      becomes `[location]`, the corrected form of line 111; any other boat
      changes nothing. */
  method SinkBoat(b: Boat, hits: set<Cell>, cond: map<Name, seq<Placement>>, sunk: set<Name>, hitsSunk: set<Cell>)
    returns (cond': map<Name, seq<Placement>>, sunk': set<Name>, hitsSunk': set<Cell>)
    ensures b.location <= hits ==>
      cond' == cond[b.name := [b.location]] && sunk' == sunk + {b.name} && hitsSunk' == hitsSunk + b.location
    ensures !(b.location <= hits) ==> cond' == cond && sunk' == sunk && hitsSunk' == hitsSunk
  {
    cond', sunk', hitsSunk' := cond, sunk, hitsSunk;
    var boat, location := b.name, b.location;
    if location <= hits {
      hitsSunk' := hitsSunk' + location;
      sunk' := sunk' + {boat};
      cond' := cond'[boat := [location]];
    }
  }

  /** The pruning loop, lines 115-119, over the ship names. */
  method PruneLoop(names: seq<Name>, sunk: set<Name>, misses: set<Cell>, hitsSunk: set<Cell>,
                   cond: map<Name, seq<Placement>>)
    returns (cond': map<Name, seq<Placement>>)
    requires Distinct(names) && cond.Keys == Elems(names)
    ensures cond' == PruneAll(cond, sunk, misses, hitsSunk)
  {
    cond' := cond;
    var k := 0;
    while k < |names|
      invariant 0 <= k <= |names|
      invariant cond'.Keys == cond.Keys
      invariant forall i :: 0 <= i < k ==>
                  cond'[names[i]] == if names[i] !in sunk then Prune(cond[names[i]], misses, hitsSunk) else cond[names[i]]
      invariant forall i :: k <= i < |names| ==> cond'[names[i]] == cond[names[i]]
    {
      var name := names[k];
      if name !in sunk {
        cond' := cond'[name := Prune(cond'[name], misses, hitsSunk)];
      }
      k := k + 1;
    }
    forall n | n in cond' ensures cond'[n] == if n !in sunk then Prune(cond[n], misses, hitsSunk) else cond[n] {
      assert n in Elems(names);
    }
    PruneAllPointwise(cond, cond', sunk, misses, hitsSunk);
  }

  /** A map pruned list by list is `PruneAll`. */
  lemma {:induction false} PruneAllPointwise(cond: map<Name, seq<Placement>>, cond': map<Name, seq<Placement>>,
                                             sunk: set<Name>, misses: set<Cell>, hitsSunk: set<Cell>)
    requires cond'.Keys == cond.Keys
    requires forall n :: n in cond' ==> cond'[n] == if n !in sunk then Prune(cond[n], misses, hitsSunk) else cond[n]
    ensures cond' == PruneAll(cond, sunk, misses, hitsSunk)
  {
  }

  /** `temp` of lines 122-126: the ships, in dictionary order, one of whose
      candidates covers `hit`. */
  method OwnersLoop(cond: map<Name, seq<Placement>>, names: seq<Name>, hit: Cell) returns (temp: seq<Name>)
    requires forall n :: n in names ==> n in cond
    ensures temp == Owners(cond, names, hit)
  {
    temp := [];
    var k := 0;
    while k < |names|
      invariant 0 <= k <= |names|
      invariant temp == Owners(cond, names[..k], hit)
    {
      var name := names[k];
      assert names[..k + 1][..k] == names[..k];
      if hit in UnionAll(cond[name]) {
        temp := temp + [name];
      }
      k := k + 1;
    }
    assert names[..k] == names;
  }

  /** The unique-owner loop, lines 121-129, over the hits in the order the
      set yields them. */
  method NarrowLoop(names: seq<Name>, hits: set<Cell>, cond: map<Name, seq<Placement>>)
    returns (cond': map<Name, seq<Placement>>, ghost hs: seq<Cell>)
    requires forall n :: n in names ==> n in cond
    ensures Distinct(hs) && Elems(hs) == hits
    ensures cond' == NarrowAll(cond, names, hs)
  {
    var hitList := Enumerate(hits);
    hs := hitList;
    cond' := cond;
    var k := 0;
    while k < |hitList|
      invariant 0 <= k <= |hitList|
      invariant cond' == NarrowAll(cond, names, hitList[..k])
    {
      var hit := hitList[k];
      assert hitList[..k + 1][..k] == hitList[..k];
      var temp := OwnersLoop(cond', names, hit);
      if |temp| == 1 {
        cond' := cond'[temp[0] := Covering(cond'[temp[0]], hit)];
      }
      k := k + 1;
    }
    assert hitList[..k] == hitList;
  }

  /** `updateOrientations()` on the knowledge, by its three loops, with
      the hits taken in the order `hs` the set yields them. */
  method Update(r: Rules, k: Knowledge) returns (k': Knowledge, ghost hs: seq<Cell>)
    requires Inv(r, k)
    ensures Distinct(hs) && Elems(hs) == k.hits
    ensures forall n :: n in r.names ==> n in k.cond
    ensures k' == Updated(k, r.names, hs)
    ensures Inv(r, k') && Settled(k'.cond, k'.sunk, k'.misses, k'.hitsSunk)
    ensures k'.sunk == k.sunk + SunkNow(k.boats, k.hits)
  {
    InvFacts(r, k);
    SinkKeeps(r, k);
    var c1, s, hs1 := SinkLoop(k.boats, k.hits, k.cond, k.sunk, k.hitsSunk);
    var c2 := PruneLoop(r.names, s, k.misses, hs1, c1);
    var c3;
    c3, hs := NarrowLoop(r.names, k.hits, c2);
    UpdatedKeeps(r, k, hs);
    k' := k.(sunk := s, hitsSunk := hs1, cond := c3, order := ShipOrder(c3, r.names));
  }

  // ---------------------------------------------------------------------
  // buildAggBoard: topping up the pool
  // ---------------------------------------------------------------------

  /** One draw of lines 228-231: `randomConditionalBoard` in the placing
      order `ord`. On settled candidate lists the board always comes out
      (no sunk ship is missing from the order) and agrees with the shots. */
  method DrawAgreeing(r: Rules, k: Knowledge, ord: seq<Name>, randomOrder: bool, fuel: nat)
    returns (res: Outcome<seq<Cell>>)
    requires Inv(r, k) && Settled(k.cond, k.sunk, k.misses, k.hitsSunk)
    requires multiset(ord) == multiset(r.names)
    ensures !res.Raised?
    ensures res.Ok? ==> Distinct(res.value)
    ensures res.Ok? ==> Agrees(Elems(res.value), k.hits, k.misses) && Elems(res.value) <= Grid(r.dim)
  {
    InvFacts(r, k);
    assert k.hitsSunk <= Grid(r.dim) && k.hitsSunk !! k.misses;
    PermutationDistinct(r.names, ord);
    var temp, placed := RandomConditionalBoard(k.cond, r.lengths, k.hits, k.boats, r.names, k.sunk,
                                               ord, randomOrder, fuel);
    if temp.OutOfFuel? {
      return OutOfFuel;
    }
    assert !temp.Raised? by {
      forall n | n in r.names && n in k.sunk ensures n in ord && n in BoatNames(k.boats) {
        assert n in Elems(r.names);
      }
    }
    SampleAgrees(r, k.cond, k.sunk, k.hits, k.misses, k.hitsSunk, temp.value, placed,
                 Elems(ord) - (Elems(r.names) * k.sunk));
    res := temp;
  }

  /** Lines 225-232: draw boards until the pool holds `batchSize` of them,
      reshuffling the order before each draw when `randomOrder`. Every new
      board agrees with the shots, and `boards` keeps listing each cell as
      often as the pool's boards hold it. */
  method TopUp(r: Rules, k: Knowledge, randomOrder: bool, batchSize: int, order: seq<Name>,
               lboards: seq<set<Cell>>, boards: seq<Cell>, fuel: nat)
    returns (res: Outcome<(seq<set<Cell>>, seq<Cell>)>)
    requires Inv(r, k) && Settled(k.cond, k.sunk, k.misses, k.hitsSunk)
    requires multiset(order) == multiset(r.names)
    requires forall c :: multiset(boards)[c] == Holding(lboards, c)
    ensures !res.Raised?
    ensures res.Ok? ==> var (pool, cells) := res.value;
      && |pool| == Max(|lboards|, batchSize)
      && pool[..|lboards|] == lboards
      && (forall b :: b in pool[|lboards|..] ==> Agrees(b, k.hits, k.misses) && b <= Grid(r.dim))
      && (forall c :: multiset(cells)[c] == Holding(pool, c))
  {
    var added, cells, numIter, ord := [], boards, |lboards|, order;
    assert lboards + added == lboards;
    while numIter < batchSize
      invariant numIter == |lboards| + |added| <= Max(|lboards|, batchSize)
      invariant forall b :: b in added ==> Agrees(b, k.hits, k.misses) && b <= Grid(r.dim)
      invariant forall c :: multiset(cells)[c] == Holding(lboards + added, c)
      invariant multiset(ord) == multiset(r.names)
      decreases batchSize - numIter
    {
      if randomOrder {
        ord := Shuffle(ord);
      }
      numIter := numIter + 1;
      var temp := DrawAgreeing(r, k, ord, randomOrder, fuel);
      if temp.OutOfFuel? {
        res := OutOfFuel;
        return;
      }
      AppendBoard(cells, lboards + added, temp.value);
      assert lboards + added + [Elems(temp.value)] == lboards + (added + [Elems(temp.value)]);
      cells, added := cells + temp.value, added + [Elems(temp.value)];
    }
    var pool := lboards + added;
    assert pool[..|lboards|] == lboards && pool[|lboards|..] == added;
    res := Ok((pool, cells));
  }

  /** The order `buildAggBoard` places the ships in: a random permutation
      of the names, or the names by ascending candidate count. */
  method PlacingOrder(r: Rules, k: Knowledge, randomOrder: bool) returns (order: seq<Name>)
    requires Inv(r, k)
    ensures multiset(order) == multiset(r.names)
    ensures !randomOrder ==> forall n :: n in r.names ==> n in k.cond
    ensures !randomOrder ==> order == ShipOrder(k.cond, r.names)
  {
    if randomOrder {
      order := Shuffle(r.names);
    } else {
      InvFacts(r, k);
      order := ShipOrder(k.cond, r.names);
    }
  }

  /** The pool `buildAggBoard` leaves: last turn's boards that agree with
      the newest probe, topped up with new draws to `batchSize` boards, and
      `aggDict`, the number of boards of the pool holding each cell. A pool
      that agreed with every shot but the probe agrees with all of them
      afterwards. */
  method Refill(r: Rules, k: Knowledge, probe: Cell, randomOrder: bool, batchSize: int, order: seq<Name>, fuel: nat)
    returns (res: Outcome<(Knowledge, map<Cell, nat>)>)
    requires Inv(r, k) && Settled(k.cond, k.sunk, k.misses, k.hitsSunk)
    requires multiset(order) == multiset(r.names)
    ensures !res.Raised?
    ensures res.Ok? ==> var (k', agg) := res.value; var seed := Seed(k.pool, probe, k.hits, k.misses);
      && k' == k.(pool := k'.pool) && Inv(r, k')
      && |k'.pool| == Max(|seed|, batchSize)
      && k'.pool[..|seed|] == seed
      && (forall b :: b in k'.pool[|seed|..] ==> Agrees(b, k.hits, k.misses))
      && agg == Tally(k'.pool)
    ensures res.Ok? && PoolAgrees(k.pool, k.hits - {probe}, k.misses - {probe}) ==>
      PoolAgrees(res.value.0.pool, k.hits, k.misses)
  {
    var lboards := Seed(k.pool, probe, k.hits, k.misses);
    var boards := PoolCells(lboards);
    var topped := TopUp(r, k, randomOrder, batchSize, order, lboards, boards, fuel);
    if topped.OutOfFuel? {
      return OutOfFuel;
    }
    var pool, cells := topped.value.0, topped.value.1;
    assert pool == lboards + pool[|lboards|..];
    forall b | b in pool ensures b <= Grid(r.dim) {
      if b in lboards {
        assert b in multiset(k.pool);
      }
    }
    PoolKeeps(r, k, pool);
    if PoolAgrees(k.pool, k.hits - {probe}, k.misses - {probe}) {
      InvFacts(r, k);
      SeedFits(k.pool, probe, k.hits, k.misses);
    }
    CounterIsTally(cells, pool);
    res := Ok((k.(pool := pool), Counter(cells)));
  }

  /** `buildAggBoard` on the knowledge `k`: pick the placing order, run
      `updateOrientations`, then refill the pool and count it. `done` is
      false when a draw ran out of fuel; the updated candidates are kept
      either way. */
  method Build(r: Rules, k: Knowledge, probe: Cell, randomOrder: bool, batchSize: int, fuel: nat)
    returns (k': Knowledge, agg: map<Cell, nat>, done: bool)
    requires Inv(r, k)
    ensures Inv(r, k') && Settled(k'.cond, k'.sunk, k'.misses, k'.hitsSunk)
    ensures k'.boats == k.boats && k'.board == k.board && k'.hits == k.hits && k'.misses == k.misses
    ensures k'.sunk == k.sunk + SunkNow(k.boats, k.hits)
    ensures done ==> var seed := Seed(k.pool, probe, k.hits, k.misses);
      && |k'.pool| == Max(|seed|, batchSize)
      && k'.pool[..|seed|] == seed
      && (forall b :: b in k'.pool[|seed|..] ==> Agrees(b, k.hits, k.misses))
      && agg == Tally(k'.pool)
    ensures done && PoolAgrees(k.pool, k.hits - {probe}, k.misses - {probe}) ==>
      PoolAgrees(k'.pool, k.hits, k.misses)
  {
    var order := PlacingOrder(r, k, randomOrder);
    var k1, hs := Update(r, k);
    var res := Refill(r, k1, probe, randomOrder, batchSize, order, fuel);
    if res.OutOfFuel? {
      return k1, map[], false;
    }
    k', agg, done := res.value.0, res.value.1, true;
  }
}
