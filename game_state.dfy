/** What both variants' game objects keep between turns, as two values:
    the `Rules` fixed by the constructor (board size, ship names, lengths
    and layout catalog) and the `Knowledge` gathered so far (the hidden
    board, the shots, the ships found sunk and every ship's remaining
    candidates). `Inv` is the invariant every method of either game object
    keeps; the steps common to both variants (a shot, the sink step, the
    pruning step) are functions on `Knowledge` with lemmas proving they
    keep it. */
module GameState {
  import opened Seqs
  import opened Cells
  import opened Evidence
  import opened Fleet
  import opened Counting
  import opened Sampling

  /** What the game needs to know of the catalog: one list per ship, of
      layouts of the ship's length lying on the board. */
  ghost predicate CatalogShape(catalog: map<Name, seq<Placement>>, dim: nat, lengths: map<Name, nat>) {
    && catalog.Keys == lengths.Keys
    && forall n, p :: n in catalog && p in catalog[n] ==> |p| == lengths[n] && p <= Grid(dim)
  }

  /** The rules fixed by the constructor: board size, ship names, their
      lengths (`shipLengths`) and their layouts (`possibleShipsDict`). */
  datatype Rules = Rules(dim: nat, names: seq<Name>, lengths: map<Name, nat>, catalog: map<Name, seq<Placement>>)

  /** One name per ship, one length per name, and a catalog of that
      shape. */
  ghost predicate Configured(r: Rules) {
    && Distinct(r.names)
    && r.lengths.Keys == Elems(r.names)
    && CatalogShape(r.catalog, r.dim, r.lengths)
  }

  /** The hidden board: one boat per ship, on catalog layouts, no two
      sharing a cell. */
  ghost predicate Hidden(r: Rules, boats: seq<Boat>, board: set<Cell>) {
    && GroundTruth(boats, BoatNames(boats), r.catalog)
    && multiset(BoatNames(boats)) == multiset(r.names)
    && board == BoatCells(boats)
  }

  ghost predicate SunkAgree(r: Rules, boats: seq<Boat>, hits: set<Cell>, sunk: set<Name>, hitsSunk: set<Cell>) {
    && sunk <= Elems(r.names)
    && (forall n :: n in sunk ==> LocationOf(boats, n) <= hits)
    && hitsSunk == SunkLocations(boats, r.names, sunk)
  }

  /** The candidate lists: one per ship, drawn from the catalog, never
      losing a boat's true location. */
  ghost predicate Candidates(r: Rules, cond: map<Name, seq<Placement>>, boats: seq<Boat>) {
    && cond.Keys == Elems(r.names)
    && WithinCatalog(cond, r.catalog)
    && Admits(cond, boats)
  }

  /** A sampled board agrees with the shots: it holds every hit and no
      miss. */
  predicate Agrees(b: set<Cell>, hits: set<Cell>, misses: set<Cell>) {
    hits <= b && b !! misses
  }

  /** Every board of a pool agrees with the shots. */
  ghost predicate PoolAgrees(pool: seq<set<Cell>>, hits: set<Cell>, misses: set<Cell>) {
    forall b :: b in pool ==> Agrees(b, hits, misses)
  }

  /** When a pool of boards lying on the board agrees with the shots, the
      counts over it have an entry for every hit unless the pool is empty,
      and any other cell with an entry is a cell of the grid not shot at
      yet. */
  lemma {:induction false} TallyChoice(dim: nat, pool: seq<set<Cell>>, hits: set<Cell>, misses: set<Cell>, c: Cell)
    requires PoolAgrees(pool, hits, misses) && forall b :: b in pool ==> b <= Grid(dim)
    ensures pool != [] ==> hits <= Tally(pool).Keys
    ensures c in Tally(pool) && c !in hits ==> c !in misses && c in Grid(dim)
  {
    if pool != [] {
      assert pool[0] in pool;
    }
    if c in Tally(pool) {
      var i :| 0 <= i < |pool| && c in pool[i];
      assert pool[i] in pool;
    }
  }

  /** The shot `play()` picks from the counts `agg` over the boards
      `pool`: `Choose`, and when the pool lies on the board, agrees with the
      shots and is what `agg` counts, the shot is a cell of the grid not
      shot at yet, and nothing is left to fire at only when every board of
      the pool lies within the hits. */
  method Target(dim: nat, agg: map<Cell, nat>, hits: set<Cell>, misses: set<Cell>, ghost pool: seq<set<Cell>>)
    returns (r: Outcome<Cell>, agg': map<Cell, nat>)
    ensures !r.OutOfFuel?
    ensures r.Raised? <==> !(hits <= agg.Keys) || agg.Keys <= hits
    ensures hits <= agg.Keys ==> agg' == agg - hits
    ensures r.Ok? ==> r.value in agg && r.value !in hits
    ensures r.Ok? ==> forall c :: c in agg && c !in hits ==> agg[c] <= agg[r.value]
    ensures PoolAgrees(pool, hits, misses) && (forall b :: b in pool ==> b <= Grid(dim)) && agg == Tally(pool) ==>
      && (r.Ok? ==> r.value !in hits + misses && r.value in Grid(dim))
      && (r.Raised? && pool != [] ==> UnionAll(pool) <= hits)
    ensures (forall b :: b in pool ==> b <= Grid(dim)) && agg == Tally(pool) && r.Ok? ==> r.value in Grid(dim)
  {
    r, agg' := Choose(agg, hits);
    if (forall b :: b in pool ==> b <= Grid(dim)) && agg == Tally(pool) && r.Ok? {
      var k :| 0 <= k < |pool| && r.value in pool[k];
      assert pool[k] in pool;
    }
    if PoolAgrees(pool, hits, misses) && (forall b :: b in pool ==> b <= Grid(dim)) && agg == Tally(pool) {
      TallyChoice(dim, pool, hits, misses, if r.Ok? then r.value else (0, 0));
    }
  }

  /** The hidden board has as many cells as the ships' lengths add up to:
      the boats do not overlap and each has its ship's length. */
  lemma {:induction false} HiddenSize(r: Rules, boats: seq<Boat>, board: set<Cell>)
    requires Configured(r) && Hidden(r, boats, board)
    ensures |board| == SumLengths(r.names, r.lengths)
  {
    var order := BoatNames(boats);
    forall n | n in order ensures n in r.lengths {
      assert n in multiset(order);
      assert n in Elems(r.names);
    }
    BoardSize(boats, order, r.catalog, r.lengths);
    SumLengthsPermutation(order, r.names, r.lengths);
  }

  /** With the ship names and lengths `__init__` derives from at most 26
      ships, the hidden board has `sum(ships)` cells, so the game is over
      (`len(hits) == sum(ships)`) exactly when every cell of the board has
      been hit. */
  lemma {:induction false} GameOver(r: Rules, ships: seq<nat>, boats: seq<Boat>, board: set<Cell>, hits: set<Cell>)
    requires |ships| <= 26 && r.names == Names(|ships|) && r.lengths == ShipLengths(ships)
    requires Configured(r) && Hidden(r, boats, board) && hits <= board
    ensures |board| == Sum(ships)
    ensures |hits| == Sum(ships) <==> hits == board
  {
    HiddenSize(r, boats, board);
    NamedLengthsSum(ships);
    SubsetFull(hits, board);
  }

  /** Every ship of a hidden fleet has a layout in the catalog. */
  lemma {:induction false} CatalogCovers(r: Rules, boats: seq<Boat>, board: set<Cell>)
    requires Configured(r) && Hidden(r, boats, board)
    ensures forall n :: n in r.names ==> n in r.catalog && r.catalog[n] != []
  {
    HiddenFacts(r, boats, board);
    forall n | n in r.names ensures n in r.catalog && r.catalog[n] != [] {
      assert n in Elems(BoatNames(boats));
      var i :| 0 <= i < |boats| && BoatNames(boats)[i] == n;
      assert boats[i].location in r.catalog[n];
    }
  }

  /** What the hidden board's invariant says of the boats: their names are
      the ship names, once each, and each sits on a catalog layout lying on
      the board, apart from the others. */
  lemma {:induction false} HiddenFacts(r: Rules, boats: seq<Boat>, board: set<Cell>)
    requires Configured(r) && Hidden(r, boats, board)
    ensures Distinct(BoatNames(boats))
    ensures Elems(BoatNames(boats)) == Elems(r.names)
    ensures r.catalog.Keys == Elems(r.names)
    ensures board <= Grid(r.dim)
    ensures forall i :: 0 <= i < |boats| ==>
              boats[i].name in r.catalog && boats[i].location in r.catalog[boats[i].name]
    ensures forall i, j :: 0 <= i < j < |boats| ==> boats[i].location !! boats[j].location
  {
    PermutationDistinct(r.names, BoatNames(boats));
    forall i | 0 <= i < |boats|
      ensures boats[i].name in r.catalog && boats[i].location in r.catalog[boats[i].name]
    {
      assert BoatNames(boats)[i] == boats[i].name;
    }
    forall c | c in board ensures c in Grid(r.dim) {
      var i :| 0 <= i < |boats| && c in boats[i].location;
      assert boats[i].location <= Grid(r.dim);
    }
  }

  /** The cells pinned by sunk ships have all been hit. */
  lemma {:induction false} SunkFacts(r: Rules, boats: seq<Boat>, hits: set<Cell>, sunk: set<Name>, hitsSunk: set<Cell>)
    requires SunkAgree(r, boats, hits, sunk, hitsSunk)
    ensures hitsSunk <= hits
  {
    forall c | c in hitsSunk ensures c in hits {
      var n :| n in r.names && n in sunk && c in LocationOf(boats, n);
    }
  }

  /** A board the sampler draws after `updateOrientations` agrees with the
      shots and lies on the board: the pinned cells are hits, and every
      candidate it places avoids the misses and comes from the catalog. */
  lemma {:induction false} SampleAgrees(r: Rules, cond: map<Name, seq<Placement>>, sunk: set<Name>,
                                        hits: set<Cell>, misses: set<Cell>, hitsSunk: set<Cell>,
                                        cells: seq<Cell>, placed: map<Name, Placement>, ships: set<Name>)
    requires CatalogShape(r.catalog, r.dim, r.lengths) && WithinCatalog(cond, r.catalog)
    requires Settled(cond, sunk, misses, hitsSunk)
    requires hitsSunk <= Grid(r.dim) && hitsSunk !! misses
    requires ships !! sunk
    requires Sampled(cells, placed, cond, ships, hits, hitsSunk)
    ensures Agrees(Elems(cells), hits, misses)
    ensures Elems(cells) <= Grid(r.dim)
  {
    forall n | n in placed ensures placed[n] !! misses && placed[n] <= Grid(r.dim) {
      assert n in cond && placed[n] in cond[n] && n !in sunk;
      assert Survives(placed[n], misses, hitsSunk);
      assert placed[n] in r.catalog[n];
    }
    forall c | c in Cover(placed) ensures c !in misses && c in Grid(r.dim) {
      var n :| n in placed && c in placed[n];
    }
  }

  /** One boat of the sink loop: a boat fully hit fixes its list to its
      true location and joins the sunk ships and cells, any other boat
      changes nothing. */
  lemma SinkStep(cond: map<Name, seq<Placement>>, boats: seq<Boat>, hits: set<Cell>, k: nat,
                 c: map<Name, seq<Placement>>, s: set<Name>, h: set<Cell>, sunk: set<Name>, hitsSunk: set<Cell>)
    requires k < |boats| && Distinct(BoatNames(boats))
    requires c == FixSunk(cond, boats[..k], hits)
    requires s == sunk + SunkNow(boats[..k], hits)
    requires h == hitsSunk + SunkCells(boats[..k], hits)
    ensures boats[k].location <= hits ==>
      && c[boats[k].name := [boats[k].location]] == FixSunk(cond, boats[..k + 1], hits)
      && s + {boats[k].name} == sunk + SunkNow(boats[..k + 1], hits)
      && h + boats[k].location == hitsSunk + SunkCells(boats[..k + 1], hits)
    ensures !(boats[k].location <= hits) ==>
      && c == FixSunk(cond, boats[..k + 1], hits)
      && s == sunk + SunkNow(boats[..k + 1], hits)
      && h == hitsSunk + SunkCells(boats[..k + 1], hits)
  {
    SunkSnoc(boats, hits, k);
    FixSunkSnoc(cond, boats, hits, k);
  }

  /** The fields the game changes: the hidden fleet and its cells, the
      shots, the ships marked sunk (`sunkDict`) and their cells, the
      candidate lists (`possibleShipsDictCond`), the pool of last turn's
      boards (`lastTurnBoards`; always empty in the statistics variant,
      which keeps no boards between turns) and the placing order
      `self.order`. */
  datatype Knowledge = Knowledge(boats: seq<Boat>, board: set<Cell>, hits: set<Cell>, misses: set<Cell>,
                                 sunk: set<Name>, hitsSunk: set<Cell>, cond: map<Name, seq<Placement>>,
                                 pool: seq<set<Cell>>, order: seq<Name>)

  /** What the shots say: hits lie on the board, misses off it, and the
      ships marked sunk are fully hit and pin down `hitsSunk`. */
  ghost predicate ShotsAgree(r: Rules, k: Knowledge) {
    && k.hits <= k.board
    && k.misses !! k.board
    && SunkAgree(r, k.boats, k.hits, k.sunk, k.hitsSunk)
  }

  /** The invariant of the game object. */
  ghost predicate Inv(r: Rules, k: Knowledge) {
    && Configured(r)
    && Hidden(r, k.boats, k.board)
    && ShotsAgree(r, k)
    && Candidates(r, k.cond, k.boats)
    && (forall b :: b in k.pool ==> b <= Grid(r.dim))
    && multiset(k.order) == multiset(r.names)
  }

  /** Consequences of the invariant the steps below rely on. */
  lemma {:induction false} InvFacts(r: Rules, k: Knowledge)
    requires Inv(r, k)
    ensures Distinct(BoatNames(k.boats))
    ensures Elems(BoatNames(k.boats)) == Elems(r.names)
    ensures r.catalog.Keys == Elems(r.names)
    ensures forall n :: n in r.names && n in k.sunk ==> n in BoatNames(k.boats)
    ensures k.hitsSunk <= k.hits
    ensures k.board <= Grid(r.dim)
    ensures forall i :: 0 <= i < |k.boats| ==>
              k.boats[i].name in r.catalog && k.boats[i].location in r.catalog[k.boats[i].name]
    ensures forall i, j :: 0 <= i < j < |k.boats| ==> k.boats[i].location !! k.boats[j].location
  {
    HiddenFacts(r, k.boats, k.board);
    SunkFacts(r, k.boats, k.hits, k.sunk, k.hitsSunk);
    forall n | n in r.names && n in k.sunk ensures n in BoatNames(k.boats) {
      assert n in Elems(r.names);
    }
  }

  /** No ship runs out of candidates: each list still holds the true
      location of its boat. */
  lemma {:induction false} CandidatesLeft(r: Rules, k: Knowledge)
    requires Inv(r, k)
    ensures forall n :: n in r.names ==> n in k.cond && k.cond[n] != []
  {
    InvFacts(r, k);
    forall n | n in r.names ensures n in k.cond && k.cond[n] != [] {
      assert n in Elems(BoatNames(k.boats));
      var i :| 0 <= i < |k.boats| && BoatNames(k.boats)[i] == n;
      assert k.boats[i].location in k.cond[n];
    }
  }

  /** The state `__init__` and `refreshGame` set up around a fresh hidden
      board: no shots, nothing sunk, every ship's candidates its whole
      catalog list, an empty pool; the placing order is kept. */
  function Initial(boats: seq<Boat>, board: set<Cell>, catalog: map<Name, seq<Placement>>, order: seq<Name>)
    : (k: Knowledge)
    ensures k.hits == {} && k.misses == {} && k.sunk == {} && k.hitsSunk == {}
    ensures k.cond == catalog && k.pool == []
  {
    Knowledge(boats, board, {}, {}, {}, {}, catalog, [], order)
  }

  /** A fresh hidden board satisfies the invariant. */
  lemma {:induction false} InitialKeeps(r: Rules, boats: seq<Boat>, board: set<Cell>, order: seq<Name>)
    requires Configured(r) && Hidden(r, boats, board)
    requires multiset(order) == multiset(r.names)
    ensures Inv(r, Initial(boats, board, r.catalog, order))
  {
    HiddenFacts(r, boats, board);
    assert SunkLocations(boats, r.names, {}) == {};
    forall i | 0 <= i < |boats| ensures boats[i].name in r.catalog && boats[i].location in r.catalog[boats[i].name] {
    }
  }

  /** Replacing the pool by boards lying on the board keeps the
      invariant. */
  lemma {:induction false} PoolKeeps(r: Rules, k: Knowledge, pool: seq<set<Cell>>)
    requires Inv(r, k)
    requires forall b :: b in pool ==> b <= Grid(r.dim)
    ensures Inv(r, k.(pool := pool))
  {
  }

  /** `guess(c)`: a cell of the board joins the hits, any other cell the
      misses. */
  function Shoot(k: Knowledge, c: Cell): (k': Knowledge)
    ensures c in k.board ==> c in k'.hits
    ensures c !in k.board ==> c in k'.misses
    ensures k'.hits + k'.misses == k.hits + k.misses + {c}
    ensures k' == k.(hits := k'.hits, misses := k'.misses)
  {
    if c in k.board then k.(hits := k.hits + {c}) else k.(misses := k.misses + {c})
  }

  /** Hits and misses are never the same cell, so a game whose shots all
      lie on the board has fired at most `dim * dim` of them. */
  lemma {:induction false} ShotCount(r: Rules, k: Knowledge)
    requires Inv(r, k) && k.hits + k.misses <= Grid(r.dim)
    ensures |k.hits| + |k.misses| == |k.hits + k.misses| <= r.dim * r.dim
  {
    assert k.hits !! k.misses;
    SubsetCard(k.hits + k.misses, Grid(r.dim));
  }

  /** A shot keeps the invariant. */
  lemma {:induction false} ShootKeeps(r: Rules, k: Knowledge, c: Cell)
    requires Inv(r, k)
    ensures Inv(r, Shoot(k, c))
  {
    if c in k.board {
      assert SunkAgree(r, k.boats, k.hits + {c}, k.sunk, k.hitsSunk);
    }
  }

  /** The sink step of `updateOrientations` (lines 106-112 of the Bayesian
      variant, 64-70 of the statistics one): every boat fully hit is marked
      sunk, its cells join `hitsSunk`, and its list becomes its true
      location. */
  function Sink(k: Knowledge): Knowledge {
    k.(sunk := k.sunk + SunkNow(k.boats, k.hits),
       hitsSunk := k.hitsSunk + SunkCells(k.boats, k.hits),
       cond := FixSunk(k.cond, k.boats, k.hits))
  }

  /** Sinking keeps the invariant and only drops candidates. */
  lemma {:induction false} SinkKeeps(r: Rules, k: Knowledge)
    requires Inv(r, k)
    ensures Inv(r, Sink(k))
    ensures forall n :: n in k.cond ==> multiset(Sink(k).cond[n]) <= multiset(k.cond[n])
  {
    InvFacts(r, k);
    var k' := Sink(k);
    FixSunkShrinks(k.cond, k.boats, k.hits);
    FixSunkWithin(k.cond, k.boats, k.hits, r.catalog);
    FixSunkAdmits(k.cond, k.boats, k.hits);
    assert k'.hitsSunk == SunkLocations(k.boats, r.names, k'.sunk) by {
      SunkLocationsGrow(k.boats, r.names, k.sunk, k.hits);
    }
    forall n | n in SunkNow(k.boats, k.hits) ensures n in r.names && LocationOf(k.boats, n) <= k.hits {
      var i :| 0 <= i < |k.boats| && k.boats[i].location <= k.hits && k.boats[i].name == n;
      LocationOfAt(k.boats, i);
      assert BoatNames(k.boats)[i] == n;
    }
    assert SunkAgree(r, k'.boats, k'.hits, k'.sunk, k'.hitsSunk);
  }

  /** The pruning step of `updateOrientations` (lines 115-119 of the
      Bayesian variant, 72-82 of the statistics one): every ship not marked
      sunk keeps only the candidates avoiding the misses and the sunk
      cells. */
  function Pruned(k: Knowledge): Knowledge {
    k.(cond := PruneAll(k.cond, k.sunk, k.misses, k.hitsSunk))
  }

  /** Pruning keeps the invariant and leaves every list settled. */
  lemma {:induction false} PrunedKeeps(r: Rules, k: Knowledge)
    requires Inv(r, k)
    ensures Inv(r, Pruned(k))
    ensures Settled(Pruned(k).cond, k.sunk, k.misses, k.hitsSunk)
    ensures forall n :: n in k.cond ==> multiset(Pruned(k).cond[n]) <= multiset(k.cond[n])
  {
    InvFacts(r, k);
    var c := PruneAll(k.cond, k.sunk, k.misses, k.hitsSunk);
    ShrinkKeeps(k.cond, c, r.catalog, k.sunk, k.misses, k.hitsSunk);
    PruneAllAdmits(k.cond, k.boats, r.names, k.sunk, k.misses);
  }
}
