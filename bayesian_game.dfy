/** The game object of the Bayesian variant (`BattleshipPlayer` and
    `BattleshipAutoplay` in BayesianSampling/Battleship.py): the hidden
    board, the shots fired so far, the evidence kept about every ship, and
    the pool of sampled boards whose per-cell counts choose the next shot. */
module BayesianGame {
  import opened Seqs
  import opened Cells
  import opened Fleet
  import opened Counting
  import opened Evidence
  import opened BayesianSampler
  import opened Sampling
  import opened GameState
  import opened BayesianState

  /** The rules `__init__` derives from `dim` and `ships`: the ship names
      `'a'`, `'b'`, ..., `shipLengths` and `possibleShipsDict`. */
  function Derive(dim: nat, ships: seq<nat>): (r: Rules)
    ensures Configured(r)
  {
    var lengths := ShipLengths(ships);
    NamesDistinct(|ships|);
    CatalogHasShape(dim, lengths);
    Rules(dim, Names(|ships|), lengths, Catalog(dim, lengths))
  }

  class Player {
    const dim: nat
    const ships: seq<nat>
    const names: seq<Name>
    /** `shipLengths`. */
    const lengths: map<Name, nat>
    /** `possibleShipsDict`. */
    const catalog: map<Name, seq<Placement>>
    const randomOrder: bool
    const batchSize: int
    const numMaxHits: nat

    /** `self.boats` and `self.board`: the hidden fleet and its cells. */
    var boats: seq<Boat>
    var board: set<Cell>
    var hits: set<Cell>
    var hitsSunk: set<Cell>
    var misses: set<Cell>
    /** The names `n` with `sunkDict[n] == 1`. */
    var sunk: set<Name>
    /** `possibleShipsDictCond`; `possibleShipsNumDictCond` always holds
        the lengths of these lists and is read through `Counts`. */
    var cond: map<Name, seq<Placement>>
    var lastTurnBoards: seq<set<Cell>>
    var nextInx: Cell
    var order: seq<Name>
    var aggDict: map<Cell, nat>
    var numIter: nat

    function Rule(): Rules {
      Rules(dim, names, lengths, catalog)
    }

    function State(): Knowledge
      reads this`boats, this`board, this`hits, this`misses, this`sunk, this`hitsSunk, this`cond, this`lastTurnBoards, this`order
    {
      Knowledge(boats, board, hits, misses, sunk, hitsSunk, cond, lastTurnBoards, order)
    }

    ghost predicate Valid()
      reads this`boats, this`board, this`hits, this`misses, this`sunk, this`hitsSunk, this`cond, this`lastTurnBoards, this`order
    {
      Inv(Rule(), State())
    }

    /** The constants are the ones `__init__` derives from `dim` and
        `ships`. */
    ghost predicate Derived() {
      Rule() == Derive(dim, ships) && numMaxHits == Sum(ships)
    }

    /** The pool lies on the board. */
    ghost predicate OnGrid()
      reads this`lastTurnBoards
    {
      forall b :: b in lastTurnBoards ==> b <= Grid(dim)
    }

    /** Every board of the pool agrees with every shot. */
    ghost predicate Consistent()
      reads this`lastTurnBoards, this`hits, this`misses
    {
      PoolAgrees(lastTurnBoards, hits, misses)
    }

    /** Every board of the pool agrees with every shot but the newest one,
        `nextInx`: the state a guess leaves a consistent pool in. */
    ghost predicate Synced()
      reads this`lastTurnBoards, this`hits, this`misses, this`nextInx
    {
      PoolAgrees(lastTurnBoards, hits - {nextInx}, misses - {nextInx})
    }

    /** `aggDict` holds, for each cell, the number of boards of the pool
        holding it. */
    ghost predicate Counted()
      reads this`aggDict, this`lastTurnBoards
    {
      aggDict == Tally(lastTurnBoards)
    }

    /** `__init__(dim, ships, randomOrder, batchSize)` around the hidden
        board `randomBoard()` drew. */
    constructor(dim: nat, ships: seq<nat>, randomOrder: bool, batchSize: int, boats: seq<Boat>, board: set<Cell>)
      requires Hidden(Derive(dim, ships), boats, board)
      ensures Valid()
      ensures Rule() == Derive(dim, ships) && this.ships == ships && numMaxHits == Sum(ships)
      ensures State() == Initial(boats, board, catalog, DefaultOrder(names, lengths))
      ensures nextInx == (-1, -1) && aggDict == map[] && numIter == 0
      ensures this.randomOrder == randomOrder && this.batchSize == batchSize
    {
      var r := Derive(dim, ships);
      var k := Initial(boats, board, r.catalog, DefaultOrder(r.names, r.lengths));
      InitialKeeps(r, boats, board, k.order);
      this.dim, this.ships, this.names, this.lengths, this.catalog := r.dim, ships, r.names, r.lengths, r.catalog;
      this.randomOrder, this.batchSize, this.numMaxHits := randomOrder, batchSize, Sum(ships);
      nextInx, aggDict, numIter := (-1, -1), map[], 0;
      new;
      assert Rule() == r;
      Install(k);
    }


    /** Stores the knowledge `k` in the fields. */
    method Install(k: Knowledge)
      requires Inv(Rule(), k)
      modifies this
      ensures Valid() && State() == k
      ensures nextInx == old(nextInx) && aggDict == old(aggDict) && numIter == old(numIter)
    {
      boats, board, hits, misses, sunk, hitsSunk := k.boats, k.board, k.hits, k.misses, k.sunk, k.hitsSunk;
      cond, lastTurnBoards, order := k.cond, k.pool, k.order;
      assert State() == k;
    }

    /** `guess(guessInx)`: a cell on the board is a hit, any other cell a
        miss; either way it becomes the newest probe. */
    method Guess(guessInx: Cell)
      requires Valid()
      modifies this
      ensures Valid()
      ensures State() == Shoot(old(State()), guessInx) && nextInx == guessInx
      ensures aggDict == old(aggDict) && numIter == old(numIter)
      ensures old(Consistent()) ==> Synced()
    {
      var k := Shoot(State(), guessInx);
      ShootKeeps(Rule(), State(), guessInx);
      if Consistent() {
        PoolAgreesFewer(lastTurnBoards, hits, misses, k.hits - {guessInx}, k.misses - {guessInx});
      }
      Install(k);
      nextInx := guessInx;
    }

    /** `updateOrientations()`: mark the ships fully hit as sunk, prune the
        candidates of the others, narrow every hit with a single possible
        owner, and order the ships by their remaining candidates. The hits
        are taken in the order `hitOrder` the set yields them. */
    method UpdateOrientations() returns (ghost hitOrder: seq<Cell>)
      requires Valid()
      modifies this
      ensures Valid()
      ensures Distinct(hitOrder) && Elems(hitOrder) == hits
      ensures forall n :: n in names ==> n in old(cond)
      ensures State() == Updated(old(State()), names, hitOrder)
      ensures Settled(cond, sunk, misses, hitsSunk)
      ensures sunk == old(sunk) + SunkNow(boats, hits)
      ensures nextInx == old(nextInx) && aggDict == old(aggDict) && numIter == old(numIter)
    {
      var k;
      k, hitOrder := Update(Rule(), State());
      Install(k);
    }

    /** `buildAggBoard()`: keep last turn's boards that agree with the
        newest probe, draw new boards until there are `batchSize`, and count
        how many boards hold each cell. The placing order is the ships by
        ascending candidate count before `updateOrientations` runs, or a
        random permutation. `done` is false when a draw ran out of fuel. */
    method BuildAggBoard(fuel: nat) returns (done: bool)
      requires Valid()
      modifies this
      ensures Valid()
      ensures boats == old(boats) && board == old(board) && hits == old(hits) && misses == old(misses)
      ensures nextInx == old(nextInx)
      ensures Settled(cond, sunk, misses, hitsSunk)
      ensures sunk == old(sunk) + SunkNow(boats, hits)
      ensures done ==> var seed := Seed(old(lastTurnBoards), nextInx, hits, misses);
        && |lastTurnBoards| == Max(|seed|, batchSize) == numIter
        && lastTurnBoards[..|seed|] == seed
        && (forall b :: b in lastTurnBoards[|seed|..] ==> Agrees(b, hits, misses))
        && aggDict == Tally(lastTurnBoards)
      ensures done && old(Synced()) ==> Consistent()
    {
      var k, agg;
      k, agg, done := Build(Rule(), State(), nextInx, randomOrder, batchSize, fuel);
      Install(k);
      if done {
        aggDict, numIter := agg, |lastTurnBoards|;
      }
    }

    /** Lines 325-328 of `play()`, after `buildAggBoard`: delete the hit
        cells from the counts (a `KeyError` when one is missing) and aim
        `nextInx` at a cell with the largest count left (a `ValueError`
        when none is left). */
    method Aim() returns (r: Outcome<Cell>)
      modifies this`aggDict, this`nextInx
      ensures !r.OutOfFuel?
      ensures r.Ok? ==> nextInx == r.value
      ensures r.Raised? <==> !(hits <= old(aggDict).Keys) || old(aggDict).Keys <= hits
      ensures hits <= old(aggDict).Keys ==> aggDict == old(aggDict) - hits
      ensures r.Ok? ==> r.value in old(aggDict) && r.value !in hits
      ensures r.Ok? ==> forall c :: c in old(aggDict) && c !in hits ==> old(aggDict)[c] <= old(aggDict)[r.value]
      ensures old(Counted()) && Consistent() && OnGrid() && r.Ok? ==> r.value !in hits + misses && r.value in Grid(dim)
      ensures old(Counted()) && Consistent() && OnGrid() && r.Raised? && lastTurnBoards != [] ==>
        UnionAll(lastTurnBoards) <= hits
      ensures old(Counted()) && OnGrid() && r.Ok? ==> r.value in Grid(dim)
    {
      r, aggDict := Target(dim, aggDict, hits, misses, lastTurnBoards);
      if r.Ok? {
        nextInx := r.value;
      }
    }

    /** Lines 325-331 of `play()`: `Aim`, then record the cell aimed at as
        a hit or a miss, as `guess` would. */
    method Fire() returns (r: Outcome<Cell>)
      requires Valid()
      modifies this
      ensures Valid()
      ensures !r.OutOfFuel?
      ensures r.Raised? <==> !(old(hits) <= old(aggDict).Keys) || old(aggDict).Keys <= old(hits)
      ensures r.Ok? ==> State() == Shoot(old(State()), r.value) && nextInx == r.value
      ensures r.Ok? ==> r.value in old(aggDict) && r.value !in old(hits)
      ensures r.Ok? ==> forall c :: c in old(aggDict) && c !in old(hits) ==> old(aggDict)[c] <= old(aggDict)[r.value]
      ensures r.Raised? ==> State() == old(State())
      ensures old(Consistent() && Counted()) && r.Ok? ==>
        r.value !in old(hits + misses) && r.value in Grid(dim) && Synced()
      ensures old(Consistent() && Counted()) && r.Raised? && lastTurnBoards != [] ==>
        UnionAll(lastTurnBoards) <= hits
      ensures old(Counted()) && r.Ok? ==> r.value in Grid(dim)
    {
      r := Aim();
      if r.Ok? {
        Guess(r.value);
      }
    }

    /** `refreshGame()`: a new hidden board, no shots, nothing sunk, the
        whole catalog as candidates and an empty pool. `self.order`,
        `aggDict` and `numIter` are left as they are. `done` is false when
        drawing the board ran out of fuel, which leaves the game as it
        was. */
    method RefreshGame(fuel: nat) returns (done: bool)
      requires Valid()
      modifies this
      ensures Valid()
      ensures done ==> State() == Initial(boats, board, catalog, old(order)) && nextInx == (-1, -1) && Synced()
      ensures !done ==> unchanged(this)
      ensures aggDict == old(aggDict) && numIter == old(numIter)
    {
      var drawn := Redraw(Rule(), State(), fuel);
      if !drawn.Ok? {
        return false;
      }
      Install(drawn.value);
      nextInx := (-1, -1);
      done := true;
    }

    /** Lines 320-323 of `play()`, once `numMaxHits` cells are hit: the
        number of shots fired, taken before a new game is drawn when
        `refresh`. `endHits` and `endMisses` are the shots it counts. */
    method Finish(refresh: bool, fuel: nat)
      returns (r: Outcome<nat>, ghost endHits: set<Cell>, ghost endMisses: set<Cell>)
      requires Valid() && |hits| == numMaxHits
      modifies this
      ensures Valid()
      ensures endHits == old(hits) && endMisses == old(misses) && !r.Raised?
      ensures r.Ok? ==> r.value == |endHits| + |endMisses|
      ensures Derived() && |ships| <= 26 ==> endHits == old(board)
      ensures endHits + endMisses <= Grid(dim) ==> |endHits| + |endMisses| <= dim * dim
      ensures !refresh ==> r.Ok? && unchanged(this)
      ensures r.Ok? && refresh ==>
        State() == Initial(boats, board, catalog, order) && nextInx == (-1, -1) && Synced()
    {
      var n := |hits| + |misses|;
      endHits, endMisses := hits, misses;
      if hits + misses <= Grid(dim) {
        ShotCount(Rule(), State());
      }
      if Derived() && |ships| <= 26 {
        GameOver(Rule(), ships, boats, board, hits);
      }
      if refresh {
        var renewed := RefreshGame(fuel);
        if !renewed {
          return OutOfFuel, endHits, endMisses;
        }
      }
      r := Ok(n);
    }

    /** Lines 324-332 of `play()`: one turn, `buildAggBoard` then `Fire`.
        The shot lies on the grid, since the counts come from the pool. */
    method Turn(fuel: nat) returns (r: Outcome<Cell>)
      requires Valid()
      modifies this
      ensures Valid() && board == old(board)
      ensures r.Ok? ==> hits + misses == old(hits + misses) + {r.value} && r.value in Grid(dim)
    {
      var done := BuildAggBoard(fuel);
      if !done {
        return OutOfFuel;
      }
      r := Fire();
    }

    /** `play(refresh)`: turns until `numMaxHits` cells have been hit, then
        the number of shots fired, after drawing a new game when `refresh`.
        `endHits` and `endMisses` are the shots of the finished game, from
        which the count is taken before any refresh. A turn that fires at a
        new cell of the grid makes progress; a turn that does not, which
        `play` would repeat forever and which `Fire` rules out when the pool
        agrees with the shots, spends one unit of `fuel`. */
    method Play(refresh: bool, fuel: nat)
      returns (r: Outcome<nat>, ghost endHits: set<Cell>, ghost endMisses: set<Cell>)
      requires Valid()
      modifies this
      ensures Valid()
      ensures r.Ok? ==> |endHits| == numMaxHits && r.value == |endHits| + |endMisses|
      ensures r.Ok? && Derived() && |ships| <= 26 ==> endHits == old(board)
      ensures r.Ok? && old(hits + misses) <= Grid(dim) ==> endHits + endMisses <= Grid(dim) && r.value <= dim * dim
      ensures r.Ok? && !refresh ==> endHits == hits && endMisses == misses
      ensures r.Ok? && refresh ==>
        State() == Initial(boats, board, catalog, order) && nextInx == (-1, -1) && Synced()
    {
      var f := fuel;
      while true
        invariant Valid()
        invariant board == old(board)
        invariant old(hits + misses) <= Grid(dim) ==> hits + misses <= Grid(dim)
        decreases f, |Grid(dim) - (hits + misses)|
      {
        if |hits| == numMaxHits {
          r, endHits, endMisses := Finish(refresh, fuel);
          return;
        }
        var before := hits + misses;
        var t := Turn(fuel);
        if t.OutOfFuel? {
          return OutOfFuel, hits, misses;
        }
        if t.Raised? {
          return Raised, hits, misses;
        }
        if t.value !in before {
          ShotShrinks(dim, before, t.value);
        } else if f == 0 {
          return OutOfFuel, hits, misses;
        } else {
          f := f - 1;
        }
      }
    }
  }

  /** `BattleshipAutoplay(dim, ships, randomOrder, batchSize)`: draw the
      hidden board and set up the game; `randomBoard` raises when a ship
      has no layout, that is when it is longer than the board. */
  method NewPlayer(dim: nat, ships: seq<nat>, randomOrder: bool, batchSize: int, fuel: nat)
    returns (r: Outcome<Player>)
    ensures r.Ok? ==> r.value.Valid() && r.value.Derived() && r.value.Synced()
    ensures r.Ok? ==> r.value.hits == {} && r.value.misses == {} && fresh(r.value)
    ensures r.Raised? ==> exists n :: n in Derive(dim, ships).names && Derive(dim, ships).catalog[n] == []
  {
    var rules := Derive(dim, ships);
    var drawn := RandomBoard(rules.catalog, rules.names, fuel);
    if drawn.Raised? {
      return Raised;
    }
    if drawn.OutOfFuel? {
      return OutOfFuel;
    }
    var boats, board := drawn.value.0, drawn.value.1;
    var p := new Player(dim, ships, randomOrder, batchSize, boats, board);
    r := Ok(p);
  }
}
