/** The game object of the statistics variant (`BattleshipEnv` and
    `BattleshipAutoplay` in StatisticsSampling/Battleship.py): the hidden
    board, the shots fired so far and the candidates kept for every ship;
    each turn draws a fixed number of conditional boards afresh and fires
    at the cell most of them hold. */
module StatisticsGame {
  import opened Seqs
  import opened Cells
  import opened Fleet
  import opened Counting
  import opened Evidence
  import opened GameState
  import opened StatisticsSampler
  import opened StatisticsState

  /** The rules `__init__` derives from `dim` and `ships`: the ship names
      `'a'`, `'b'`, ..., `shipLengths` and `possibleShipsDict`. */
  function Derive(dim: nat, ships: seq<nat>): (r: Rules)
    ensures Configured(r)
  {
    var lengths := ShipLengths(ships);
    NamesDistinct(|ships|);
    CatalogHasShape(dim, lengths);
    Rules(dim, Names(|ships|), lengths, Catalog(dim, lengths))
  }

  class Env {
    const dim: nat
    const ships: seq<nat>
    const names: seq<Name>
    /** `shipLengths`. */
    const lengths: map<Name, nat>
    /** `possibleShipsDict`. */
    const catalog: map<Name, seq<Placement>>
    /** The order in which `set(self.names)` yields the names: the key
        order of `possibleShipsDict` and of its copies. */
    const keys: seq<Name>
    /** `self.order`: the names by ascending ship length, the order in
        which `randomBoard` places the ships. */
    const order: seq<Name>
    /** The time budget `lag`, as the number of boards `buildAggBoard`
        draws in `lag` seconds. */
    const draws: nat
    /** The time budget `lag / 10` of one ship's placement, as the number
        of failed draws it allows. */
    const patience: nat

    /** `self.boats` and `self.board`: the hidden fleet and its cells. */
    var boats: seq<Boat>
    var board: set<Cell>
    var hits: set<Cell>
    var hitsSunk: set<Cell>
    var misses: set<Cell>
    /** The names `n` with `sunkDict[n] == 1`. */
    var sunk: set<Name>
    /** `possibleShipsDictCond`; `possibleShipsNumDictCond` always holds
        the lengths of these lists and is read through `Counts`. */
    var cond: map<Name, seq<Placement>>
    var aggDict: map<Cell, nat>
    var numIter: nat
    var nextInx: Cell
    /** The boards the last `buildAggBoard` drew, one set of cells each:
        its list `boards`, board by board. */
    ghost var drawn: seq<set<Cell>>

    function Rule(): Rules {
      Rules(dim, names, lengths, catalog)
    }

    /** The knowledge the fields hold; this variant keeps no pool between
        turns. */
    function State(): Knowledge
      reads this`boats, this`board, this`hits, this`misses, this`sunk, this`hitsSunk, this`cond
    {
      Knowledge(boats, board, hits, misses, sunk, hitsSunk, cond, [], order)
    }

    ghost predicate Valid()
      reads this`boats, this`board, this`hits, this`misses, this`sunk, this`hitsSunk, this`cond, this`drawn
    {
      Inv(Rule(), State()) && Keyed() && OnGrid()
    }

    /** `keys` lists every ship name once. */
    ghost predicate Keyed() {
      Distinct(keys) && Elems(keys) == Elems(names)
    }

    /** The boards last drawn lie on the board. */
    ghost predicate OnGrid()
      reads this`drawn
    {
      forall b :: b in drawn ==> b <= Grid(dim)
    }

    /** The constants are the ones `__init__` derives from `dim` and
        `ships`. */
    ghost predicate Derived() {
      Rule() == Derive(dim, ships) && order == DefaultOrder(names, lengths)
    }

    /** Every board last drawn agrees with every shot. */
    ghost predicate Consistent()
      reads this`drawn, this`hits, this`misses
    {
      PoolAgrees(drawn, hits, misses)
    }

    /** `aggDict` holds, for each cell, the number of boards last drawn
        that hold it. */
    ghost predicate Counted()
      reads this`aggDict, this`drawn
    {
      aggDict == Tally(drawn)
    }

    /** `__init__(dim, ships, lag)` once `generateComponentLayouts` has
        listed `catalog`, the names in the order `keys`, and `randomBoard`
        has drawn the hidden board. `aggDict`, `numIter` and `nextInx`,
        first set by `buildAggBoard` and `play`, start empty. */
    constructor(dim: nat, ships: seq<nat>, draws: nat, patience: nat, keys: seq<Name>,
                catalog: map<Name, seq<Placement>>, boats: seq<Boat>, board: set<Cell>)
      ensures Rule() == Derive(dim, ships).(catalog := catalog) && this.ships == ships
      ensures this.keys == keys && order == DefaultOrder(names, lengths)
      ensures State() == Initial(boats, board, catalog, order)
      ensures this.draws == draws && this.patience == patience
      ensures aggDict == map[] && numIter == 0 && nextInx == (-1, -1) && drawn == []
    {
      var r := Derive(dim, ships);
      this.dim, this.ships, this.names, this.lengths, this.catalog := dim, ships, r.names, r.lengths, catalog;
      this.keys, this.order := keys, DefaultOrder(r.names, r.lengths);
      this.draws, this.patience := draws, patience;
      this.boats, this.board, hits, misses, sunk, hitsSunk, cond := boats, board, {}, {}, {}, {}, catalog;
      aggDict, numIter, nextInx, drawn := map[], 0, (-1, -1), [];
    }

    /** Stores the knowledge `k` in the fields. */
    method Install(k: Knowledge)
      requires Inv(Rule(), k) && Keyed() && OnGrid() && k.pool == [] && k.order == order
      modifies this
      ensures Valid() && State() == k
      ensures aggDict == old(aggDict) && numIter == old(numIter) && nextInx == old(nextInx) && drawn == old(drawn)
    {
      boats, board, hits, misses, sunk, hitsSunk, cond := k.boats, k.board, k.hits, k.misses, k.sunk, k.hitsSunk, k.cond;
      assert State() == k;
    }

    /** `guess(guessInx)`: a cell on the board is a hit, any other cell a
        miss. */
    method Guess(guessInx: Cell)
      requires Valid()
      modifies this
      ensures Valid()
      ensures State() == Shoot(old(State()), guessInx)
      ensures aggDict == old(aggDict) && numIter == old(numIter) && nextInx == old(nextInx) && drawn == old(drawn)
    {
      ShootKeeps(Rule(), State(), guessInx);
      Install(Shoot(State(), guessInx));
    }

    /** `updateOrientations()`: mark the ships fully hit as sunk and prune
        the candidates of the others. */
    method UpdateOrientations()
      requires Valid()
      modifies this
      ensures Valid()
      ensures State() == Pruned(Sink(old(State())))
      ensures Settled(cond, sunk, misses, hitsSunk)
      ensures aggDict == old(aggDict) && numIter == old(numIter) && nextInx == old(nextInx) && drawn == old(drawn)
    {
      var k := Update(Rule(), State(), keys);
      Install(k);
    }

    /** `buildAggBoard()`: order the ships by their candidate counts,
        update the candidates, draw `draws` boards and count how many of
        them hold each cell. `done` is false when a draw ran out of fuel,
        which leaves the counts as they were. */
    method BuildAggBoard(fuel: nat) returns (done: bool)
      requires Valid()
      modifies this
      ensures Valid()
      ensures State() == Pruned(Sink(old(State())))
      ensures boats == old(boats) && board == old(board) && hits == old(hits) && misses == old(misses)
      ensures Settled(cond, sunk, misses, hitsSunk)
      ensures nextInx == old(nextInx)
      ensures done ==> numIter == draws == |drawn| && Consistent() && Counted()
      ensures !done ==> aggDict == old(aggDict) && numIter == old(numIter) && drawn == old(drawn)
    {
      var k, agg;
      ghost var pool;
      k, agg, done, pool := Build(Rule(), State(), keys, draws, patience, fuel);
      Install(k);
      if done {
        aggDict, numIter, drawn := agg, draws, pool;
      }
    }

    /** Lines 187-190 of `play()`, after `buildAggBoard`: delete the hit
        cells from the counts (a `KeyError` when one is missing) and aim
        `nextInx` at a cell with the largest count left (a `ValueError`
        when none is left). */
    method Aim() returns (r: Outcome<Cell>)
      modifies this`aggDict, this`nextInx
      ensures !r.OutOfFuel?
      ensures r.Ok? ==> nextInx == r.value
      ensures r.Raised? <==> !(hits <= old(aggDict).Keys) || old(aggDict).Keys <= hits
      ensures hits <= old(aggDict).Keys ==> aggDict == old(aggDict) - hits
      ensures r.Ok? ==> r.value in old(aggDict) && r.value !in hits
      ensures r.Ok? ==> forall c :: c in old(aggDict) && c !in hits ==> old(aggDict)[c] <= old(aggDict)[r.value]
      ensures old(Counted()) && Consistent() && OnGrid() && r.Ok? ==> r.value !in hits + misses && r.value in Grid(dim)
      ensures old(Counted()) && Consistent() && OnGrid() && r.Raised? && drawn != [] ==> UnionAll(drawn) <= hits
    {
      r, aggDict := Target(dim, aggDict, hits, misses, drawn);
      if r.Ok? {
        nextInx := r.value;
      }
    }

    /** Lines 187-200 of `play()`, after `buildAggBoard`: `Aim`, then
        record the cell aimed at as a hit or a miss, as `guess` would. */
    method Fire() returns (r: Outcome<Cell>)
      requires Valid()
      modifies this
      ensures Valid()
      ensures !r.OutOfFuel?
      ensures r.Raised? <==> !(old(hits) <= old(aggDict).Keys) || old(aggDict).Keys <= old(hits)
      ensures r.Ok? ==> State() == Shoot(old(State()), r.value) && nextInx == r.value
      ensures r.Ok? ==> r.value in old(aggDict) && r.value !in old(hits)
      ensures r.Ok? ==> forall c :: c in old(aggDict) && c !in old(hits) ==> old(aggDict)[c] <= old(aggDict)[r.value]
      ensures r.Raised? ==> State() == old(State())
      ensures drawn == old(drawn)
      ensures old(Consistent() && Counted()) && r.Ok? ==> r.value !in old(hits + misses) && r.value in Grid(dim)
      ensures old(Consistent() && Counted()) && r.Raised? && drawn != [] ==> UnionAll(drawn) <= hits
    {
      r := Aim();
      if r.Ok? {
        Guess(r.value);
      }
    }

    /** `refreshGame()`: a new hidden board, placed in the order
        `self.order`, with no shots, nothing sunk and the whole catalog as
        candidates. `aggDict`, `numIter` and `nextInx` are left as they
        are. `done` is false when drawing the board ran out of fuel, which
        leaves the game as it was. */
    method RefreshGame(fuel: nat) returns (done: bool)
      requires Valid()
      modifies this
      ensures Valid()
      ensures done ==> State() == Initial(boats, board, catalog, order) && BoatNames(boats) == order
      ensures !done ==> unchanged(this)
      ensures aggDict == old(aggDict) && numIter == old(numIter) && nextInx == old(nextInx)
    {
      var drawnBoard := Redraw(Rule(), State(), fuel);
      if !drawnBoard.Ok? {
        return false;
      }
      Install(drawnBoard.value);
      done := true;
    }

    /** Lines 181-184 of `play()`, once `sum(ships)` cells are hit: the
        number of shots fired, taken before a new game is drawn when
        `refresh`. `endHits` and `endMisses` are the shots it counts. */
    method Finish(refresh: bool, fuel: nat)
      returns (r: Outcome<nat>, ghost endHits: set<Cell>, ghost endMisses: set<Cell>)
      requires Valid() && |hits| == Sum(ships)
      modifies this
      ensures Valid()
      ensures endHits == old(hits) && endMisses == old(misses) && !r.Raised?
      ensures r.Ok? ==> r.value == |endHits| + |endMisses|
      ensures Derived() && |ships| <= 26 ==> endHits == old(board)
      ensures endHits + endMisses <= Grid(dim) ==> |endHits| + |endMisses| <= dim * dim
      ensures !refresh ==> r.Ok? && unchanged(this)
      ensures r.Ok? && refresh ==> State() == Initial(boats, board, catalog, order) && BoatNames(boats) == order
    {
      var n := |hits| + |misses|;
      endHits, endMisses := hits, misses;
      if hits + misses <= Grid(dim) {
        ShotCount(Rule(), State());
      }
      if Derived() && |ships| <= 26 {
        GameOver(Rule(), ships, boats, board, hits);
      }
      if refresh {
        var renewed := RefreshGame(fuel);
        if !renewed {
          return OutOfFuel, endHits, endMisses;
        }
      }
      r := Ok(n);
    }

    /** Lines 185-200 of `play()`: one turn, `buildAggBoard` then `Fire`.
        The boards just drawn agree with the shots, so the shot is a new
        cell of the grid. */
    method Turn(fuel: nat) returns (r: Outcome<Cell>)
      requires Valid()
      modifies this
      ensures Valid() && board == old(board)
      ensures r.Ok? ==> hits + misses == old(hits + misses) + {r.value}
      ensures r.Ok? ==> r.value in Grid(dim) && r.value !in old(hits + misses)
    {
      var done := BuildAggBoard(fuel);
      if !done {
        return OutOfFuel;
      }
      r := Fire();
    }

    /** `play(refresh)`: turns until `sum(ships)` cells have been hit, then
        the number of shots fired, after drawing a new game when `refresh`.
        `endHits` and `endMisses` are the shots of the finished game, from
        which the count is taken before any refresh. Every turn fires at a
        cell of the grid not shot at before, since the boards it counts are
        drawn afresh and agree with the shots. */
    method Play(refresh: bool, fuel: nat)
      returns (r: Outcome<nat>, ghost endHits: set<Cell>, ghost endMisses: set<Cell>)
      requires Valid()
      modifies this
      ensures Valid()
      ensures r.Ok? ==> |endHits| == Sum(ships) && r.value == |endHits| + |endMisses|
      ensures r.Ok? && Derived() && |ships| <= 26 ==> endHits == old(board)
      ensures r.Ok? && old(hits + misses) <= Grid(dim) ==> endHits + endMisses <= Grid(dim) && r.value <= dim * dim
      ensures r.Ok? && !refresh ==> endHits == hits && endMisses == misses
      ensures r.Ok? && refresh ==> State() == Initial(boats, board, catalog, order) && BoatNames(boats) == order
    {
      while true
        invariant Valid()
        invariant board == old(board)
        invariant old(hits + misses) <= Grid(dim) ==> hits + misses <= Grid(dim)
        decreases |Grid(dim) - (hits + misses)|
      {
        if |hits| == Sum(ships) {
          r, endHits, endMisses := Finish(refresh, fuel);
          return;
        }
        ghost var before := hits + misses;
        var t := Turn(fuel);
        if t.OutOfFuel? {
          return OutOfFuel, hits, misses;
        }
        if t.Raised? {
          return Raised, hits, misses;
        }
        ShotShrinks(dim, before, t.value);
      }
    }
  }

  /** `BattleshipAutoplay(dim, ships, lag)`: list the layouts, draw the
      hidden board in the default order and set up the game;
      `randomBoard` raises when a ship has no layout, that is when it is
      longer than the board. */
  method NewEnv(dim: nat, ships: seq<nat>, draws: nat, patience: nat, fuel: nat) returns (r: Outcome<Env>)
    ensures r.Ok? ==> r.value.Valid() && r.value.Derived() && fresh(r.value)
    ensures r.Ok? ==> r.value.hits == {} && r.value.misses == {} && BoatNames(r.value.boats) == r.value.order
    ensures r.Raised? ==> exists n :: n in Derive(dim, ships).names && Derive(dim, ships).catalog[n] == []
  {
    var rules := Derive(dim, ships);
    var keys := Enumerate(Elems(rules.names));
    var catalog := GenerateComponentLayouts(dim, rules.lengths, keys);
    var order := DefaultOrder(rules.names, rules.lengths);
    var drawnBoard := RandomBoard(catalog, order, fuel);
    if drawnBoard.Raised? {
      var n :| n in order && (n !in catalog || catalog[n] == []);
      assert n in multiset(rules.names) by {
        assert n in multiset(order);
      }
      return Raised;
    }
    if drawnBoard.OutOfFuel? {
      return OutOfFuel;
    }
    var boats, board := drawnBoard.value.0, drawnBoard.value.1;
    InitialKeeps(rules, boats, board, order);
    var e := new Env(dim, ships, draws, patience, keys, catalog, boats, board);
    r := Ok(e);
  }
}
