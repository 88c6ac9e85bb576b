/** The sampling half of the statistics variant: the layout catalog built by
    nested loops, the hidden board drawn in the fixed default order, and the
    conditional sampler, which places one candidate per ship in a given
    order and starts over until the board covers every hit. The variant
    tests set relations by comparing sizes (`len(a) + len(b) ==
    len(a.union(b))` for disjointness, and so on); each test is a function
    here whose contract is the relation it stands for. */
module StatisticsSampler {
  import opened Seqs
  import opened Cells
  import opened Layouts
  import opened Evidence
  import opened Sampling
  import opened GameState

  /** Two sets are disjoint exactly when their sizes add up to the size of
      their union. */
  lemma {:induction false} DisjointByCount(a: set<Cell>, b: set<Cell>)
    ensures |a| + |b| == |a + b| <==> a !! b
  {
    assert a + b == a + (b - a);
    if !(a !! b) {
      var c :| c in a && c in b;
      SubsetCard(b - a, b - {c});
    }
  }

  /** Lines 43 and 93: `len(final_set) + len(ship_coords) ==
      len(final_set.union(ship_coords))`, a layout fitting beside the cells
      taken so far. */
  function FitsBeside(taken: set<Cell>, coords: Placement): (r: bool)
    ensures r <==> coords !! taken
  {
    DisjointByCount(taken, coords);
    |taken| + |coords| == |taken + coords|
  }

  /** Line 66: `len(location.union(hits)) == len(hits)`, a boat whose every
      cell has been hit. */
  function AllHit(location: Placement, hits: set<Cell>): (r: bool)
    ensures r <==> location <= hits
  {
    SubsetFull(hits, location + hits);
    |location + hits| == |hits|
  }

  /** Line 100: `len(final_set.difference(hits)) == len(final_set) -
      len(hits)`, a board holding every hit. */
  function CoversHits(finalSet: set<Cell>, hits: set<Cell>): (r: bool)
    ensures r <==> hits <= finalSet
  {
    assert finalSet == (finalSet - hits) + (finalSet * hits);
    assert (finalSet - hits) !! (finalSet * hits);
    DisjointByCount(finalSet - hits, finalSet * hits);
    SubsetFull(finalSet * hits, hits);
    |finalSet - hits| == |finalSet| - |hits|
  }

  /** Line 79, the pruning test for a layout of a ship of length `len`:
      `len(misses.union(config)) == len(misses) + len` and
      `len(config.union(hitsSunk)) == len + sunkNum`. For a layout of `len`
      cells, with `sunkNum` the number of sunk cells, it keeps exactly the
      layouts avoiding the misses and the sunk ships. */
  function KeepsLayout(config: Placement, misses: set<Cell>, hitsSunk: set<Cell>, len: nat, sunkNum: nat): (r: bool)
    ensures |config| == len && sunkNum == |hitsSunk| ==> (r <==> Survives(config, misses, hitsSunk))
  {
    DisjointByCount(misses, config);
    DisjointByCount(config, hitsSunk);
    |misses + config| == |misses| + len && |config + hitsSunk| == len + sunkNum
  }

  /** `possibleShipsDict`: for every ship, a vertical and a horizontal run
      per anchor, anchors taken row by row. */
  function Catalog(dim: nat, lengths: map<Name, nat>): (m: map<Name, seq<Placement>>)
    ensures m.Keys == lengths.Keys
    ensures forall n :: n in m ==> m[n] == InterleavedLayouts(dim, lengths[n])
  {
    map n | n in lengths :: InterleavedLayouts(dim, lengths[n])
  }

  /** Each ship's list holds exactly the straight runs of its length lying
      on the board, `2 * (dim - len + 1) * dim` of them. */
  lemma {:induction false} CatalogHasShape(dim: nat, lengths: map<Name, nat>)
    ensures CatalogShape(Catalog(dim, lengths), dim, lengths)
    ensures forall n, p :: n in lengths ==> (p in Catalog(dim, lengths)[n] <==> StraightRun(p, lengths[n], dim))
    ensures forall n :: n in lengths ==> |Catalog(dim, lengths)[n]| == 2 * Anchors(dim, lengths[n]) * dim
  {
    var m := Catalog(dim, lengths);
    forall n, p | n in lengths ensures p in m[n] <==> StraightRun(p, lengths[n], dim) {
      InInterleavedLayouts(dim, lengths[n], p);
    }
    forall n, p | n in m && p in m[n] ensures |p| == lengths[n] && p <= Grid(dim) {
      InInterleavedLayouts(dim, lengths[n], p);
      StraightRunInBounds(p, lengths[n], dim);
    }
    forall n | n in lengths ensures |m[n]| == 2 * Anchors(dim, lengths[n]) * dim {
      CatalogSize(dim, lengths[n]);
    }
  }

  /** `generateComponentLayouts()`, lines 21-34: one list per name, the
      names taken in the order `keys` in which `set(self.names)` yields
      them. */
  method GenerateComponentLayouts(dim: nat, lengths: map<Name, nat>, keys: seq<Name>)
    returns (catalog: map<Name, seq<Placement>>)
    requires Elems(keys) == lengths.Keys
    ensures catalog == Catalog(dim, lengths)
  {
    catalog := map[];
    var k := 0;
    while k < |keys|
      invariant 0 <= k <= |keys|
      invariant catalog.Keys == Elems(keys[..k])
      invariant forall n :: n in catalog ==> catalog[n] == InterleavedLayouts(dim, lengths[n])
    {
      var name := keys[k];
      assert name in Elems(keys);
      var orientations := Orientations(dim, lengths[name]);
      catalog := catalog[name := orientations];
      assert keys[..k + 1] == keys[..k] + [name];
      k := k + 1;
    }
    assert keys[..k] == keys;
  }

  /** Lines 41-46 for one ship: arbitrary layouts of its list are drawn
      until one fits beside the cells taken (`fuel` failed draws at
      most). */
  method DrawBeside(layouts: seq<Placement>, taken: set<Cell>, fuel: nat) returns (r: Outcome<Placement>)
    requires layouts != []
    ensures !r.Raised?
    ensures r.Ok? ==> r.value in layouts && r.value !! taken
  {
    var f := fuel;
    while true
      decreases f
    {
      var i :| 0 <= i < |layouts|;
      var shipCoords := layouts[i];
      if FitsBeside(taken, shipCoords) {
        return Ok(shipCoords);
      }
      if f == 0 {
        return OutOfFuel;
      }
      f := f - 1;
    }
  }

  /** `randomBoard()`, lines 36-47: the ships in `order`, each placed on
      arbitrary layouts of its catalog list until one fits beside the ships
      placed before it. `np.random.randint(0)` raises for a ship with an
      empty list, and a name missing from the catalog raises `KeyError`. */
  method RandomBoard(catalog: map<Name, seq<Placement>>, order: seq<Name>, fuel: nat)
    returns (r: Outcome<(seq<Boat>, set<Cell>)>)
    ensures r.Ok? ==> BoatNames(r.value.0) == order
    ensures r.Ok? ==> GroundTruth(r.value.0, order, catalog)
    ensures r.Ok? ==> r.value.1 == BoatCells(r.value.0)
    ensures r.Raised? ==> exists n :: n in order && (n !in catalog || catalog[n] == [])
  {
    var boats, finalSet, k := [], {}, 0;
    while k < |order|
      invariant 0 <= k <= |order|
      invariant BoatNames(boats) == order[..k]
      invariant GroundTruth(boats, order[..k], catalog)
      invariant finalSet == BoatCells(boats)
    {
      var name := order[k];
      if name !in catalog || catalog[name] == [] {
        r := Raised;
        return;
      }
      var drawn := DrawBeside(catalog[name], finalSet, fuel);
      if drawn.OutOfFuel? {
        r := OutOfFuel;
        return;
      }
      var shipCoords := drawn.value;
      GroundTruthSnoc(boats, order[..k], catalog, name, shipCoords);
      assert order[..k + 1] == order[..k] + [name];
      boats, finalSet, k := boats + [Boat(name, shipCoords)], finalSet + shipCoords, k + 1;
    }
    assert order[..k] == order;
    r := Ok((boats, finalSet));
  }

  /** How the draws for one ship ended: on a candidate fitting beside the
      cells taken so far, or with the ship's time budget spent. */
  datatype Pick = Placed(layout: Placement) | TimedOut

  /** Lines 89-98 for one ship: arbitrary candidates are drawn until one
      fits beside the cells taken; the budget `lag / 10` is modelled as
      `patience` failed draws, after which the next failure gives up. An
      empty candidate list raises (`randint(0)`), as does a missing name. */
  method PlaceShip(cond: map<Name, seq<Placement>>, name: Name, taken: set<Cell>, patience: nat)
    returns (r: Outcome<Pick>)
    ensures !r.OutOfFuel?
    ensures r.Raised? <==> name !in cond || cond[name] == []
    ensures r.Ok? && r.value.Placed? ==> r.value.layout in cond[name] && r.value.layout !! taken
    ensures r.Ok? && r.value.TimedOut? ==> exists p :: p in cond[name] && !(p !! taken)
  {
    if name !in cond || cond[name] == [] {
      return Raised;
    }
    var failures := 0;
    while true
      invariant failures <= patience
      decreases patience - failures
    {
      var i :| 0 <= i < |cond[name]|;
      var shipCoords := cond[name][i];
      if FitsBeside(taken, shipCoords) {
        return Ok(Placed(shipCoords));
      }
      if failures == patience {
        assert shipCoords in cond[name];
        return Ok(TimedOut);
      }
      failures := failures + 1;
    }
  }

  /** Lines 87-98: one pass over the ships of `order`, starting from the
      pinned cells `mustHappen`. `Ok(false)` is `return set()`,
      when some ship's time budget ran out. */
  method Pass(cond: map<Name, seq<Placement>>, order: seq<Name>, mustHappen: set<Cell>, patience: nat)
    returns (r: Outcome<bool>, ghost placed: map<Name, Placement>, finalSet: set<Cell>)
    requires Distinct(order)
    ensures !r.OutOfFuel?
    ensures Fits(placed, cond, mustHappen)
    ensures finalSet == mustHappen + Cover(placed)
    ensures r.Ok? && r.value ==> placed.Keys == Elems(order)
    ensures r.Raised? ==> exists n :: n in order && (n !in cond || cond[n] == [])
  {
    placed, finalSet := map[], mustHappen;
    var k := 0;
    while k < |order|
      invariant 0 <= k <= |order|
      invariant placed.Keys == Elems(order[..k])
      invariant Fits(placed, cond, mustHappen)
      invariant finalSet == mustHappen + Cover(placed)
    {
      var name := order[k];
      var pick := PlaceShip(cond, name, finalSet, patience);
      if pick.Raised? {
        r := Raised;
        return;
      }
      if pick.value.TimedOut? {
        r := Ok(false);
        return;
      }
      assert name !in placed by {
        assert forall i :: 0 <= i < k ==> order[i] != order[k];
      }
      PlaceFits(placed, cond, mustHappen, name, pick.value.layout);
      placed := placed[name := pick.value.layout];
      finalSet := finalSet + pick.value.layout;
      assert order[..k + 1] == order[..k] + [name];
      k := k + 1;
    }
    assert order[..k] == order;
    r := Ok(true);
  }

  /** `randomSelection(order, mustHappen)`, lines 85-101: passes over the
      ships, always in the same order, until a board holds every hit (the
      size test of line 100); `Stuck` when a pass ran out of time (`set()`).
      `fuel` bounds the passes. */
  method RandomSelection(cond: map<Name, seq<Placement>>, hits: set<Cell>, order: seq<Name>,
                         mustHappen: set<Cell>, patience: nat, fuel: nat)
    returns (r: Outcome<Sample>, ghost placed: map<Name, Placement>)
    requires Distinct(order)
    ensures r.Ok? && r.value.Drawn? ==> Sampled(r.value.cells, placed, cond, Elems(order), hits, mustHappen)
    ensures r.Raised? ==> exists n :: n in order && (n !in cond || cond[n] == [])
  {
    placed := map[];
    var f := fuel;
    while f > 0
      decreases f
    {
      var pass, w, finalSet := Pass(cond, order, mustHappen, patience);
      placed := w;
      if pass.Raised? {
        r := Raised;
        return;
      }
      if !pass.value {
        r := Ok(Stuck);
        return;
      }
      if CoversHits(finalSet, hits) {
        var cells := Enumerate(finalSet);
        r := Ok(Drawn(cells));
        return;
      }
      f := f - 1;
    }
    r := OutOfFuel;
  }

  /** `randomConditionalBoard(orderIncoming)`, lines 103-114: the sunk
      ships leave the order and pin their cells, then `randomSelection` is
      called until it returns a non-empty board. */
  method RandomConditionalBoard(cond: map<Name, seq<Placement>>, hits: set<Cell>, boats: seq<Boat>,
                                names: seq<Name>, sunk: set<Name>, orderIncoming: seq<Name>,
                                patience: nat, fuel: nat)
    returns (r: Outcome<seq<Cell>>, ghost placed: map<Name, Placement>)
    requires Distinct(names) && Distinct(orderIncoming)
    ensures r.Ok? ==> |r.value| > 0
    ensures r.Ok? ==> Sampled(r.value, placed, cond, Elems(orderIncoming) - (Elems(names) * sunk),
                              hits, SunkLocations(boats, names, sunk))
    ensures r.Raised? ==> (exists n :: n in names && n in sunk && (n !in orderIncoming || n !in BoatNames(boats)))
                          || (exists n :: n in orderIncoming && (n !in cond || cond[n] == []))
  {
    placed := map[];
    var dropped := DropSunk(boats, names, sunk, orderIncoming);
    if dropped.Raised? {
      r := Raised;
      return;
    }
    var order, mustHappen := dropped.value.0, dropped.value.1;
    var f := fuel;
    while f > 0
      decreases f
    {
      var s, w := RandomSelection(cond, hits, order, mustHappen, patience, f);
      if s.Raised? {
        var n :| n in order && (n !in cond || cond[n] == []);
        assert n in Elems(order);
        r := Raised;
        return;
      }
      if s.OutOfFuel? {
        r := OutOfFuel;
        return;
      }
      if s.value.Drawn? && |s.value.cells| > 0 {
        r, placed := Ok(s.value.cells), w;
        return;
      }
      f := f - 1;
    }
    r := OutOfFuel;
  }
}
