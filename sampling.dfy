/** What both variants' conditional samplers produce and promise: a board
    of one candidate per remaining ship, no two sharing a cell, around the
    cells pinned by sunk ships (`mustHappen`), covering every hit. */
module Sampling {
  import opened Seqs
  import opened Cells
  import opened Evidence

  /** What one call of the sampler produced: `set()` when some ship had no
      candidate left, or `list(final_set)`. */
  datatype Sample = Stuck | Drawn(cells: seq<Cell>)

  /** A partial board of the sampler: each placed ship sits on one of its
      candidates, no two placed ships share a cell, and none touches the
      cells pinned by sunk ships. */
  ghost predicate Fits(placed: map<Name, Placement>, cond: map<Name, seq<Placement>>, mustHappen: set<Cell>) {
    && (forall n :: n in placed ==> n in cond && placed[n] in cond[n])
    && PairwiseDisjoint(placed)
    && Cover(placed) !! mustHappen
  }

  /** `list(final_set)` of a successful draw: the pinned cells plus one
      candidate for each ship of `ships`, all placements disjoint, covering
      every hit. */
  ghost predicate Sampled(cells: seq<Cell>, placed: map<Name, Placement>, cond: map<Name, seq<Placement>>,
                          ships: set<Name>, hits: set<Cell>, mustHappen: set<Cell>) {
    && Distinct(cells)
    && Elems(cells) == mustHappen + Cover(placed)
    && hits <= Elems(cells)
    && placed.Keys == ships
    && Fits(placed, cond, mustHappen)
  }

  /** Placing one more ship on a candidate that avoids the cells taken so
      far keeps the partial board fitting. */
  lemma {:induction false} PlaceFits(placed: map<Name, Placement>, cond: map<Name, seq<Placement>>, mustHappen: set<Cell>,
                                     name: Name, pick: Placement)
    requires Fits(placed, cond, mustHappen) && name !in placed
    requires name in cond && pick in cond[name] && pick !! mustHappen + Cover(placed)
    ensures Fits(placed[name := pick], cond, mustHappen)
    ensures Cover(placed[name := pick]) == Cover(placed) + pick
  {
    var b := placed[name := pick];
    assert forall n :: n in b ==> n in cond && b[n] in cond[n];
    assert PairwiseDisjoint(b) && Cover(b) == Cover(placed) + pick by {
      CoverAdd(placed, name, pick);
    }
  }

  /** Lines 186-191 of the Bayesian variant and 104-109 of the statistics
      one: removes each ship marked sunk, taken in dictionary
      order, from the order (`order.remove` raises `ValueError` for one not
      in it) and collects its true cells into `mustHappen`
      (`dict(self.boats)[name]` raises `KeyError` for one not on the
      board). */
  method DropSunk(boats: seq<Boat>, names: seq<Name>, sunk: set<Name>, orderIncoming: seq<Name>)
    returns (r: Outcome<(seq<Name>, set<Cell>)>)
    requires Distinct(names) && Distinct(orderIncoming)
    ensures r.Raised? <==> exists n :: n in names && n in sunk && (n !in orderIncoming || n !in BoatNames(boats))
    ensures !r.OutOfFuel?
    ensures r.Ok? ==> Distinct(r.value.0)
    ensures r.Ok? ==> Elems(r.value.0) == Elems(orderIncoming) - (Elems(names) * sunk)
    ensures r.Ok? ==> r.value.1 == SunkLocations(boats, names, sunk)
  {
    var order, mustHappen := orderIncoming, {};
    var k := 0;
    while k < |names|
      invariant 0 <= k <= |names|
      invariant Distinct(order)
      invariant forall n :: n in order <==> n in orderIncoming && !(n in names[..k] && n in sunk)
      invariant mustHappen == SunkLocations(boats, names[..k], sunk)
      invariant forall n :: n in names[..k] && n in sunk ==> n in orderIncoming && n in BoatNames(boats)
    {
      var n := names[k];
      assert names[..k + 1] == names[..k] + [n];
      SunkLocationsSnoc(boats, names[..k], n, sunk);
      if n in sunk {
        assert n !in names[..k] by {
          assert forall i :: 0 <= i < k ==> names[i] != names[k];
        }
        if n !in order {
          r := Raised;
          return;
        }
        RemoveFirstDistinct(order, n);
        order := RemoveFirst(order, n);
        if n !in BoatNames(boats) {
          r := Raised;
          return;
        }
        mustHappen := mustHappen + LocationOf(boats, n);
      }
      k := k + 1;
    }
    assert names[..k] == names;
    r := Ok((order, mustHappen));
  }
}
