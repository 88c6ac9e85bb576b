/** What both variants' `updateOrientations` and `randomConditionalBoard`
    derive from the shots fired so far: which ships are sunk, the cells they
    pin down (`hitsSunk`, `mustHappen`), and the pruning of candidate
    placements that touch a miss or a sunk ship. */
module Evidence {
  import opened Seqs
  import opened Cells
  import opened Ordering

  /** The names of the boats every cell of which has been hit. */
  function SunkNow(boats: seq<Boat>, hits: set<Cell>): set<Name> {
    set k | 0 <= k < |boats| && boats[k].location <= hits :: boats[k].name
  }

  /** The cells of those boats: what the sink loop adds to `hitsSunk`. */
  function SunkCells(boats: seq<Boat>, hits: set<Cell>): (r: set<Cell>)
    ensures r <= hits
  {
    set k, c | 0 <= k < |boats| && boats[k].location <= hits && c in boats[k].location :: c
  }

  /** `mustHappen`: the union of `dict(self.boats)[n]` over the names `n`
      of `names` that are marked sunk. */
  function SunkLocations(boats: seq<Boat>, names: seq<Name>, sunk: set<Name>): set<Cell> {
    set n, c | n in names && n in sunk && c in LocationOf(boats, n) :: c
  }

  /** The candidate lists after the sink loop: each ship sunk now is fixed to
      the one-element list holding its true location, every other list is
      kept. */
  function FixSunk(cond: map<Name, seq<Placement>>, boats: seq<Boat>, hits: set<Cell>): (r: map<Name, seq<Placement>>)
    ensures r.Keys == cond.Keys + SunkNow(boats, hits)
  {
    map n | n in cond.Keys + SunkNow(boats, hits) ::
      if n in SunkNow(boats, hits) then [LocationOf(boats, n)] else cond[n]
  }

  /** A candidate survives when it avoids every miss and every cell of a
      sunk ship. */
  predicate Survives(p: Placement, misses: set<Cell>, hitsSunk: set<Cell>) {
    misses !! p && p !! hitsSunk
  }

  /** `[config for config in configs if misses.isdisjoint(config) and
      config.isdisjoint(hitsSunk)]`. */
  function Prune(configs: seq<Placement>, misses: set<Cell>, hitsSunk: set<Cell>): (r: seq<Placement>)
    ensures forall p :: p in r <==> p in configs && Survives(p, misses, hitsSunk)
    ensures forall p :: multiset(r)[p] == if Survives(p, misses, hitsSunk) then multiset(configs)[p] else 0
    ensures multiset(r) <= multiset(configs)
  {
    forall p ensures multiset(Filter(configs, p => Survives(p, misses, hitsSunk)))[p]
                  == if Survives(p, misses, hitsSunk) then multiset(configs)[p] else 0 {
      FilterCount(configs, p => Survives(p, misses, hitsSunk), p);
    }
    Filter(configs, p => Survives(p, misses, hitsSunk))
  }

  /** Every candidate of a ship that is not sunk avoids the misses and the
      sunk cells: the state `updateOrientations` leaves behind. */
  ghost predicate Settled(cond: map<Name, seq<Placement>>, sunk: set<Name>, misses: set<Cell>, hitsSunk: set<Cell>) {
    forall n, p :: n in cond && n !in sunk && p in cond[n] ==> Survives(p, misses, hitsSunk)
  }

  /** The true location of every boat is still among its ship's candidates. */
  ghost predicate Admits(cond: map<Name, seq<Placement>>, boats: seq<Boat>) {
    forall k :: 0 <= k < |boats| ==> boats[k].name in cond && boats[k].location in cond[boats[k].name]
  }

  /** Marking the ships sunk now as sunk adds exactly their cells to the
      pinned-down cells, when every boat name is a ship name and occurs
      once. */
  lemma {:induction false} SunkLocationsGrow(boats: seq<Boat>, names: seq<Name>, sunk: set<Name>, hits: set<Cell>)
    requires Distinct(BoatNames(boats)) && Elems(BoatNames(boats)) <= Elems(names)
    ensures SunkLocations(boats, names, sunk + SunkNow(boats, hits))
         == SunkLocations(boats, names, sunk) + SunkCells(boats, hits)
  {
    var now := SunkNow(boats, hits);
    forall c | c in SunkCells(boats, hits)
      ensures c in SunkLocations(boats, names, sunk + now)
    {
      var k :| 0 <= k < |boats| && boats[k].location <= hits && c in boats[k].location;
      LocationOfAt(boats, k);
      assert boats[k].name == BoatNames(boats)[k];
      assert boats[k].name in Elems(BoatNames(boats));
    }
    forall c | c in SunkLocations(boats, names, sunk + now)
      ensures c in SunkLocations(boats, names, sunk) + SunkCells(boats, hits)
    {
      var n :| n in names && n in sunk + now && c in LocationOf(boats, n);
      if n !in sunk {
        var k :| 0 <= k < |boats| && boats[k].location <= hits && boats[k].name == n;
        LocationOfAt(boats, k);
      }
    }
  }

  /** The sink loop fixes each ship sunk now to its true location, so a
      board that was admitted stays admitted. */
  lemma {:induction false} FixSunkAdmits(cond: map<Name, seq<Placement>>, boats: seq<Boat>, hits: set<Cell>)
    requires Distinct(BoatNames(boats)) && Admits(cond, boats)
    ensures Admits(FixSunk(cond, boats, hits), boats)
  {
    var r := FixSunk(cond, boats, hits);
    forall k | 0 <= k < |boats| ensures boats[k].location in r[boats[k].name] {
      if boats[k].name in SunkNow(boats, hits) {
        LocationOfAt(boats, k);
      }
    }
  }

  /** Pruning never drops a boat's true location: a true location avoids
      every miss, and avoids the cells of every other (sunk) boat. */
  lemma {:induction false} PruneAdmits(boats: seq<Boat>, k: nat, misses: set<Cell>, hitsSunk: set<Cell>, configs: seq<Placement>)
    requires k < |boats| && boats[k].location in configs
    requires misses !! BoatCells(boats)
    requires hitsSunk !! boats[k].location
    ensures boats[k].location in Prune(configs, misses, hitsSunk)
  {
    assert forall c :: c in boats[k].location ==> c in BoatCells(boats);
  }

  /** The cells pinned by sunk ships other than `boats[k]` miss `boats[k]`,
      because no two boats share a cell. */
  lemma {:induction false} SunkLocationsAvoid(boats: seq<Boat>, names: seq<Name>, sunk: set<Name>, k: nat)
    requires k < |boats| && boats[k].name !in sunk
    requires Distinct(BoatNames(boats))
    requires forall n :: n in names && n in sunk ==> n in BoatNames(boats)
    requires forall i, j :: 0 <= i < j < |boats| ==> boats[i].location !! boats[j].location
    ensures SunkLocations(boats, names, sunk) !! boats[k].location
  {
    forall c | c in SunkLocations(boats, names, sunk) ensures c !in boats[k].location {
      var n :| n in names && n in sunk && c in LocationOf(boats, n);
      var i :| 0 <= i < |BoatNames(boats)| && BoatNames(boats)[i] == n;
      LocationOfAt(boats, i);
      assert i != k;
      if i < k {
        assert boats[i].location !! boats[k].location;
      } else {
        assert boats[k].location !! boats[i].location;
      }
    }
  }

  /** `possibleShipsNumDictCond`: each ship's number of remaining
      candidates. */
  function Counts(cond: map<Name, seq<Placement>>): (m: map<Name, int>)
    ensures m.Keys == cond.Keys
    ensures forall n :: n in m ==> m[n] == |cond[n]|
  {
    map n | n in cond :: |cond[n]|
  }

  /** `[k for k, _ in sorted(counts.items(), key=lambda item: item[1])]`
      over a dictionary whose keys are listed in `keys`: the ships in
      ascending order of their number of candidates, ties kept in
      dictionary order. */
  function ShipOrder(cond: map<Name, seq<Placement>>, keys: seq<Name>): (order: seq<Name>)
    requires forall n :: n in keys ==> n in cond
    ensures multiset(order) == multiset(keys)
    ensures forall n :: n in order ==> n in Counts(cond)
    ensures SortedBy(order, Counts(cond))
    ensures forall k :: WithKey(order, Counts(cond), k) == WithKey(keys, Counts(cond), k)
  {
    forall k ensures WithKey(SortByKey(keys, Counts(cond)), Counts(cond), k) == WithKey(keys, Counts(cond), k) {
      SortByKeyStable(keys, Counts(cond), k);
    }
    SortByKey(keys, Counts(cond))
  }

  /** Walking one more name adds its location when it is marked sunk. */
  lemma {:induction false} SunkLocationsSnoc(boats: seq<Boat>, names: seq<Name>, n: Name, sunk: set<Name>)
    ensures SunkLocations(boats, names + [n], sunk)
         == SunkLocations(boats, names, sunk) + if n in sunk then LocationOf(boats, n) else {}
  {
    var ns := names + [n];
    forall c | c in SunkLocations(boats, ns, sunk)
      ensures c in SunkLocations(boats, names, sunk) + if n in sunk then LocationOf(boats, n) else {}
    {
      var m :| m in ns && m in sunk && c in LocationOf(boats, m);
      if m != n {
        assert m in names;
      }
    }
    assert forall m :: m in names ==> m in ns;
  }

  /** The pruning loop of `updateOrientations`: every ship not marked sunk
      keeps only its surviving candidates; a sunk ship keeps its list. */
  function PruneAll(cond: map<Name, seq<Placement>>, sunk: set<Name>, misses: set<Cell>, hitsSunk: set<Cell>)
    : (r: map<Name, seq<Placement>>)
    ensures r.Keys == cond.Keys
    ensures forall n :: n in cond && n in sunk ==> r[n] == cond[n]
    ensures forall n :: n in cond ==> multiset(r[n]) <= multiset(cond[n])
    ensures forall n, p :: n in cond && n !in sunk ==>
      (p in r[n] <==> p in cond[n] && Survives(p, misses, hitsSunk))
    ensures Settled(r, sunk, misses, hitsSunk)
  {
    map n | n in cond :: if n in sunk then cond[n] else Prune(cond[n], misses, hitsSunk)
  }

  /** Every candidate of every ship is one of the ship's catalog layouts. */
  ghost predicate WithinCatalog(cond: map<Name, seq<Placement>>, catalog: map<Name, seq<Placement>>) {
    forall n, p :: n in cond && p in cond[n] ==> n in catalog && p in catalog[n]
  }

  /** Dropping candidates keeps the candidates within the catalog and keeps
      every surviving candidate surviving. */
  lemma {:induction false} ShrinkKeeps(before: map<Name, seq<Placement>>, after: map<Name, seq<Placement>>,
                                       catalog: map<Name, seq<Placement>>,
                                       sunk: set<Name>, misses: set<Cell>, hitsSunk: set<Cell>)
    requires after.Keys == before.Keys
    requires forall n :: n in before ==> multiset(after[n]) <= multiset(before[n])
    ensures WithinCatalog(before, catalog) ==> WithinCatalog(after, catalog)
    ensures Settled(before, sunk, misses, hitsSunk) ==> Settled(after, sunk, misses, hitsSunk)
  {
    forall n, p | n in after && p in after[n] ensures p in before[n] {
      assert p in multiset(after[n]);
    }
  }

  /** Fixing the ships sunk now to their true locations keeps the candidates
      within the catalog, and only drops candidates, when the board was
      admitted and every boat sits on a catalog layout. */
  lemma {:induction false} FixSunkShrinks(cond: map<Name, seq<Placement>>, boats: seq<Boat>, hits: set<Cell>)
    requires Distinct(BoatNames(boats)) && Admits(cond, boats)
    ensures FixSunk(cond, boats, hits).Keys == cond.Keys
    ensures forall n :: n in cond ==> multiset(FixSunk(cond, boats, hits)[n]) <= multiset(cond[n])
  {
    var r := FixSunk(cond, boats, hits);
    forall n | n in SunkNow(boats, hits) ensures n in cond && LocationOf(boats, n) in cond[n] {
      var k :| 0 <= k < |boats| && boats[k].location <= hits && boats[k].name == n;
      LocationOfAt(boats, k);
    }
    forall n | n in cond ensures multiset(r[n]) <= multiset(cond[n]) {
      if n in SunkNow(boats, hits) {
        assert LocationOf(boats, n) in multiset(cond[n]);
      }
    }
  }

  /** The sink loop keeps the candidates within the catalog when every boat
      sits on one of its catalog layouts. */
  lemma {:induction false} FixSunkWithin(cond: map<Name, seq<Placement>>, boats: seq<Boat>, hits: set<Cell>,
                                         catalog: map<Name, seq<Placement>>)
    requires Distinct(BoatNames(boats)) && WithinCatalog(cond, catalog)
    requires forall k :: 0 <= k < |boats| ==> boats[k].name in catalog && boats[k].location in catalog[boats[k].name]
    ensures WithinCatalog(FixSunk(cond, boats, hits), catalog)
  {
    var r := FixSunk(cond, boats, hits);
    forall n, p | n in r && p in r[n] ensures n in catalog && p in catalog[n] {
      if n in SunkNow(boats, hits) {
        var k :| 0 <= k < |boats| && boats[k].location <= hits && boats[k].name == n;
        LocationOfAt(boats, k);
      }
    }
  }

  /** Pruning keeps every boat's true location: it avoids the misses, and
      the cells of the other, sunk, boats. */
  lemma {:induction false} PruneAllAdmits(cond: map<Name, seq<Placement>>, boats: seq<Boat>, names: seq<Name>,
                                          sunk: set<Name>, misses: set<Cell>)
    requires Admits(cond, boats) && Distinct(BoatNames(boats))
    requires forall n :: n in names && n in sunk ==> n in BoatNames(boats)
    requires forall i, j :: 0 <= i < j < |boats| ==> boats[i].location !! boats[j].location
    requires misses !! BoatCells(boats)
    ensures Admits(PruneAll(cond, sunk, misses, SunkLocations(boats, names, sunk)), boats)
  {
    var hitsSunk := SunkLocations(boats, names, sunk);
    var r := PruneAll(cond, sunk, misses, hitsSunk);
    forall k | 0 <= k < |boats| ensures boats[k].location in r[boats[k].name] {
      if boats[k].name !in sunk {
        SunkLocationsAvoid(boats, names, sunk, k);
        PruneAdmits(boats, k, misses, hitsSunk, cond[boats[k].name]);
      }
    }
  }

  /** Walking one more boat of the sink loop. */
  lemma {:induction false} SunkSnoc(boats: seq<Boat>, hits: set<Cell>, k: nat)
    requires k < |boats|
    ensures SunkNow(boats[..k + 1], hits)
         == SunkNow(boats[..k], hits) + if boats[k].location <= hits then {boats[k].name} else {}
    ensures SunkCells(boats[..k + 1], hits)
         == SunkCells(boats[..k], hits) + if boats[k].location <= hits then boats[k].location else {}
  {
    var b, a := boats[..k + 1], boats[..k];
    assert forall i :: 0 <= i < k ==> b[i] == a[i] && a[i] == boats[i];
    assert b[k] == boats[k];
  }

  /** Walking one more boat of the sink loop: a boat found sunk has its list
      replaced by its true location, any other boat changes nothing. */
  lemma {:induction false} FixSunkSnoc(cond: map<Name, seq<Placement>>, boats: seq<Boat>, hits: set<Cell>, k: nat)
    requires k < |boats| && Distinct(BoatNames(boats))
    ensures FixSunk(cond, boats[..k + 1], hits)
         == if boats[k].location <= hits then FixSunk(cond, boats[..k], hits)[boats[k].name := [boats[k].location]]
            else FixSunk(cond, boats[..k], hits)
  {
    var b, a := boats[..k + 1], boats[..k];
    SunkSnoc(boats, hits, k);
    assert b[..k] == a && b[k] == boats[k];
    forall n | n in SunkNow(a, hits) ensures n != boats[k].name && LocationOf(b, n) == LocationOf(a, n) {
      var i :| 0 <= i < |a| && a[i].location <= hits && a[i].name == n;
      assert BoatNames(boats)[i] != BoatNames(boats)[k];
    }
  }
}
