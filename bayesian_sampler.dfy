/** The sampler of the Bayesian variant (BayesianSampling/Battleship.py):
    the unique-owner narrowing of `updateOrientations`, the greedy placement
    and three-round repair of `randomSelection`, `randomConditionalBoard`,
    `randomBoard`, and the reuse of last turn's boards in `buildAggBoard`.
    Random choices are arbitrary choices among the valid alternatives; loops
    that only end by luck get a step budget `fuel`. */
module BayesianSampler {
  import opened Seqs
  import opened Cells
  import opened Evidence
  import opened Sampling

  // ---------------------------------------------------------------------
  // The unique-owner step of updateOrientations
  // ---------------------------------------------------------------------

  /** `hit in set().union(*locations)`: some candidate of the list covers
      the hit. */
  predicate CoversHit(configs: seq<Placement>, hit: Cell) {
    hit in UnionAll(configs)
  }

  /** `temp`: the ships, in dictionary order, some candidate of which covers
      `hit`. */
  function Owners(cond: map<Name, seq<Placement>>, keys: seq<Name>, hit: Cell): (r: seq<Name>)
    ensures forall n :: n in r <==> n in keys && n in cond && CoversHit(cond[n], hit)
  {
    Filter(keys, n => n in cond && CoversHit(cond[n], hit))
  }

  /** `[k for k in configs if hit in k]`. */
  function Covering(configs: seq<Placement>, hit: Cell): (r: seq<Placement>)
    ensures forall p :: p in r <==> p in configs && hit in p
    ensures forall p :: multiset(r)[p] == if hit in p then multiset(configs)[p] else 0
    ensures multiset(r) <= multiset(configs)
  {
    forall p ensures multiset(Filter(configs, p => hit in p))[p] == if hit in p then multiset(configs)[p] else 0 {
      FilterCount(configs, p => hit in p, p);
    }
    Filter(configs, p => hit in p)
  }

  /** One pass of the unique-owner loop: when exactly one ship can cover
      `hit`, that ship keeps only its candidates covering `hit`. */
  function NarrowStep(cond: map<Name, seq<Placement>>, keys: seq<Name>, hit: Cell): (r: map<Name, seq<Placement>>)
    ensures r.Keys == cond.Keys
  {
    var owners := Owners(cond, keys, hit);
    if |owners| == 1 then cond[owners[0] := Covering(cond[owners[0]], hit)] else cond
  }

  /** The unique-owner loop over the hits, taken in the order `hs`. */
  function NarrowAll(cond: map<Name, seq<Placement>>, keys: seq<Name>, hs: seq<Cell>): (r: map<Name, seq<Placement>>)
    ensures r.Keys == cond.Keys
  {
    if hs == [] then cond
    else NarrowStep(NarrowAll(cond, keys, hs[..|hs| - 1]), keys, hs[|hs| - 1])
  }

  /** Narrowing only ever drops candidates; a list that changes belongs to
      the single owner of the hit, and keeps exactly its candidates covering
      the hit, of which there is at least one. */
  lemma NarrowStepEffect(cond: map<Name, seq<Placement>>, keys: seq<Name>, hit: Cell)
    ensures var r := NarrowStep(cond, keys, hit);
      forall n :: n in cond ==> multiset(r[n]) <= multiset(cond[n])
    ensures var r := NarrowStep(cond, keys, hit);
      forall n :: n in cond && r[n] != cond[n] ==> Owners(cond, keys, hit) == [n]
    ensures var r, owners := NarrowStep(cond, keys, hit), Owners(cond, keys, hit);
      |owners| == 1 ==>
        && (forall p :: p in r[owners[0]] <==> p in cond[owners[0]] && hit in p)
        && r[owners[0]] != []
  {
    var owners := Owners(cond, keys, hit);
    if |owners| == 1 {
      var o := owners[0];
      assert o in owners;
      var k :| 0 <= k < |cond[o]| && hit in cond[o][k];
      assert cond[o][k] in Covering(cond[o], hit);
      forall n | n in cond && NarrowStep(cond, keys, hit)[n] != cond[n]
        ensures owners == [n]
      {
        assert n == o;
      }
    }
  }

  /** Every list after the whole unique-owner loop is a sub-list of the list
      before it. */
  lemma {:induction false} NarrowAllShrinks(cond: map<Name, seq<Placement>>, keys: seq<Name>, hs: seq<Cell>)
    ensures forall n :: n in cond ==> multiset(NarrowAll(cond, keys, hs)[n]) <= multiset(cond[n])
  {
    if hs != [] {
      var before := NarrowAll(cond, keys, hs[..|hs| - 1]);
      NarrowAllShrinks(cond, keys, hs[..|hs| - 1]);
      NarrowStepEffect(before, keys, hs[|hs| - 1]);
    }
  }

  /** Narrowing on a hit of the true board never drops a boat's true
      location: the boat holding the hit is an owner of it, so if it is the
      only owner its true location is among the candidates kept. */
  lemma {:induction false} NarrowStepAdmits(cond: map<Name, seq<Placement>>, keys: seq<Name>, boats: seq<Boat>, hit: Cell)
    requires Admits(cond, boats) && Distinct(BoatNames(boats))
    requires Elems(BoatNames(boats)) <= Elems(keys)
    requires hit in BoatCells(boats)
    ensures Admits(NarrowStep(cond, keys, hit), boats)
  {
    var m :| 0 <= m < |boats| && hit in boats[m].location;
    var name := boats[m].name;
    var owners := Owners(cond, keys, hit);
    assert name in owners by {
      TrueBoatOwns(cond, keys, boats, m, hit);
    }
    if |owners| == 1 {
      assert owners[0] == name;
      var kept := Covering(cond[name], hit);
      assert boats[m].location in kept;
      AdmitsUpdate(cond, boats, m, kept);
    }
  }

  /** Replacing one ship's list by a list that still holds its true location
      keeps the board admitted. */
  lemma {:induction false} AdmitsUpdate(cond: map<Name, seq<Placement>>, boats: seq<Boat>, m: nat, kept: seq<Placement>)
    requires Admits(cond, boats) && Distinct(BoatNames(boats))
    requires m < |boats| && boats[m].location in kept
    ensures Admits(cond[boats[m].name := kept], boats)
  {
    var r := cond[boats[m].name := kept];
    forall k | 0 <= k < |boats| ensures boats[k].name in r && boats[k].location in r[boats[k].name] {
      if boats[k].name == boats[m].name {
        assert BoatNames(boats)[k] == BoatNames(boats)[m];
      }
    }
  }

  /** The ship whose true location holds a hit is an owner of that hit. */
  lemma {:induction false} TrueBoatOwns(cond: map<Name, seq<Placement>>, keys: seq<Name>, boats: seq<Boat>, m: nat, hit: Cell)
    requires Admits(cond, boats) && m < |boats| && hit in boats[m].location
    requires Elems(BoatNames(boats)) <= Elems(keys)
    ensures boats[m].name in Owners(cond, keys, hit)
  {
    var name := boats[m].name;
    assert name == BoatNames(boats)[m];
    assert name in Elems(keys);
    var configs := cond[name];
    var i :| 0 <= i < |configs| && configs[i] == boats[m].location;
    assert hit in configs[i];
  }

  /** The whole unique-owner loop keeps every true location among the
      candidates, since every hit lies on the true board. */
  lemma {:induction false} NarrowAllAdmits(cond: map<Name, seq<Placement>>, keys: seq<Name>, boats: seq<Boat>, hs: seq<Cell>)
    requires Admits(cond, boats) && Distinct(BoatNames(boats))
    requires Elems(BoatNames(boats)) <= Elems(keys)
    requires forall h :: h in hs ==> h in BoatCells(boats)
    ensures Admits(NarrowAll(cond, keys, hs), boats)
  {
    if hs != [] {
      var init := hs[..|hs| - 1];
      assert forall h :: h in init ==> h in hs;
      NarrowAllAdmits(cond, keys, boats, init);
      NarrowStepAdmits(NarrowAll(cond, keys, init), keys, boats, hs[|hs| - 1]);
    }
  }

  // ---------------------------------------------------------------------
  // randomSelection: greedy placement, repair, success test
  // ---------------------------------------------------------------------

  /** `alternatives` of the greedy phase: the candidates disjoint from the
      cells taken so far. */
  function Avoiding(configs: seq<Placement>, taken: set<Cell>): (r: seq<Placement>)
    ensures forall p :: p in r <==> p in configs && p !! taken
  {
    Filter(configs, p => p !! taken)
  }

  /** `alternatives` of the repair phase: the candidates disjoint from the
      other ships' cells that cover more of the uncovered hits than the
      ship's current placement covers hits. */
  function Improving(configs: seq<Placement>, others: set<Cell>, needed: set<Cell>, already: nat): (r: seq<Placement>)
    ensures forall p :: p in r <==> p in configs && p !! others && |needed * p| > already
  {
    Filter(configs, p => p !! others && |needed * p| > already)
  }

  /** Lines 148-155: place the ships of `order` one after the other, each
      on an arbitrary candidate disjoint from the cells taken so far.
      `stuck` reports the first ship with no such candidate. */
  method GreedyPass(cond: map<Name, seq<Placement>>, order: seq<Name>, mustHappen: set<Cell>)
    returns (placed: map<Name, Placement>, finalSet: set<Cell>, stuck: bool)
    requires forall n :: n in order ==> n in cond
    requires Distinct(order)
    ensures Fits(placed, cond, mustHappen)
    ensures finalSet == mustHappen + Cover(placed)
    ensures !stuck ==> placed.Keys == Elems(order)
    ensures stuck ==> exists k :: 0 <= k < |order| && placed.Keys == Elems(order[..k])
                                  && Avoiding(cond[order[k]], finalSet) == []
  {
    placed, finalSet, stuck := map[], mustHappen, false;
    var k := 0;
    while k < |order|
      invariant 0 <= k <= |order|
      invariant placed.Keys == Elems(order[..k])
      invariant Fits(placed, cond, mustHappen)
      invariant finalSet == mustHappen + Cover(placed)
    {
      var name := order[k];
      var alternatives := Avoiding(cond[name], finalSet);
      if alternatives == [] {
        stuck := true;
        return;
      }
      assert alternatives[0] in alternatives;
      var pick :| pick in alternatives;
      assert name !in placed by {
        assert forall i :: 0 <= i < k ==> order[i] != order[k];
      }
      PlaceFits(placed, cond, mustHappen, name, pick);
      placed := placed[name := pick];
      finalSet := finalSet + pick;
      assert order[..k + 1] == order[..k] + [name];
      k := k + 1;
    }
    assert order[..k] == order;
  }

  /** A repair swap strictly increases the number of covered hits: the
      replaced placement covered `|was * hits|` hits, the new one covers more
      than that many hits nothing else covered, and both avoid the other
      ships' cells. */
  lemma {:induction false} SwapCoversMore(hits: set<Cell>, others: set<Cell>, was: Placement, now: Placement)
    requires was !! others && now !! others
    requires |(hits - (others + was)) * now| > |was * hits|
    ensures |hits * (others + now)| > |hits * (others + was)|
  {
    var needed := hits - (others + was);
    assert hits * (others + was) == hits * others + hits * was;
    assert (hits * others) * (hits * was) == {};
    assert was * hits == hits * was;
    assert (hits * others) * (needed * now) == {};
    SubsetCard(hits * others + needed * now, hits * (others + now));
  }

  /** Lines 164-174 for one ship `n`: if its placement does not cover as
      many hits as it has cells, it may move to an improving candidate that
      avoids all other cells; `covered` reports that every hit is then
      covered. */
  method RepairShip(cond: map<Name, seq<Placement>>, lengths: map<Name, nat>, hits: set<Cell>,
                    mustHappen: set<Cell>, n: Name, placed: map<Name, Placement>)
    returns (repaired: map<Name, Placement>, covered: bool)
    requires n in placed && n in cond && n in lengths
    requires Fits(placed, cond, mustHappen)
    ensures repaired.Keys == placed.Keys && Fits(repaired, cond, mustHappen)
    ensures covered <==> hits <= mustHappen + Cover(repaired)
    ensures repaired == placed ||
      |hits * (mustHappen + Cover(repaired))| > |hits * (mustHappen + Cover(placed))|
    ensures forall m :: m in placed && m != n ==> repaired[m] == placed[m]
    ensures repaired != placed ==>
      && |placed[n] * hits| < lengths[n]
      && repaired[n] in Improving(cond[n], mustHappen + Cover(placed - {n}),
                                  hits - (mustHappen + Cover(placed)), |placed[n] * hits|)
  {
    repaired := placed;
    var finalSet := mustHappen + Cover(placed);
    var needed := hits - finalSet;
    var already := |placed[n] * hits|;
    if already < lengths[n] {
      var others := mustHappen + Cover(placed - {n});
      var alternatives := Improving(cond[n], others, needed, already);
      if alternatives != [] {
        assert alternatives[0] in alternatives;
        var pick :| pick in alternatives;
        assert Fits(placed[n := pick], cond, mustHappen) &&
          |hits * (mustHappen + Cover(placed[n := pick]))| > |hits * finalSet| by {
          SwapImproves(placed, cond, mustHappen, hits, n, pick);
        }
        assert forall m :: m in placed && m != n ==> placed[n := pick][m] == placed[m];
        assert placed[n := pick].Keys == placed.Keys;
        repaired := placed[n := pick];
        assert repaired[n] in alternatives;
      }
    }
    covered := hits <= mustHappen + Cover(repaired);
  }

  /** Moving ship `n` to a candidate that avoids the pinned cells and the
      other ships, and covers more uncovered hits than `n` covered hits,
      keeps the partial board fitting and covers strictly more hits. */
  lemma {:induction false} SwapImproves(placed: map<Name, Placement>, cond: map<Name, seq<Placement>>, mustHappen: set<Cell>,
                                        hits: set<Cell>, n: Name, pick: Placement)
    requires Fits(placed, cond, mustHappen) && n in placed && n in cond && pick in cond[n]
    requires pick !! mustHappen + Cover(placed - {n})
    requires |(hits - (mustHappen + Cover(placed))) * pick| > |placed[n] * hits|
    ensures Fits(placed[n := pick], cond, mustHappen)
    ensures |hits * (mustHappen + Cover(placed[n := pick]))| > |hits * (mustHappen + Cover(placed))|
  {
    var others, was := mustHappen + Cover(placed - {n}), placed[n];
    var before, after := mustHappen + Cover(placed), mustHappen + Cover(placed[n := pick]);
    assert Fits(placed[n := pick], cond, mustHappen) && after == others + pick
      && before == others + was && was !! others by {
      MovePreservesFits(placed, cond, mustHappen, n, pick);
    }
    assert |hits * (others + pick)| > |hits * (others + was)| by {
      assert hits - before == hits - (others + was);
      SwapCoversMore(hits, others, was, pick);
    }
  }

  /** Moving ship `n` to a candidate that avoids the pinned cells and the
      other ships keeps the partial board fitting. */
  lemma {:induction false} MovePreservesFits(placed: map<Name, Placement>, cond: map<Name, seq<Placement>>, mustHappen: set<Cell>,
                                             n: Name, pick: Placement)
    requires Fits(placed, cond, mustHappen) && n in placed && n in cond && pick in cond[n]
    requires pick !! mustHappen + Cover(placed - {n})
    ensures Fits(placed[n := pick], cond, mustHappen)
    ensures Cover(placed[n := pick]) == Cover(placed - {n}) + pick
    ensures mustHappen + Cover(placed) == (mustHappen + Cover(placed - {n})) + placed[n]
    ensures placed[n] !! mustHappen + Cover(placed - {n})
  {
    var b := placed[n := pick];
    assert forall m :: m in b ==> m in cond && b[m] in cond[m];
    assert PairwiseDisjoint(b) && Cover(b) == Cover(placed - {n}) + pick && Cover(placed - {n}) <= Cover(placed) by {
      CoverReplace(placed, n, pick);
    }
    assert Cover(placed) == Cover(placed - {n}) + placed[n] by {
      assert placed[n := placed[n]] == placed;
      CoverSplit(placed, n, placed[n]);
    }
    assert placed[n] !! Cover(placed - {n}) by {
      forall c | c in Cover(placed - {n}) ensures c !in placed[n] {
        var m :| m in placed - {n} && c in (placed - {n})[m];
        assert placed[m] !! placed[n];
      }
    }
  }

  /** Lines 159-174: up to three rounds over the ships, in the order their
      entries were first made, trying to move each towards the uncovered
      hits; stops as soon as every hit is covered. The number of covered
      hits never drops. */
  method Repair(cond: map<Name, seq<Placement>>, lengths: map<Name, nat>, hits: set<Cell>,
                mustHappen: set<Cell>, keys: seq<Name>, placed: map<Name, Placement>)
    returns (repaired: map<Name, Placement>, covered: bool)
    requires forall n :: n in keys ==> n in cond && n in lengths
    requires placed.Keys == Elems(keys) && Fits(placed, cond, mustHappen)
    ensures repaired.Keys == placed.Keys && Fits(repaired, cond, mustHappen)
    ensures covered <==> hits <= mustHappen + Cover(repaired)
    ensures |hits * (mustHappen + Cover(repaired))| >= |hits * (mustHappen + Cover(placed))|
  {
    repaired := placed;
    covered := hits <= mustHappen + Cover(repaired);
    var round := 0;
    while round < 3 && !covered
      invariant 0 <= round <= 3
      invariant repaired.Keys == placed.Keys && Fits(repaired, cond, mustHappen)
      invariant covered <==> hits <= mustHappen + Cover(repaired)
      invariant |hits * (mustHappen + Cover(repaired))| >= |hits * (mustHappen + Cover(placed))|
    {
      round := round + 1;
      var i := 0;
      while i < |keys| && !covered
        invariant 0 <= i <= |keys|
        invariant repaired.Keys == placed.Keys && Fits(repaired, cond, mustHappen)
        invariant covered <==> hits <= mustHappen + Cover(repaired)
        invariant |hits * (mustHappen + Cover(repaired))| >= |hits * (mustHappen + Cover(placed))|
      {
        assert keys[i] in Elems(keys);
        repaired, covered := RepairShip(cond, lengths, hits, mustHappen, keys[i], repaired);
        i := i + 1;
      }
    }
  }

  /** `randomSelection(order, mustHappen)`: rounds of a greedy pass, the
      success test `hits <= final_set`, and repair; a failed round shuffles
      the order (returned, as `random.shuffle` shuffles the caller's list in
      place). A draw is a disjoint board of one candidate per ship covering
      every hit; `Stuck` names a ship left without a candidate. */
  method RandomSelection(cond: map<Name, seq<Placement>>, lengths: map<Name, nat>, hits: set<Cell>,
                         order: seq<Name>, mustHappen: set<Cell>, fuel: nat)
    returns (r: Outcome<Sample>, shuffled: seq<Name>, ghost placed: map<Name, Placement>)
    requires forall n :: n in order ==> n in cond && n in lengths
    requires Distinct(order)
    ensures multiset(shuffled) == multiset(order) && Distinct(shuffled)
    ensures !r.Raised?
    ensures r.Ok? && r.value.Drawn? ==> Sampled(r.value.cells, placed, cond, Elems(order), hits, mustHappen)
    ensures r.Ok? && r.value.Stuck? ==>
      Fits(placed, cond, mustHappen) &&
      exists k :: 0 <= k < |shuffled| && placed.Keys == Elems(shuffled[..k]) && shuffled[k] in cond
                  && Avoiding(cond[shuffled[k]], mustHappen + Cover(placed)) == []
  {
    shuffled, placed := order, map[];
    var f := fuel;
    while f > 0
      invariant multiset(shuffled) == multiset(order) && Distinct(shuffled)
      invariant Elems(shuffled) == Elems(order)
      invariant forall n :: n in shuffled ==> n in cond && n in lengths
    {
      var w, finalSet, stuck := GreedyPass(cond, shuffled, mustHappen);
      placed := w;
      if stuck {
        r := Ok(Stuck);
        return;
      }
      if hits <= finalSet {
        var cells := Enumerate(finalSet);
        r := Ok(Drawn(cells));
        return;
      }
      var repaired, covered := Repair(cond, lengths, hits, mustHappen, order, w);
      if covered {
        placed := repaired;
        var cells := Enumerate(mustHappen + Cover(repaired));
        r := Ok(Drawn(cells));
        return;
      }
      var next := Shuffle(shuffled);
      PermutationDistinct(shuffled, next);
      forall n | n in next ensures n in shuffled {
        assert n in Elems(next);
      }
      shuffled := next;
      f := f - 1;
    }
    r := OutOfFuel;
  }

  /** `randomConditionalBoard(orderIncoming)`: drops the sunk ships from
      the order, pins their true cells as `mustHappen`, and draws until a
      non-empty board comes back, reshuffling between tries when
      `randomOrder`. */
  method RandomConditionalBoard(cond: map<Name, seq<Placement>>, lengths: map<Name, nat>, hits: set<Cell>,
                                boats: seq<Boat>, names: seq<Name>, sunk: set<Name>,
                                orderIncoming: seq<Name>, randomOrder: bool, fuel: nat)
    returns (r: Outcome<seq<Cell>>, ghost placed: map<Name, Placement>)
    requires Distinct(names) && Distinct(orderIncoming)
    requires forall n :: n in orderIncoming ==> n in cond && n in lengths
    ensures r.Raised? <==> exists n :: n in names && n in sunk && (n !in orderIncoming || n !in BoatNames(boats))
    ensures r.Ok? ==> |r.value| > 0
    ensures r.Ok? ==> Sampled(r.value, placed, cond, Elems(orderIncoming) - (Elems(names) * sunk),
                              hits, SunkLocations(boats, names, sunk))
  {
    placed := map[];
    var dropped := DropSunk(boats, names, sunk, orderIncoming);
    if dropped.Raised? {
      r := Raised;
      return;
    }
    var order, mustHappen := dropped.value.0, dropped.value.1;
    ghost var ships := Elems(orderIncoming) - (Elems(names) * sunk);
    var f := fuel;
    while f > 0
      invariant Distinct(order) && Elems(order) == ships
    {
      forall n | n in order ensures n in cond && n in lengths {
        assert n in Elems(order);
      }
      var s, shuffled, w := RandomSelection(cond, lengths, hits, order, mustHappen, f);
      if s.OutOfFuel? {
        r := OutOfFuel;
        return;
      }
      if s.value.Drawn? && |s.value.cells| > 0 {
        r, placed := Ok(s.value.cells), w;
        return;
      }
      PermutationDistinct(order, shuffled);
      order := shuffled;
      if randomOrder {
        var next := Shuffle(order);
        PermutationDistinct(order, next);
        order := next;
      }
      f := f - 1;
    }
    r := OutOfFuel;
  }

  // ---------------------------------------------------------------------
  // randomBoard
  // ---------------------------------------------------------------------

  /** `randomBoard()`: the ships in a random order (`generateRandomOrders` tabulates every
      permutation and one is picked), each placed on arbitrary
      catalog layouts until one is disjoint from the ships placed before.
      `np.random.randint(0)` raises for a ship with no layout. */
  method RandomBoard(catalog: map<Name, seq<Placement>>, names: seq<Name>, fuel: nat)
    returns (r: Outcome<(seq<Boat>, set<Cell>)>)
    ensures r.Ok? ==> multiset(BoatNames(r.value.0)) == multiset(names)
    ensures r.Ok? ==> GroundTruth(r.value.0, BoatNames(r.value.0), catalog)
    ensures r.Ok? ==> r.value.1 == BoatCells(r.value.0)
    ensures r.Raised? ==> exists n :: n in names && (n !in catalog || catalog[n] == [])
  {
    var order := Shuffle(names);
    var boats, finalSet, k, f := [], {}, 0, fuel;
    while k < |order|
      invariant 0 <= k <= |order|
      invariant BoatNames(boats) == order[..k]
      invariant GroundTruth(boats, order[..k], catalog)
      invariant finalSet == BoatCells(boats)
      decreases |order| - k + f
    {
      var name := order[k];
      if name !in catalog || catalog[name] == [] {
        assert name in multiset(names) by {
          assert name in multiset(order);
        }
        r := Raised;
        return;
      }
      var i :| 0 <= i < |catalog[name]|;
      var coords := catalog[name][i];
      if coords !! finalSet {
        GroundTruthSnoc(boats, order[..k], catalog, name, coords);
        assert order[..k + 1] == order[..k] + [name];
        boats, finalSet, k := boats + [Boat(name, coords)], finalSet + coords, k + 1;
      } else if f == 0 {
        r := OutOfFuel;
        return;
      } else {
        f := f - 1;
      }
    }
    assert order[..k] == order;
    r := Ok((boats, finalSet));
  }

  // ---------------------------------------------------------------------
  // Reuse of last turn's boards in buildAggBoard
  // ---------------------------------------------------------------------

  /** Lines 218-224: the boards of last turn that agree with the newest
      probe; none when the probe is neither a hit nor a miss (before the
      first guess). */
  function Seed(last: seq<set<Cell>>, probe: Cell, hits: set<Cell>, misses: set<Cell>): (r: seq<set<Cell>>)
    ensures multiset(r) <= multiset(last)
    ensures probe in misses ==> forall b :: b in r <==> b in last && probe !in b
    ensures probe !in misses && probe in hits ==> forall b :: b in r <==> b in last && probe in b
    ensures probe in misses ==>
      forall b :: multiset(r)[b] == if probe !in b then multiset(last)[b] else 0
    ensures probe !in misses && probe in hits ==>
      forall b :: multiset(r)[b] == if probe in b then multiset(last)[b] else 0
    ensures probe !in misses && probe !in hits ==> r == []
  {
    forall b ensures multiset(Filter(last, b => probe !in b))[b] == if probe !in b then multiset(last)[b] else 0 {
      FilterCount(last, b => probe !in b, b);
    }
    forall b ensures multiset(Filter(last, b => probe in b))[b] == if probe in b then multiset(last)[b] else 0 {
      FilterCount(last, b => probe in b, b);
    }
    if probe in misses then Filter(last, b => probe !in b)
    else if probe in hits then Filter(last, b => probe in b)
    else []
  }

  /** Boards that agreed with every shot but the newest one agree with all
      of them once filtered by the newest. */
  lemma {:induction false} SeedFits(last: seq<set<Cell>>, probe: Cell, hits: set<Cell>, misses: set<Cell>)
    requires hits !! misses
    requires forall b :: b in last ==> hits - {probe} <= b && b !! misses - {probe}
    ensures forall b :: b in Seed(last, probe, hits, misses) ==> hits <= b && b !! misses
  {
    forall b | b in Seed(last, probe, hits, misses) ensures hits <= b && b !! misses {
      assert b in last;
    }
  }

  // ---------------------------------------------------------------------
  // Line 111 as written
  // ---------------------------------------------------------------------

  /** An entry of a candidate list: a placement, or, as line 111 stores
      `list(location)`, a bare cell. */
  datatype Entry = Layout(cells: Placement) | Point(cell: Cell)

  /** `hit in set().union(*entries)`: a placement contributes its cells; a
      bare cell `(x, y)` contributes the two numbers `x` and `y`, never a
      cell. */
  predicate EntriesCover(entries: seq<Entry>, hit: Cell) {
    exists e :: e in entries && e.Layout? && hit in e.cells
  }

  /** `list(location)` as line 111 stores it, for a location listed as
      `xs`. */
  function SunkEntriesAsWritten(xs: seq<Cell>): (r: seq<Entry>)
    ensures |r| == |xs| && forall e :: e in r ==> e.Point?
  {
    seq(|xs|, i requires 0 <= i < |xs| => Point(xs[i]))
  }

  /** As written, a ship sunk on cells (0,0) and (0,1) does not cover its own
      hit (0,0) in the unique-owner loop, while `[location]` does. */
  lemma {:induction false} AsWrittenSunkShipMissesOwnHit()
    ensures var xs := [(0, 0), (0, 1)];
      && (0, 0) in xs
      && !EntriesCover(SunkEntriesAsWritten(xs), (0, 0))
      && EntriesCover([Layout({(0, 0), (0, 1)})], (0, 0))
  {
    var e := Layout({(0, 0), (0, 1)});
    assert e in [e];
  }

  /** With the corrected `[location]`, a sunk ship owns every hit on its
      location. */
  lemma {:induction false} SunkShipOwnsItsHits(cond: map<Name, seq<Placement>>, keys: seq<Name>, boats: seq<Boat>,
                                               hits: set<Cell>, k: nat, hit: Cell)
    requires k < |boats| && boats[k].location <= hits && hit in boats[k].location
    requires Distinct(BoatNames(boats)) && boats[k].name in keys
    ensures boats[k].name in Owners(FixSunk(cond, boats, hits), keys, hit)
  {
    var name := boats[k].name;
    assert name in SunkNow(boats, hits);
    LocationOfAt(boats, k);
    var fixed := FixSunk(cond, boats, hits);
    assert fixed[name] == [boats[k].location];
    assert hit in fixed[name][0];
  }
}
