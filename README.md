# Battleship board sampling, modelled in Dafny

This project models the board-sampling engine of a Battleship solver. The
solver comes in two variants, and the model covers both:

- **Bayesian sampling** (`BattleshipPlayer` and `BattleshipAutoplay` in
  BayesianSampling/Battleship.py);
- **statistics sampling** (`BattleshipEnv` and `BattleshipAutoplay` in
  StatisticsSampling/Battleship.py).

Both variants play the same way:

1. They list every straight, in-bounds layout of every ship (the catalog).
2. They draw a hidden board of pairwise disjoint ships.
3. Every turn:
   - they narrow each ship's candidate layouts with the evidence from the
     shots (sunk ships, misses and, in the Bayesian variant, hits that only
     one ship can cover);
   - they sample boards that agree with every shot;
   - they count how many sampled boards hold each cell;
   - they fire at the unshot cell with the largest count.

The modules follow that structure:

- `Seqs`, `Cells`, `Ordering`, `Fleet`: shared vocabulary. This covers lists
  as sets, runs of cells, ship names and lengths, the stable sort behind
  `sorted(..., key=...)` and the default placing order.
- `Layouts`: the two catalogs. The Bayesian catalog lists all vertical runs,
  then all horizontal runs. The statistics catalog interleaves one vertical
  and one horizontal run per anchor. The module proves that both catalogs
  hold exactly the straight in-bounds runs, `2 * (dim - L + 1) * dim` of
  them, and that they are rearrangements of each other.
- `Evidence`: the steps of `updateOrientations` shared by both variants,
  written as functions. These are:
  - the sink step;
  - the pruning step;
  - the candidate counts and the order sorted by those counts.
- `Counting`: how the pool's boards are counted per cell, plus the deletions
  and the arg-max of `play`.
- `Sampling`: what a sampled board is, and the sunk-ship bookkeeping of
  `randomConditionalBoard`.
- `GameState`:
  - `Knowledge`, the state both game objects keep;
  - its invariant `Inv`;
  - the steps `Shoot`, `Sink` and `Pruned`, with lemmas that each step keeps
    the invariant and never drops a boat's true location;
  - `Target`, the shot `play` picks.
- `BayesianSampler`, `BayesianState`, `BayesianGame`: the Bayesian variant.
  This covers:
  - `randomSelection`, with its greedy pass and its three rounds of repair;
  - the unique-owner loop;
  - the reuse of last turn's boards;
  - the `Player` class, whose methods change its fields as the Python
    methods do.
- `StatisticsSampler`, `StatisticsState`, `StatisticsGame`: the statistics
  variant. This covers:
  - its size-based tests, each proved equivalent to the set relation it
    stands for;
  - its timed retry loops;
  - the `Env` class.

Randomness is modelled as an arbitrary choice among the valid alternatives,
and a shuffle as an arbitrary permutation. Unbounded retry loops take a
`fuel` bound and end in `OutOfFuel` when it runs out. Each Python call that
can raise ends in `Raised` at exactly the inputs on which Python raises, with
two exceptions. First, some calls are excluded instead by a `requires` that
the game always meets (see `## Left out`). Second, a call bounded by `fuel`
may end in `OutOfFuel` before it reaches the input that raises.
`Outcome` in `Cells` carries these three endings.

Every boat's true location stays among its ship's candidates (`Admits`).
This is the invariant that makes the sampler total. Because of it, the model
proves that:

- `randomConditionalBoard` never raises inside the game;
- every sampled board agrees with every shot;
- each turn of `play` fires at a cell of the grid that has not been shot.

The last fact proves that `play` in the statistics variant makes progress. It
ends once `sum(ships)` cells have been hit, and at that point every cell of
the hidden board has been hit.

The comment at BayesianSampling/Battleship.py:94 says the default order
places ships from largest to smallest. The code at line 93 sorts by
ascending length. The model follows the code: see `Fleet.DefaultOrderSorted`.

## Model

| member | source | states |
|---|---|---|
| Fleet.Names | BayesianSampling/Battleship.py:22 | `string.ascii_lowercase[:n]`: at most 26 names, strictly ascending lower-case letters |
| Fleet.NamesDistinct | StatisticsSampling/Battleship.py:14 | the ship names are pairwise different |
| Fleet.ShipLengths | BayesianSampling/Battleship.py:25 | `dict(zip(names, ships))` maps the k-th name to the k-th length and has exactly the names as keys |
| Fleet.NamedLengthsSum | BayesianSampling/Battleship.py:92 | with at most 26 ships, every ship is named and the named lengths add up to `np.sum(ships)` |
| Fleet.DefaultOrder | BayesianSampling/Battleship.py:93 | the default order is a permutation of the names |
| Fleet.DefaultOrderSorted | StatisticsSampling/Battleship.py:18 | the default order is sorted by (length, name), which is ascending length |
| Ordering.SortByKey | BayesianSampling/Battleship.py:132 | the sort by key returns a permutation of its input in ascending key order |
| Ordering.InsertWithKey | BayesianSampling/Battleship.py:132 | inserting a name into a sorted list puts it in front of every name with the same key |
| Ordering.SortByKeyStable | BayesianSampling/Battleship.py:132 | the sort is stable: for every key, the names with that key keep their order from the input, as `sorted` guarantees |
| Ordering.SortByKeyLex | BayesianSampling/Battleship.py:93 | stably sorting alphabetically listed, unique names gives the (key, name) order of `sorted(zip(keys, names))` |
| Layouts.CatalogSize | BayesianSampling/Battleship.py:46-49 | each catalog of a ship of length L holds `2 * (dim - L + 1) * dim` layouts, and none when L > dim |
| Layouts.InComponentLayouts | BayesianSampling/Battleship.py:46-48 | a layout is in the Bayesian catalog exactly when it is a straight run of L cells inside the board |
| Layouts.InInterleavedLayouts | StatisticsSampling/Battleship.py:29-31 | a layout is in the statistics catalog exactly when it is a straight run of L cells inside the board |
| Layouts.CatalogsAgree | StatisticsSampling/Battleship.py:29-33 | the two catalogs list the same layouts, each as often, in different orders |
| Layouts.StraightRunInBounds | BayesianSampling/Battleship.py:46-47 | every catalog layout has exactly L cells, each inside `[0, dim)²` |
| Layouts.Orientations | StatisticsSampling/Battleship.py:27-31 | the nested loops appending two runs per anchor build exactly the interleaved catalog |
| Layouts.AppendAnchorRow | StatisticsSampling/Battleship.py:30-31 | the inner loop over columns appends the vertical and horizontal run of each anchor of the row |
| Cells.VerticalRunCells | BayesianSampling/Battleship.py:46 | a vertical run holds exactly L cells, those of its column from its anchor row on |
| Cells.HorizontalRunCells | BayesianSampling/Battleship.py:47 | a horizontal run holds exactly L cells, those of its row from its anchor column on |
| Cells.Grid | BayesianSampling/Battleship.py:19-20 | the board has `dim * dim` cells, exactly the in-bounds ones |
| Cells.ShotShrinks | StatisticsSampling/Battleship.py:193-198 | a shot at a new cell of the grid leaves fewer grid cells unshot |
| Cells.BoatCells | BayesianSampling/Battleship.py:62-63 | `final_set` is the union of the boats' locations |
| Cells.LocationOfAt | BayesianSampling/Battleship.py:191 | `dict(self.boats)[name]` is the location of the boat with that name when names are unique |
| Cells.GroundTruthSnoc | BayesianSampling/Battleship.py:60-63 | placing a boat on a catalog layout disjoint from `final_set` extends a ground-truth board, and `final_set` grows by its cells |
| Cells.BoardSize | BayesianSampling/Battleship.py:55-66 | a ground-truth board has as many cells as its ships' lengths add up to |
| Cells.CoverAdd | BayesianSampling/Battleship.py:153-155 | adding a ship on a candidate disjoint from the taken cells keeps the placements pairwise disjoint and adds exactly its cells |
| Cells.CoverReplace | BayesianSampling/Battleship.py:167-172 | moving a ship to a candidate that avoids the other ships keeps the placements pairwise disjoint |
| Cells.SumLengthsPermutation | BayesianSampling/Battleship.py:55 | the summed fleet length does not depend on the order the ships are placed in |
| Seqs.Enumerate | BayesianSampling/Battleship.py:121 | iterating a set lists every element exactly once |
| Seqs.Shuffle | BayesianSampling/Battleship.py:176 | `random.shuffle` returns a permutation of its list |
| Seqs.Filter | BayesianSampling/Battleship.py:117 | a list comprehension with a condition keeps exactly the elements that satisfy it, with no new copies |
| Seqs.FilterCount | BayesianSampling/Battleship.py:117 | every element that satisfies the condition keeps all its copies, and every other element has none |
| Seqs.FilterAppend | BayesianSampling/Battleship.py:117 | filtering two lists joined gives the two filtered lists joined, so the kept elements stay in their original order |
| Seqs.RemoveFirst | BayesianSampling/Battleship.py:190 | `order.remove(x)` drops one copy of `x` |
| Seqs.RemoveFirstDistinct | StatisticsSampling/Battleship.py:108 | on a duplicate-free order, `remove` drops exactly that name |
| Seqs.UnionAll | BayesianSampling/Battleship.py:125 | `set().union(*xs)` holds exactly the elements of some set of the list |
| Seqs.PermutationDistinct | BayesianSampling/Battleship.py:197 | a shuffled duplicate-free order is duplicate-free with the same names |
| Evidence.SunkCells | BayesianSampling/Battleship.py:108-109 | the cells the sink loop adds to `hitsSunk` are all hits |
| Evidence.FixSunk | BayesianSampling/Battleship.py:106-111 | after the sink loop the candidate lists are keyed by the old keys plus every ship sunk now |
| Evidence.FixSunkSnoc | StatisticsSampling/Battleship.py:64-69 | one more boat of the sink loop: a fully hit boat's list becomes `[location]`, any other boat changes nothing |
| Evidence.FixSunkAdmits | BayesianSampling/Battleship.py:111 | fixing sunk ships to their true locations keeps every boat's true location among its candidates |
| Evidence.FixSunkShrinks | StatisticsSampling/Battleship.py:69 | the sink loop only drops candidates, when the true location was a candidate |
| Evidence.Prune | BayesianSampling/Battleship.py:117 | pruning keeps every copy of each candidate disjoint from the misses and the sunk cells, and no other candidate |
| Evidence.PruneAdmits | BayesianSampling/Battleship.py:117 | pruning keeps a boat's true location, which avoids every miss and every other boat |
| Evidence.PruneAll | BayesianSampling/Battleship.py:115-119 | every ship not sunk keeps exactly its surviving candidates, sunk ships keep their list, and every list left is settled |
| Evidence.PruneAllAdmits | StatisticsSampling/Battleship.py:72-82 | the whole pruning loop keeps every boat's true location |
| Evidence.SunkLocationsGrow | BayesianSampling/Battleship.py:109 | marking the ships sunk now adds exactly their cells to the sunk cells |
| Evidence.SunkLocationsAvoid | BayesianSampling/Battleship.py:186-191 | the cells pinned by other sunk boats miss a boat that is not sunk |
| Evidence.Counts | BayesianSampling/Battleship.py:112 | `possibleShipsNumDictCond` is each list's length |
| Evidence.ShipOrder | BayesianSampling/Battleship.py:132 | the ships sorted by candidate count: a permutation of the keys in ascending count order, with ships of equal count in dictionary order |
| Evidence.ShrinkKeeps | BayesianSampling/Battleship.py:118 | dropping candidates keeps them inside the catalog and keeps survivors surviving |
| Evidence.FixSunkWithin | BayesianSampling/Battleship.py:111 | the sink loop keeps the candidates inside the catalog |
| Sampling.PlaceFits | BayesianSampling/Battleship.py:150-155 | placing a ship on a candidate that avoids the taken cells keeps the partial board fitting |
| Sampling.DropSunk | BayesianSampling/Battleship.py:186-191 | sunk ships leave the order and pin their cells; it raises exactly when a sunk ship is missing from the order or the boats |
| Counting.Holding | BayesianSampling/Battleship.py:235 | a cell's count is at most the pool size, and positive exactly when some board holds it |
| Counting.Counter | BayesianSampling/Battleship.py:235 | `Counter(cells)` maps each listed cell to its multiplicity |
| Counting.Tally | StatisticsSampling/Battleship.py:129 | each counted cell is in at least one board and at most `numIter` boards |
| Counting.CounterIsTally | BayesianSampling/Battleship.py:220-235 | counting the concatenated board lists is counting, per cell, the boards that hold it |
| Counting.AppendBoard | BayesianSampling/Battleship.py:231-232 | appending one board's distinct cells keeps the list's counts equal to the pool's |
| Counting.PoolCells | BayesianSampling/Battleship.py:220 | the flattened pool lists each cell as often as boards hold it |
| Counting.DeleteAll | BayesianSampling/Battleship.py:325-326 | deleting the hits raises `KeyError` exactly when one is missing; otherwise it removes exactly the hits |
| Counting.ArgMax | StatisticsSampling/Battleship.py:190 | `max(aggDict, key=aggDict.get)` returns a key with the largest count |
| Counting.Choose | BayesianSampling/Battleship.py:325-328 | the shot raises exactly when a hit is missing from the counts or nothing else is left; otherwise it is an unhit cell with the largest count |
| GameState.TallyChoice | BayesianSampling/Battleship.py:325-328 | over a pool that agrees with the shots, every hit is counted and every other counted cell is unshot and on the grid |
| GameState.Target | StatisticsSampling/Battleship.py:187-190 | `Choose`, and over a counted pool on the grid the shot is a grid cell; over an agreeing one it is also unshot, and nothing is left only when the pool is exactly the hits |
| GameState.HiddenSize | BayesianSampling/Battleship.py:58-66 | the hidden board has as many cells as the ship lengths add up to |
| GameState.GameOver | BayesianSampling/Battleship.py:319 | with at most 26 ships, `len(hits) == sum(ships)` holds exactly when every board cell has been hit |
| GameState.CatalogCovers | BayesianSampling/Battleship.py:60 | every ship of a hidden fleet has a catalog layout, so `randint` never sees 0 |
| GameState.HiddenFacts | StatisticsSampling/Battleship.py:40-47 | the hidden boats carry the ship names once each, on catalog layouts inside the board, pairwise disjoint |
| GameState.SunkFacts | BayesianSampling/Battleship.py:108-109 | `hitsSunk` is a subset of the hits |
| GameState.SampleAgrees | BayesianSampling/Battleship.py:148-157 | a board sampled from settled candidates holds every hit, no miss, and lies on the board |
| GameState.InvFacts | BayesianSampling/Battleship.py:81-93 | the game invariant gives unique boat names, `hitsSunk ⊆ hits`, a board inside the grid and disjoint boats |
| GameState.CandidatesLeft | StatisticsSampling/Battleship.py:91 | no ship's candidate list is ever empty |
| GameState.Initial | BayesianSampling/Battleship.py:84-87 | a fresh game has no shots, nothing sunk, the catalog as candidates and an empty pool |
| GameState.InitialKeeps | StatisticsSampling/Battleship.py:53-59 | a fresh hidden board satisfies the game invariant |
| GameState.PoolKeeps | BayesianSampling/Battleship.py:233 | storing a pool of boards inside the grid keeps the invariant |
| GameState.Shoot | BayesianSampling/Battleship.py:282-287 | a board cell joins the hits, any other cell joins the misses, and nothing else changes |
| GameState.ShotCount | BayesianSampling/Battleship.py:320 | hits and misses never share a cell, so with every shot on the grid `len(hits) + len(misses)` is at most `dim * dim` |
| GameState.ShootKeeps | StatisticsSampling/Battleship.py:163-168 | a shot keeps the game invariant |
| GameState.SinkKeeps | BayesianSampling/Battleship.py:106-112 | the sink step keeps the invariant and only drops candidates |
| GameState.PrunedKeeps | BayesianSampling/Battleship.py:115-119 | the pruning step keeps the invariant, settles every list and only drops candidates |
| GameState.SinkStep | StatisticsSampling/Battleship.py:64-70 | one boat of the sink loop advances the sink step by that boat |
| BayesianSampler.Owners | BayesianSampling/Battleship.py:122-126 | `temp` holds exactly the ships, in dictionary order, whose candidates cover the hit |
| BayesianSampler.Covering | BayesianSampling/Battleship.py:128 | keeps every copy of each candidate containing the hit, and no other candidate |
| BayesianSampler.NarrowStepEffect | BayesianSampling/Battleship.py:127-128 | only the single owner's list changes; it keeps exactly its candidates covering the hit, at least one of them |
| BayesianSampler.NarrowAllShrinks | BayesianSampling/Battleship.py:121-129 | the unique-owner loop only drops candidates |
| BayesianSampler.NarrowStepAdmits | BayesianSampling/Battleship.py:127-128 | narrowing on a true hit keeps every boat's true location |
| BayesianSampler.TrueBoatOwns | BayesianSampling/Battleship.py:125 | the boat holding a hit is among its owners |
| BayesianSampler.NarrowAllAdmits | BayesianSampling/Battleship.py:121-129 | the whole unique-owner loop keeps every true location |
| BayesianSampler.Avoiding | BayesianSampling/Battleship.py:150 | `alternatives` holds exactly the candidates disjoint from `final_set` |
| BayesianSampler.Improving | BayesianSampling/Battleship.py:168 | the repair alternatives avoid the other ships and cover more uncovered hits than the ship covers |
| BayesianSampler.GreedyPass | BayesianSampling/Battleship.py:148-155 | the greedy pass places every ship disjointly on a candidate, or stops at the first ship with no disjoint candidate (`return set()`) |
| BayesianSampler.SwapCoversMore | BayesianSampling/Battleship.py:164-168 | an accepted swap strictly increases the number of covered hits |
| BayesianSampler.RepairShip | BayesianSampling/Battleship.py:164-174 | one repair step keeps the board disjoint, reports exactly whether all hits are covered, and never lowers coverage; it moves only ship `n`, only when `n` covers fewer hits than its length, and only onto a candidate that avoids the other cells and covers more uncovered hits |
| BayesianSampler.SwapImproves | BayesianSampling/Battleship.py:167-172 | a swap keeps the board fitting and covers strictly more hits |
| BayesianSampler.MovePreservesFits | BayesianSampling/Battleship.py:171-172 | moving a ship to a candidate that avoids the others keeps the board fitting |
| BayesianSampler.Repair | BayesianSampling/Battleship.py:159-174 | at most three rounds of repair keep the board disjoint, never lower coverage, and report exactly whether every hit is covered |
| BayesianSampler.RandomSelection | BayesianSampling/Battleship.py:134-176 | a draw is a duplicate-free disjoint board of one candidate per ship holding `mustHappen` and every hit; `set()` names a ship with no disjoint candidate; the order comes back permuted |
| BayesianSampler.RandomConditionalBoard | BayesianSampling/Battleship.py:179-199 | raises exactly when a sunk ship is missing from the order; otherwise a non-empty sample of the ships not sunk, pinned to the sunk ships' cells |
| BayesianSampler.RandomBoard | BayesianSampling/Battleship.py:51-66 | each name placed once, on a catalog layout, pairwise disjoint, returning their union; raises only for a ship with no layout |
| BayesianSampler.Seed | BayesianSampling/Battleship.py:218-224 | after a hit, every copy of last turn's boards containing it and no other; after a miss, every copy of those without it and no other; otherwise none |
| BayesianSampler.SeedFits | BayesianSampling/Battleship.py:218-224 | boards that agreed with every shot but the newest agree with all of them after the filter |
| BayesianSampler.SunkEntriesAsWritten | BayesianSampling/Battleship.py:111 | `list(location)` stores bare cells, not a layout |
| BayesianSampler.AsWrittenSunkShipMissesOwnHit | BayesianSampling/Battleship.py:111 | as written, a sunk ship on (0,0),(0,1) does not cover its own hit (0,0); `[location]` does |
| BayesianSampler.SunkShipOwnsItsHits | BayesianSampling/Battleship.py:111 | with `[location]`, a sunk ship owns every hit on its location |
| BayesianState.Catalog | BayesianSampling/Battleship.py:42-48 | `possibleShipsDict` has one entry per ship |
| BayesianState.CatalogLayouts | BayesianSampling/Battleship.py:46-48 | every layout has its ship's length and lies on the board |
| BayesianState.CatalogHasShape | BayesianSampling/Battleship.py:46-49 | the catalog has the shape the game relies on |
| BayesianState.Redraw | BayesianSampling/Battleship.py:289-296 | `refreshGame` never raises and sets up a fresh game satisfying the invariant, keeping the order |
| BayesianState.NarrowedKeeps | BayesianSampling/Battleship.py:121-129 | the unique-owner loop keeps the invariant and settledness and only drops candidates |
| BayesianState.Updated | BayesianSampling/Battleship.py:97-132 | `updateOrientations` changes neither the boats nor the shots nor the pool |
| BayesianState.UpdatedKeeps | BayesianSampling/Battleship.py:97-132 | `updateOrientations` keeps the invariant, settles the lists, only drops candidates, marks the fully hit ships sunk and sorts `order` by candidate count |
| BayesianState.SinkLoop | BayesianSampling/Battleship.py:106-112 | the sink loop computes the sink step |
| BayesianState.SinkBoat | BayesianSampling/Battleship.py:107-112 | one boat: fully hit, it joins the sunk ships and cells and its list becomes `[location]`; otherwise nothing changes |
| BayesianState.PruneLoop | BayesianSampling/Battleship.py:115-119 | the pruning loop computes the pruning step |
| BayesianState.PruneAllPointwise | BayesianSampling/Battleship.py:116-118 | a map pruned list by list is the pruning step |
| BayesianState.OwnersLoop | BayesianSampling/Battleship.py:122-126 | the inner loop builds exactly `temp` |
| BayesianState.NarrowLoop | BayesianSampling/Battleship.py:121-129 | the outer loop is the unique-owner loop over the hits in set order |
| BayesianState.Update | BayesianSampling/Battleship.py:97-132 | the three loops compute `updateOrientations` and leave the invariant and settledness |
| BayesianState.DrawAgreeing | BayesianSampling/Battleship.py:230 | inside the game, `randomConditionalBoard` never raises and its board agrees with the shots |
| BayesianState.TopUp | BayesianSampling/Battleship.py:225-232 | tops the pool up to `max(len(seed), batchSize)` agreeing boards, keeping the seed first and the counts in step |
| BayesianState.PlacingOrder | BayesianSampling/Battleship.py:214 | the placing order is a permutation of the names; without `randomOrder` it is the ships by ascending candidate count |
| BayesianState.Refill | BayesianSampling/Battleship.py:216-235 | the new pool is the seed topped up to `max(len(seed), batchSize)`, `aggDict` counts it, and a synced pool becomes consistent |
| BayesianState.Build | BayesianSampling/Battleship.py:203-237 | `buildAggBoard` updates the evidence, keeps the shots, and on success leaves the pool and counts of `Refill` |
| BayesianGame.Derive | BayesianSampling/Battleship.py:19-27 | the rules `__init__` derives are well formed |
| BayesianGame.Player.constructor | BayesianSampling/Battleship.py:81-93 | the fields as `__init__` sets them around a hidden board drawn from the catalog, and the game invariant holds |
| BayesianGame.Player.Guess | BayesianSampling/Battleship.py:277-287 | `guess` is `Shoot`, sets `nextInx` and keeps a consistent pool synced |
| BayesianGame.Player.UpdateOrientations | BayesianSampling/Battleship.py:97-132 | the fields move to `Updated`, settled, with the fully hit ships sunk |
| BayesianGame.Player.BuildAggBoard | BayesianSampling/Battleship.py:203-237 | the pool is the seed topped up to `max(len(seed), batchSize)` agreeing boards, `numIter` is its size and `aggDict` counts it |
| BayesianGame.Player.Aim | BayesianSampling/Battleship.py:325-328 | deletes the hits from `aggDict` and aims `nextInx` at a largest count; raises exactly as `KeyError`/`ValueError` would; over the counted pool a grid cell |
| BayesianGame.Player.Fire | BayesianSampling/Battleship.py:325-332 | one turn's shot: a largest count, recorded as a hit or miss; over the counted pool a grid cell, and over a consistent pool a new one |
| BayesianGame.Player.RefreshGame | BayesianSampling/Battleship.py:289-296 | a new hidden board with no shots, nothing sunk, the catalog as candidates, no pool and `nextInx = (-1,-1)` |
| BayesianGame.Player.Finish | BayesianSampling/Battleship.py:319-323 | counts the finished game's shots before any refresh; at most `dim * dim` when every shot is on the grid; with `refresh`, a fresh game |
| BayesianGame.Player.Turn | BayesianSampling/Battleship.py:324-332 | one turn adds exactly one shot, on the grid, and keeps the hidden board |
| BayesianGame.Player.Play | BayesianSampling/Battleship.py:314-332 | returns `len(hits) + len(misses)` of the finished game, in both modes, only once `numMaxHits` cells are hit, which is every board cell; at most `dim * dim` when the shots started on the grid; with `refresh`, a fresh game afterwards |
| BayesianGame.NewPlayer | BayesianSampling/Battleship.py:311-312 | a valid new game; `Raised` only when some ship has no layout |
| StatisticsSampler.DisjointByCount | StatisticsSampling/Battleship.py:43 | `len(a) + len(b) == len(a ∪ b)` holds exactly when `a` and `b` are disjoint |
| StatisticsSampler.FitsBeside | StatisticsSampling/Battleship.py:93 | the fit test holds exactly when the layout avoids the taken cells |
| StatisticsSampler.AllHit | StatisticsSampling/Battleship.py:66 | the sink test holds exactly when the location is a subset of the hits |
| StatisticsSampler.CoversHits | StatisticsSampling/Battleship.py:100 | the success test holds exactly when every hit is on the board |
| StatisticsSampler.KeepsLayout | StatisticsSampling/Battleship.py:79 | for a layout of length L, the size test holds exactly when it avoids the misses and sunk cells |
| StatisticsSampler.Catalog | StatisticsSampling/Battleship.py:23-33 | one interleaved list per ship |
| StatisticsSampler.CatalogHasShape | StatisticsSampling/Battleship.py:26-34 | each list holds exactly the straight in-bounds runs of its length, `2 * (dim - L + 1) * dim` of them |
| StatisticsSampler.GenerateComponentLayouts | StatisticsSampling/Battleship.py:21-34 | the loop over `set(self.names)` builds the catalog |
| StatisticsSampler.DrawBeside | StatisticsSampling/Battleship.py:41-46 | a layout from the list that fits beside the taken cells |
| StatisticsSampler.RandomBoard | StatisticsSampling/Battleship.py:36-47 | boats in `order`, each on a catalog layout, pairwise disjoint, returning their union; raises exactly for a missing or empty list |
| StatisticsSampler.PlaceShip | StatisticsSampling/Battleship.py:89-98 | a candidate fitting beside the taken cells, a time-out only when some candidate does not fit, raises exactly for an empty list |
| StatisticsSampler.Pass | StatisticsSampling/Battleship.py:87-98 | one pass keeps the placements disjoint and places every ship unless one timed out |
| StatisticsSampler.RandomSelection | StatisticsSampling/Battleship.py:85-101 | a draw is a duplicate-free disjoint board of one candidate per ship holding `mustHappen` and every hit |
| StatisticsSampler.RandomConditionalBoard | StatisticsSampling/Battleship.py:103-114 | a non-empty sample of the ships not sunk, pinned to the sunk ships' cells; raises only when a sunk ship is missing or a list is empty |
| StatisticsState.SinkLoop | StatisticsSampling/Battleship.py:64-70 | the sink loop computes the sink step |
| StatisticsState.SinkBoat | StatisticsSampling/Battleship.py:65-70 | one boat: fully hit, it joins the sunk ships and cells and its list becomes `[location]`; otherwise nothing changes |
| StatisticsState.KeptBySize | StatisticsSampling/Battleship.py:78-80 | keeps exactly the layouts that pass the size test |
| StatisticsState.KeepLayouts | StatisticsSampling/Battleship.py:77-80 | the loop building `new_orient` keeps exactly those layouts |
| StatisticsState.KeptBySizeIsPrune | StatisticsSampling/Battleship.py:79 | on layouts of the ship's length, the size test prunes exactly as the set test does |
| StatisticsState.PruneBySize | StatisticsSampling/Battleship.py:72-82 | ships not sunk keep the layouts passing the size test; sunk ships keep their list |
| StatisticsState.PruneBySizeIsPruneAll | StatisticsSampling/Battleship.py:72-82 | the size-based pruning is the shared pruning step |
| StatisticsState.CandidateLengths | StatisticsSampling/Battleship.py:79 | candidates taken from the catalog have their ship's length |
| StatisticsState.PruneLoop | StatisticsSampling/Battleship.py:72-82 | the pruning loop computes the size-based pruning |
| StatisticsState.Update | StatisticsSampling/Battleship.py:62-82 | `updateOrientations` is the sink step then the pruning step, keeping the invariant |
| StatisticsState.DrawBoard | StatisticsSampling/Battleship.py:127 | inside the game, `randomConditionalBoard` never raises and its board agrees with the shots and lies on the grid |
| StatisticsState.DrawBoards | StatisticsSampling/Battleship.py:123-127 | `draws` agreeing boards, with `boards` listing each cell as often as boards hold it |
| StatisticsState.MostCommon | StatisticsSampling/Battleship.py:129 | `most_common(n)` keeps `min(len, n)` entries, each at least as large as any left out, and all of them when there are at most `n` |
| StatisticsState.LeadingGrows | StatisticsSampling/Battleship.py:129 | adding a largest entry left out keeps the kept entries leading |
| StatisticsState.TallyFits | StatisticsSampling/Battleship.py:129 | the counts cover at most `dim²` cells, so `most_common(dim**2)` keeps them all |
| StatisticsState.Build | StatisticsSampling/Battleship.py:117-130 | `buildAggBoard` updates the evidence, draws `draws` agreeing boards and counts them |
| StatisticsState.Redraw | StatisticsSampling/Battleship.py:202-209 | `refreshGame` never raises and sets up a fresh game in `self.order` satisfying the invariant |
| StatisticsGame.Derive | StatisticsSampling/Battleship.py:10-18 | the rules `__init__` derives are well formed |
| StatisticsGame.Env.constructor | StatisticsSampling/Battleship.py:51-59 | the fields as `__init__` sets them around the hidden board drawn in the default order |
| StatisticsGame.Env.Guess | StatisticsSampling/Battleship.py:161-168 | `guess` is `Shoot` and keeps the invariant |
| StatisticsGame.Env.UpdateOrientations | StatisticsSampling/Battleship.py:62-82 | the fields move to the sink step then the pruning step, settled |
| StatisticsGame.Env.BuildAggBoard | StatisticsSampling/Battleship.py:117-130 | `numIter` boards drawn, each agreeing with the shots, and `aggDict` counting them |
| StatisticsGame.Env.Aim | StatisticsSampling/Battleship.py:187-190 | deletes the hits from `aggDict` and aims `nextInx` at a largest count; raises exactly as `KeyError`/`ValueError` would |
| StatisticsGame.Env.Fire | StatisticsSampling/Battleship.py:187-200 | one turn's shot: a largest count, recorded as a hit or miss; over the boards just counted a new grid cell |
| StatisticsGame.Env.RefreshGame | StatisticsSampling/Battleship.py:202-209 | a new hidden board in `self.order` with no shots, nothing sunk and the catalog as candidates |
| StatisticsGame.Env.Finish | StatisticsSampling/Battleship.py:180-184 | counts the finished game's shots before any refresh; at most `dim * dim` when every shot is on the grid; with `refresh`, a fresh game |
| StatisticsGame.Env.Turn | StatisticsSampling/Battleship.py:185-198 | one turn adds exactly one shot, at a grid cell not shot before, and keeps the hidden board |
| StatisticsGame.Env.Play | StatisticsSampling/Battleship.py:176-198 | returns `len(hits) + len(misses)` of the finished game, in both modes, only once `sum(ships)` cells are hit, which is every board cell; at most `dim * dim` when the shots started on the grid; with `refresh`, a fresh game afterwards; every turn shoots a new cell |
| StatisticsGame.NewEnv | StatisticsSampling/Battleship.py:173-174 | a valid new game in the default order; `Raised` only when some ship has no layout |

## Left out

- Printing, plotting and `view`/`_print` are not modelled. They are user
  interface and floating point.
- `printTime` and the `time()` calls are not modelled. Each retry loop
  instead takes a `fuel` parameter and ends in `OutOfFuel` when the fuel runs
  out. The statistics variant's wall-clock budgets become parameters: `lag`
  (the length of `buildAggBoard`) becomes `draws`, and `lag / 10` (the per-ship
  budget) becomes `patience` failed draws. The model does not prove that the
  retry loops terminate.
- The distribution of `np.random` and `random.shuffle` is not modelled. A
  choice is an arbitrary valid alternative, and a shuffle is an arbitrary
  permutation.
- `generateRandomOrders` and its table of permutations are not modelled. A
  random order is an arbitrary permutation of the names.
- `possibleShipsNumDict` and `possibleShipsNumDictCond` are not stored. They
  always equal the lengths of their lists (given the corrected line 111), and
  are read through `Evidence.Counts`.
- `sunkDict` is modelled as the set `sunk` of the names marked 1.
- Counting.ArgMax: `max` returns the first largest key in the dictionary's
  order. The model promises only some key with the largest count, because
  Dafny maps have no order.
- StatisticsState.MostCommon: which of several equally counted entries
  `most_common` keeps is left open.
- Seqs.Enumerate: the order in which Python iterates a set or a dictionary is
  left open. In particular, the hits loop of `updateOrientations` is
  reported through a ghost order `hs`.
- Fleet.Names: with more than 26 ships, `ascii_lowercase[:n]` names only 26
  of them, and `dict(zip(...))` drops the rest. The model keeps this
  truncation. The `hits == board` part of `play`'s contract is proved only
  for at most 26 ships.
- BayesianGame.Player.constructor and StatisticsGame.Env.constructor receive
  the hidden board as an argument. `NewPlayer` and `NewEnv` draw that board
  with `RandomBoard` first, because a Dafny constructor cannot return an
  error outcome.
- StatisticsGame.Env.constructor: does not itself promise the game
  invariant `Valid()`, because that proof is too costly with the catalog and
  key order as arguments. `NewEnv` proves the invariant with
  `GameState.InitialKeeps` before it builds the object, and its contract
  promises `Valid()`.
- StatisticsGame.Env.constructor: `aggDict`, `numIter` and `nextInx` start
  empty, 0 and `(-1, -1)`. In the statistics variant they do not exist until
  the first `buildAggBoard` and `play`.
- BayesianGame.Player.Play: if a state's pool does not agree with the shots,
  a turn may aim at a cell already shot at. Such a turn spends one unit of
  `fuel`. `Fire` proves that this cannot happen after a consistent pool, and
  every game that `NewPlayer` creates starts consistent.
- BayesianSampler.GreedyPass, BayesianSampler.RepairShip,
  BayesianSampler.RandomSelection and BayesianSampler.RandomConditionalBoard:
  a name of the order missing from `possibleShipsDictCond` or `shipLengths`
  raises `KeyError` in Python (lines 150, 166 and 168). The model excludes it with
  a `requires`, which every call from the game meets. A duplicate name in the
  order is excluded the same way.
- BayesianGame.NewPlayer and StatisticsGame.NewEnv: drawing the hidden board
  is bounded by `fuel`, so the draw can end in `OutOfFuel` before it reaches
  a ship with no layout. `Raised` is therefore promised only one way: it
  happens only when some ship has no layout.
- BayesianSampler.RandomSelection: the retry loop over rounds is bounded by
  `fuel`. The `what_where["other"]` entry is modelled as the pinned cells
  `mustHappen`.
- The `verbose` flag of the statistics `play` is not modelled, because it
  only prints.

## Findings

| source | as written | input that shows it | evidently intended | confidence | as-written member | corrected member |
|---|---|---|---|---|---|---|
| BayesianSampling/Battleship.py:111 | a sunk ship's candidate list becomes `list(location)`, a list of bare cells | a ship sunk on (0,0) and (0,1): in the unique-owner loop, `set().union(*[(0,0),(0,1)])` is `{0, 1}`, so the ship does not cover its own hit (0,0) | `[location]`, as StatisticsSampling/Battleship.py:69 stores it, so a sunk ship is a candidate owner of its own hits | not executed | BayesianSampler.AsWrittenSunkShipMissesOwnHit | BayesianSampler.SunkShipOwnsItsHits |
