/** Board cells, ship placements and the ground-truth board, shared by both
    sampler variants. A cell is a `(row, col)` pair; a placement is the set of
    cells one ship occupies; ships are named by lower-case letters. */
module Cells {
  import opened Seqs

  type Cell = (int, int)

  type Placement = set<Cell>

  type Name = char

  /** How a modelled Python call ends: it returns a value, it raises (for
      instance `np.random.randint(0)`), or its retry loop did not finish
      within the step budget the model was given. */
  datatype Outcome<T> = Ok(value: T) | Raised | OutOfFuel

  /** One entry of `self.boats`: a ship's name and its true location. */
  datatype Boat = Boat(name: Name, location: Placement)

  predicate InBounds(c: Cell, dim: int) {
    0 <= c.0 < dim && 0 <= c.1 < dim
  }

  /** `{(i + t, j) for t in range(len)}`: `len` cells down column `j`
      starting at row `i`. */
  function VerticalRun(i: int, j: int, len: nat): Placement {
    if len == 0 then {} else VerticalRun(i, j, len - 1) + {(i + len - 1, j)}
  }

  /** `{(j, i + t) for t in range(len)}`: `len` cells along row `j`
      starting at column `i`. */
  function HorizontalRun(i: int, j: int, len: nat): Placement {
    if len == 0 then {} else HorizontalRun(i, j, len - 1) + {(j, i + len - 1)}
  }

  /** A vertical run holds exactly the `len` cells of its column from row
      `i` on. */
  lemma {:induction false} VerticalRunCells(i: int, j: int, len: nat)
    ensures |VerticalRun(i, j, len)| == len
    ensures forall c :: c in VerticalRun(i, j, len) <==> c.1 == j && i <= c.0 < i + len
  {
    if len > 0 {
      VerticalRunCells(i, j, len - 1);
    }
  }

  /** A horizontal run holds exactly the `len` cells of its row from column
      `i` on. */
  lemma {:induction false} HorizontalRunCells(i: int, j: int, len: nat)
    ensures |HorizontalRun(i, j, len)| == len
    ensures forall c :: c in HorizontalRun(i, j, len) <==> c.0 == j && i <= c.1 < i + len
  {
    if len > 0 {
      HorizontalRunCells(i, j, len - 1);
    }
  }

  /** The first `rows` rows of a board `dim` cells wide. */
  function Rows(rows: nat, dim: nat): (g: set<Cell>)
    ensures |g| == rows * dim
    ensures forall c :: c in g <==> 0 <= c.0 < rows && 0 <= c.1 < dim
  {
    if rows == 0 then {}
    else
      HorizontalRunCells(0, rows - 1, dim);
      Rows(rows - 1, dim) + HorizontalRun(0, rows - 1, dim)
  }

  /** All cells of a `dim`-by-`dim` board. */
  function Grid(dim: nat): (g: set<Cell>)
    ensures |g| == dim * dim
    ensures forall c :: c in g <==> InBounds(c, dim)
  {
    Rows(dim, dim)
  }

  /** Shooting at a cell of the grid not shot at before leaves fewer cells
      of the grid unshot. */
  lemma ShotShrinks(dim: nat, shot: set<Cell>, c: Cell)
    requires c in Grid(dim) && c !in shot
    ensures |Grid(dim) - (shot + {c})| < |Grid(dim) - shot|
  {
    assert Grid(dim) - (shot + {c}) == (Grid(dim) - shot) - {c};
  }

  /** `p` is `len` cells in one straight vertical or horizontal run that
      lies inside a `dim`-by-`dim` board. */
  ghost predicate StraightRun(p: Placement, len: nat, dim: nat) {
    exists i: int, j: int :: 0 <= i && i + len <= dim && 0 <= j < dim &&
      (p == VerticalRun(i, j, len) || p == HorizontalRun(i, j, len))
  }

  /** The cells an assignment of placements to ships occupies. */
  function Cover(a: map<Name, Placement>): set<Cell> {
    set n, c | n in a && c in a[n] :: c
  }

  /** No two ships of the assignment share a cell. */
  ghost predicate PairwiseDisjoint(a: map<Name, Placement>) {
    forall m, n :: m in a && n in a && m != n ==> a[m] !! a[n]
  }

  /** Re-placing one ship of a disjoint assignment with a placement that
      avoids the other ships keeps the assignment disjoint. */
  lemma {:induction false} CoverReplace(a: map<Name, Placement>, n: Name, k: Placement)
    requires n in a && PairwiseDisjoint(a)
    requires k !! Cover(a - {n})
    ensures PairwiseDisjoint(a[n := k])
    ensures Cover(a[n := k]) == Cover(a - {n}) + k
    ensures Cover(a - {n}) <= Cover(a)
  {
    var rest := a - {n};
    assert a[n := a[n]] == a;
    CoverSplit(a, n, a[n]);
    CoverSplit(a, n, k);
    var b := a[n := k];
    forall p, q | p in b && q in b && p != q ensures b[p] !! b[q] {
      if p == n || q == n {
        var o := if p == n then q else p;
        forall c | c in a[o] ensures c !in k {
          assert o in rest && c in rest[o];
        }
      }
    }
  }

  /** The cells of an assignment after setting ship `n` to `k` are those of
      the other ships and those of `k`. */
  lemma {:induction false} CoverSplit(a: map<Name, Placement>, n: Name, k: Placement)
    ensures Cover(a[n := k]) == Cover(a - {n}) + k
  {
    var b, rest := a[n := k], a - {n};
    forall c | c in Cover(b) ensures c in Cover(rest) + k {
      var m :| m in b && c in b[m];
      if m != n {
        assert m in rest && c in rest[m];
      }
    }
    forall c | c in Cover(rest) + k ensures c in Cover(b) {
      if c in k {
        assert n in b && c in b[n];
      } else {
        var m :| m in rest && c in rest[m];
        assert m in b && c in b[m];
      }
    }
  }

  /** Adding a ship whose placement avoids the occupied cells keeps the
      assignment disjoint and adds exactly its cells. */
  lemma {:induction false} CoverAdd(a: map<Name, Placement>, n: Name, k: Placement)
    requires n !in a && PairwiseDisjoint(a) && k !! Cover(a)
    ensures PairwiseDisjoint(a[n := k])
    ensures Cover(a[n := k]) == Cover(a) + k
    ensures |Cover(a[n := k])| == |Cover(a)| + |k|
  {
    assert a - {n} == a;
    CoverSplit(a, n, k);
  }

  /** The summed lengths of the ships in `names`. */
  function SumLengths(names: seq<Name>, lengths: map<Name, nat>): nat
    requires forall n :: n in names ==> n in lengths
  {
    if names == [] then 0
    else SumLengths(names[..|names| - 1], lengths) + lengths[names[|names| - 1]]
  }

  /** Summing lengths over a concatenation. */
  lemma {:induction false} SumLengthsAppend(xs: seq<Name>, ys: seq<Name>, lengths: map<Name, nat>)
    requires forall n :: n in xs + ys ==> n in lengths
    ensures SumLengths(xs + ys, lengths) == SumLengths(xs, lengths) + SumLengths(ys, lengths)
  {
    if ys == [] {
      assert xs + ys == xs;
    } else {
      var init := ys[..|ys| - 1];
      assert (xs + ys)[..|xs + ys| - 1] == xs + init;
      assert (xs + ys)[|xs + ys| - 1] == ys[|ys| - 1];
      SumLengthsAppend(xs, init, lengths);
    }
  }

  /** Taking one ship out of a list takes its length out of the sum. */
  lemma {:induction false} SumLengthsRemove(ys: seq<Name>, i: nat, lengths: map<Name, nat>)
    requires i < |ys| && forall n :: n in ys ==> n in lengths
    ensures SumLengths(ys, lengths) == lengths[ys[i]] + SumLengths(ys[..i] + ys[i + 1..], lengths)
  {
    assert ys == ys[..i] + ([ys[i]] + ys[i + 1..]);
    SumLengthsAppend(ys[..i], [ys[i]] + ys[i + 1..], lengths);
    SumLengthsAppend([ys[i]], ys[i + 1..], lengths);
    SumLengthsAppend(ys[..i], ys[i + 1..], lengths);
    assert SumLengths([ys[i]], lengths) == lengths[ys[i]] by {
      assert [ys[i]][..0] == [];
    }
  }

  /** The summed length of a fleet does not depend on the order in which
      its ships are listed. */
  lemma {:induction false} SumLengthsPermutation(xs: seq<Name>, ys: seq<Name>, lengths: map<Name, nat>)
    requires multiset(xs) == multiset(ys)
    requires forall n :: n in xs ==> n in lengths
    ensures forall n :: n in ys ==> n in lengths
    ensures SumLengths(xs, lengths) == SumLengths(ys, lengths)
  {
    forall n | n in ys ensures n in lengths {
      assert n in multiset(ys);
    }
    if xs != [] {
      var x, init := xs[|xs| - 1], xs[..|xs| - 1];
      assert x in ys by {
        assert x in multiset(xs);
      }
      var i :| 0 <= i < |ys| && ys[i] == x;
      var rest := ys[..i] + ys[i + 1..];
      assert multiset(init) == multiset(rest) by {
        MultisetRemoveAt(ys, i);
        MultisetRemoveAt(xs, |xs| - 1);
        assert xs[..|xs| - 1] + xs[|xs|..] == init;
      }
      assert forall n :: n in init ==> n in xs;
      SumLengthsPermutation(init, rest, lengths);
      SumLengthsRemove(ys, i, lengths);
    }
  }

  /** The cells of a list of boats (the `final_set` that `randomBoard`
      returns). */
  function BoatCells(boats: seq<Boat>): (r: set<Cell>)
    ensures forall c :: c in r <==> exists k :: 0 <= k < |boats| && c in boats[k].location
  {
    if boats == [] then {}
    else
      var init := boats[..|boats| - 1];
      assert forall k :: 0 <= k < |init| ==> init[k] == boats[k];
      BoatCells(init) + boats[|boats| - 1].location
  }

  /** The names of the boats, in placement order. */
  function BoatNames(boats: seq<Boat>): (r: seq<Name>)
    ensures |r| == |boats|
    ensures forall k :: 0 <= k < |boats| ==> r[k] == boats[k].name
  {
    seq(|boats|, k requires 0 <= k < |boats| => boats[k].name)
  }

  /** `dict(self.boats)[name]`: the location of the boat with that name. */
  function LocationOf(boats: seq<Boat>, name: Name): Placement {
    if boats == [] then {}
    else if boats[|boats| - 1].name == name then boats[|boats| - 1].location
    else LocationOf(boats[..|boats| - 1], name)
  }

  /** When every name occurs once, `dict(self.boats)[name]` is the location of
      the boat carrying that name. */
  lemma {:induction false} LocationOfAt(boats: seq<Boat>, k: nat)
    requires k < |boats| && Distinct(BoatNames(boats))
    ensures LocationOf(boats, boats[k].name) == boats[k].location
  {
    var last := |boats| - 1;
    if k < last {
      var init := boats[..last];
      assert BoatNames(init) == BoatNames(boats)[..last];
      assert BoatNames(boats)[k] != BoatNames(boats)[last];
      LocationOfAt(init, k);
    }
  }

  /** `self.boats` is a ground-truth board for the ships listed in `order`:
      one boat per name, in that order, each placed on one of its catalog
      layouts, no two boats sharing a cell. */
  ghost predicate GroundTruth(boats: seq<Boat>, order: seq<Name>, catalog: map<Name, seq<Placement>>) {
    && |boats| == |order|
    && (forall k :: 0 <= k < |boats| ==> boats[k].name == order[k])
    && (forall k :: 0 <= k < |boats| ==> order[k] in catalog && boats[k].location in catalog[order[k]])
    && (forall k, l :: 0 <= k < l < |boats| ==> boats[k].location !! boats[l].location)
  }

  /** Dropping the last boat of a ground-truth board leaves a ground-truth
      board whose cells miss the dropped boat. */
  lemma {:induction false} GroundTruthInit(boats: seq<Boat>, order: seq<Name>, catalog: map<Name, seq<Placement>>)
    requires GroundTruth(boats, order, catalog) && boats != []
    ensures GroundTruth(boats[..|boats| - 1], order[..|boats| - 1], catalog)
    ensures BoatCells(boats[..|boats| - 1]) !! boats[|boats| - 1].location
    ensures BoatCells(boats) == BoatCells(boats[..|boats| - 1]) + boats[|boats| - 1].location
  {
    var last := |boats| - 1;
    var init := boats[..last];
    assert forall k :: 0 <= k < last ==> init[k] == boats[k] && order[..last][k] == order[k];
    forall c | c in BoatCells(init) ensures c !in boats[last].location {
      var k :| 0 <= k < |init| && c in init[k].location;
      assert init[k] == boats[k];
    }
  }

  /** The cells of a ground-truth board number the summed lengths of its
      ships, when every catalog layout has its ship's length. */
  lemma {:induction false} BoardSize(boats: seq<Boat>, order: seq<Name>, catalog: map<Name, seq<Placement>>, lengths: map<Name, nat>)
    requires GroundTruth(boats, order, catalog)
    requires forall n :: n in order ==> n in lengths
    requires forall n, p :: n in order && n in catalog && p in catalog[n] ==> |p| == lengths[n]
    ensures |BoatCells(boats)| == SumLengths(order, lengths)
  {
    if boats != [] {
      var last := |boats| - 1;
      var init, initOrder := boats[..last], order[..last];
      var loc := boats[last].location;
      GroundTruthInit(boats, order, catalog);
      assert |BoatCells(init)| == SumLengths(initOrder, lengths) by {
        assert forall n :: n in initOrder ==> n in order;
        BoardSize(init, initOrder, catalog, lengths);
      }
      assert |loc| == lengths[order[last]] by {
        assert order[last] in order;
      }
    }
  }

  /** Adding a boat on one of its ship's layouts, disjoint from the boats
      placed so far, extends a ground-truth board by that boat. */
  lemma {:induction false} GroundTruthSnoc(boats: seq<Boat>, order: seq<Name>, catalog: map<Name, seq<Placement>>,
                                           name: Name, location: Placement)
    requires GroundTruth(boats, order, catalog)
    requires name in catalog && location in catalog[name]
    requires location !! BoatCells(boats)
    ensures GroundTruth(boats + [Boat(name, location)], order + [name], catalog)
    ensures BoatCells(boats + [Boat(name, location)]) == BoatCells(boats) + location
    ensures BoatNames(boats + [Boat(name, location)]) == BoatNames(boats) + [name]
  {
    var nb := boats + [Boat(name, location)];
    assert nb[..|boats|] == boats;
    forall k, l | 0 <= k < l < |nb| ensures nb[k].location !! nb[l].location {
      if l == |boats| {
        forall c | c in nb[k].location ensures c !in location {
          assert c in BoatCells(boats);
        }
      }
    }
  }
}
