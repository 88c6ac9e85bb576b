/** The placement catalog `possibleShipsDict`: for a ship of length `len`,
    every straight run of `len` cells inside the `dim`-by-`dim` board, listed
    in the order each variant builds it. */
module Layouts {
  import opened Seqs
  import opened Cells

  /** `range(dim - len + 1)`: the rows (or columns) at which a run can start;
      a range with a non-positive bound is empty. */
  function Anchors(dim: nat, len: nat): nat {
    if len <= dim then dim - len + 1 else 0
  }

  /** The vertical runs starting in row `i`, by column. */
  function VerticalRow(dim: nat, len: nat, i: int): seq<Placement> {
    seq(dim, j => VerticalRun(i, j, len))
  }

  /** The horizontal runs starting in column `i`, by row. */
  function HorizontalRow(dim: nat, len: nat, i: int): seq<Placement> {
    seq(dim, j => HorizontalRun(i, j, len))
  }

  /** `orientations1` in the Bayesian sampler, one row per anchor. */
  function VerticalRows(dim: nat, len: nat): seq<seq<Placement>> {
    seq(Anchors(dim, len), i => VerticalRow(dim, len, i))
  }

  /** `orientations2` in the Bayesian sampler, one row per anchor. */
  function HorizontalRows(dim: nat, len: nat): seq<seq<Placement>> {
    seq(Anchors(dim, len), i => HorizontalRow(dim, len, i))
  }

  /** `orientations1 + orientations2` in the Bayesian sampler: every vertical
      run (by anchor, then column), then every horizontal run. */
  function ComponentLayouts(dim: nat, len: nat): seq<Placement> {
    Flatten(VerticalRows(dim, len)) + Flatten(HorizontalRows(dim, len))
  }

  /** The two runs the statistics sampler appends at anchor `(i, j)`. */
  function AnchorPair(len: nat, i: int, j: int): seq<Placement> {
    [VerticalRun(i, j, len), HorizontalRun(i, j, len)]
  }

  /** The anchor pairs of the first `j` columns of anchor row `i`. */
  function PairsUpTo(len: nat, i: int, j: nat): seq<seq<Placement>> {
    seq(j, j' => AnchorPair(len, i, j'))
  }

  /** The rows of anchor pairs of the first `i` anchors. */
  function RowsUpTo(dim: nat, len: nat, i: nat): seq<seq<Placement>> {
    seq(i, i' => Flatten(PairsUpTo(len, i', dim)))
  }

  /** The statistics sampler's catalog: a vertical and a horizontal run per
      anchor, interleaved. */
  function InterleavedLayouts(dim: nat, len: nat): seq<Placement> {
    Flatten(RowsUpTo(dim, len, Anchors(dim, len)))
  }

  /** Both catalogs hold `2 * (dim - len + 1) * dim` layouts (none when the
      ship is longer than the board). */
  lemma {:induction false} CatalogSize(dim: nat, len: nat)
    ensures |ComponentLayouts(dim, len)| == 2 * Anchors(dim, len) * dim
    ensures |InterleavedLayouts(dim, len)| == 2 * Anchors(dim, len) * dim
  {
    var n := Anchors(dim, len);
    FlattenLength(VerticalRows(dim, len), dim);
    FlattenLength(HorizontalRows(dim, len), dim);
    var rows := RowsUpTo(dim, len, n);
    forall i | 0 <= i < n ensures |rows[i]| == 2 * dim {
      FlattenLength(PairsUpTo(len, i, dim), 2);
    }
    FlattenLength(rows, 2 * dim);
    Twice(n, dim);
  }

  lemma {:induction false} Twice(n: nat, d: nat)
    ensures n * (2 * d) == 2 * n * d && n * d + n * d == 2 * n * d
  {
  }

  /** A layout is in the Bayesian catalog exactly when it is a straight,
      in-bounds run of `len` cells. */
  lemma {:induction false} InComponentLayouts(dim: nat, len: nat, p: Placement)
    ensures p in ComponentLayouts(dim, len) <==> StraightRun(p, len, dim)
  {
    var n := Anchors(dim, len);
    InVerticalRows(dim, len, p);
    InHorizontalRows(dim, len, p);
    if p in Flatten(VerticalRows(dim, len)) {
      var i: int, j: int :| 0 <= i < n && 0 <= j < dim && p == VerticalRun(i, j, len);
      assert i + len <= dim;
      assert StraightRun(p, len, dim);
    } else if p in Flatten(HorizontalRows(dim, len)) {
      var i: int, j: int :| 0 <= i < n && 0 <= j < dim && p == HorizontalRun(i, j, len);
      assert i + len <= dim;
      assert StraightRun(p, len, dim);
    }
    if StraightRun(p, len, dim) {
      var i: int, j: int :| 0 <= i && i + len <= dim && 0 <= j < dim &&
        (p == VerticalRun(i, j, len) || p == HorizontalRun(i, j, len));
      assert i < n;
      if p == VerticalRun(i, j, len) {
        assert exists i: int, j: int :: 0 <= i < n && 0 <= j < dim && p == VerticalRun(i, j, len);
      } else {
        assert exists i: int, j: int :: 0 <= i < n && 0 <= j < dim && p == HorizontalRun(i, j, len);
      }
    }
  }

  lemma {:induction false} InVerticalRows(dim: nat, len: nat, p: Placement)
    ensures p in Flatten(VerticalRows(dim, len)) <==>
      exists i: int, j: int :: 0 <= i < Anchors(dim, len) && 0 <= j < dim && p == VerticalRun(i, j, len)
  {
    var n, vs := Anchors(dim, len), VerticalRows(dim, len);
    InFlatten(vs, p);
    if p in Flatten(vs) {
      var i :| 0 <= i < n && p in vs[i];
      assert vs[i] == VerticalRow(dim, len, i);
      var j :| 0 <= j < dim && vs[i][j] == p;
      assert vs[i][j] == VerticalRun(i, j, len);
    } else {
      forall i: int, j: int | 0 <= i < n && 0 <= j < dim ensures p != VerticalRun(i, j, len) {
        assert vs[i][j] == VerticalRun(i, j, len);
      }
    }
  }

  lemma {:induction false} InHorizontalRows(dim: nat, len: nat, p: Placement)
    ensures p in Flatten(HorizontalRows(dim, len)) <==>
      exists i: int, j: int :: 0 <= i < Anchors(dim, len) && 0 <= j < dim && p == HorizontalRun(i, j, len)
  {
    var n, hs := Anchors(dim, len), HorizontalRows(dim, len);
    InFlatten(hs, p);
    if p in Flatten(hs) {
      var i :| 0 <= i < n && p in hs[i];
      assert hs[i] == HorizontalRow(dim, len, i);
      var j :| 0 <= j < dim && hs[i][j] == p;
      assert hs[i][j] == HorizontalRun(i, j, len);
    } else {
      forall i: int, j: int | 0 <= i < n && 0 <= j < dim ensures p != HorizontalRun(i, j, len) {
        assert hs[i][j] == HorizontalRun(i, j, len);
      }
    }
  }

  /** A layout is in the statistics sampler's catalog exactly when it is a
      straight, in-bounds run of `len` cells. */
  lemma {:induction false} InInterleavedLayouts(dim: nat, len: nat, p: Placement)
    ensures p in InterleavedLayouts(dim, len) <==> StraightRun(p, len, dim)
  {
    var n := Anchors(dim, len);
    var rows := RowsUpTo(dim, len, n);
    InFlatten(rows, p);
    if p in InterleavedLayouts(dim, len) {
      var i :| 0 <= i < n && p in rows[i];
      InAnchorRow(len, i, dim, p);
      var j :| 0 <= j < dim && (p == VerticalRun(i, j, len) || p == HorizontalRun(i, j, len));
      assert i + len <= dim;
      assert StraightRun(p, len, dim);
    }
    if StraightRun(p, len, dim) {
      var i: int, j: int :| 0 <= i && i + len <= dim && 0 <= j < dim &&
        (p == VerticalRun(i, j, len) || p == HorizontalRun(i, j, len));
      assert i < n;
      InAnchorRow(len, i, dim, p);
      assert exists j :: 0 <= j < dim && (p == VerticalRun(i, j, len) || p == HorizontalRun(i, j, len));
      assert rows[i] == Flatten(PairsUpTo(len, i, dim));
    }
  }

  lemma {:induction false} InAnchorRow(len: nat, i: int, dim: nat, p: Placement)
    ensures p in Flatten(PairsUpTo(len, i, dim)) <==>
      exists j :: 0 <= j < dim && (p == VerticalRun(i, j, len) || p == HorizontalRun(i, j, len))
  {
    var pairs := PairsUpTo(len, i, dim);
    InFlatten(pairs, p);
    if p in Flatten(pairs) {
      var j :| 0 <= j < dim && p in pairs[j];
      assert pairs[j] == [VerticalRun(i, j, len), HorizontalRun(i, j, len)];
      assert p == VerticalRun(i, j, len) || p == HorizontalRun(i, j, len);
    } else {
      forall j | 0 <= j < dim ensures p != VerticalRun(i, j, len) && p != HorizontalRun(i, j, len) {
        assert pairs[j] == [VerticalRun(i, j, len), HorizontalRun(i, j, len)];
        assert p !in pairs[j];
      }
    }
  }

  /** The two variants list the same layouts, each as often, in a different
      order. */
  lemma {:induction false} CatalogsAgree(dim: nat, len: nat)
    ensures multiset(InterleavedLayouts(dim, len)) == multiset(ComponentLayouts(dim, len))
  {
    var n := Anchors(dim, len);
    var vs, hs, rows := VerticalRows(dim, len), HorizontalRows(dim, len), RowsUpTo(dim, len, n);
    forall i | 0 <= i < n
      ensures multiset(rows[i]) == multiset(vs[i]) + multiset(hs[i])
    {
      RowAgrees(dim, len, i);
    }
    FlattenMerge(rows, vs, hs);
  }

  lemma {:induction false} RowAgrees(dim: nat, len: nat, i: int)
    ensures multiset(Flatten(PairsUpTo(len, i, dim))) ==
      multiset(VerticalRow(dim, len, i)) + multiset(HorizontalRow(dim, len, i))
  {
    var v, h := VerticalRow(dim, len, i), HorizontalRow(dim, len, i);
    FlattenSingletons(v);
    FlattenSingletons(h);
    FlattenMerge(PairsUpTo(len, i, dim), Singletons(v), Singletons(h));
  }

  /** Each layout of a catalog lies inside the board. */
  lemma {:induction false} StraightRunInBounds(p: Placement, len: nat, dim: nat)
    requires StraightRun(p, len, dim)
    ensures |p| == len
    ensures forall c :: c in p ==> InBounds(c, dim)
  {
    var i: int, j: int :| 0 <= i && i + len <= dim && 0 <= j < dim &&
      (p == VerticalRun(i, j, len) || p == HorizontalRun(i, j, len));
    VerticalRunCells(i, j, len);
    HorizontalRunCells(i, j, len);
  }

  /** Appending one more block to a flattened prefix. */
  lemma {:induction false} AppendBlock(before: seq<Placement>, blocks: seq<seq<Placement>>, block: seq<Placement>)
    ensures before + Flatten(blocks) + block == before + Flatten(blocks + [block])
  {
    FlattenSnoc(blocks, block);
  }

  lemma {:induction false} RowsUpToNext(dim: nat, len: nat, i: nat)
    ensures Flatten(RowsUpTo(dim, len, i + 1)) == Flatten(RowsUpTo(dim, len, i)) + Flatten(PairsUpTo(len, i, dim))
  {
    assert RowsUpTo(dim, len, i + 1) == RowsUpTo(dim, len, i) + [Flatten(PairsUpTo(len, i, dim))];
    FlattenSnoc(RowsUpTo(dim, len, i), Flatten(PairsUpTo(len, i, dim)));
  }

  lemma {:induction false} PairsUpToNext(before: seq<Placement>, len: nat, i: int, j: nat)
    ensures before + Flatten(PairsUpTo(len, i, j + 1)) == before + Flatten(PairsUpTo(len, i, j)) + AnchorPair(len, i, j)
  {
    assert PairsUpTo(len, i, j + 1) == PairsUpTo(len, i, j) + [AnchorPair(len, i, j)];
    AppendBlock(before, PairsUpTo(len, i, j), AnchorPair(len, i, j));
  }

  /** The statistics sampler's nested loops for one ship: for each anchor
      row `i` and column `j`, append the vertical and the horizontal run. */
  method Orientations(dim: nat, len: nat) returns (orientations: seq<Placement>)
    ensures orientations == InterleavedLayouts(dim, len)
  {
    orientations := [];
    var i := 0;
    while i < Anchors(dim, len)
      invariant 0 <= i <= Anchors(dim, len)
      invariant orientations == Flatten(RowsUpTo(dim, len, i))
    {
      RowsUpToNext(dim, len, i);
      orientations := AppendAnchorRow(orientations, dim, len, i);
      i := i + 1;
    }
  }

  /** The inner loop: for each column `j`, append the vertical and the
      horizontal run anchored at `(i, j)`. */
  method AppendAnchorRow(before: seq<Placement>, dim: nat, len: nat, i: int) returns (orientations: seq<Placement>)
    ensures orientations == before + Flatten(PairsUpTo(len, i, dim))
  {
    orientations := before;
    var j := 0;
    while j < dim
      invariant 0 <= j <= dim
      invariant orientations == before + Flatten(PairsUpTo(len, i, j))
    {
      PairsUpToNext(before, len, i, j);
      orientations := orientations + [VerticalRun(i, j, len), HorizontalRun(i, j, len)];
      j := j + 1;
    }
  }
}
