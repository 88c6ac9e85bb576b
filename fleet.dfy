/** The fleet configuration both variants derive from the ship-length list
    in their constructors: letter names, the name-to-length dict, the total
    number of ship cells and the default placement order. */
module Fleet {
  import opened Seqs
  import opened Cells
  import opened Ordering

  /** `string.ascii_lowercase[:count]`: 'a', 'b', ... in alphabetical
      order, never more than 26 of them. */
  function Names(count: nat): (r: seq<Name>)
    ensures |r| == Min(count, 26)
    ensures StrictlyAscending(r)
    ensures forall k :: 0 <= k < |r| ==> 'a' <= r[k] <= 'z'
  {
    seq(Min(count, 26), k requires 0 <= k < Min(count, 26) => ('a' as int + k) as char)
  }

  /** The letter names are pairwise different. */
  lemma {:induction false} NamesDistinct(count: nat)
    ensures Distinct(Names(count))
  {
    var r := Names(count);
    forall i, j | 0 <= i < j < |r| ensures r[i] != r[j] {
      assert r[i] < r[j];
    }
  }

  /** `dict(zip(names, ships))`: each name mapped to the length listed at
      its position. */
  function ShipLengths(ships: seq<nat>): (m: map<Name, nat>)
    ensures m.Keys == Elems(Names(|ships|))
    ensures forall k :: 0 <= k < |Names(|ships|)| ==> m[Names(|ships|)[k]] == ships[k]
  {
    var names := Names(|ships|);
    map k | 0 <= k < |names| :: names[k] := ships[k]
  }

  /** With at most 26 ships every ship has a name, and the summed length of
      the named ships is `np.sum(self.ships)`. */
  lemma {:induction false} NamedLengthsSum(ships: seq<nat>)
    requires |ships| <= 26
    ensures |Names(|ships|)| == |ships|
    ensures SumLengths(Names(|ships|), ShipLengths(ships)) == Sum(ships)
  {
    var names, lengths := Names(|ships|), ShipLengths(ships);
    PrefixSums(names, ships, lengths, |ships|);
    assert names[..|ships|] == names && ships[..|ships|] == ships;
  }

  lemma {:induction false} PrefixSums(names: seq<Name>, ships: seq<nat>, lengths: map<Name, nat>, k: nat)
    requires |names| == |ships| && k <= |ships|
    requires forall i :: 0 <= i < |names| ==> names[i] in lengths && lengths[names[i]] == ships[i]
    ensures forall n :: n in names[..k] ==> n in lengths
    ensures SumLengths(names[..k], lengths) == Sum(ships[..k])
  {
    if k > 0 {
      PrefixSums(names, ships, lengths, k - 1);
      assert names[..k][..k - 1] == names[..k - 1];
      assert ships[..k][..k - 1] == ships[..k - 1];
    }
  }

  /** `[x for _, x in sorted(zip(ships, names))]`: the names in ascending
      order of ship length, ties broken alphabetically. */
  function DefaultOrder(names: seq<Name>, lengths: map<Name, nat>): (order: seq<Name>)
    requires forall n :: n in names ==> n in lengths
    ensures multiset(order) == multiset(names)
  {
    SortByKey(names, lengths)
  }

  /** The default order sorts the (length, name) pairs, as Python's tuple
      comparison does. */
  lemma {:induction false} DefaultOrderSorted(ships: seq<nat>)
    ensures var names := Names(|ships|);
      LexSortedBy(DefaultOrder(names, ShipLengths(ships)), ShipLengths(ships))
  {
    SortByKeyLex(Names(|ships|), ShipLengths(ships));
  }
}
