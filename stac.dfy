/** STAC items and their asset dictionaries, as the copy-assets code sees them once
    `Item.to_dict()` has run: plain insertion-ordered dictionaries. */
module Stac {
  import opened Seqs
  import opened Json
  import opened Wrappers

  /** One asset: its location and every other member (type, roles, title, ...). */
  datatype Asset = Asset(href: string, meta: map<string, Json>)

  /** A Python dict of assets: the keys in insertion order, and their values. */
  datatype AssetMap = AssetMap(order: seq<string>, entries: map<string, Asset>) {
    predicate Valid() {
      && Distinct(order)
      && (forall k :: k in order ==> k in entries)
      && (forall k :: k in entries ==> k in order)
    }
  }

  /** An item dict: its `assets` member, and all its other members
      (id, geometry, links, properties, collection, ...). */
  datatype Item = Item(fields: map<string, Json>, assets: AssetMap)

  const NoAssets: AssetMap := AssetMap([], map[])

  /** The dict reduced to the entries named in `ks`,
      in the dictionary's own order. */
  function Restrict(m: AssetMap, ks: seq<string>): (r: AssetMap)
    requires m.Valid()
    ensures r.Valid()
    ensures forall k :: k in r.entries <==> k in m.entries && k in ks
    ensures forall k :: k in r.entries ==> r.entries[k] == m.entries[k]
    ensures r.order == Filter(m.order, InList(ks))
  {
    FilterDistinct(m.order, InList(ks));
    AssetMap(Filter(m.order, InList(ks)), map k | k in m.entries && k in ks :: m.entries[k])
  }

  /** `m[k] = v`: an existing key keeps its place, a new key goes last. */
  function Put(m: AssetMap, k: string, v: Asset): AssetMap {
    if k in m.order then AssetMap(m.order, m.entries[k := v])
    else AssetMap(m.order + [k], m.entries[k := v])
  }

  /** `for k in ks: a[k] = vals[k]` */
  function UpdateWith(a: AssetMap, ks: seq<string>, vals: map<string, Asset>): AssetMap
    requires forall k :: k in ks ==> k in vals
    decreases |ks|
  {
    if ks == [] then a else UpdateWith(Put(a, ks[0], vals[ks[0]]), ks[1..], vals)
  }

  /** `a |= b` */
  function Update(a: AssetMap, b: AssetMap): AssetMap
    requires b.Valid()
  {
    UpdateWith(a, b.order, b.entries)
  }

  /** `m.pop(k)`, which raises KeyError when `k` is absent. */
  function Pop(m: AssetMap, k: string): (r: Result<AssetMap, string>)
    requires m.Valid()
    ensures r.Success? <==> k in m.entries
    ensures r.Success? ==> r.value.Valid()
    ensures r.Success? ==> forall j :: j in r.value.entries <==> j in m.entries && j != k
    ensures r.Success? ==> forall j :: j in r.value.entries ==> r.value.entries[j] == m.entries[j]
    ensures r.Success? ==> r.value.order == Filter(m.order, NotInList([k]))
  {
    if k in m.entries then
      FilterDistinct(m.order, NotInList([k]));
      Success(AssetMap(Filter(m.order, NotInList([k])), m.entries - {k}))
    else Failure("KeyError")
  }

  /** Two well-formed dicts with the same keys in the same order and the same
      values are equal. */
  lemma SameAssetMap(a: AssetMap, b: AssetMap)
    requires a.Valid() && b.Valid() && a.order == b.order
    requires forall k :: k in a.order ==> a.entries[k] == b.entries[k]
    ensures a == b
  {
    assert a.entries.Keys == b.entries.Keys;
    assert a.entries == b.entries;
  }

  /** The key order `UpdateWith` leaves, computed on the order alone. */
  function PutOrders(o: seq<string>, ks: seq<string>): seq<string>
    decreases |ks|
  {
    if ks == [] then o else PutOrders(if ks[0] in o then o else o + [ks[0]], ks[1..])
  }

  lemma {:induction false} UpdateWithPutOrders(a: AssetMap, ks: seq<string>, vals: map<string, Asset>)
    requires forall k :: k in ks ==> k in vals
    ensures UpdateWith(a, ks, vals).order == PutOrders(a.order, ks)
    decreases |ks|
  {
    if ks != [] {
      UpdateWithPutOrders(Put(a, ks[0], vals[ks[0]]), ks[1..], vals);
    }
  }

  lemma {:induction false} PutOrdersAppend(o: seq<string>, ks: seq<string>)
    requires Distinct(ks)
    ensures PutOrders(o, ks) == o + Filter(ks, NotInList(o))
    decreases |ks|
  {
    if ks == [] {
      assert o + Filter(ks, NotInList(o)) == o;
    } else {
      var k0, rest := ks[0], ks[1..];
      assert ks == [k0] + rest;
      assert Distinct(rest) && k0 !in rest;
      if k0 in o {
        calc {
          PutOrders(o, ks);
          PutOrders(o, rest);
          { PutOrdersAppend(o, rest); }
          o + Filter(rest, NotInList(o));
          { FilterSkipsListed(o, k0, rest); }
          o + Filter(ks, NotInList(o));
        }
      } else {
        calc {
          PutOrders(o, ks);
          PutOrders(o + [k0], rest);
          { PutOrdersAppend(o + [k0], rest); }
          (o + [k0]) + Filter(rest, NotInList(o + [k0]));
          o + ([k0] + Filter(rest, NotInList(o + [k0])));
          { FilterKeepsNew(o, k0, rest); }
          o + Filter(ks, NotInList(o));
        }
      }
    }
  }

  /** `a |= b` appends, in `b`'s order, the keys of `b` that `a` lacks. */
  lemma UpdateWithOrder(a: AssetMap, ks: seq<string>, vals: map<string, Asset>)
    requires Distinct(ks)
    requires forall k :: k in ks ==> k in vals
    ensures UpdateWith(a, ks, vals).order == a.order + Filter(ks, NotInList(a.order))
  {
    UpdateWithPutOrders(a, ks, vals);
    PutOrdersAppend(a.order, ks);
  }

  lemma FilterSkipsListed(o: seq<string>, k0: string, rest: seq<string>)
    requires k0 in o
    ensures Filter([k0] + rest, NotInList(o)) == Filter(rest, NotInList(o))
  {
    FilterAppend([k0], rest, NotInList(o));
    assert [k0] == [] + [k0];
  }

  lemma FilterKeepsNew(o: seq<string>, k0: string, rest: seq<string>)
    requires k0 !in o && k0 !in rest
    ensures Filter([k0] + rest, NotInList(o)) == [k0] + Filter(rest, NotInList(o + [k0]))
  {
    FilterAppend([k0], rest, NotInList(o));
    assert [k0] == [] + [k0];
    FilterAgree(rest, NotInList(o + [k0]), NotInList(o));
  }

  /** `a |= b` takes `b`'s value for every key of `b` and keeps `a`'s value
      for every other key. */
  lemma {:induction false} UpdateWithEntries(a: AssetMap, ks: seq<string>, vals: map<string, Asset>)
    requires forall k :: k in ks ==> k in vals
    ensures forall k :: k in UpdateWith(a, ks, vals).entries <==> k in a.entries || k in ks
    ensures forall k :: k in UpdateWith(a, ks, vals).entries ==>
              UpdateWith(a, ks, vals).entries[k] == if k in ks then vals[k] else a.entries[k]
    decreases |ks|
  {
    if ks != [] {
      assert ks == [ks[0]] + ks[1..];
      UpdateWithEntries(Put(a, ks[0], vals[ks[0]]), ks[1..], vals);
    }
  }

  /** `a |= b` leaves a well-formed dictionary. */
  lemma UpdateValid(a: AssetMap, b: AssetMap)
    requires a.Valid() && b.Valid()
    ensures Update(a, b).Valid()
  {
    var r := Update(a, b);
    UpdateWithOrder(a, b.order, b.entries);
    UpdateWithEntries(a, b.order, b.entries);
    var tail := Filter(b.order, NotInList(a.order));
    FilterDistinct(b.order, NotInList(a.order));
    assert r.order == a.order + tail;
    forall i, j | 0 <= i < j < |r.order| ensures r.order[i] != r.order[j] {
      if j < |a.order| {
      } else if i >= |a.order| {
        assert r.order[i] == tail[i - |a.order|];
        assert r.order[j] == tail[j - |a.order|];
      } else {
        assert r.order[j] == tail[j - |a.order|];
        assert r.order[j] in tail;
      }
    }
  }

  /** The merge of two dictionaries with disjoint keys is their concatenation:
      nothing in `a` is overwritten and nothing is reordered. */
  lemma UpdateDisjoint(a: AssetMap, b: AssetMap)
    requires a.Valid() && b.Valid()
    requires forall k :: k in a.entries ==> k !in b.entries
    ensures Update(a, b).Valid()
    ensures Update(a, b).order == a.order + b.order
    ensures forall k :: k in Update(a, b).entries <==> k in a.entries || k in b.entries
    ensures forall k :: k in a.entries ==> Update(a, b).entries[k] == a.entries[k]
    ensures forall k :: k in b.entries ==> Update(a, b).entries[k] == b.entries[k]
  {
    UpdateValid(a, b);
    UpdateWithOrder(a, b.order, b.entries);
    UpdateWithEntries(a, b.order, b.entries);
    FilterAll(b.order, NotInList(a.order));
  }
}
