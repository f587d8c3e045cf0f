/** The asset-transfer collaborators (download, make hrefs absolute, upload)
    and the STAC validator, seen from the copy-assets code: functions it calls but does
    not implement. */
module Transfer {
  import opened Seqs
  import opened Wrappers
  import opened Stac

  /** What the copy-assets code asks of its surroundings. `download` and `upload` act on one
      asset at a time and may fail with an error message; `makeAbsolute`
      rewrites a relative href; `stacValid` is the STAC validator's verdict. */
  datatype Collaborators = Collaborators(
    download: (string, Asset) -> Result<Asset, string>,
    makeAbsolute: Asset -> Asset,
    upload: (string, Asset) -> Result<Asset, string>,
    stacValid: Item -> bool)

  /** Replaces each listed asset by the result of `f` on it, in list order,
      stopping at the first failure (a missing key fails with KeyError). */
  function ApplyEach(m: AssetMap, ks: seq<string>, f: (string, Asset) -> Result<Asset, string>): (r: Result<AssetMap, string>)
    ensures r.Success? ==> r.value.order == m.order && r.value.entries.Keys == m.entries.Keys
    ensures r.Success? ==> forall k :: k in m.entries && k !in ks ==> r.value.entries[k] == m.entries[k]
    decreases |ks|
  {
    if ks == [] then Success(m)
    else if ks[0] !in m.entries then Failure("KeyError")
    else
      var v :- f(ks[0], m.entries[ks[0]]);
      ApplyEach(AssetMap(m.order, m.entries[ks[0] := v]), ks[1..], f)
  }

  /** Applied to distinct keys, `ApplyEach` succeeds exactly when every key is
      present and `f` succeeds on each original value, and then holds `f`'s
      result under each of those keys. */
  lemma {:induction false} ApplyEachMeaning(m: AssetMap, ks: seq<string>, f: (string, Asset) -> Result<Asset, string>)
    requires Distinct(ks)
    ensures ApplyEach(m, ks, f).Success? <==>
              forall k :: k in ks ==> k in m.entries && f(k, m.entries[k]).Success?
    ensures ApplyEach(m, ks, f).Success? ==>
              forall k :: k in ks ==> ApplyEach(m, ks, f).value.entries[k] == f(k, m.entries[k]).value
    decreases |ks|
  {
    if ks != [] && ks[0] in m.entries && f(ks[0], m.entries[ks[0]]).Success? {
      var k0, rest := ks[0], ks[1..];
      var m' := AssetMap(m.order, m.entries[k0 := f(k0, m.entries[k0]).value]);
      assert ks == [k0] + rest;
      assert Distinct(rest);
      assert k0 !in rest;
      ApplyEachMeaning(m', rest, f);
      assert forall k :: k in rest ==> (k in m'.entries <==> k in m.entries) && (k in m.entries ==> m'.entries[k] == m.entries[k]);
    }
  }

  /** `Item.make_asset_hrefs_absolute()`, applied to every asset. */
  function MapAll(m: AssetMap, g: Asset -> Asset): (r: AssetMap)
    ensures r.order == m.order && r.entries.Keys == m.entries.Keys
    ensures forall k :: k in m.entries ==> r.entries[k] == g(m.entries[k])
  {
    AssetMap(m.order, map k | k in m.entries :: g(m.entries[k]))
  }

  /** What the copy does to one asset: download it, make its href absolute,
      upload it. */
  function Relocate(c: Collaborators, k: string, a: Asset): Result<Asset, string> {
    var local :- c.download(k, a);
    c.upload(k, c.makeAbsolute(local))
  }

  /** `download_item_assets`, then `make_asset_hrefs_absolute`, then
      `upload_item_assets_to_s3`, each over every asset of the item. */
  function TransferItem(item: Item, c: Collaborators): Result<Item, string> {
    var downloaded :- ApplyEach(item.assets, item.assets.order, c.download);
    var absolute := MapAll(downloaded, c.makeAbsolute);
    var uploaded :- ApplyEach(absolute, absolute.order, c.upload);
    Success(Item(item.fields, uploaded))
  }

  /** The transfer keeps the item's other members and its asset keys and
      their order; it succeeds exactly when every asset can be relocated,
      and then holds each relocated asset under its own key. */
  lemma TransferItemMeaning(item: Item, c: Collaborators)
    requires item.assets.Valid()
    ensures TransferItem(item, c).Success? <==>
              forall k :: k in item.assets.entries ==> Relocate(c, k, item.assets.entries[k]).Success?
    ensures TransferItem(item, c).Success? ==>
              && TransferItem(item, c).value.fields == item.fields
              && TransferItem(item, c).value.assets.order == item.assets.order
              && TransferItem(item, c).value.assets.Valid()
              && forall k :: k in item.assets.entries ==>
                   TransferItem(item, c).value.assets.entries[k] == Relocate(c, k, item.assets.entries[k]).value
  {
    var m := item.assets;
    ApplyEachMeaning(m, m.order, c.download);
    var d := ApplyEach(m, m.order, c.download);
    if d.Success? {
      var absolute := MapAll(d.value, c.makeAbsolute);
      ApplyEachMeaning(absolute, absolute.order, c.upload);
    }
  }
}
