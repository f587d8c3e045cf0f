/** The copy scenarios the repository's tests exercise, on a two-asset item whose
    upload moves hrefs from the old storage prefix to the new one. */
module Scenarios {
  import opened Seqs
  import opened Wrappers
  import opened Json
  import opened Stac
  import opened Transfer
  import opened Selector
  import opened CopyAssets

  const OldBase: string := "https://old/"
  const NewBase: string := "s3://new/"

  /** The upload of the tests: the old storage prefix becomes the new one. */
  function Rebase(a: Asset): Asset {
    if OldBase <= a.href then a.(href := NewBase + a.href[|OldBase|..]) else a
  }

  /** Download and href normalisation leave the asset alone; upload rebases it;
      every item passes STAC validation. */
  function TestCollaborators(): Collaborators {
    Collaborators((k, a) => Success(a), a => a, (k, a) => Success(Rebase(a)), it => true)
  }

  const Image: Asset := Asset(OldBase + "image.tif", map["type" := Str("image/tiff")])
  const Thumbnail: Asset := Asset(OldBase + "thumb.jpg", map["type" := Str("image/jpeg")])
  const Fields: map<string, Json> := map["id" := Str("tx_m_2609719"), "collection" := Str("naip")]

  function TestItem(): (it: Item)
    ensures it.assets.Valid()
  {
    Item(Fields, AssetMap(["image", "thumbnail"], map["image" := Image, "thumbnail" := Thumbnail]))
  }

  const Keys: seq<string> := ["image", "thumbnail"]

  lemma KeysDistinct()
    ensures "image" != "thumbnail" && Distinct(Keys)
  {
    assert |"image"| != |"thumbnail"|;
  }

  /** A filter over a two-element list, spelled out. */
  lemma FilterPair(a: string, b: string, p: string -> bool)
    ensures Filter([a, b], p) == (if p(a) then [a] else []) + (if p(b) then [b] else [])
  {
    assert [a, b][..1] == [a];
    assert [a][..0] == [];
  }

  /** The test upload moves every asset to the new storage prefix. */
  lemma RelocateRebases(k: string, a: Asset)
    ensures Relocate(TestCollaborators(), k, a) == Success(Rebase(a))
  {
  }

  /** `"all"` with nothing dropped copies every key. */
  lemma AllSplit()
    ensures Select(Keys, Text("all"), None) == Split(Keys, [])
  {
    WildcardSpellings("all");
    SelectWildcard(Keys, Text("all"), None);
  }

  /** The test item with both assets moved. */
  function BothRebased(): AssetMap {
    AssetMap(Keys, map["image" := Rebase(Image), "thumbnail" := Rebase(Thumbnail)])
  }

  /** Under `"all"` every key is copied and none is kept. */
  lemma AllOrder(item: Item)
    requires item == TestItem()
    ensures BothRebased().Valid()
    ensures BothRebased().order == Select(item.assets.order, Text("all"), None).copy
                                   + Select(item.assets.order, Text("all"), None).nocopy
    ensures Select(item.assets.order, Text("all"), None).nocopy == []
  {
    KeysDistinct();
    AllSplit();
    assert Keys + [] == Keys;
  }

  /** Under `"all"` each copied key moves to the new prefix. */
  lemma AllRelocate(item: Item)
    requires item == TestItem()
    ensures forall k :: k in Select(item.assets.order, Text("all"), None).copy ==>
              Relocate(TestCollaborators(), k, item.assets.entries[k]) == Success(BothRebased().entries[k])
  {
    forall k | k in Select(item.assets.order, Text("all"), None).copy
      ensures Relocate(TestCollaborators(), k, item.assets.entries[k]) == Success(BothRebased().entries[k])
    {
      assert k in Keys by {
        AllSplit();
      }
      KeysDistinct();
      if k == "image" {
        RelocateRebases("image", Image);
      } else {
        RelocateRebases("thumbnail", Thumbnail);
      }
    }
  }

  /** `assets: "all"` copies both assets. */
  lemma CopyAll(item: Item)
    requires item == TestItem()
    ensures Reconcile(item, Text("all"), None, TestCollaborators()) == Success(Item(Fields, BothRebased()))
  {
    AllOrder(item);
    AllRelocate(item);
    ReconcileExactly(item, Text("all"), None, TestCollaborators(), BothRebased());
  }

  /** `["image"]` copies the image and keeps the thumbnail. */
  lemma ImageSplit()
    ensures Select(Keys, KeyList(["image"]), None) == Split(["image"], ["thumbnail"])
  {
    KeysDistinct();
    FilterPair("image", "thumbnail", InList(["image"]));
    FilterPair("image", "thumbnail", Not(InList(["image"])));
  }

  /** The test item with only its image moved. */
  function ImageRebased(): AssetMap {
    AssetMap(Keys, map["image" := Rebase(Image), "thumbnail" := Thumbnail])
  }

  /** Under `["image"]` the image is copied and the thumbnail kept, in the
      item's own order. */
  lemma ImageOrder(item: Item)
    requires item == TestItem()
    ensures ImageRebased().Valid()
    ensures ImageRebased().order == Select(item.assets.order, KeyList(["image"]), None).copy
                                    + Select(item.assets.order, KeyList(["image"]), None).nocopy
  {
    assert ImageRebased().Valid() by {
      KeysDistinct();
    }
    assert Select(item.assets.order, KeyList(["image"]), None) == Split(["image"], ["thumbnail"]) by {
      ImageSplit();
    }
    assert ["image"] + ["thumbnail"] == Keys;
  }

  /** Under `["image"]` the image moves to the new prefix and the thumbnail
      is kept as it was. */
  lemma ImageRelocates(item: Item)
    requires item == TestItem()
    ensures forall k :: k in Select(item.assets.order, KeyList(["image"]), None).copy ==>
              Relocate(TestCollaborators(), k, item.assets.entries[k]) == Success(ImageRebased().entries[k])
    ensures forall k :: k in Select(item.assets.order, KeyList(["image"]), None).nocopy ==>
              ImageRebased().entries[k] == item.assets.entries[k]
  {
    var sp := Select(item.assets.order, KeyList(["image"]), None);
    assert sp.copy == ["image"] && sp.nocopy == ["thumbnail"] by {
      ImageSplit();
    }
    KeysDistinct();
    assert item.assets.entries["image"] == Image;
    RelocateRebases("image", Image);
  }

  /** `assets: ["image"]` copies the image and keeps the thumbnail's href. */
  lemma CopyImageKeepThumbnail(item: Item)
    requires item == TestItem()
    ensures Reconcile(item, KeyList(["image"]), None, TestCollaborators()) == Success(Item(Fields, ImageRebased()))
  {
    ImageOrder(item);
    ImageRelocates(item);
    ReconcileExactly(item, KeyList(["image"]), None, TestCollaborators(), ImageRebased());
  }

  /** `"all"` with the image dropped copies the thumbnail only. */
  lemma DropImageSplit(keys: seq<string>, drop: seq<string>)
    requires keys == Keys && drop == ["image"]
    ensures Select(keys, Text("all"), Some(drop)) == Split(["thumbnail"], [])
  {
    KeysDistinct();
    assert Survivors(keys, Some(drop)) == ["thumbnail"] by {
      FilterPair("image", "thumbnail", NotInList(["image"]));
    }
    WildcardSpellings("all");
    SelectWildcard(keys, Text("all"), Some(drop));
  }

  /** With the image dropped, the thumbnail alone is copied and nothing is kept. */
  lemma DropImageOrder(item: Item, drop: seq<string>)
    requires item == TestItem() && drop == ["image"]
    ensures ThumbnailMovedOnly().order == Select(item.assets.order, Text("all"), Some(drop)).copy
                                          + Select(item.assets.order, Text("all"), Some(drop)).nocopy
    ensures Select(item.assets.order, Text("all"), Some(drop)).nocopy == []
  {
    DropImageSplit(item.assets.order, drop);
    assert ["thumbnail"] + [] == ["thumbnail"];
  }

  /** With the image dropped, the copied thumbnail moves to the new prefix. */
  lemma DropImageRelocates(item: Item, drop: seq<string>)
    requires item == TestItem() && drop == ["image"]
    ensures forall k :: k in Select(item.assets.order, Text("all"), Some(drop)).copy ==>
              Relocate(TestCollaborators(), k, item.assets.entries[k]) == Success(ThumbnailMovedOnly().entries[k])
  {
    var sp := Select(item.assets.order, Text("all"), Some(drop));
    assert sp.copy == ["thumbnail"] by {
      DropImageSplit(item.assets.order, drop);
    }
    assert item.assets.entries["thumbnail"] == Thumbnail;
    RelocateRebases("thumbnail", Thumbnail);
  }

  /** The item's thumbnail alone, moved. */
  function ThumbnailMovedOnly(): AssetMap {
    AssetMap(["thumbnail"], map["thumbnail" := Rebase(Thumbnail)])
  }

  /** `drop_assets` applies before the wildcard: `assets: "all"` with the image
      dropped copies only the thumbnail. */
  lemma DropImageCopyThumbnail(item: Item, drop: seq<string>)
    requires item == TestItem() && drop == ["image"]
    ensures Reconcile(item, Text("all"), Some(drop), TestCollaborators()) ==
            Success(Item(Fields, ThumbnailMovedOnly()))
  {
    DropImageOrder(item, drop);
    DropImageRelocates(item, drop);
    ReconcileExactly(item, Text("all"), Some(drop), TestCollaborators(), ThumbnailMovedOnly());
  }

  /** Dropping both assets leaves none. */
  lemma DropImageDropThumbnail(item: Item)
    requires item == TestItem()
    ensures Reconcile(item, Text("all"), Some(Keys), TestCollaborators()) ==
            Success(Item(Fields, NoAssets))
  {
    DropEverything(item, Text("all"), Keys, TestCollaborators());
  }

  /** Unknown keys in both lists leave every key to be kept as it is. */
  lemma InvalidSplit(keys: seq<string>, ks: seq<string>, drop: seq<string>)
    requires keys == Keys && ks == ["invalid-key"] && drop == ["another-invalid-key"]
    ensures Select(keys, KeyList(ks), Some(drop)) == Split([], keys)
  {
    KeysDistinct();
    assert "image" != "invalid-key" && "thumbnail" != "invalid-key" by {
      assert "image"[1] != "invalid-key"[1];
      assert "thumbnail"[0] != "invalid-key"[0];
    }
    assert "image" != "another-invalid-key" && "thumbnail" != "another-invalid-key" by {
      assert "image"[0] != "another-invalid-key"[0];
      assert "thumbnail"[0] != "another-invalid-key"[0];
    }
    assert Survivors(keys, Some(drop)) == keys by {
      FilterAll(keys, NotInList(drop));
    }
    FilterNone(keys, InList(ks));
    FilterAll(keys, Not(InList(ks)));
  }

  /** Unknown keys in both lists are ignored: nothing is copied and the item
      comes back as it was, hrefs included. */
  lemma InvalidKeysIgnored(item: Item, ks: seq<string>, drop: seq<string>)
    requires item == TestItem() && ks == ["invalid-key"] && drop == ["another-invalid-key"]
    ensures Reconcile(item, KeyList(ks), Some(drop), TestCollaborators()) == Success(item)
  {
    InvalidSplit(item.assets.order, ks, drop);
    assert [] + item.assets.order == item.assets.order;
    ReconcileExactly(item, KeyList(ks), Some(drop), TestCollaborators(), item.assets);
  }
}
