/** The older task run on the two-asset test item: three configurations on
    which it departs from what it evidently means to do, each beside what the
    corrected task does with them. */
module LegacyScenarios {
  import opened Seqs
  import opened Wrappers
  import opened Json
  import opened Stac
  import opened Transfer
  import opened Scenarios
  import opened Legacy

  const PayloadId: string := "test-payload"

  /** `drop_assets: ["image"]`, with a request for an asset the item lacks. */
  const DropImageAskMissing: Json := Obj(map["assets" := Arr([Str("x")]), "drop_assets" := Arr([Str("image")])])

  /** `assets: "ALL"`, nothing dropped. */
  const CopyEverything: Json := Obj(map["assets" := Str("ALL")])

  /** `assets: "ALL"`, with the image listed twice in `drop_assets`. */
  const DropImageTwice: Json := Obj(map["assets" := Str("ALL"), "drop_assets" := Arr([Str("image"), Str("image")])])

  /** The test item without its image. */
  const ThumbnailOnly: AssetMap := AssetMap(["thumbnail"], map["thumbnail" := Thumbnail])

  /** The corrected task's result is pinned down by the dropped keys and the
      move of each requested survivor. */
  lemma FixedExactly(config: Json, item: Item, c: Collaborators, drop: seq<Json>, ks: seq<string>, expected: AssetMap)
    requires item.assets.Valid() && expected.Valid() && config.Obj?
    requires Iterate(DropOption(config.members)) == Success(drop)
    requires CopyList(AssetsOption(config.members), RemoveKeys(item.assets, StringsIn(drop))) == Success(ks)
    requires expected.order == Filter(item.assets.order, NotInList(StringsIn(drop)))
    requires forall k :: k in ks ==> k in expected.entries && Move(c, k, item.assets.entries[k]) == Success(expected.entries[k])
    requires forall k :: k in expected.entries && k !in ks ==> expected.entries[k] == item.assets.entries[k]
    ensures FixedReconcile(config, item, PayloadId, c) == Success(Item(item.fields, expected))
  {
    FixedShape(config, item, c, drop, ks, expected);
    var out := FixedReconcile(config, item, PayloadId, c).value;
    FixedEntries(config, item, c, drop, ks, expected);
    SameAssetMap(out.assets, expected);
  }

  /** Under the conditions of `FixedExactly`, the corrected task succeeds with
      the item's fields and the expected order of keys. */
  lemma FixedShape(config: Json, item: Item, c: Collaborators, drop: seq<Json>, ks: seq<string>, expected: AssetMap)
    requires item.assets.Valid() && config.Obj?
    requires Iterate(DropOption(config.members)) == Success(drop)
    requires CopyList(AssetsOption(config.members), RemoveKeys(item.assets, StringsIn(drop))) == Success(ks)
    requires expected.order == Filter(item.assets.order, NotInList(StringsIn(drop)))
    requires forall k :: k in ks ==> k in item.assets.entries && Move(c, k, item.assets.entries[k]).Success?
    ensures FixedReconcile(config, item, PayloadId, c).Success?
    ensures FixedReconcile(config, item, PayloadId, c).value.fields == item.fields
    ensures FixedReconcile(config, item, PayloadId, c).value.assets.Valid()
    ensures FixedReconcile(config, item, PayloadId, c).value.assets.order == expected.order
  {
    FixedMeaning(config, item, PayloadId, c, drop, ks);
  }

  /** Under the conditions of `FixedExactly`, every key the corrected task
      returns holds its expected asset. */
  lemma FixedEntries(config: Json, item: Item, c: Collaborators, drop: seq<Json>, ks: seq<string>, expected: AssetMap)
    requires item.assets.Valid() && expected.Valid() && config.Obj?
    requires Iterate(DropOption(config.members)) == Success(drop)
    requires CopyList(AssetsOption(config.members), RemoveKeys(item.assets, StringsIn(drop))) == Success(ks)
    requires expected.order == Filter(item.assets.order, NotInList(StringsIn(drop)))
    requires forall k :: k in ks ==> k in expected.entries && Move(c, k, item.assets.entries[k]) == Success(expected.entries[k])
    requires forall k :: k in expected.entries && k !in ks ==> expected.entries[k] == item.assets.entries[k]
    requires FixedReconcile(config, item, PayloadId, c).Success?
    requires FixedReconcile(config, item, PayloadId, c).value.assets.Valid()
    requires FixedReconcile(config, item, PayloadId, c).value.assets.order == expected.order
    ensures forall k :: k in expected.order ==>
              FixedReconcile(config, item, PayloadId, c).value.assets.entries[k] == expected.entries[k]
  {
    FixedMeaning(config, item, PayloadId, c, drop, ks);
  }

  /** The older task's result once its drop and copy list are known. */
  lemma LegacyFrom(config: Json, item: Item, c: Collaborators, drop: seq<Json>, kept: AssetMap, ks: seq<string>, out: Item)
    requires item.assets.Valid() && config.Obj?
    requires Iterate(DropOption(config.members)) == Success(drop)
    requires PopAll(item.assets, Filter(StringsIn(drop), InList(item.assets.order))) == Success(kept)
    requires CopyList(AssetsOption(config.members), kept) == Success(ks)
    requires RebindLoop(item, PassFrom(Item(item.fields, kept), c), ks) == Success(out)
    ensures LegacyReconcile(config, item, PayloadId, c) == Success(out)
  {
  }

  /** `drop_assets: ["image"]` names one key, which the item holds. */
  lemma ImageListed(m: AssetMap)
    requires m == TestItem().assets
    ensures StringsIn([Str("image")]) == ["image"]
    ensures Filter(StringsIn([Str("image")]), InList(m.order)) == ["image"]
  {
    assert [Str("image")][..0] == [];
    assert ["image"][..0] == [];
  }

  /** Dropping the image leaves the thumbnail only. */
  lemma ImageRemoved(m: AssetMap)
    requires m == TestItem().assets
    ensures RemoveKeys(m, ["image"]) == ThumbnailOnly
    ensures ThumbnailOnly.order == Filter(m.order, NotInList(["image"]))
  {
    KeysDistinct();
    FilterPair("image", "thumbnail", NotInList(["image"]));
    SameAssetMap(RemoveKeys(m, ["image"]), ThumbnailOnly);
  }

  /** As written: when no requested asset survives, the loop never runs and
      the original item comes back, the dropped image included. */
  lemma DroppedAssetReturns(item: Item)
    requires item == TestItem()
    ensures LegacyReconcile(DropImageAskMissing, item, PayloadId, TestCollaborators()) == Success(item)
  {
    DropImageFirst(item.assets);
    MissingNotRequested();
    LegacyFrom(DropImageAskMissing, item, TestCollaborators(), [Str("image")], ThumbnailOnly, [], item);
  }

  /** Under `drop_assets: ["image"]` the image is popped and the thumbnail kept. */
  lemma DropImageFirst(m: AssetMap)
    requires m == TestItem().assets
    ensures Iterate(DropOption(DropImageAskMissing.members)) == Success([Str("image")])
    ensures PopAll(m, Filter(StringsIn([Str("image")]), InList(m.order))) == Success(ThumbnailOnly)
  {
    assert Iterate(DropOption(DropImageAskMissing.members)) == Success([Str("image")]);
    var targets := Filter(StringsIn([Str("image")]), InList(m.order));
    assert targets == ["image"] && Distinct(targets) by {
      ImageListed(m);
    }
    assert RemoveKeys(m, StringsIn([Str("image")])) == ThumbnailOnly by {
      ImageListed(m);
      ImageRemoved(m);
    }
    DropMeaning(m, [Str("image")]);
  }

  /** Nothing the item holds after the drop is requested. */
  lemma MissingNotRequested()
    ensures CopyList(AssetsOption(DropImageAskMissing.members), ThumbnailOnly) == Success([])
  {
    var es := [Str("x")];
    assert AssetsOption(DropImageAskMissing.members) == Some(Arr(es));
    assert CopyList(Some(Arr(es)), ThumbnailOnly) == Success(Filter(StringsIn(es), InList(ThumbnailOnly.order))) by {
      assert Some(Arr(es)).value != Str("ALL");
      assert Iterate(Arr(es)) == Success(es);
      assert Hashable(es);
    }
    forall x | x in StringsIn(es)
      ensures !InList(ThumbnailOnly.order)(x)
    {
      assert Str(x) in es;
      assert "x" != "thumbnail";
    }
    FilterNone(StringsIn(es), InList(ThumbnailOnly.order));
  }

  /** Corrected: the image is gone whatever is requested. */
  lemma DroppedAssetStaysGone(item: Item)
    requires item == TestItem()
    ensures FixedReconcile(DropImageAskMissing, item, PayloadId, TestCollaborators()) ==
            Success(Item(Fields, ThumbnailOnly))
  {
    var m := item.assets;
    var drop := [Str("image")];
    assert Iterate(DropOption(DropImageAskMissing.members)) == Success(drop);
    ImageListed(m);
    ImageRemoved(m);
    MissingNotRequested();
    FixedExactly(DropImageAskMissing, item, TestCollaborators(), drop, [], ThumbnailOnly);
  }

  /** The test item with only its thumbnail moved. */
  const ThumbnailMoved: AssetMap := AssetMap(Keys, map["image" := Image, "thumbnail" := Rebase(Thumbnail)])


  /** Under `assets: "ALL"` with nothing dropped, nothing is popped. */
  lemma NothingDropped(m: AssetMap)
    requires m == TestItem().assets
    ensures Iterate(DropOption(CopyEverything.members)) == Success([])
    ensures PopAll(m, Filter(StringsIn([]), InList(m.order))) == Success(m)
    ensures RemoveKeys(m, StringsIn([])) == m
  {
    assert StringsIn([]) == [];
    FilterAll(m.order, NotInList([]));
    SameAssetMap(RemoveKeys(m, []), m);
  }

  /** Under `assets: "ALL"` the copy list is every key. */
  lemma EveryKeyListed(m: AssetMap)
    requires m == TestItem().assets
    ensures CopyList(AssetsOption(CopyEverything.members), m) == Success(Keys)
  {
    CopyListMeaning(AssetsOption(CopyEverything.members), m);
  }

  /** One pass moves its asset to the new storage prefix. */
  lemma MoveRebases(k: string, a: Asset)
    ensures Move(TestCollaborators(), k, a) == Success(Rebase(a))
  {
  }

  /** The second and last pass of the older loop moves the thumbnail of the
      unmoved item. */
  lemma LastPassThumbnail(item: Item)
    requires item == TestItem()
    ensures Step(item, "thumbnail", TestCollaborators()) == Success(Item(Fields, ThumbnailMoved))
  {
    KeysDistinct();
    StepMeaning(item, "thumbnail", TestCollaborators());
    MoveRebases("thumbnail", Thumbnail);
    SameAssetMap(Step(item, "thumbnail", TestCollaborators()).value.assets, ThumbnailMoved);
  }

  /** As written: every pass starts again from the unmoved item, so under
      `assets: "ALL"` only the thumbnail, the last asset, comes back moved. */
  lemma OnlyLastAssetMoved(item: Item)
    requires item == TestItem()
    ensures LegacyReconcile(CopyEverything, item, PayloadId, TestCollaborators()) == Success(Item(Fields, ThumbnailMoved))
  {
    var c := TestCollaborators();
    NothingDropped(item.assets);
    EveryKeyListed(item.assets);
    PassesFromUnmoved(item, c);
    LegacyFrom(CopyEverything, item, c, [], item.assets, Keys, Item(Fields, ThumbnailMoved));
  }

  /** The two passes over the test item, each starting from the unmoved item,
      end with the thumbnail alone moved. */
  lemma PassesFromUnmoved(item: Item, c: Collaborators)
    requires item == TestItem() && c == TestCollaborators()
    ensures RebindLoop(item, PassFrom(item, c), Keys) == Success(Item(Fields, ThumbnailMoved))
  {
    assert Step(item, "image", c).Success? by {
      StepMeaning(item, "image", c);
      MoveRebases("image", Image);
    }
    LastPassThumbnail(item);
    assert Keys[1..] == ["thumbnail"];
    assert ["thumbnail"][1..] == [];
  }

  /** Under `assets: "ALL"` with nothing dropped, the corrected task keeps and
      requests every key of the test item. */
  lemma EveryKeyKept(m: AssetMap)
    requires m == TestItem().assets
    ensures Keys == Filter(m.order, NotInList(StringsIn([])))
    ensures Iterate(DropOption(CopyEverything.members)) == Success([])
    ensures CopyList(AssetsOption(CopyEverything.members), RemoveKeys(m, StringsIn([]))) == Success(Keys)
  {
    NothingDropped(m);
    EveryKeyListed(m);
  }

  /** Each move of the test item's assets gives its entry in `BothRebased()`. */
  lemma EveryKeyMoves(m: AssetMap, c: Collaborators)
    requires m == TestItem().assets && c == TestCollaborators()
    ensures BothRebased().Valid()
    ensures forall k :: k in Keys ==> k in BothRebased().entries && Move(c, k, m.entries[k]) == Success(BothRebased().entries[k])
  {
    KeysDistinct();
    forall k | k in Keys
      ensures k in BothRebased().entries && Move(c, k, m.entries[k]) == Success(BothRebased().entries[k])
    {
      MoveRebases(k, m.entries[k]);
    }
  }

  /** Corrected: under `assets: "ALL"` both assets come back moved. */
  lemma EveryAssetMoved(item: Item)
    requires item == TestItem()
    ensures FixedReconcile(CopyEverything, item, PayloadId, TestCollaborators()) == Success(Item(Fields, BothRebased()))
  {
    EveryKeyKept(item.assets);
    EveryKeyMoves(item.assets, TestCollaborators());
    FixedExactly(CopyEverything, item, TestCollaborators(), [], Keys, BothRebased());
  }

  /** Under `drop_assets: ["image", "image"]` both entries name a key of the item. */
  lemma DropTwiceLists(m: AssetMap)
    requires m == TestItem().assets
    ensures Iterate(DropOption(DropImageTwice.members)) == Success([Str("image"), Str("image")])
    ensures StringsIn([Str("image"), Str("image")]) == ["image", "image"]
    ensures Filter(["image", "image"], InList(m.order)) == ["image", "image"]
  {
    assert [Str("image"), Str("image")][..1] == [Str("image")];
    assert [Str("image")][..0] == [];
    FilterPair("image", "image", InList(m.order));
  }

  /** As written: the second pop of the image raises KeyError, and the run
      fails. */
  lemma RepeatedDropFails(item: Item)
    requires item == TestItem()
    ensures LegacyReconcile(DropImageTwice, item, PayloadId, TestCollaborators()) == Failure(UnableToCopy(Raised("KeyError")))
  {
    var m := item.assets;
    DropTwiceLists(m);
    var m' := Pop(m, "image").value;
    assert Pop(m', "image") == Failure("KeyError");
    assert PopAll(m, ["image", "image"]) == Failure("KeyError") by {
      assert ["image", "image"][1..] == ["image"];
    }
  }

  /** Under `drop_assets: ["image", "image"]` the corrected drop keeps the
      thumbnail, which `"ALL"` then requests. */
  lemma DropTwiceKeeps(m: AssetMap)
    requires m == TestItem().assets
    ensures RemoveKeys(m, ["image", "image"]) == ThumbnailOnly
    ensures ThumbnailOnly.order == Filter(m.order, NotInList(["image", "image"]))
  {
    KeysDistinct();
    FilterPair("image", "thumbnail", NotInList(["image", "image"]));
    SameAssetMap(RemoveKeys(m, ["image", "image"]), ThumbnailOnly);
  }

  /** `"ALL"` then requests the thumbnail, the one key left. */
  lemma DropTwiceRequests()
    ensures CopyList(AssetsOption(DropImageTwice.members), ThumbnailOnly) == Success(["thumbnail"])
  {
    CopyListMeaning(AssetsOption(DropImageTwice.members), ThumbnailOnly);
  }

  /** Corrected: a repeated drop is harmless, and the thumbnail comes back moved. */
  lemma RepeatedDropHarmless(item: Item)
    requires item == TestItem()
    ensures FixedReconcile(DropImageTwice, item, PayloadId, TestCollaborators()) ==
            Success(Item(Fields, ThumbnailMovedOnly()))
  {
    DropTwiceLists(item.assets);
    DropTwiceKeeps(item.assets);
    DropTwiceRequests();
    MoveRebases("thumbnail", Thumbnail);
    FixedExactly(DropImageTwice, item, TestCollaborators(), [Str("image"), Str("image")], ["thumbnail"],
                 ThumbnailMovedOnly());
  }
}
