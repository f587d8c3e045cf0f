/** `CopyAssets.process` of the current task: select, reduce the item to the
    assets to copy, transfer them, merge the others back, and gate the result
    on STAC validation. */
module CopyAssets {
  import opened Seqs
  import opened Wrappers
  import opened Json
  import opened Stac
  import opened Transfer
  import opened Selector
  import opened Options

  /** The exceptions `CopyAssets.process` raises. `ProcessingFailed` is the
      "copy-assets: failed processing <payload id> (<cause>)" wrapper. */
  datatype TaskError =
    | FailedValidation(reason: string)
    | ProcessingFailed(payloadId: string, cause: string)
    | StacValidationFailed

  /** The item `process` stores and returns: the copied assets first, as the
      transfer left them, then the others as they were. */
  function Reconcile(item: Item, assets: AssetsArg, drop: Option<seq<string>>, c: Collaborators): Result<Item, string>
    requires item.assets.Valid()
  {
    var sp := Select(item.assets.order, assets, drop);
    var copied :- CopyPart(item, sp.copy, c);
    Success(MergeKept(copied, item, sp.nocopy))
  }

  /** The item reduced to the assets in `copy` and sent through the transfer;
      with nothing to copy, the item with an empty asset dict and no transfer. */
  function CopyPart(item: Item, copy: seq<string>, c: Collaborators): Result<Item, string>
    requires item.assets.Valid()
  {
    if copy == [] then Success(Item(item.fields, NoAssets))
    else TransferItem(Item(item.fields, Restrict(item.assets, copy)), c)
  }

  /** The kept assets, with their original values, merged into the copied
      item's asset dict; nothing happens when there is nothing to keep. */
  function MergeKept(copied: Item, item: Item, nocopy: seq<string>): Item
    requires item.assets.Valid()
  {
    if nocopy == [] then copied
    else Item(copied.fields, Update(copied.assets, Restrict(item.assets, nocopy)))
  }

  /** The copy step fails exactly when some asset to copy cannot be relocated;
      otherwise it yields exactly those assets, relocated, in the item's order,
      under the item's other members. */
  lemma CopyPartMeaning(item: Item, copy: seq<string>, c: Collaborators)
    requires item.assets.Valid()
    requires Filter(item.assets.order, InList(copy)) == copy
    ensures CopyPart(item, copy, c).Success? <==>
              forall k :: k in copy ==> Relocate(c, k, item.assets.entries[k]).Success?
    ensures CopyPart(item, copy, c).Success? ==>
              && CopyPart(item, copy, c).value.fields == item.fields
              && CopyPart(item, copy, c).value.assets.Valid()
              && CopyPart(item, copy, c).value.assets.order == copy
              && (forall k :: k in CopyPart(item, copy, c).value.assets.entries ==> k in copy)
              && (forall k :: k in copy ==>
                    CopyPart(item, copy, c).value.assets.entries[k] == Relocate(c, k, item.assets.entries[k]).value)
  {
    if copy != [] {
      TransferItemMeaning(Item(item.fields, Restrict(item.assets, copy)), c);
    }
  }

  /** Merging the kept assets appends them, unchanged and in the item's order,
      after the copied ones; nothing copied is overwritten. */
  lemma MergeKeptMeaning(copied: Item, item: Item, nocopy: seq<string>)
    requires item.assets.Valid() && copied.assets.Valid()
    requires Filter(item.assets.order, InList(nocopy)) == nocopy
    requires forall k :: k in copied.assets.entries ==> k !in nocopy
    ensures MergeKept(copied, item, nocopy).fields == copied.fields
    ensures MergeKept(copied, item, nocopy).assets.Valid()
    ensures MergeKept(copied, item, nocopy).assets.order == copied.assets.order + nocopy
    ensures forall k :: k in copied.assets.entries ==>
              MergeKept(copied, item, nocopy).assets.entries[k] == copied.assets.entries[k]
    ensures forall k :: k in nocopy ==>
              MergeKept(copied, item, nocopy).assets.entries[k] == item.assets.entries[k]
  {
    if nocopy != [] {
      UpdateDisjoint(copied.assets, Restrict(item.assets, nocopy));
    } else {
      assert copied.assets.order + nocopy == copied.assets.order;
    }
  }

  /** What `process` promises: it fails exactly when some asset chosen for
      copying cannot be relocated; otherwise the other members of the item are
      untouched, the assets are exactly the surviving ones (copied first, then
      kept, each in the item's order), every copied asset is its relocated
      form and every kept asset is unchanged. */
  lemma ReconcileMeaning(item: Item, assets: AssetsArg, drop: Option<seq<string>>, c: Collaborators)
    requires item.assets.Valid()
    ensures var sp := Select(item.assets.order, assets, drop);
            Reconcile(item, assets, drop, c).Success? <==>
              forall k :: k in sp.copy ==> Relocate(c, k, item.assets.entries[k]).Success?
    ensures var sp := Select(item.assets.order, assets, drop);
            var r := Reconcile(item, assets, drop, c);
            r.Success? ==>
              && r.value.fields == item.fields
              && r.value.assets.Valid()
              && r.value.assets.order == sp.copy + sp.nocopy
              && (forall k :: k in r.value.assets.entries <==> k in item.assets.entries && !Dropped(drop, k))
              && (forall k :: k in sp.copy ==>
                    r.value.assets.entries[k] == Relocate(c, k, item.assets.entries[k]).value)
              && (forall k :: k in sp.nocopy ==> r.value.assets.entries[k] == item.assets.entries[k])
  {
    var sp := Select(item.assets.order, assets, drop);
    SelectInItemOrder(item.assets.order, assets, drop);
    CopyPartMeaning(item, sp.copy, c);
    var copied := CopyPart(item, sp.copy, c);
    if copied.Success? {
      MergeKeptMeaning(copied.value, item, sp.nocopy);
      var out := MergeKept(copied.value, item, sp.nocopy);
      assert forall k :: k in out.assets.entries <==> k in sp.copy + sp.nocopy;
    }
  }

  /** The reconciled item is pinned down by the selection and the relocation
      of each copied asset. */
  lemma ReconcileExactly(item: Item, assets: AssetsArg, drop: Option<seq<string>>, c: Collaborators, expected: AssetMap)
    requires item.assets.Valid() && expected.Valid()
    requires expected.order == Select(item.assets.order, assets, drop).copy + Select(item.assets.order, assets, drop).nocopy
    requires forall k :: k in Select(item.assets.order, assets, drop).copy ==>
               Relocate(c, k, item.assets.entries[k]) == Success(expected.entries[k])
    requires forall k :: k in Select(item.assets.order, assets, drop).nocopy ==>
               expected.entries[k] == item.assets.entries[k]
    ensures Reconcile(item, assets, drop, c) == Success(Item(item.fields, expected))
  {
    var sp := Select(item.assets.order, assets, drop);
    var r := Reconcile(item, assets, drop, c);
    assert r.Success? && r.value.fields == item.fields && r.value.assets.Valid() && r.value.assets.order == expected.order by {
      ReconcileMeaning(item, assets, drop, c);
    }
    forall k | k in r.value.assets.order
      ensures r.value.assets.entries[k] == expected.entries[k]
    {
      ReconcileMeaning(item, assets, drop, c);
      assert k in sp.copy + sp.nocopy;
    }
    SameAssetMap(r.value.assets, expected);
  }

  /** When nothing is to be copied the collaborators are never consulted:
      the result is the same whatever they would do, and is the item reduced
      to its kept assets. */
  lemma NoCopyNoTransfer(item: Item, assets: AssetsArg, drop: Option<seq<string>>, c: Collaborators, c': Collaborators)
    requires item.assets.Valid()
    requires Select(item.assets.order, assets, drop).copy == []
    ensures Reconcile(item, assets, drop, c) == Reconcile(item, assets, drop, c')
    ensures Reconcile(item, assets, drop, c).Success?
    ensures Reconcile(item, assets, drop, c).value.assets.order == Select(item.assets.order, assets, drop).nocopy
  {
    ReconcileMeaning(item, assets, drop, c);
  }

  /** Dropping every asset leaves an item with no assets, and nothing is transferred. */
  lemma DropEverything(item: Item, assets: AssetsArg, drop: seq<string>, c: Collaborators)
    requires item.assets.Valid()
    requires forall k :: k in item.assets.entries ==> k in drop
    ensures Reconcile(item, assets, Some(drop), c) == Success(Item(item.fields, NoAssets))
  {
  }

  /** Collaborators that move nothing. */
  ghost predicate Inert(c: Collaborators) {
    && (forall k, a :: c.download(k, a) == Success(a))
    && (forall a :: c.makeAbsolute(a) == a)
    && (forall k, a :: c.upload(k, a) == Success(a))
  }

  /** Reconciling again, with the same options and collaborators that move
      nothing, changes nothing. */
  lemma ReconcileIdempotent(item: Item, assets: AssetsArg, drop: Option<seq<string>>, c: Collaborators)
    requires item.assets.Valid() && Inert(c)
    requires Reconcile(item, assets, drop, c).Success?
    ensures Reconcile(item, assets, drop, c).value.assets.Valid()
    ensures Reconcile(Reconcile(item, assets, drop, c).value, assets, drop, c) == Reconcile(item, assets, drop, c)
  {
    var out := Reconcile(item, assets, drop, c).value;
    var sp := Select(item.assets.order, assets, drop);
    ReconcileMeaning(item, assets, drop, c);
    SelectAgain(item.assets.order, assets, drop);
    assert Select(out.assets.order, assets, drop) == sp;
    ReconcileMeaning(out, assets, drop, c);
    var out2 := Reconcile(out, assets, drop, c).value;
    forall k | k in out.assets.order
      ensures out2.assets.entries[k] == out.assets.entries[k]
    {
      if k in sp.copy {
        assert Relocate(c, k, out.assets.entries[k]) == Success(out.assets.entries[k]);
      }
    }
    SameAssetMap(out2.assets, out.assets);
  }

  /** Outcome of `process` on the payload's features: the result or exception,
      and the features afterwards. The payload's first feature is replaced
      before STAC validation, so it is replaced even when validation fails. */
  function ProcessOutcome(features: seq<Item>, payloadId: string, assets: AssetsArg,
                          drop: Option<seq<string>>, c: Collaborators): (Result<seq<Item>, TaskError>, seq<Item>)
    requires features != [] ==> features[0].assets.Valid()
  {
    if features == [] then (Failure(ProcessingFailed(payloadId, "list index out of range")), features)
    else match Reconcile(features[0], assets, drop, c)
      case Failure(e) => (Failure(ProcessingFailed(payloadId, e)), features)
      case Success(item) =>
        (if c.stacValid(item) then Success([item]) else Failure(StacValidationFailed), features[0 := item])
  }

  /** The validation gate: an item comes back only when it is STAC-valid, is the
      reconciled item, and has been stored in the payload; a failure before the
      gate leaves the payload alone and carries the payload id. */
  lemma ProcessGate(features: seq<Item>, payloadId: string, assets: AssetsArg,
                    drop: Option<seq<string>>, c: Collaborators)
    requires features != [] ==> features[0].assets.Valid()
    ensures var (r, after) := ProcessOutcome(features, payloadId, assets, drop, c);
            r.Success? ==>
              && features != []
              && Reconcile(features[0], assets, drop, c) == Success(after[0])
              && r.value == [after[0]]
              && c.stacValid(after[0])
    ensures var (r, after) := ProcessOutcome(features, payloadId, assets, drop, c);
            |after| == |features| && (features != [] ==> after[1..] == features[1..])
    ensures var (r, after) := ProcessOutcome(features, payloadId, assets, drop, c);
            r.Failure? && r.error != StacValidationFailed ==>
              after == features && r.error.ProcessingFailed? && r.error.payloadId == payloadId
    ensures var (r, after) := ProcessOutcome(features, payloadId, assets, drop, c);
            r == Failure(StacValidationFailed) ==> !c.stacValid(after[0])
  {
  }

  /** The task as the framework holds it: the payload's id and features. */
  class CopyAssetsTask {
    const payloadId: string
    var features: seq<Item>

    constructor (payloadId: string, features: seq<Item>)
      ensures this.payloadId == payloadId && this.features == features
    {
      this.payloadId := payloadId;
      this.features := features;
    }

    /** Reconciles the first feature under the given options, stores the
        result in its place and returns it once it passes STAC validation. */
    method Process(assets: AssetsArg, drop: Option<seq<string>>, c: Collaborators)
      returns (r: Result<seq<Item>, TaskError>)
      requires features != [] ==> features[0].assets.Valid()
      modifies this
      ensures (r, features) == ProcessOutcome(old(features), payloadId, assets, drop, c)
    {
      if |features| == 0 {
        r := Failure(ProcessingFailed(payloadId, "list index out of range"));
        return;
      }
      var itemOld := features[0];
      var keep := Survivors(itemOld.assets.order, drop);
      var request := Expand(assets, keep);
      var copy, nocopy := Partition(keep, request);
      assert Split(copy, nocopy) == Select(itemOld.assets.order, assets, drop);
      var itemNew := Item(itemOld.fields, NoAssets);
      if copy != [] {
        var reduced := Item(itemOld.fields, Restrict(itemOld.assets, copy));
        var moved := TransferItem(reduced, c);
        if moved.Failure? {
          assert Reconcile(itemOld, assets, drop, c) == Failure(moved.error);
          r := Failure(ProcessingFailed(payloadId, moved.error));
          return;
        }
        itemNew := moved.value;
      }
      assert CopyPart(itemOld, copy, c) == Success(itemNew);
      var copied := itemNew;
      if nocopy != [] {
        itemNew := Item(itemNew.fields, Update(itemNew.assets, Restrict(itemOld.assets, nocopy)));
      }
      assert MergeKept(copied, itemOld, nocopy) == itemNew;
      assert Reconcile(itemOld, assets, drop, c) == Success(itemNew);
      features := features[0 := itemNew];
      if !c.stacValid(itemNew) {
        r := Failure(StacValidationFailed);
        return;
      }
      r := Success([itemNew]);
    }

    /** The framework's run: `validate` the options, then `process` with them. */
    method Run(options: Json, c: Collaborators) returns (r: Result<seq<Item>, TaskError>)
      requires features != [] ==> features[0].assets.Valid()
      modifies this
      ensures Validate(options).Failure? ==>
                r == Failure(FailedValidation(Validate(options).error)) && features == old(features)
      ensures Validate(options).Success? ==>
                (r, features) == ProcessOutcome(old(features), payloadId, Validate(options).value.assets,
                                                 Validate(options).value.drop, c)
    {
      var o := Validate(options);
      if o.Failure? {
        r := Failure(FailedValidation(o.error));
        return;
      }
      r := Process(o.value.assets, o.value.drop, c);
    }
  }
}
