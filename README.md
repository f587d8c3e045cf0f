# copy-assets, modelled in Dafny

`copy-assets` is a STAC task. It takes the first STAC Item of a payload and
removes the assets listed in `drop_assets`. Of the assets that remain, it copies
the ones requested in `assets` (a key list, or `'all'`) to S3 and repoints their
hrefs. Every other surviving asset keeps its old href. The updated Item goes back
into the payload and is returned once it passes STAC validation.

The model covers two versions of the copy-assets task:

- **The current task (`src/task.py`).** Its options schema is modules `Options`
  and `Json`. Its `process` spans three modules:
  - `Selector`: drop, wildcard, and the copy/no-copy partition;
  - `Stac`: insertion-ordered asset dicts, restriction, `|=`;
  - `CopyAssets`: the reduced item, transfer, merge, error wrapping, the STAC
    validation gate, and the `CopyAssetsTask` class whose `Process` method updates the
    payload's features.
- **The older root-level task (`task.py`).** Module `Legacy` covers its
  `validate`, its payload-driven defaults, the in-place drop loop, the `'ALL'`
  expansion, the copy list, and the per-asset transfer loop.

Module `Scenarios` replays the five configurations of the test suite on a
two-asset item. Module `LegacyScenarios` shows the older task's three defects on
the same item.

Nothing here reads files or talks to S3. The download, href normalisation,
upload and STAC validator are parameters (`Transfer.Collaborators`). Download
and upload are functions on one asset that may fail. Href normalisation is a
total function on one asset. The validator is a predicate on the whole item.
Because the transfer collaborators act asset by asset, the model assumes that
the transfer keeps every asset key and leaves the item's other members alone
(see "## Left out"). Given that, the order of keys, which assets move and the
error cases are proved. An asset dict is an insertion-ordered list of
keys plus a map. Python's `m[k] = v`, `m.pop(k)` and `|=` are modelled with that
order, so the order of the returned assets is stated too. For the current task it
is the copied keys, then the kept keys.

## Model

| member | source | states |
|---|---|---|
| Stac.Restrict | src/task.py:91-94 | the dict comprehension keeps exactly the listed keys, with their values, in the dict's own order, and is a well-formed dict |
| Stac.Pop | task.py:48 | `pop` succeeds exactly when the key is present, and then leaves a well-formed dict holding exactly the other keys, with their values and in their order |
| Stac.UpdateWithOrder | src/task.py:107-110 | merging `b` into `a` keeps `a`'s order and appends, in `b`'s order, only the keys `a` lacks |
| Stac.UpdateWithEntries | src/task.py:107-110 | after merging `b` into `a` a key is present iff it was in either; `b`'s value wins, otherwise `a`'s is kept |
| Stac.UpdateValid | src/task.py:107-110 | merging two well-formed dicts gives a well-formed dict |
| Stac.UpdateDisjoint | src/task.py:105-110 | merging dicts with disjoint keys is concatenation: nothing overwritten, nothing reordered |
| Transfer.ApplyEach | src/task.py:100-102 | a per-asset operation keeps the key set and order and touches no key outside its list |
| Transfer.ApplyEachMeaning | src/task.py:100-102 | on distinct keys it succeeds iff every key is present and the operation succeeds on each, and then stores each result under its key |
| Transfer.MapAll | src/task.py:101 | href normalisation applies to every asset and keeps keys and order |
| Transfer.TransferItemMeaning | src/task.py:100-103 | download, normalise, upload succeeds iff every asset can be relocated; it keeps the item's other members and the keys' order and stores each relocated asset under its own key |
| Selector.WildcardSpellings | src/task.py:75 | a string request is the wildcard exactly for the eight case spellings of "all" |
| Selector.Survivors | src/task.py:70-73 | a key survives iff it is on the item and not listed in `drop_assets`; with no or empty `drop_assets`, all keys survive |
| Selector.SurvivorsFilter | src/task.py:70-73 | survivors are the item's keys minus the dropped ones, in the item's order |
| Selector.UnknownDropIgnored | src/task.py:72-73 | listing keys the item lacks in `drop_assets` changes nothing |
| Selector.Select | src/task.py:70-82 | copy and no-copy lists are disjoint, together hold exactly the survivors, and a copied key is requested or the request is the wildcard |
| Selector.Partition | src/task.py:79-82 | the loop appends to `copy_assets` exactly the requested survivors and to `nocopy_assets` the rest, each in survivor order |
| Selector.SelectPartition | src/task.py:79-82 | the two lists interleave to the survivors (same multiset, relative order kept) and neither repeats a key |
| Selector.SelectInItemOrder | src/task.py:79-82 | each list is in the item's own key order |
| Selector.SelectAgain | src/task.py:70-82 | selecting again from the copied-then-kept keys with the same options gives the same split |
| Selector.SelectWildcard | src/task.py:75-77 | with the wildcard, every survivor is copied and none kept as is, so dropping happens before expansion |
| Selector.SelectExplicit | src/task.py:79-82 | with a key list, a key is copied iff it survives and is listed, and kept iff it survives and is not listed |
| Selector.UnknownRequestIgnored | src/task.py:81-82 | requesting keys the item lacks changes nothing |
| Options.Strings | src/task.py:23-25 | an array decodes iff every element is a string, element by element |
| Options.StringsOfStrArray | src/task.py:23-25 | decoding an encoded string list gives it back |
| Options.ValidateEncode | src/task.py:14-45 | every option set the schema admits is accepted from its JSON form and decodes to itself |
| Options.ValidateSound | src/task.py:14-45 | accepted options are admissible, come from an object with `assets`, and decode `assets` and `drop_assets` faithfully |
| Options.GateAdmitsOnlyWildcardText | src/task.py:20-31 | an accepted string `assets` is the wildcard and an accepted list is non-empty |
| Options.ValidateRejects | src/task.py:18-36 | missing `assets`, `[]`, `"All"`, non-string items and a non-array `drop_assets` are rejected |
| CopyAssets.CopyPartMeaning | src/task.py:84-103 | with nothing to copy there is no transfer and no assets; otherwise the reduced item is transferred and holds exactly the copied keys, each relocated |
| CopyAssets.MergeKeptMeaning | src/task.py:105-110 | the kept assets are appended after the copied ones with their original values, nothing copied is overwritten |
| CopyAssets.ReconcileMeaning | src/task.py:68-113 | the new item succeeds iff every copied asset relocates; it keeps every other field, holds exactly the non-dropped keys (copied then kept), relocated copies and untouched kept assets |
| CopyAssets.ReconcileExactly | src/task.py:84-110 | the new item is determined by the split and the relocation of each copied asset |
| CopyAssets.NoCopyNoTransfer | src/task.py:85-87 | when nothing is to be copied the transfer collaborators are never consulted |
| CopyAssets.DropEverything | src/task.py:72-73 | dropping every asset leaves an item without assets |
| CopyAssets.ReconcileIdempotent | src/task.py:68-113 | with collaborators that move nothing, running the copy again on its own output gives the same item |
| CopyAssets.ProcessGate | src/task.py:113-127 | an item is returned only if it is the reconciled item, stored as the first feature and STAC-valid; other failures leave the features alone and carry the payload id |
| CopyAssets.CopyAssetsTask.Process | src/task.py:68-127 | the method's result and new features are those of the reconciled outcome |
| CopyAssets.CopyAssetsTask.Run | src/task.py:40-45 | options failing the schema raise FailedValidation and leave the payload alone; accepted options are processed |
| Scenarios.CopyAll | tests/test_task.py:28-32 | `assets: "all"` moves both assets to the new storage prefix |
| Scenarios.CopyImageKeepThumbnail | tests/test_task.py:33-37 | `assets: ["image"]` moves the image and keeps the thumbnail's href |
| Scenarios.DropImageCopyThumbnail | tests/test_task.py:38-42 | `drop_assets` applies before `"all"`: only the thumbnail is moved and the image is gone |
| Scenarios.DropImageDropThumbnail | tests/test_task.py:43-47 | dropping both assets leaves none |
| Scenarios.InvalidKeysIgnored | tests/test_task.py:48-52 | unknown keys in both lists are ignored and the item comes back unchanged |
| Legacy.ValidateMeaning | task.py:19-23 | for a dict configuration, `validate` returns True iff `assets` is present and otherwise raises InvalidInput; a missing configuration fails in the lookup, never with InvalidInput |
| Legacy.StringsIn | task.py:46 | the drop list's string elements are the only values that can name an asset |
| Legacy.RemoveKeys | task.py:46-48 | removing keys leaves a well-formed dict with exactly the other keys and their values |
| Legacy.PopAllMeaning | task.py:46-48 | popping a key list succeeds iff the keys are distinct and present, and then removes exactly them |
| Legacy.PopAllSucceeds | task.py:46-48 | the run of pops succeeds iff no key is repeated and every key is present |
| Legacy.PopAllRemoves | task.py:46-48 | a successful run of pops removes exactly the popped keys, leaving the others' order and values |
| Legacy.DropListed | task.py:46-48 | the pop loop computes the repeated pop, stopping at the first KeyError |
| Legacy.DropMeaning | task.py:42-48 | the drop loop fails exactly on a repeated present key and otherwise removes precisely the listed keys; absent keys and non-strings are no-ops |
| Legacy.CopyListMeaning | task.py:41-56 | `_assets` holds only surviving keys; the default and `'ALL'` give every surviving key, a list gives its surviving strings in request order |
| Legacy.CopyListOtherString | task.py:41-56 | only the exact string `'ALL'` is expanded; any other string is accepted and iterated character by character, so the copy list holds exactly the item's one-character keys whose character occurs in the string |
| Legacy.OtherStringRequestsNothing | task.py:49-56 | hence a string other than `'ALL'`, `"all"` included, requests nothing on an item without one-character keys |
| Legacy.CopyListStrings | task.py:49-56 | a list of strings is always accepted, and the copy list names exactly the requested keys the item still holds, each as often as the request lists it |
| Legacy.StepMeaning | task.py:59-60 | one pass moves the named asset (download then upload) and leaves the rest of the item alone |
| Legacy.TransferEach | task.py:58-60 | the loop computes the as-written transfer, each pass starting from `item_mod` |
| Legacy.NothingRequestedReturnsItem | task.py:34-63 | as written, for any item and configuration, when the copy list after the drop is empty the loop never runs and the original item comes back, dropped assets included |
| Legacy.LastPassWins | task.py:58-60 | as written, a successful loop returns what its last pass alone returns; each pass moves one asset of `item_mod`, so only the last listed asset comes back moved |
| Legacy.ThreadLoopMeaning | task.py:58-60 | threading the item through the passes moves every listed asset once and nothing else, and succeeds iff each move does |
| Legacy.FixedMeaning | task.py:39-63 | corrected: other fields are kept, exactly the listed assets are dropped, exactly the requested survivors are moved, and the rest keep their values |
| Legacy.LegacyTask.Process | task.py:25-82 | the method's result and new features are those of the as-written outcome, the first feature being replaced before the validation gate |
| Legacy.LegacyTask.Run | task.py:20-23 | a payload failing `validate` is rejected unchanged; otherwise it is processed |
| LegacyScenarios.DroppedAssetReturns | task.py:58-63 | as written, `assets: ["x"]` with `drop_assets: ["image"]` returns the original item, image included |
| LegacyScenarios.DroppedAssetStaysGone | task.py:46-63 | corrected, the same options leave the thumbnail only |
| LegacyScenarios.OnlyLastAssetMoved | task.py:58-60 | as written, `assets: "ALL"` moves only the thumbnail; the image keeps its old href |
| LegacyScenarios.EveryAssetMoved | task.py:58-60 | corrected, `assets: "ALL"` moves both assets |
| LegacyScenarios.RepeatedDropFails | task.py:46-48 | as written, `drop_assets: ["image", "image"]` fails with KeyError |
| LegacyScenarios.RepeatedDropHarmless | task.py:46-48 | corrected, the repeat is harmless and the thumbnail comes back moved |

## Left out

- Transfer.TransferItem: the transfer is built from per-asset download and upload functions and returns the item's other members unchanged. The source takes the whole item back from pystac (src/task.py:100-103), and its comment at src/task.py:98-99 says the download rewrites hrefs as relative ones. So the model assumes that download and upload keep every asset key and leave the non-asset members untouched; the `fields == item.fields` clauses of CopyAssets.CopyPartMeaning and CopyAssets.ReconcileMeaning rest on this assumption.
- Transfer.MapAll: `make_asset_hrefs_absolute` is assumed never to fail; it is a total function here.
- Real downloads, uploads, the S3 client and pystac's `from_dict`/`to_dict` are not modelled. The task sees them only as the per-asset functions of `Transfer.Collaborators`.
- STAC validation is a predicate parameter. The text of its error message is not modelled.
- The `handler`, `cli`, logging and `swoop_api_payload_test.py` are not modelled. They do no selection or copying.
- Exception messages are approximate strings. Only which exception is raised, and where it is wrapped, is modelled.
- Transfer.ApplyEach: it reports the first failing asset in key order. The real download runs concurrently, so which error surfaces is unspecified.
- Transfer.MapAll: `make_asset_hrefs_absolute` resolves hrefs against the item's own location. Here it is an arbitrary per-asset function.
- Selector.Lower: it lowers ASCII letters only. This is exact for the comparison with "all", because no other character lowers to `a` or `l`.
- Json: numbers are integers. Floating-point values in item fields are not modelled, and neither is the member order of non-asset fields.
- Legacy.Iterate: a dict-valued `assets` or `drop_assets` is an error in the model. Python iterates the dict's keys, but a JSON object here keeps no key order.
- Legacy.LegacyTask.Process and CopyAssets.ProcessOutcome: the `payload['id']` lookup inside the error handler (task.py:65 and src/task.py:116) is taken as given. Its own failure is not modelled.
- Aliasing is not modelled. Items and dicts are values, so "the original item's asset dict is not mutated" (src/task.py:84-85) holds by construction and is not a separate proof.
- Scenarios.Rebase: the test upload replaces every occurrence of the old base; the model replaces it as a prefix only. These agree on the test hrefs, which begin with the base.

## Findings

| source | as written | input that shows it | evidently intended | confidence | as-written member | corrected member |
|---|---|---|---|---|---|---|
| task.py:58-63 | when no requested asset survives the drop, the loop never runs, and `item` is still `self.items[0]`, the item as it was before the drop; it is stored and returned | `assets: ["x"]`, `drop_assets: ["image"]` on an item with `image` and `thumbnail` | dropped assets are gone whatever is copied | high; not executed | Legacy.NothingRequestedReturnsItem | Legacy.FixedMeaning |
| task.py:58-60 | each pass downloads from `item_mod` and discards the previous pass's item, so only the last listed asset is moved | `assets: "ALL"` on the same item: the image keeps its old href | every requested asset is moved | medium (holds when `download_item_assets` returns a new item rather than updating `item_mod` in place); not executed | Legacy.LastPassWins | Legacy.ThreadLoopMeaning |
| task.py:46-48 | the list of keys to pop keeps repeats, so a key listed twice is popped twice and the second pop raises KeyError | `drop_assets: ["image", "image"]` | a repeated drop key is harmless, as in src/task.py:73 | high; not executed | LegacyScenarios.RepeatedDropFails | LegacyScenarios.RepeatedDropHarmless |
