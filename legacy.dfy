/** The older, root-level `CopyAssets` task: options read from the payload,
    dropped assets popped one by one, and each asset downloaded and uploaded
    on its own. */
module Legacy {
  import opened Seqs
  import opened Wrappers
  import opened Json
  import opened Stac
  import opened Transfer
  import Selector

  /** Where an exception was wrapped inside `process`: raised directly, or
      raised in the copy block and wrapped as
      "copy-assets: failed processing <payload id> (<cause>)". */
  datatype Cause = Raised(msg: string) | FailedProcessing(payloadId: string, msg: string)

  /** The exceptions of the older task. */
  datatype LegacyError =
    | InvalidInput(reason: string)
    | LookupFailed(reason: string)
    | UnableToCopy(cause: Cause)
    | StacValidationFailed

  /** `j[key]` on a JSON value. */
  function Index(j: Json, key: string): Result<Json, string> {
    match j
    case Obj(m) => if key in m then Success(m[key]) else Failure("KeyError")
    case _ => Failure("TypeError: not subscriptable by a string")
  }

  /** `j.get(key, default)`: only dicts have `get`. */
  function Get(j: Json, key: string, default: Json): Result<Json, string> {
    match j
    case Obj(m) => Success(if key in m then m[key] else default)
    case _ => Failure("AttributeError: object has no attribute 'get'")
  }

  /** `x in j` on a JSON value: a key of a dict, an element of a list, or a
      substring of a string. */
  function Contains(j: Json, x: string): Result<bool, string> {
    match j
    case Obj(m) => Success(x in m)
    case Arr(es) => Success(Str(x) in es)
    case Str(s) => Success(Selector.IsSubstring(x, s))
    case _ => Failure("TypeError: argument is not iterable")
  }

  /** `for a in j`: the elements of a list, or the one-character strings of a
      string. */
  function Iterate(j: Json): Result<seq<Json>, string> {
    match j
    case Arr(es) => Success(es)
    case Str(s) => Success(seq(|s|, i requires 0 <= i < |s| => Str([s[i]])))
    case _ => Failure("TypeError: object is not iterable")
  }

  /** The string elements, in order: no other value equals an asset key. */
  function StringsIn(es: seq<Json>): (r: seq<string>)
    ensures forall k :: k in r <==> Str(k) in es
    decreases |es|
  {
    if es == [] then []
    else
      assert es == es[..|es| - 1] + [es[|es| - 1]];
      StringsIn(es[..|es| - 1]) + (if es[|es| - 1].Str? then [es[|es| - 1].s] else [])
  }

  /** The copy-assets configuration, looked up by indexing the payload's
      process block and its tasks; each missing level raises. */
  function TaskConfig(payload: Json): Result<Json, string> {
    var process :- Index(payload, "process");
    var tasks :- Index(process, "tasks");
    Index(tasks, "copy-assets")
  }

  /** `validate`: InvalidInput when the copy-assets configuration has no `assets`;
      a payload without that configuration fails in the lookup itself. */
  function Validate(payload: Json): Result<bool, LegacyError> {
    match TaskConfig(payload)
    case Failure(e) => Failure(LookupFailed(e))
    case Success(config) =>
      match Contains(config, "assets")
      case Failure(e) => Failure(LookupFailed(e))
      case Success(present) =>
        if present then Success(true)
        else Failure(InvalidInput("assets that need to be copied required to be specified"))
  }

  /** For a configuration that is a dict, `validate` raises InvalidInput exactly
      when `assets` is missing and returns True otherwise; it never raises
      InvalidInput for any other reason. */
  lemma ValidateMeaning(payload: Json)
    ensures TaskConfig(payload).Success? && TaskConfig(payload).value.Obj? ==>
              (Validate(payload).Success? <==> "assets" in TaskConfig(payload).value.members)
    ensures TaskConfig(payload).Success? && TaskConfig(payload).value.Obj? ==>
              (Validate(payload).Failure? ==> Validate(payload).error.InvalidInput?)
    ensures Validate(payload).Success? ==> Validate(payload).value
    ensures TaskConfig(payload).Failure? ==> Validate(payload).Failure? && Validate(payload).error.LookupFailed?
  {
  }

  /** The copy-assets configuration as `process` reads it: each missing
      level stands for an empty dict, and only a non-dict level fails. */
  function ConfigOf(payload: Json): Result<Json, string> {
    var process :- Get(payload, "process", Obj(map[]));
    var tasks :- Get(process, "tasks", Obj(map[]));
    Get(tasks, "copy-assets", Obj(map[]))
  }

  /** The dict with the keys `ks` removed, everything else as it was. */
  function RemoveKeys(m: AssetMap, ks: seq<string>): (r: AssetMap)
    requires m.Valid()
    ensures r.Valid()
    ensures forall k :: k in r.entries <==> k in m.entries && k !in ks
    ensures forall k :: k in r.entries ==> r.entries[k] == m.entries[k]
  {
    FilterDistinct(m.order, NotInList(ks));
    AssetMap(Filter(m.order, NotInList(ks)), map k | k in m.entries && k !in ks :: m.entries[k])
  }

  /** Pops the keys one after the other, failing at the first key no longer there. */
  function PopAll(m: AssetMap, ks: seq<string>): Result<AssetMap, string>
    requires m.Valid()
    decreases |ks|
  {
    if ks == [] then Success(m)
    else
      var m' :- Pop(m, ks[0]);
      PopAll(m', ks[1..])
  }

  /** A list with a head is duplicate-free iff its tail is and does not hold the head. */
  lemma DistinctCons(k0: string, rest: seq<string>)
    ensures Distinct([k0] + rest) <==> Distinct(rest) && k0 !in rest
  {
    var ks := [k0] + rest;
    if Distinct(rest) && k0 !in rest {
      forall i, j | 0 <= i < j < |ks| ensures ks[i] != ks[j] {
        if i > 0 {
          assert ks[i] == rest[i - 1] && ks[j] == rest[j - 1];
        } else {
          assert ks[j] == rest[j - 1];
        }
      }
    }
    if Distinct(ks) {
      forall i, j | 0 <= i < j < |rest| ensures rest[i] != rest[j] {
        assert rest[i] == ks[i + 1] && rest[j] == ks[j + 1];
      }
      forall i | 0 <= i < |rest| ensures rest[i] != k0 {
        assert rest[i] == ks[i + 1] && k0 == ks[0];
      }
    }
  }

  /** Popping a list of keys succeeds exactly when they are all present and
      none is repeated. */
  lemma {:induction false} PopAllSucceeds(m: AssetMap, ks: seq<string>)
    requires m.Valid()
    ensures PopAll(m, ks).Success? <==> Distinct(ks) && forall k :: k in ks ==> k in m.entries
    decreases |ks|
  {
    if ks != [] {
      var k0, rest := ks[0], ks[1..];
      assert ks == [k0] + rest;
      DistinctCons(k0, rest);
      if k0 in m.entries {
        PopAllSucceeds(Pop(m, k0).value, rest);
      }
    }
  }

  /** Popping one key and then removing others removes them all. */
  lemma RemoveAfterPop(m: AssetMap, k0: string, rest: seq<string>)
    requires m.Valid() && k0 in m.entries
    ensures RemoveKeys(Pop(m, k0).value, rest) == RemoveKeys(m, [k0] + rest)
  {
    var m' := Pop(m, k0).value;
    FilterFilter(m.order, NotInList([k0]), NotInList(rest));
    FilterAgree(m.order, Both(NotInList([k0]), NotInList(rest)), NotInList([k0] + rest));
    SameAssetMap(RemoveKeys(m', rest), RemoveKeys(m, [k0] + rest));
  }

  /** A successful run of pops removes exactly the popped keys. */
  lemma {:induction false} PopAllRemoves(m: AssetMap, ks: seq<string>)
    requires m.Valid() && PopAll(m, ks).Success?
    ensures PopAll(m, ks).value == RemoveKeys(m, ks)
    decreases |ks|
  {
    if ks == [] {
      RemoveNothing(m);
    } else {
      var k0, rest := ks[0], ks[1..];
      assert k0 in m.entries;
      var m' := Pop(m, k0).value;
      assert PopAll(m, ks) == PopAll(m', rest);
      PopAllRemoves(m', rest);
      assert ks == [k0] + rest;
      RemoveAfterPop(m, k0, rest);
    }
  }

  /** Popping a list of keys succeeds exactly when they are all present and
      none is repeated, and then removes exactly those keys, leaving the order
      and values of the others alone. */
  lemma PopAllMeaning(m: AssetMap, ks: seq<string>)
    requires m.Valid()
    ensures PopAll(m, ks).Success? <==> Distinct(ks) && forall k :: k in ks ==> k in m.entries
    ensures PopAll(m, ks).Success? ==> PopAll(m, ks).value == RemoveKeys(m, ks)
  {
    PopAllSucceeds(m, ks);
    if PopAll(m, ks).Success? {
      PopAllRemoves(m, ks);
    }
  }

  /** Removing no key changes nothing. */
  lemma RemoveNothing(m: AssetMap)
    requires m.Valid()
    ensures RemoveKeys(m, []) == m
  {
    FilterAll(m.order, NotInList([]));
    SameAssetMap(m, RemoveKeys(m, []));
  }

  /** The loop at the head of `process` that pops the dropped assets. */
  method DropListed(m: AssetMap, targets: seq<string>) returns (r: Result<AssetMap, string>)
    requires m.Valid()
    ensures r == PopAll(m, targets)
  {
    var cur := m;
    var i := 0;
    while i < |targets|
      invariant 0 <= i <= |targets|
      invariant cur.Valid()
      invariant PopAll(m, targets) == PopAll(cur, targets[i..])
    {
      assert targets[i..][1..] == targets[i + 1..];
      var popped := Pop(cur, targets[i]);
      if popped.Failure? {
        r := Failure(popped.error);
        return;
      }
      cur := popped.value;
      i := i + 1;
    }
    r := Success(cur);
  }

  /** `_assets`: the requested keys still on the item after dropping, in the
      order requested (duplicates kept). The default, and 'ALL', is the live
      key view, which by now holds the surviving keys. */
  function CopyList(assets: Option<Json>, m: AssetMap): Result<seq<string>, string> {
    if assets.None? || assets.value == Str("ALL") then Success(Filter(m.order, InList(m.order)))
    else
      var es :- Iterate(assets.value);
      if !Hashable(es) then Failure("TypeError: unhashable type")
      else Success(Filter(StringsIn(es), InList(m.order)))
  }

  /** No list or dict among the values, so each can be looked up in a key view. */
  predicate Hashable(es: seq<Json>) {
    forall i :: 0 <= i < |es| ==> !es[i].Arr? && !es[i].Obj?
  }

  /** The copy list is a sub-list of the request made of surviving keys only. */
  lemma CopyListMeaning(assets: Option<Json>, m: AssetMap)
    requires m.Valid()
    ensures CopyList(assets, m).Success? ==> forall k :: k in CopyList(assets, m).value ==> k in m.entries
    ensures (assets.None? || assets.value == Str("ALL")) ==> CopyList(assets, m) == Success(m.order)
    ensures assets.Some? && assets.value.Arr? && CopyList(assets, m).Success? ==>
              CopyList(assets, m).value == Filter(StringsIn(assets.value.elems), InList(m.order))
  {
    FilterAll(m.order, InList(m.order));
  }

  /** Only the exact string 'ALL' is expanded: any other string is iterated
      character by character, so the copy list holds exactly the
      one-character keys of the item whose character occurs in the string. */
  lemma CopyListOtherString(s: string, m: AssetMap)
    requires m.Valid() && s != "ALL"
    ensures CopyList(Some(Str(s)), m).Success?
    ensures forall k :: k in CopyList(Some(Str(s)), m).value <==> k in m.entries && |k| == 1 && k[0] in s
  {
    var es := seq(|s|, i requires 0 <= i < |s| => Str([s[i]]));
    assert Some(Str(s)).value != Str("ALL");
    assert Iterate(Str(s)) == Success(es);
    assert Hashable(es);
    assert CopyList(Some(Str(s)), m) == Success(Filter(StringsIn(es), InList(m.order)));
    forall k | k in m.entries && |k| == 1 && k[0] in s
      ensures Str(k) in es
    {
      var i :| 0 <= i < |s| && s[i] == k[0];
      assert k == [s[i]];
      assert es[i] == Str(k);
    }
  }

  /** Hence any string other than 'ALL', "all" included, requests nothing on
      an item without one-character keys. */
  lemma OtherStringRequestsNothing(s: string, m: AssetMap)
    requires m.Valid() && s != "ALL"
    requires forall k :: k in m.entries ==> |k| != 1
    ensures CopyList(Some(Str(s)), m) == Success([])
  {
    var es := seq(|s|, i requires 0 <= i < |s| => Str([s[i]]));
    assert Some(Str(s)).value != Str("ALL");
    assert Iterate(Str(s)) == Success(es);
    assert Hashable(es);
    forall x | x in StringsIn(es)
      ensures !InList(m.order)(x)
    {
      var i :| 0 <= i < |es| && es[i] == Str(x);
      assert x == [s[i]];
    }
    FilterNone(StringsIn(es), InList(m.order));
  }

  /** A string occurs among the string elements as often as it occurs,
      wrapped, in the list. */
  lemma {:induction false} StringsInCount(es: seq<Json>, k: string)
    ensures multiset(StringsIn(es))[k] == multiset(es)[Str(k)]
    decreases |es|
  {
    if es != [] {
      var init := es[..|es| - 1];
      assert es == init + [es[|es| - 1]];
      StringsInCount(init, k);
    }
  }

  /** A list of strings is always accepted as the request: the copy list
      names exactly the requested keys the item still holds, each as often
      as the request lists it. */
  lemma CopyListStrings(es: seq<Json>, m: AssetMap)
    requires forall i :: 0 <= i < |es| ==> es[i].Str?
    ensures CopyList(Some(Arr(es)), m).Success?
    ensures forall k :: k in CopyList(Some(Arr(es)), m).value <==> Str(k) in es && k in m.order
    ensures forall k :: k in m.order ==> multiset(CopyList(Some(Arr(es)), m).value)[k] == multiset(es)[Str(k)]
  {
    assert Some(Arr(es)).value != Str("ALL");
    assert Iterate(Arr(es)) == Success(es);
    assert Hashable(es);
    var r := Filter(StringsIn(es), InList(m.order));
    assert CopyList(Some(Arr(es)), m) == Success(r);
    forall k | k in m.order
      ensures multiset(r)[k] == multiset(es)[Str(k)]
    {
      FilterCount(StringsIn(es), InList(m.order), k);
      StringsInCount(es, k);
    }
  }

  /** What the older loop does to one asset: download it, then upload it. */
  function Move(c: Collaborators, k: string, a: Asset): Result<Asset, string> {
    var local :- c.download(k, a);
    c.upload(k, local)
  }

  /** One pass of the older loop: the named asset of the item downloaded and
      then uploaded, everything else left as it was. */
  function Step(item: Item, k: string, c: Collaborators): Result<Item, string> {
    if k !in item.assets.entries then Failure("KeyError")
    else
      var moved :- Move(c, k, item.assets.entries[k]);
      Success(Item(item.fields, AssetMap(item.assets.order, item.assets.entries[k := moved])))
  }

  /** One pass of the loop as written: it moves asset `k` of `itemMod`,
      whatever the previous passes produced. */
  function PassFrom(itemMod: Item, c: Collaborators): string -> Result<Item, string> {
    k => Step(itemMod, k, c)
  }

  /** The transfer loop as written: `item` is rebound to each pass's result,
      and the item that comes out is the last pass's (or `first` if there is
      none). */
  function RebindLoop(first: Item, pass: string -> Result<Item, string>, ks: seq<string>): Result<Item, string>
    decreases |ks|
  {
    if ks == [] then Success(first)
    else
      var next :- pass(ks[0]);
      RebindLoop(next, pass, ks[1..])
  }

  /** The loop over `_assets`. */
  method TransferEach(first: Item, itemMod: Item, ks: seq<string>, c: Collaborators) returns (r: Result<Item, string>)
    ensures r == RebindLoop(first, PassFrom(itemMod, c), ks)
  {
    var item := first;
    var i := 0;
    while i < |ks|
      invariant 0 <= i <= |ks|
      invariant RebindLoop(first, PassFrom(itemMod, c), ks) == RebindLoop(item, PassFrom(itemMod, c), ks[i..])
    {
      assert ks[i..][1..] == ks[i + 1..];
      var next := Step(itemMod, ks[i], c);
      if next.Failure? {
        r := Failure(next.error);
        return;
      }
      item := next.value;
      i := i + 1;
    }
    r := Success(item);
  }

  /** The drop list of a dict configuration, empty when absent. */
  function DropOption(members: map<string, Json>): Json {
    if "drop_assets" in members then members["drop_assets"] else Arr([])
  }

  /** The requested assets of a dict configuration; None stands for the
      default, the live view of the item's keys. */
  function AssetsOption(members: map<string, Json>): Option<Json> {
    if "assets" in members then Some(members["assets"]) else None
  }

  /** The drop loop pops the listed keys present on the item, each once: it
      fails exactly when such a key is listed twice, and otherwise removes
      precisely the listed keys, whatever else the list holds. */
  lemma DropMeaning(m: AssetMap, drop: seq<Json>)
    requires m.Valid()
    ensures PopAll(m, Filter(StringsIn(drop), InList(m.order))).Success? <==>
              Distinct(Filter(StringsIn(drop), InList(m.order)))
    ensures PopAll(m, Filter(StringsIn(drop), InList(m.order))).Success? ==>
              PopAll(m, Filter(StringsIn(drop), InList(m.order))).value == RemoveKeys(m, StringsIn(drop))
  {
    var targets := Filter(StringsIn(drop), InList(m.order));
    PopAllMeaning(m, targets);
    FilterAgree(m.order, NotInList(targets), NotInList(StringsIn(drop)));
    if PopAll(m, targets).Success? {
      SameAssetMap(RemoveKeys(m, targets), RemoveKeys(m, StringsIn(drop)));
    }
  }

  /** One pass of the loop moves the named asset and leaves the rest of the
      item as it was. */
  lemma StepMeaning(item: Item, k: string, c: Collaborators)
    requires item.assets.Valid()
    ensures Step(item, k, c).Success? <==> k in item.assets.entries && Move(c, k, item.assets.entries[k]).Success?
    ensures Step(item, k, c).Success? ==>
              && Step(item, k, c).value.fields == item.fields
              && Step(item, k, c).value.assets.Valid()
              && Step(item, k, c).value.assets.order == item.assets.order
              && forall j :: j in item.assets.entries ==>
                   Step(item, k, c).value.assets.entries[j] ==
                     if j == k then Move(c, k, item.assets.entries[k]).value else item.assets.entries[j]
  {
  }

  /** The loop as written keeps only its last pass: with a non-empty copy
      list, a successful loop returns what the last pass alone returns. */
  lemma {:induction false} LastPassWins(first: Item, pass: string -> Result<Item, string>, ks: seq<string>)
    requires ks != []
    ensures RebindLoop(first, pass, ks).Success? ==> RebindLoop(first, pass, ks) == pass(ks[|ks| - 1])
    decreases |ks|
  {
    if |ks| > 1 && pass(ks[0]).Success? {
      assert ks[1..][|ks[1..]| - 1] == ks[|ks| - 1];
      LastPassWins(pass(ks[0]).value, pass, ks[1..]);
    }
  }

  /** The item the older `process` stores and returns, given its configuration. */
  function LegacyReconcile(config: Json, item: Item, payloadId: string, c: Collaborators): Result<Item, LegacyError>
    requires item.assets.Valid()
  {
    if !config.Obj? then Failure(UnableToCopy(Raised("AttributeError: object has no attribute 'get'")))
    else
      match Iterate(DropOption(config.members))
      case Failure(e) => Failure(UnableToCopy(Raised(e)))
      case Success(drop) =>
        match PopAll(item.assets, Filter(StringsIn(drop), InList(item.assets.order)))
        case Failure(e) => Failure(UnableToCopy(Raised(e)))
        case Success(kept) =>
          var itemMod := Item(item.fields, kept);
          match CopyList(AssetsOption(config.members), kept)
          case Failure(e) => Failure(UnableToCopy(FailedProcessing(payloadId, e)))
          case Success(ks) =>
            match RebindLoop(item, PassFrom(itemMod, c), ks)
            case Failure(e) => Failure(UnableToCopy(FailedProcessing(payloadId, e)))
            case Success(out) => Success(out)
  }

  /** As written, when no requested asset survives the drop the loop never
      runs: the original item comes back, dropped assets included, whatever
      the collaborators would do. */
  lemma NothingRequestedReturnsItem(config: Json, item: Item, payloadId: string, c: Collaborators,
                                    drop: seq<Json>, kept: AssetMap)
    requires item.assets.Valid() && config.Obj?
    requires Iterate(DropOption(config.members)) == Success(drop)
    requires PopAll(item.assets, Filter(StringsIn(drop), InList(item.assets.order))) == Success(kept)
    requires CopyList(AssetsOption(config.members), kept) == Success([])
    ensures LegacyReconcile(config, item, payloadId, c) == Success(item)
  {
  }

  /** The loop as intended: each pass continues from the item the previous
      pass produced. */
  function ThreadLoop(cur: Item, ks: seq<string>, c: Collaborators): Result<Item, string>
    decreases |ks|
  {
    if ks == [] then Success(cur)
    else
      var next :- Step(cur, ks[0], c);
      ThreadLoop(next, ks[1..], c)
  }

  /** Threading the item through the passes moves every listed asset once and
      touches nothing else; it succeeds exactly when each move does. */
  lemma {:induction false} ThreadLoopMeaning(cur: Item, ks: seq<string>, c: Collaborators)
    requires cur.assets.Valid() && Distinct(ks)
    ensures ThreadLoop(cur, ks, c).Success? <==>
              forall k :: k in ks ==> k in cur.assets.entries && Move(c, k, cur.assets.entries[k]).Success?
    ensures ThreadLoop(cur, ks, c).Success? ==>
              && ThreadLoop(cur, ks, c).value.fields == cur.fields
              && ThreadLoop(cur, ks, c).value.assets.Valid()
              && ThreadLoop(cur, ks, c).value.assets.order == cur.assets.order
              && forall j :: j in cur.assets.entries ==>
                   ThreadLoop(cur, ks, c).value.assets.entries[j] ==
                     if j in ks then Move(c, j, cur.assets.entries[j]).value else cur.assets.entries[j]
    decreases |ks|
  {
    if ks != [] {
      var k0, rest := ks[0], ks[1..];
      assert ks == [k0] + rest;
      assert Distinct(rest) && k0 !in rest;
      StepMeaning(cur, k0, c);
      var step := Step(cur, k0, c);
      if step.Success? {
        var next := step.value;
        ThreadLoopMeaning(next, rest, c);
        assert ThreadLoop(cur, ks, c) == ThreadLoop(next, rest, c);
        forall k | k in rest
          ensures k in next.assets.entries <==> k in cur.assets.entries
          ensures k in cur.assets.entries ==> next.assets.entries[k] == cur.assets.entries[k]
        {
        }
      }
    }
  }

  /** The older task as evidently intended: every listed asset is dropped (a
      repeat is harmless), and every requested survivor is moved once, each
      pass building on the last. */
  function FixedReconcile(config: Json, item: Item, payloadId: string, c: Collaborators): Result<Item, LegacyError>
    requires item.assets.Valid()
  {
    if !config.Obj? then Failure(UnableToCopy(Raised("AttributeError: object has no attribute 'get'")))
    else
      match Iterate(DropOption(config.members))
      case Failure(e) => Failure(UnableToCopy(Raised(e)))
      case Success(drop) =>
        var kept := RemoveKeys(item.assets, StringsIn(drop));
        match CopyList(AssetsOption(config.members), kept)
        case Failure(e) => Failure(UnableToCopy(FailedProcessing(payloadId, e)))
        case Success(ks) =>
          FilterDistinct(kept.order, InList(ks));
          match ThreadLoop(Item(item.fields, kept), Filter(kept.order, InList(ks)), c)
          case Failure(e) => Failure(UnableToCopy(FailedProcessing(payloadId, e)))
          case Success(out) => Success(out)
  }

  /** The corrected task keeps the item's other members, removes exactly the
      listed assets, moves exactly the requested survivors and leaves every
      other asset as it was; it fails only when one of those moves does. */
  lemma FixedMeaning(config: Json, item: Item, payloadId: string, c: Collaborators, drop: seq<Json>, ks: seq<string>)
    requires item.assets.Valid() && config.Obj?
    requires Iterate(DropOption(config.members)) == Success(drop)
    requires CopyList(AssetsOption(config.members), RemoveKeys(item.assets, StringsIn(drop))) == Success(ks)
    ensures FixedReconcile(config, item, payloadId, c).Success? <==>
              forall k :: k in ks ==> Move(c, k, item.assets.entries[k]).Success?
    ensures FixedReconcile(config, item, payloadId, c).Success? ==>
              var out := FixedReconcile(config, item, payloadId, c).value;
              && out.fields == item.fields
              && out.assets.Valid()
              && out.assets.order == Filter(item.assets.order, NotInList(StringsIn(drop)))
              && (forall k :: k in out.assets.entries <==> k in item.assets.entries && Str(k) !in drop)
              && forall k :: k in out.assets.entries ==>
                   out.assets.entries[k] == if k in ks then Move(c, k, item.assets.entries[k]).value else item.assets.entries[k]
  {
    var kept := RemoveKeys(item.assets, StringsIn(drop));
    CopyListMeaning(AssetsOption(config.members), kept);
    var copy := Filter(kept.order, InList(ks));
    FilterDistinct(kept.order, InList(ks));
    ThreadLoopMeaning(Item(item.fields, kept), copy, c);
    assert forall k :: k in copy <==> k in ks;
  }

  /** Outcome of the older `process`: result or exception, and the payload's
      features afterwards. */
  function LegacyOutcome(features: seq<Item>, payload: Json, payloadId: string, c: Collaborators)
    : (Result<seq<Item>, LegacyError>, seq<Item>)
    requires features != [] ==> features[0].assets.Valid()
  {
    if features == [] then (Failure(UnableToCopy(Raised("list index out of range"))), features)
    else match ConfigOf(payload)
      case Failure(e) => (Failure(UnableToCopy(Raised(e))), features)
      case Success(config) =>
        match LegacyReconcile(config, features[0], payloadId, c)
        case Failure(e) => (Failure(e), features)
        case Success(out) =>
          (if c.stacValid(out) then Success([out]) else Failure(StacValidationFailed), features[0 := out])
  }

  /** The older task: the payload (where its options live), its id, and its features. */
  class LegacyTask {
    const payload: Json
    const payloadId: string
    var features: seq<Item>

    constructor (payload: Json, payloadId: string, features: seq<Item>)
      ensures this.payload == payload && this.payloadId == payloadId && this.features == features
    {
      this.payload := payload;
      this.payloadId := payloadId;
      this.features := features;
    }

    /** `process`: its `assets` and `drop_assets` arguments are ignored, the
        configuration is read from the payload again. */
    method Process(c: Collaborators) returns (r: Result<seq<Item>, LegacyError>)
      requires features != [] ==> features[0].assets.Valid()
      modifies this
      ensures (r, features) == LegacyOutcome(old(features), payload, payloadId, c)
    {
      if |features| == 0 {
        r := Failure(UnableToCopy(Raised("list index out of range")));
        return;
      }
      var item := features[0];
      var found := ConfigOf(payload);
      if found.Failure? {
        r := Failure(UnableToCopy(Raised(found.error)));
        return;
      }
      var config := found.value;
      if !config.Obj? {
        r := Failure(UnableToCopy(Raised("AttributeError: object has no attribute 'get'")));
        return;
      }
      var drop := Iterate(DropOption(config.members));
      if drop.Failure? {
        r := Failure(UnableToCopy(Raised(drop.error)));
        return;
      }
      var kept := DropListed(item.assets, Filter(StringsIn(drop.value), InList(item.assets.order)));
      if kept.Failure? {
        r := Failure(UnableToCopy(Raised(kept.error)));
        return;
      }
      var itemMod := Item(item.fields, kept.value);
      var ks := CopyList(AssetsOption(config.members), kept.value);
      if ks.Failure? {
        r := Failure(UnableToCopy(FailedProcessing(payloadId, ks.error)));
        return;
      }
      var moved := TransferEach(item, itemMod, ks.value, c);
      if moved.Failure? {
        r := Failure(UnableToCopy(FailedProcessing(payloadId, moved.error)));
        return;
      }
      features := features[0 := moved.value];
      if !c.stacValid(moved.value) {
        r := Failure(StacValidationFailed);
        return;
      }
      r := Success([moved.value]);
    }

    /** The framework's run: `validate` the payload, then `process`. */
    method Run(c: Collaborators) returns (r: Result<seq<Item>, LegacyError>)
      requires features != [] ==> features[0].assets.Valid()
      modifies this
      ensures Validate(payload).Failure? ==> r == Failure(Validate(payload).error) && features == old(features)
      ensures Validate(payload).Success? ==> (r, features) == LegacyOutcome(old(features), payload, payloadId, c)
    {
      var ok := Validate(payload);
      if ok.Failure? {
        r := Failure(ok.error);
        return;
      }
      r := Process(c);
    }
  }
}
