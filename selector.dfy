/** Which assets are dropped, copied and kept as they are
    (`CopyAssets.process`, the part before any asset is touched). */
module Selector {
  import opened Seqs
  import opened Wrappers

  /** The `assets` argument of `process`: a list of asset keys or a string. */
  datatype AssetsArg = KeyList(keys: seq<string>) | Text(text: string)

  /** The keys chosen for copying and the surviving keys left as they are. */
  datatype Split = Split(copy: seq<string>, nocopy: seq<string>)

  function LowerChar(ch: char): char {
    if 'A' <= ch <= 'Z' then (ch as int + 32) as char else ch
  }

  /** `str.lower()` on ASCII letters. No other character lower-cases to `a`
      or `l`, so comparing the result with "all" is exact. */
  function Lower(s: string): (r: string)
    ensures |r| == |s|
  {
    seq(|s|, i requires 0 <= i < |s| => LowerChar(s[i]))
  }

  /** The request is a string that reads "all" once lower-cased. */
  predicate IsWildcard(assets: AssetsArg) {
    assets.Text? && Lower(assets.text) == "all"
  }

  /** The wildcard is "all" in any mix of upper and lower case. */
  lemma WildcardSpellings(s: string)
    ensures IsWildcard(Text(s)) <==>
              |s| == 3 && s[0] in "aA" && s[1] in "lL" && s[2] in "lL"
  {
    if |s| == 3 {
      assert Lower(s)[0] == LowerChar(s[0]);
      assert Lower(s)[1] == LowerChar(s[1]);
      assert Lower(s)[2] == LowerChar(s[2]);
    }
  }

  /** Python's `a in s` on two strings: `a` occurs in `s` as a substring. */
  predicate IsSubstring(a: string, s: string)
    decreases |s|
  {
    a <= s || (s != [] && IsSubstring(a, s[1..]))
  }

  /** `a in assets`: list membership, or a substring test when `assets`
      is a string. */
  function Requested(assets: AssetsArg): string -> bool {
    match assets
    case KeyList(ks) => InList(ks)
    case Text(t) => a => IsSubstring(a, t)
  }

  predicate Dropped(drop: Option<seq<string>>, k: string) {
    drop.Some? && k in drop.value
  }

  /** The item's keys less those listed for dropping, in the item's order;
      an absent or empty drop list leaves the keys alone. */
  function Survivors(keys: seq<string>, drop: Option<seq<string>>): (r: seq<string>)
    ensures forall k :: k in r <==> k in keys && !Dropped(drop, k)
  {
    if drop.None? || drop.value == [] then keys else Filter(keys, NotInList(drop.value))
  }

  /** The wildcard becomes the surviving keys; anything else stays. */
  function Expand(assets: AssetsArg, keep: seq<string>): AssetsArg {
    if IsWildcard(assets) then KeyList(keep) else assets
  }

  /** The selection of `process`: drop first, then expand the wildcard, then
      split the survivors by whether they were requested. */
  function Select(keys: seq<string>, assets: AssetsArg, drop: Option<seq<string>>): (sp: Split)
    ensures forall k :: k in sp.copy || k in sp.nocopy <==> k in keys && !Dropped(drop, k)
    ensures forall k :: !(k in sp.copy && k in sp.nocopy)
    ensures forall k :: k in sp.copy ==> IsWildcard(assets) || Requested(assets)(k)
  {
    var keep := Survivors(keys, drop);
    var request := Expand(assets, keep);
    Split(Filter(keep, Requested(request)), Filter(keep, Not(Requested(request))))
  }

  /** The loop that builds `copy_assets` and `nocopy_assets`. */
  method Partition(keep: seq<string>, request: AssetsArg) returns (copy: seq<string>, nocopy: seq<string>)
    ensures copy == Filter(keep, Requested(request))
    ensures nocopy == Filter(keep, Not(Requested(request)))
  {
    copy, nocopy := [], [];
    var i := 0;
    while i < |keep|
      invariant 0 <= i <= |keep|
      invariant copy == Filter(keep[..i], Requested(request))
      invariant nocopy == Filter(keep[..i], Not(Requested(request)))
    {
      var a := keep[i];
      assert keep[..i + 1][..i] == keep[..i];
      if Requested(request)(a) {
        copy := copy + [a];
      } else {
        nocopy := nocopy + [a];
      }
      i := i + 1;
    }
    assert keep[..i] == keep;
  }

  /** The `if drop_assets` guard only saves work: the survivors are always the
      keys not named in the drop list, in the item's order. */
  lemma SurvivorsFilter(keys: seq<string>, drop: Option<seq<string>>)
    ensures Survivors(keys, drop) == Filter(keys, NotInList(if drop.Some? then drop.value else []))
  {
    if drop.None? || drop.value == [] {
      FilterAll(keys, NotInList([]));
    }
  }

  /** Keys in the drop list that the item does not have change nothing. */
  lemma UnknownDropIgnored(keys: seq<string>, drop: seq<string>, extra: seq<string>)
    requires forall x :: x in extra ==> x !in keys
    ensures Survivors(keys, Some(drop + extra)) == Survivors(keys, Some(drop))
  {
    SurvivorsFilter(keys, Some(drop + extra));
    SurvivorsFilter(keys, Some(drop));
    FilterAgree(keys, NotInList(drop + extra), NotInList(drop));
  }

  /** Copied and kept keys partition the survivors: disjoint, together exactly
      the survivors, each in the item's order (the survivors are an
      interleaving of the two), and free of duplicates. */
  lemma SelectPartition(keys: seq<string>, assets: AssetsArg, drop: Option<seq<string>>)
    requires Distinct(keys)
    ensures Interleaves(Survivors(keys, drop), Select(keys, assets, drop).copy, Select(keys, assets, drop).nocopy)
    ensures multiset(Survivors(keys, drop)) ==
              multiset(Select(keys, assets, drop).copy) + multiset(Select(keys, assets, drop).nocopy)
    ensures Distinct(Select(keys, assets, drop).copy) && Distinct(Select(keys, assets, drop).nocopy)
  {
    var keep := Survivors(keys, drop);
    var p := Requested(Expand(assets, keep));
    SurvivorsFilter(keys, drop);
    FilterDistinct(keys, NotInList(if drop.Some? then drop.value else []));
    FilterSplits(keep, p);
    InterleavesMultiset(keep, Filter(keep, p), Filter(keep, Not(p)));
    FilterDistinct(keep, p);
    FilterDistinct(keep, Not(p));
  }

  /** Both halves of the split keep the item's own order: restricting the
      item's keys to either half gives that half back. */
  lemma SelectInItemOrder(keys: seq<string>, assets: AssetsArg, drop: Option<seq<string>>)
    ensures Filter(keys, InList(Select(keys, assets, drop).copy)) == Select(keys, assets, drop).copy
    ensures Filter(keys, InList(Select(keys, assets, drop).nocopy)) == Select(keys, assets, drop).nocopy
  {
    var nd := NotInList(if drop.Some? then drop.value else []);
    var keep := Survivors(keys, drop);
    var p := Requested(Expand(assets, keep));
    SurvivorsFilter(keys, drop);
    FilterFilter(keys, nd, p);
    FilterFilter(keys, nd, Not(p));
    FilterSelf(keys, Both(nd, p));
    FilterSelf(keys, Both(nd, Not(p)));
  }

  /** Selecting again, with the same options, from the copied keys followed by
      the kept keys splits them the same way. */
  lemma SelectAgain(keys: seq<string>, assets: AssetsArg, drop: Option<seq<string>>)
    ensures var sp := Select(keys, assets, drop);
            Select(sp.copy + sp.nocopy, assets, drop) == sp
  {
    var sp := Select(keys, assets, drop);
    var keys2 := sp.copy + sp.nocopy;
    assert Survivors(keys2, drop) == keys2 by {
      SurvivorsFilter(keys2, drop);
      FilterAll(keys2, NotInList(if drop.Some? then drop.value else []));
    }
    var p := Requested(Expand(assets, keys2));
    FilterAppend(sp.copy, sp.nocopy, p);
    FilterAppend(sp.copy, sp.nocopy, Not(p));
    if IsWildcard(assets) {
      SelectWildcard(keys, assets, drop);
      SelectWildcard(keys2, assets, drop);
    } else {
      FilterAll(sp.copy, p);
      FilterNone(sp.nocopy, p);
      FilterNone(sp.copy, Not(p));
      FilterAll(sp.nocopy, Not(p));
    }
  }

  /** With the wildcard, every survivor is copied and none is kept as it is. */
  lemma SelectWildcard(keys: seq<string>, assets: AssetsArg, drop: Option<seq<string>>)
    requires IsWildcard(assets)
    ensures Select(keys, assets, drop).copy == Survivors(keys, drop)
    ensures Select(keys, assets, drop).nocopy == []
  {
    var keep := Survivors(keys, drop);
    FilterAll(keep, Requested(KeyList(keep)));
    FilterNone(keep, Not(Requested(KeyList(keep))));
  }

  /** With a list of keys, a survivor is copied exactly when it is listed. */
  lemma SelectExplicit(keys: seq<string>, ks: seq<string>, drop: Option<seq<string>>)
    ensures forall k :: k in Select(keys, KeyList(ks), drop).copy <==> k in keys && !Dropped(drop, k) && k in ks
    ensures forall k :: k in Select(keys, KeyList(ks), drop).nocopy <==> k in keys && !Dropped(drop, k) && k !in ks
  {
  }

  /** Requested keys that the item does not have are ignored. */
  lemma UnknownRequestIgnored(keys: seq<string>, ks: seq<string>, extra: seq<string>, drop: Option<seq<string>>)
    requires forall x :: x in extra ==> x !in keys
    ensures Select(keys, KeyList(ks + extra), drop) == Select(keys, KeyList(ks), drop)
  {
    var keep := Survivors(keys, drop);
    FilterAgree(keep, InList(ks + extra), InList(ks));
    FilterAgree(keep, Not(InList(ks + extra)), Not(InList(ks)));
  }
}
