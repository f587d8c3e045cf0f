/** The task's options and the schema rule that guards them
    (`CopyAssets.task_options_schema` and `CopyAssets.validate`). */
module Options {
  import opened Json
  import opened Wrappers
  import opened Selector

  /** The keyword arguments `process` receives; an absent `drop_assets` is `None`. */
  datatype TaskOptions = TaskOptions(assets: AssetsArg, drop: Option<seq<string>>)

  /** The strings of a JSON array whose items are all strings. */
  function Strings(elems: seq<Json>): (r: Option<seq<string>>)
    ensures r.Some? <==> forall i :: 0 <= i < |elems| ==> elems[i].Str?
    ensures r.Some? ==> |r.value| == |elems| && forall i :: 0 <= i < |elems| ==> elems[i] == Str(r.value[i])
    decreases |elems|
  {
    if elems == [] then Some([])
    else if !elems[0].Str? then None
    else
      match Strings(elems[1..])
      case None => None
      case Some(rest) => Some([elems[0].s] + rest)
  }

  function StrArray(ks: seq<string>): Json {
    Arr(seq(|ks|, i requires 0 <= i < |ks| => Str(ks[i])))
  }

  /** `assets`: one of an array of at least one string, or the string
      'all' or 'ALL'. */
  function DecodeAssets(j: Json): Result<AssetsArg, string> {
    match j
    case Arr(elems) =>
      if |elems| == 0 then Failure("assets: [] should be non-empty")
      else if Strings(elems).None? then Failure("assets: is not valid under any of the given schemas")
      else Success(KeyList(Strings(elems).value))
    case Str(s) =>
      if s == "all" || s == "ALL" then Success(Text(s))
      else Failure("assets: is not valid under any of the given schemas")
    case _ => Failure("assets: is not valid under any of the given schemas")
  }

  /** `drop_assets`: an array of strings. */
  function DecodeDrop(j: Json): Result<seq<string>, string> {
    if j.Arr? && Strings(j.elems).Some? then Success(Strings(j.elems).value)
    else Failure("drop_assets: is not of type 'array' of 'string'")
  }

  /** `validate`: the options must be an object with a valid `assets` member and,
      if present, a valid `drop_assets` member; other members are allowed.
      Failure is `FailedValidation`. On success, the arguments `process` gets. */
  function Validate(options: Json): Result<TaskOptions, string> {
    if !options.Obj? then Failure("options: is not of type 'object'")
    else if "assets" !in options.members then Failure("'assets' is a required property")
    else
      var assets :- DecodeAssets(options.members["assets"]);
      if "drop_assets" in options.members then
        var drop :- DecodeDrop(options.members["drop_assets"]);
        Success(TaskOptions(assets, Some(drop)))
      else Success(TaskOptions(assets, None))
  }

  /** The options a valid configuration can express. */
  predicate Admissible(o: TaskOptions) {
    || (o.assets.KeyList? && |o.assets.keys| > 0)
    || o.assets == Text("all")
    || o.assets == Text("ALL")
  }

  /** The JSON form of a set of options. */
  function Encode(o: TaskOptions): Json {
    var assets := match o.assets
      case KeyList(ks) => StrArray(ks)
      case Text(t) => Str(t);
    if o.drop.Some? then Obj(map["assets" := assets, "drop_assets" := StrArray(o.drop.value)])
    else Obj(map["assets" := assets])
  }

  lemma StringsOfStrArray(ks: seq<string>)
    ensures Strings(StrArray(ks).elems) == Some(ks)
  {
    var elems := StrArray(ks).elems;
    assert forall i :: 0 <= i < |elems| ==> elems[i] == Str(ks[i]);
    var r := Strings(elems);
    assert r.Some?;
    assert forall i :: 0 <= i < |ks| ==> r.value[i] == ks[i] by {
      forall i | 0 <= i < |ks| ensures r.value[i] == ks[i] {
        assert elems[i] == Str(r.value[i]);
      }
    }
    assert |r.value| == |ks|;
    assert r.value == ks;
  }

  /** Every admissible option set passes validation and reaches `process`
      unchanged. */
  lemma ValidateEncode(o: TaskOptions)
    requires Admissible(o)
    ensures Validate(Encode(o)) == Success(o)
  {
    if o.assets.KeyList? {
      StringsOfStrArray(o.assets.keys);
    }
    if o.drop.Some? {
      StringsOfStrArray(o.drop.value);
    }
  }

  /** Whatever passes validation is admissible and is what the configuration
      says: `assets` and `drop_assets` are read back as given. */
  lemma ValidateSound(options: Json)
    requires Validate(options).Success?
    ensures Admissible(Validate(options).value)
    ensures options.Obj? && "assets" in options.members
    ensures options.members["assets"] == Encode(Validate(options).value).members["assets"]
    ensures Validate(options).value.drop.Some? <==> "drop_assets" in options.members
    ensures Validate(options).value.drop.Some? ==>
              options.members["drop_assets"] == StrArray(Validate(options).value.drop.value)
  {
    var o := Validate(options).value;
    var a := options.members["assets"];
    if a.Arr? {
      var ks := Strings(a.elems).value;
      assert a.elems == StrArray(ks).elems;
    }
    if o.drop.Some? {
      var d := options.members["drop_assets"];
      assert d.elems == StrArray(o.drop.value).elems;
    }
  }

  /** Behind the gate, `process` never sees a string other than the wildcard,
      so its substring reading of `a in assets` cannot arise. */
  lemma GateAdmitsOnlyWildcardText(options: Json)
    requires Validate(options).Success?
    ensures Validate(options).value.assets.Text? ==> IsWildcard(Validate(options).value.assets)
    ensures Validate(options).value.assets.KeyList? ==> |Validate(options).value.assets.keys| > 0
  {
    ValidateSound(options);
    var t := Validate(options).value.assets;
    if t.Text? {
      WildcardSpellings(t.text);
    }
  }

  /** The schema rejects the shapes it does not describe. */
  lemma ValidateRejects(members: map<string, Json>)
    ensures "assets" !in members ==> Validate(Obj(members)).Failure?
    ensures "assets" in members && members["assets"] == Arr([]) ==> Validate(Obj(members)).Failure?
    ensures "assets" in members && members["assets"] == Str("All") ==> Validate(Obj(members)).Failure?
    ensures "assets" in members && members["assets"] == Arr([Num(1)]) ==> Validate(Obj(members)).Failure?
    ensures "drop_assets" in members && members["drop_assets"] == Str("image") ==> Validate(Obj(members)).Failure?
  {
    if "assets" in members && members["assets"] == Str("All") {
      assert "All" != "all" && "All" != "ALL" by {
        assert "All"[1] != "ALL"[1];
        assert "All"[0] != "all"[0];
      }
    }
  }
}
