/**
 * The configuration controller of the second server
 * (restructure/server/controllers/configController.js): reading the `.env` settings with
 * the key masked, merging new settings into them and writing them back, and testing the
 * connection with temporary settings that are restored afterwards.
 *
 * The parsed `.env` file is an association list, because a JavaScript object keeps its
 * keys in insertion order and the file is written in that order.
 */
module ConfigController {
  import opened Wrappers
  import opened JsString
  import opened Http
  import opened Environment
  import opened AiService

  /** The value shown instead of a stored key. */
  const Mask: string := "********"

  /** An object's entries in insertion order. */
  type AssocList = seq<(string, string)>

  /** An object never holds a key twice. */
  predicate UniqueKeys(entries: AssocList) {
    forall i, j :: 0 <= i < j < |entries| ==> entries[i].0 != entries[j].0
  }

  /** `obj[key]` */
  function Lookup(entries: AssocList, key: string): (r: Option<string>)
    ensures r.Some? ==> exists i :: 0 <= i < |entries| && entries[i] == (key, r.value)
  {
    if entries == [] then None
    else if entries[0].0 == key then Some(entries[0].1)
    else Lookup(entries[1..], key)
  }

  /** `obj[key] = value`: the value changes in place, or the key is added last. */
  function Put(entries: AssocList, key: string, value: string): (r: AssocList)
    ensures |r| == |entries| || r == entries + [(key, value)]
  {
    if entries == [] then [(key, value)]
    else if entries[0].0 == key then [(key, value)] + entries[1..]
    else [entries[0]] + Put(entries[1..], key, value)
  }

  /** The keys, in order. */
  function Keys(entries: AssocList): seq<string> {
    if entries == [] then [] else [entries[0].0] + Keys(entries[1..])
  }

  /** What `getApiConfig` returns. */
  datatype ConfigView = ConfigView(url: string, key: string, model: string, maxTokens: string)

  /** The settings `getApiConfig` shows for the parsed `.env` file (`None` when there is none), the key masked. */
  function View(parsed: Option<AssocList>): (v: ConfigView)
    ensures v.key == Mask || v.key == []
  {
    var env := parsed.GetOr([]);
    ConfigView(Or(Lookup(env, "API_URL"), []),
               if Truthy(Lookup(env, "API_KEY")) then Mask else [],
               Or(Lookup(env, "API_MODEL"), DefaultModel),
               Or(Lookup(env, "API_MAX_TOKENS"), "32768"))
  }

  /**
   * What `dotenv.config` does to the environment besides parsing: each parsed variable
   * that is not yet defined is added; a defined one keeps its value.
   */
  function Populated(vars: Env, entries: AssocList): Env
    decreases |entries|
  {
    if entries == [] then vars
    else Populated(if entries[0].0 in vars then vars else vars[entries[0].0 := entries[0].1], entries[1..])
  }

  /** The entries as a map, later entries winning. */
  function ToMap(entries: AssocList): map<string, string> {
    if entries == [] then map[] else ToMap(entries[..|entries| - 1])[entries[|entries| - 1].0 := entries[|entries| - 1].1]
  }

  /** The variables `testApiConnection` saves, with their values (`None` when undefined). */
  function Saved(vars: Env): seq<(string, Option<string>)> {
    [("API_URL", Get(vars, "API_URL")), ("API_KEY", Get(vars, "API_KEY")), ("API_MODEL", Get(vars, "API_MODEL"))]
  }

  /** One saved variable set back, or deleted when it was undefined. */
  function RestoreOne(vars: Env, key: string, value: Option<string>): Env {
    if value.None? then vars - {key} else vars[key := value.value]
  }

  /** The restoring `forEach` over the saved variables. */
  function Restored(vars: Env, saved: seq<(string, Option<string>)>): Env {
    if saved == [] then vars
    else RestoreOne(Restored(vars, saved[..|saved| - 1]), saved[|saved| - 1].0, saved[|saved| - 1].1)
  }

  /** The environment during the test: the request's URL, key (unless the mask) and model override the variables. */
  function Overridden(vars: Env, url: Option<string>, key: Option<string>, model: Option<string>): (r: Env)
    ensures Truthy(url) ==> "API_URL" in r && r["API_URL"] == url.value
    ensures Truthy(key) && key.value != Mask ==> "API_KEY" in r && r["API_KEY"] == key.value
    ensures AgreeOutside(r, vars, {"API_URL", "API_KEY", "API_MODEL"})
  {
    var v := if Truthy(url) then vars["API_URL" := url.value] else vars;
    var v := if Truthy(key) && key.value != Mask then v["API_KEY" := key.value] else v;
    if Truthy(model) then v["API_MODEL" := model.value] else v
  }

  /** The process environment, which the controller changes in place. */
  class ProcessEnv {
    var vars: Env

    constructor (vars: Env)
      ensures this.vars == vars
    {
      this.vars := vars;
    }

    /** `process.env[key] = value` */
    method Set(key: string, value: string)
      modifies this
      ensures vars == old(vars)[key := value]
    {
      vars := vars[key := value];
    }

    /** `delete process.env[key]` */
    method Delete(key: string)
      modifies this
      ensures vars == old(vars) - {key}
    {
      vars := vars - {key};
    }

    /** The environment side of `dotenv.config({ path })`: parsed variables not yet defined are added. */
    method Populate(entries: AssocList)
      modifies this
      ensures vars == Populated(old(vars), entries)
    {
      for i := 0 to |entries|
        invariant Populated(vars, entries[i..]) == Populated(old(vars), entries)
      {
        assert entries[i..][1..] == entries[i + 1..];
        if entries[i].0 !in vars {
          Set(entries[i].0, entries[i].1);
        }
      }
    }

    /** `Object.entries(obj).forEach(([key, value]) => { process.env[key] = value; })` */
    method Assign(entries: AssocList)
      modifies this
      ensures vars == old(vars) + ToMap(entries)
    {
      for i := 0 to |entries|
        invariant vars == old(vars) + ToMap(entries[..i])
      {
        assert entries[..i + 1][..i] == entries[..i];
        Set(entries[i].0, entries[i].1);
      }
      assert entries[..|entries|] == entries;
    }

    /** The test's overrides: URL, key (unless the mask) and model, each when non-empty. */
    method Override(url: Option<string>, key: Option<string>, model: Option<string>)
      modifies this
      ensures vars == Overridden(old(vars), url, key, model)
    {
      if Truthy(url) {
        Set("API_URL", url.value);
      }
      if Truthy(key) && key.value != Mask {
        Set("API_KEY", key.value);
      }
      if Truthy(model) {
        Set("API_MODEL", model.value);
      }
    }

    /** The restoring `forEach` over the saved variables. */
    method Restore(saved: seq<(string, Option<string>)>)
      modifies this
      ensures vars == Restored(old(vars), saved)
    {
      for i := 0 to |saved|
        invariant vars == Restored(old(vars), saved[..i])
      {
        assert saved[..i + 1][..i] == saved[..i];
        if saved[i].1.None? {
          Delete(saved[i].0);
        } else {
          Set(saved[i].0, saved[i].1.value);
        }
      }
      assert saved[..|saved|] == saved;
    }
  }

  /**
   * `getApiConfig` with the parsed `.env` file: reading it adds the file's variables that
   * the environment lacks, and the reply shows the settings with the key masked.
   */
  method GetApiConfig(parsed: Option<AssocList>, env: ProcessEnv) returns (v: ConfigView)
    modifies env
    ensures v == View(parsed)
    ensures env.vars == Populated(old(env.vars), parsed.GetOr([]))
  {
    env.Populate(parsed.GetOr([]));
    v := View(parsed);
  }

  /** What the update request gets back. */
  datatype UpdateReply = BadRequest(error: string) | Updated

  /**
   * The settings after `updateApiConfig`'s assignments: the URL whenever it is given
   * (even empty), the key when given and not the mask, model and max tokens when non-empty.
   */
  function Merged(entries: AssocList, url: Option<string>, key: Option<string>, model: Option<string>,
                  maxTokens: Option<string>): (r: AssocList)
    ensures |entries| <= |r| <= |entries| + 4
  {
    var e := if url.Some? then Put(entries, "API_URL", url.value) else entries;
    var e := if key.Some? && key.value != Mask then Put(e, "API_KEY", key.value) else e;
    var e := if Truthy(model) then Put(e, "API_MODEL", model.value) else e;
    if Truthy(maxTokens) then Put(e, "API_MAX_TOKENS", maxTokens.value) else e
  }

  /** `Object.entries(envConfig).map(([k, v]) => `${k}=${v}`)` */
  function EntryLines(entries: AssocList): seq<string> {
    if entries == [] then [] else [entries[0].0 + "=" + entries[0].1] + EntryLines(entries[1..])
  }

  /** The assignments of `updateApiConfig`, one after another. */
  method Merge(entries: AssocList, url: Option<string>, key: Option<string>, model: Option<string>,
               maxTokens: Option<string>) returns (config: AssocList)
    ensures config == Merged(entries, url, key, model, maxTokens)
  {
    config := entries;
    if url.Some? {
      config := Put(config, "API_URL", url.value);
    }
    if key.Some? && key.value != Mask {
      config := Put(config, "API_KEY", key.value);
    }
    if Truthy(model) {
      config := Put(config, "API_MODEL", model.value);
    }
    if Truthy(maxTokens) {
      config := Put(config, "API_MAX_TOKENS", maxTokens.value);
    }
  }

  /**
   * `updateApiConfig` with the parsed `.env` file (`None` when it is missing or empty),
   * the request's fields (`None` when undefined) and the process environment; returns the
   * reply and the text written, if any.
   */
  method UpdateApiConfig(parsed: Option<AssocList>, url: Option<string>, key: Option<string>, model: Option<string>,
                         maxTokens: Option<string>, env: ProcessEnv) returns (reply: UpdateReply, written: Option<string>)
    requires parsed.Some? ==> UniqueKeys(parsed.value)
    modifies env
    ensures !Truthy(url) && !Truthy(key) ==>
      reply == BadRequest("至少需要提供API URL或API密钥") && written.None? && env.vars == old(env.vars)
    ensures Truthy(url) || Truthy(key) ==>
      var merged := Merged(parsed.GetOr([]), url, key, model, maxTokens);
      && reply == Updated
      && UniqueKeys(merged)
      && written == Some(Join(EntryLines(merged), "\n"))
      && env.vars == old(env.vars) + ToMap(merged)
  {
    if !Truthy(url) && !Truthy(key) {
      return BadRequest("至少需要提供API URL或API密钥"), None;
    }
    env.Populate(parsed.GetOr([]));
    var config := Merge(parsed.GetOr([]), url, key, model, maxTokens);
    written := Some(Join(EntryLines(config), "\n"));
    env.Assign(config);
    PopulateSuperseded(old(env.vars), parsed.GetOr([]), url, key, model, maxTokens);
    MergedUnique(parsed.GetOr([]), url, key, model, maxTokens);
    reply := Updated;
  }

  /** What the test request gets back. */
  datatype TestReply = Succeeded(message: string) | NotConnected(error: string)

  /**
   * `testApiConnection` with the request's fields and the test request's outcome: the
   * connection is checked under the overridden variables, which are restored afterwards.
   */
  method TestApiConnection(url: Option<string>, key: Option<string>, model: Option<string>, outcome: Outcome, env: ProcessEnv)
    returns (reply: TestReply)
    modifies env
    ensures env.vars == old(env.vars)
    ensures var c := TestConnection(Overridden(old(env.vars), url, key, model), outcome);
      reply == if c.success then Succeeded(c.message) else NotConnected(c.message)
  {
    var saved := Saved(env.vars);
    env.Override(url, key, model);
    var c := TestConnection(env.vars, outcome);
    env.Restore(saved);
    RestoredOriginal(old(env.vars), url, key, model);
    reply := if c.success then Succeeded(c.message) else NotConnected(c.message);
  }

  // ---------------------------------------------------------------- properties

  /** Restoring the saved variables undoes the overrides exactly. */
  lemma RestoredOriginal(vars: Env, url: Option<string>, key: Option<string>, model: Option<string>)
    ensures Restored(Overridden(vars, url, key, model), Saved(vars)) == vars
  {
    var o := Overridden(vars, url, key, model);
    var s := Saved(vars);
    var r1 := RestoreOne(o, "API_URL", Get(vars, "API_URL"));
    var r2 := RestoreOne(r1, "API_KEY", Get(vars, "API_KEY"));
    var r3 := RestoreOne(r2, "API_MODEL", Get(vars, "API_MODEL"));
    assert Restored(o, s[..1]) == r1 by {
      assert s[..1][..0] == [];
    }
    assert Restored(o, s[..2]) == r2 by {
      assert s[..2][..1] == s[..1];
    }
    assert Restored(o, s) == r3 by {
      assert s[..|s| - 1] == s[..2];
    }
    AgreeOverridden(vars, url, key, model);
    RestoreOneAgrees(o, vars, "API_URL", {"API_URL", "API_KEY", "API_MODEL"});
    assert {"API_URL", "API_KEY", "API_MODEL"} - {"API_URL"} == {"API_KEY", "API_MODEL"};
    RestoreOneAgrees(r1, vars, "API_KEY", {"API_KEY", "API_MODEL"});
    assert {"API_KEY", "API_MODEL"} - {"API_KEY"} == {"API_MODEL"};
    RestoreOneAgrees(r2, vars, "API_MODEL", {"API_MODEL"});
    assert {"API_MODEL"} - {"API_MODEL"} == {};
    assert AgreeOutside(r3, vars, {});
  }

  /** `m` and `vars` hold the same variables with the same values, except perhaps those in `except`. */
  ghost predicate AgreeOutside(m: Env, vars: Env, except: set<string>) {
    && (forall k :: k !in except ==> (k in m <==> k in vars))
    && (forall k :: k !in except && k in m && k in vars ==> m[k] == vars[k])
  }

  /** The overrides touch only the three saved variables. */
  lemma AgreeOverridden(vars: Env, url: Option<string>, key: Option<string>, model: Option<string>)
    ensures AgreeOutside(Overridden(vars, url, key, model), vars, {"API_URL", "API_KEY", "API_MODEL"})
  {
  }

  /** Restoring one variable from `vars` makes it agree there too. */
  lemma RestoreOneAgrees(m: Env, vars: Env, key: string, except: set<string>)
    requires AgreeOutside(m, vars, except)
    ensures AgreeOutside(RestoreOne(m, key, Get(vars, key)), vars, except - {key})
  {
  }

  /** The shown key depends only on whether a key is stored, never on its value. */
  lemma KeyNeverShown(a: AssocList, b: AssocList)
    requires Truthy(Lookup(a, "API_KEY")) == Truthy(Lookup(b, "API_KEY"))
    ensures View(Some(a)).key == View(Some(b)).key
    ensures View(Some(a)).key == (if Truthy(Lookup(a, "API_KEY")) then Mask else [])
  {
  }

  /** Absent settings give an empty URL and key, model DeepSeek-R1 and 32768 tokens. */
  lemma ConfigDefaults(parsed: Option<AssocList>)
    requires parsed.None? || parsed.value == []
    ensures View(parsed) == ConfigView([], [], "DeepSeek-R1", "32768")
  {
  }

  /** After `obj[key] = value` the key reads as the value, every other key reads as before, and no key is lost or reordered. */
  lemma {:induction false} PutLookup(entries: AssocList, key: string, value: string, other: string)
    ensures Lookup(Put(entries, key, value), key) == Some(value)
    ensures other != key ==> Lookup(Put(entries, key, value), other) == Lookup(entries, other)
    ensures key in Keys(entries) ==> Keys(Put(entries, key, value)) == Keys(entries)
    ensures key !in Keys(entries) ==> Keys(Put(entries, key, value)) == Keys(entries) + [key]
  {
    if entries != [] && entries[0].0 != key {
      PutLookup(entries[1..], key, value, other);
    }
  }

  /**
   * The merge: the mask never replaces the stored key, a given URL always replaces the
   * stored one (even when empty), and variables the request does not name keep their values.
   */
  lemma MergedSettings(entries: AssocList, url: Option<string>, key: Option<string>, model: Option<string>,
                       maxTokens: Option<string>, other: string)
    requires other !in {"API_URL", "API_KEY", "API_MODEL", "API_MAX_TOKENS"}
    ensures var m := Merged(entries, url, key, model, maxTokens);
      && (url.Some? ==> Lookup(m, "API_URL") == url)
      && (url.None? ==> Lookup(m, "API_URL") == Lookup(entries, "API_URL"))
      && (key.Some? && key.value != Mask ==> Lookup(m, "API_KEY") == key)
      && (key == Some(Mask) || key.None? ==> Lookup(m, "API_KEY") == Lookup(entries, "API_KEY"))
      && (Truthy(model) ==> Lookup(m, "API_MODEL") == model)
      && (!Truthy(model) ==> Lookup(m, "API_MODEL") == Lookup(entries, "API_MODEL"))
      && (Truthy(maxTokens) ==> Lookup(m, "API_MAX_TOKENS") == maxTokens)
      && (!Truthy(maxTokens) ==> Lookup(m, "API_MAX_TOKENS") == Lookup(entries, "API_MAX_TOKENS"))
      && Lookup(m, other) == Lookup(entries, other)
  {
    var e1 := if url.Some? then Put(entries, "API_URL", url.value) else entries;
    var e2 := if key.Some? && key.value != Mask then Put(e1, "API_KEY", key.value) else e1;
    var e3 := if Truthy(model) then Put(e2, "API_MODEL", model.value) else e2;
    if url.Some? { PutLookup(entries, "API_URL", url.value, other); PutLookup(entries, "API_URL", url.value, "API_KEY"); PutLookup(entries, "API_URL", url.value, "API_MODEL"); PutLookup(entries, "API_URL", url.value, "API_MAX_TOKENS"); }
    if key.Some? && key.value != Mask { PutLookup(e1, "API_KEY", key.value, other); PutLookup(e1, "API_KEY", key.value, "API_URL"); PutLookup(e1, "API_KEY", key.value, "API_MODEL"); PutLookup(e1, "API_KEY", key.value, "API_MAX_TOKENS"); }
    if Truthy(model) { PutLookup(e2, "API_MODEL", model.value, other); PutLookup(e2, "API_MODEL", model.value, "API_URL"); PutLookup(e2, "API_MODEL", model.value, "API_KEY"); PutLookup(e2, "API_MODEL", model.value, "API_MAX_TOKENS"); }
    if Truthy(maxTokens) { PutLookup(e3, "API_MAX_TOKENS", maxTokens.value, other); PutLookup(e3, "API_MAX_TOKENS", maxTokens.value, "API_URL"); PutLookup(e3, "API_MAX_TOKENS", maxTokens.value, "API_KEY"); PutLookup(e3, "API_MAX_TOKENS", maxTokens.value, "API_MODEL"); }
  }

  /**
   * Reading the `.env` file keeps every defined variable and defines each missing one
   * exactly when the file has it, with the file's value.
   */
  lemma {:induction false} PopulatedValues(vars: Env, entries: AssocList, k: string)
    ensures k in vars ==> k in Populated(vars, entries) && Populated(vars, entries)[k] == vars[k]
    ensures k !in vars ==> (k in Populated(vars, entries) <==> Lookup(entries, k).Some?)
    ensures k !in vars && Lookup(entries, k).Some? ==> Populated(vars, entries)[k] == Lookup(entries, k).value
    decreases |entries|
  {
    if entries != [] {
      var v := if entries[0].0 in vars then vars else vars[entries[0].0 := entries[0].1];
      PopulatedValues(v, entries[1..], k);
    }
  }

  /** A key is found exactly when some entry has it. */
  lemma {:induction false} LookupFound(entries: AssocList, k: string)
    ensures Lookup(entries, k).Some? <==> exists i :: 0 <= i < |entries| && entries[i].0 == k
  {
    if entries != [] && entries[0].0 != k {
      LookupFound(entries[1..], k);
      if i :| 0 <= i < |entries| && entries[i].0 == k {
        assert entries[1..][i - 1].0 == k;
      }
      if j :| 0 <= j < |entries[1..]| && entries[1..][j].0 == k {
        assert entries[j + 1].0 == k;
      }
    }
  }

  /** A key is in the map exactly when some entry has it. */
  lemma {:induction false} ToMapFound(entries: AssocList, k: string)
    ensures k in ToMap(entries) <==> exists i :: 0 <= i < |entries| && entries[i].0 == k
  {
    if entries != [] {
      var init := entries[..|entries| - 1];
      ToMapFound(init, k);
      if j :| 0 <= j < |init| && init[j].0 == k {
        assert entries[j].0 == k;
      }
      if i :| 0 <= i < |entries| - 1 && entries[i].0 == k {
        assert init[i].0 == k;
      }
    }
  }

  /** With unique keys, the map holds each entry's own value. */
  lemma {:induction false} ToMapLookup(entries: AssocList, k: string)
    requires UniqueKeys(entries) && Lookup(entries, k).Some?
    ensures k in ToMap(entries) && ToMap(entries)[k] == Lookup(entries, k).value
  {
    var n := |entries|;
    var init := entries[..n - 1];
    LookupFound(entries, k);
    var i :| 0 <= i < n && entries[i].0 == k;
    var w := Lookup(entries, k).value;
    assert entries[i] == (k, w) by {
      assert exists m :: 0 <= m < n && entries[m] == (k, w);
    }
    if i < n - 1 {
      assert init[i].0 == k;
      LookupFound(init, k);
      assert Lookup(init, k) == Some(w) by { LookupInit(entries, k); }
      ToMapLookup(init, k);
    }
  }

  /** Looking a key up in all but the last entry, when that key is not the last one's. */
  lemma {:induction false} LookupInit(entries: AssocList, k: string)
    requires entries != [] && entries[|entries| - 1].0 != k
    ensures Lookup(entries[..|entries| - 1], k) == Lookup(entries, k)
  {
    if |entries| > 1 && entries[0].0 != k {
      assert entries[1..][..|entries| - 2] == entries[..|entries| - 1][1..];
      LookupInit(entries[1..], k);
    }
  }

  /** An assignment loses no key. */
  lemma PutKeeps(entries: AssocList, key: string, value: string, k: string)
    requires Lookup(entries, k).Some?
    ensures Lookup(Put(entries, key, value), k).Some?
  {
    PutLookup(entries, key, value, k);
  }

  /** The merge keeps every key the file had. */
  lemma MergedKeeps(entries: AssocList, url: Option<string>, key: Option<string>, model: Option<string>,
                    maxTokens: Option<string>, k: string)
    requires Lookup(entries, k).Some?
    ensures Lookup(Merged(entries, url, key, model, maxTokens), k).Some?
  {
    var e1 := if url.Some? then Put(entries, "API_URL", url.value) else entries;
    var e2 := if key.Some? && key.value != Mask then Put(e1, "API_KEY", key.value) else e1;
    var e3 := if Truthy(model) then Put(e2, "API_MODEL", model.value) else e2;
    if url.Some? { PutKeeps(entries, "API_URL", url.value, k); }
    if key.Some? && key.value != Mask { PutKeeps(e1, "API_KEY", key.value, k); }
    if Truthy(model) { PutKeeps(e2, "API_MODEL", model.value, k); }
    if Truthy(maxTokens) { PutKeeps(e3, "API_MAX_TOKENS", maxTokens.value, k); }
  }

  /**
   * In `updateApiConfig` the variables `dotenv.config` adds are all assigned again by the
   * `forEach`, so the environment ends as the merged settings over the old environment.
   */
  lemma PopulateSuperseded(vars: Env, entries: AssocList, url: Option<string>, key: Option<string>,
                           model: Option<string>, maxTokens: Option<string>)
    ensures var merged := Merged(entries, url, key, model, maxTokens);
      Populated(vars, entries) + ToMap(merged) == vars + ToMap(merged)
  {
    var merged := Merged(entries, url, key, model, maxTokens);
    var a := Populated(vars, entries) + ToMap(merged);
    var b := vars + ToMap(merged);
    forall k ensures (k in a <==> k in b) && (k in a ==> a[k] == b[k]) {
      PopulatedValues(vars, entries, k);
      if k !in ToMap(merged) && Lookup(entries, k).Some? {
        MergedKeeps(entries, url, key, model, maxTokens, k);
        LookupFound(merged, k);
        ToMapFound(merged, k);
      }
    }
    assert a == b;
  }

  /** `obj[key] = value` renames no key, and adds `key` last only when no entry had it. */
  lemma {:induction false} PutShape(entries: AssocList, key: string, value: string)
    ensures forall j :: 0 <= j < |entries| ==> Put(entries, key, value)[j].0 == entries[j].0
    ensures |Put(entries, key, value)| == |entries| + 1 ==>
      Put(entries, key, value)[|entries|] == (key, value) && forall m :: 0 <= m < |entries| ==> entries[m].0 != key
  {
    if entries != [] && entries[0].0 != key {
      PutShape(entries[1..], key, value);
    }
  }

  /** An assignment keeps the keys unique. */
  lemma PutUnique(entries: AssocList, key: string, value: string)
    requires UniqueKeys(entries)
    ensures UniqueKeys(Put(entries, key, value))
  {
    PutShape(entries, key, value);
  }

  /** The merge of a file's settings never repeats a key. */
  lemma MergedUnique(entries: AssocList, url: Option<string>, key: Option<string>, model: Option<string>,
                     maxTokens: Option<string>)
    requires UniqueKeys(entries)
    ensures UniqueKeys(Merged(entries, url, key, model, maxTokens))
  {
    var e1 := if url.Some? then Put(entries, "API_URL", url.value) else entries;
    var e2 := if key.Some? && key.value != Mask then Put(e1, "API_KEY", key.value) else e1;
    var e3 := if Truthy(model) then Put(e2, "API_MODEL", model.value) else e2;
    PutUnique(entries, "API_URL", if url.Some? then url.value else []);
    PutUnique(e1, "API_KEY", if key.Some? then key.value else []);
    PutUnique(e2, "API_MODEL", if model.Some? then model.value else []);
    PutUnique(e3, "API_MAX_TOKENS", if maxTokens.Some? then maxTokens.value else []);
  }
}
