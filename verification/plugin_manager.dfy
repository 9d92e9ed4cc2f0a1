/** The plugin registry of resa_pro/plugins/manager.py: an insertion-ordered
    dictionary from plugin name to its metadata, with registration, removal,
    enabling and disabling, listing, and running of plugins. A plugin is
    given by the instance its class constructs; its `calculate` is a function
    from the engine state to a returned dict or a raised error. */
module PluginRegistry {
  import opened Common
  import opened FluidStates

  type Dict = map<string, Field>

  /** What one call of a plugin's `calculate` does: return a dict or raise
      an exception with a message. */
  datatype Calculation = Returned(result: Dict) | Raised(message: string)

  datatype PluginInstance = PluginInstance(name: string, version: string, description: string, author: string,
                                           calculate: Dict -> Calculation)

  /** The argument of `register`: a Plugin subclass, given by the instance
      its constructor builds, or anything else. */
  datatype Registrant = PluginClass(instance: PluginInstance) | NotAPluginClass

  datatype PluginInfo = PluginInfo(name: string, version: string, description: string, author: string,
                                   modulePath: string, enabled: bool, instance: Option<PluginInstance>)

  /** The entry `register` stores: the instance's metadata, enabled. */
  function InfoFor(inst: PluginInstance): PluginInfo
  {
    PluginInfo(inst.name, inst.version, inst.description, inst.author, "", true, Some(inst))
  }

  /** A plugin `run` and `run_all` will execute. */
  predicate Runnable(info: PluginInfo)
  {
    info.enabled && info.instance.Some?
  }

  /** What `run_all` records for a plugin: its result, or the message of
      the exception it raised under "error". */
  function Recorded(c: Calculation): (d: Dict)
    ensures c.Raised? ==> d.Keys == {"error"} && d["error"] == Text(c.message)
    ensures c.Returned? ==> d == c.result
  {
    match c
    case Returned(r) => r
    case Raised(m) => map["error" := Text(m)]
  }

  /** One summary row: the entry's name, version, description, author and
      enabled flag. */
  function SummaryRow(info: PluginInfo): (row: Dict)
    ensures row.Keys == {"name", "version", "description", "author", "enabled"}
    ensures row["name"] == Text(info.name) && row["enabled"] == Flag(info.enabled)
  {
    map["name" := Text(info.name), "version" := Text(info.version), "description" := Text(info.description),
        "author" := Text(info.author), "enabled" := Flag(info.enabled)]
  }

  predicate NoDuplicates(s: seq<string>)
  {
    forall i, j :: 0 <= i < j < |s| ==> s[i] != s[j]
  }

  /** The order with x deleted; the others keep their relative order, as
      in a Python dict after `del`. */
  function Without(s: seq<string>, x: string): (r: seq<string>)
    ensures forall y :: y in r <==> y in s && y != x
    ensures NoDuplicates(s) ==> NoDuplicates(r)
    ensures x !in s ==> r == s
  {
    if |s| == 0 then []
    else if s[0] == x then Without(s[1..], x)
    else
      var rest := Without(s[1..], x);
      assert NoDuplicates(s) ==> s[0] !in s[1..];
      [s[0]] + rest
  }

  /** Deleting what was just appended restores the order. */
  lemma {:induction false} WithoutAppended(s: seq<string>, x: string)
    requires x !in s
    ensures Without(s + [x], x) == s
  {
    if |s| > 0 {
      assert (s + [x])[1..] == s[1..] + [x];
      WithoutAppended(s[1..], x);
    }
  }

  /** A sequence without duplicates has as many elements as its set. */
  lemma {:induction false} DistinctCardinality(s: seq<string>)
    requires NoDuplicates(s)
    ensures |set y | y in s| == |s|
  {
    if |s| > 0 {
      DistinctCardinality(s[1..]);
      assert (set y | y in s) == (set y | y in s[1..]) + {s[0]};
      assert s[0] !in (set y | y in s[1..]);
    }
  }

  class PluginManager {
    /** The dict's key order (registration order). */
    var order: seq<string>
    var registry: map<string, PluginInfo>

    /** The order lists each registered name once, and each entry is
        filed under its own name. */
    ghost predicate Valid()
      reads this
    {
      NoDuplicates(order) &&
      (forall n :: n in registry <==> n in order) &&
      (forall n :: n in registry ==> registry[n].name == n)
    }

    constructor ()
      ensures Valid() && order == [] && registry == map[]
    {
      order := [];
      registry := map[];
    }

    /** `register`: a non-Plugin argument raises TypeError and a taken name
        ValueError, both before anything changes; otherwise one enabled
        entry is added at the end under the instance's name. */
    method Register(r: Registrant) returns (err: Option<PyError>)
      requires Valid()
      modifies this
      ensures Valid()
      ensures r.NotAPluginClass? ==> err == Some(TypeError) && unchanged(this)
      ensures r.PluginClass? && r.instance.name in old(registry) ==> err == Some(ValueError) && unchanged(this)
      ensures r.PluginClass? && r.instance.name !in old(registry) ==>
                err.None? && order == old(order) + [r.instance.name] &&
                registry == old(registry)[r.instance.name := InfoFor(r.instance)]
    {
      if r.NotAPluginClass? {
        return Some(TypeError);
      }
      var instance := r.instance;
      var name := instance.name;
      if name in registry {
        return Some(ValueError);
      }
      registry := registry[name := InfoFor(instance)];
      order := order + [name];
      err := None;
    }

    /** `unregister`: an unknown name raises KeyError; otherwise exactly
        that entry goes, and the others keep their order. */
    method Unregister(name: string) returns (err: Option<PyError>)
      requires Valid()
      modifies this
      ensures Valid()
      ensures name !in old(registry) ==> err == Some(KeyError) && unchanged(this)
      ensures name in old(registry) ==>
                err.None? && registry == old(registry) - {name} && order == Without(old(order), name)
    {
      if name !in registry {
        return Some(KeyError);
      }
      registry := registry - {name};
      order := Without(order, name);
      err := None;
    }

    /** `_get_info`: the entry under that name, or KeyError. */
    function GetInfo(name: string): (r: Outcome<PluginInfo>)
      reads this
      ensures r.Fail? <==> name !in registry
      ensures r.Fail? ==> r.error == KeyError
      ensures r.Ok? ==> r.value == registry[name]
      ensures r.Ok? && Valid() ==> r.value.name == name
    {
      if name !in registry then Fail(KeyError) else Ok(registry[name])
    }

    /** `enable`: only that entry's flag is set; unknown names raise
        KeyError. */
    method Enable(name: string) returns (err: Option<PyError>)
      requires Valid()
      modifies this
      ensures Valid()
      ensures name !in old(registry) ==> err == Some(KeyError) && unchanged(this)
      ensures name in old(registry) ==>
                err.None? && order == old(order) &&
                registry == old(registry)[name := old(registry)[name].(enabled := true)]
    {
      var info := GetInfo(name);
      if info.Fail? {
        return Some(info.error);
      }
      registry := registry[name := info.value.(enabled := true)];
      err := None;
    }

    /** `disable`: only that entry's flag is cleared, and it stays
        registered; unknown names raise KeyError. */
    method Disable(name: string) returns (err: Option<PyError>)
      requires Valid()
      modifies this
      ensures Valid()
      ensures name !in old(registry) ==> err == Some(KeyError) && unchanged(this)
      ensures name in old(registry) ==>
                err.None? && order == old(order) &&
                registry == old(registry)[name := old(registry)[name].(enabled := false)]
    {
      var info := GetInfo(name);
      if info.Fail? {
        return Some(info.error);
      }
      registry := registry[name := info.value.(enabled := false)];
      err := None;
    }

    /** `list_plugins`: every registered name once, in registration order. */
    function ListPlugins(): (names: seq<string>)
      reads this
      requires Valid()
      ensures names == order
      ensures NoDuplicates(names) && |names| == |registry.Keys|
      ensures forall n :: n in names <==> n in registry
    {
      DistinctCardinality(order);
      assert registry.Keys == set y | y in order;
      order
    }

    /** `run`: KeyError for an unknown name, RuntimeError for a disabled or
        instance-less entry, otherwise whatever the plugin's `calculate`
        does on the state. */
    function Run(name: string, state: Dict): (r: Outcome<Calculation>)
      reads this
      ensures r.Fail? <==> name !in registry || !Runnable(registry[name])
      ensures r.Fail? ==> (r.error == KeyError <==> name !in registry)
      ensures r.Fail? ==> r.error == KeyError || r.error == RuntimeError
      ensures r.Ok? ==> r.value == registry[name].instance.value.calculate(state)
    {
      var info := GetInfo(name);
      if info.Fail? then Fail(info.error)
      else if !info.value.enabled then Fail(RuntimeError)
      else if info.value.instance.None? then Fail(RuntimeError)
      else Ok(info.value.instance.value.calculate(state))
    }

    /** `run_all`: a result for exactly the runnable plugins, each what
        `run` would give for it, with a raised error recorded under
        "error" instead of propagating. */
    method RunAll(state: Dict) returns (results: map<string, Dict>)
      requires Valid()
      ensures forall n :: n in results <==> n in registry && Runnable(registry[n])
      ensures forall n :: n in results ==> Run(n, state).Ok? && results[n] == Recorded(Run(n, state).value)
      ensures forall n :: n in registry && n !in results ==> Run(n, state) == Fail(RuntimeError)
    {
      results := map[];
      for i := 0 to |order|
        invariant forall n :: n in results <==> n in order[..i] && n in registry && Runnable(registry[n])
        invariant forall n :: n in results ==>
                    (n in registry && Runnable(registry[n]) &&
                     results[n] == Recorded(registry[n].instance.value.calculate(state)))
      {
        var name := order[i];
        var info := registry[name];
        if info.enabled && info.instance.Some? {
          results := results[name := Recorded(info.instance.value.calculate(state))];
        }
        assert order[..i + 1] == order[..i] + [name];
      }
      assert order[..|order|] == order;
    }

    /** `summary`: one row per registered plugin, in registration order. */
    function Summary(): (rows: seq<Dict>)
      reads this
      requires Valid()
      ensures |rows| == |order| == |registry.Keys|
      ensures forall i :: 0 <= i < |rows| ==>
                order[i] in registry && rows[i] == SummaryRow(registry[order[i]]) &&
                "name" in rows[i] && rows[i]["name"] == Text(ListPlugins()[i])
    {
      DistinctCardinality(order);
      assert registry.Keys == set y | y in order;
      var names := order;
      var reg := registry;
      seq(|names|, i requires 0 <= i < |names| && names[i] in reg => SummaryRow(reg[names[i]]))
    }
  }

  /** Registering a new plugin and unregistering it again leaves the
      registry as it was. */
  method RegisterUnregisterRestores(m: PluginManager, inst: PluginInstance)
    requires m.Valid() && inst.name !in m.registry
    modifies m
    ensures m.Valid() && m.order == old(m.order) && m.registry == old(m.registry)
  {
    var e1 := m.Register(PluginClass(inst));
    WithoutAppended(old(m.order), inst.name);
    var e2 := m.Unregister(inst.name);
    assert old(m.registry)[inst.name := InfoFor(inst)] - {inst.name} == old(m.registry);
  }
}
