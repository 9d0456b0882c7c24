/**
 * Plugin loading (`scn/nwgn.py`): every configured plugin names the plugins
 * it wants; the loader builds a launch order by moving each wanted plugin
 * to the front, appends the plugin itself if it is not there yet, and
 * launches the order from the front. A wanted plugin that is not
 * configured stops the controller with exit status 2.
 */
module PluginLoader {
  /** The outcome of `load_plugins`: no parser, `sys.exit(2)`, or the plugins launched in order. */
  datatype Outcome = NoParser | Exit(code: int) | Launched(order: seq<string>)

  const UnmetDependencyExit := 2

  predicate NoDup(s: seq<string>)
  {
    forall i, j :: 0 <= i < j < |s| ==> s[i] != s[j]
  }

  /** A plugin module's `wantComponents`, empty when it has none. */
  function Wants(wants: map<string, seq<string>>, p: string): seq<string>
  {
    if p in wants then wants[p] else []
  }

  /** `list.remove(x)` when `x` is present: the first occurrence goes. */
  function Remove(s: seq<string>, x: string): (r: seq<string>)
    ensures forall y :: y in r ==> y in s
    ensures forall y :: y in s && y != x ==> y in r
    ensures NoDup(s) ==> NoDup(r) && x !in r
    ensures x in s ==> |r| == |s| - 1
  {
    if s == [] then []
    else if s[0] == x then
      assert NoDup(s) ==> x !in s[1..];
      s[1..]
    else
      var rest := Remove(s[1..], x);
      assert NoDup(s) ==> NoDup(s[1..]) && s[0] !in s[1..];
      assert forall y :: y in [s[0]] + rest <==> y == s[0] || y in rest;
      [s[0]] + rest
  }

  /** One wanted plugin moves to the front of the order. */
  function Prepend(priority: seq<string>, dep: string): (r: seq<string>)
    ensures |r| > 0 && r[0] == dep
    ensures forall y :: y in r <==> y in priority || y == dep
    ensures NoDup(priority) ==> NoDup(r)
  {
    [dep] + (if dep in priority then Remove(priority, dep) else priority)
  }

  /** The order after moving each of `deps` to the front, in turn; the last one ends up first. */
  function PlaceDeps(priority: seq<string>, deps: seq<string>): (r: seq<string>)
    ensures deps != [] ==> |r| > 0 && r[0] == deps[|deps| - 1]
  {
    if deps == [] then priority else Prepend(PlaceDeps(priority, deps[..|deps| - 1]), deps[|deps| - 1])
  }

  /** Moving plugins to the front keeps every plugin once and adds the moved ones. */
  lemma {:induction false} PlaceDepsMembers(priority: seq<string>, deps: seq<string>)
    requires NoDup(priority)
    ensures NoDup(PlaceDeps(priority, deps))
    ensures forall y :: y in PlaceDeps(priority, deps) <==> y in priority || y in deps
  {
    if deps != [] {
      PlaceDepsMembers(priority, deps[..|deps| - 1]);
      assert forall y :: y in deps <==> y in deps[..|deps| - 1] || y == deps[|deps| - 1] by {
        assert deps == deps[..|deps| - 1] + [deps[|deps| - 1]];
      }
    }
  }

  /** The order after handling plugin `p`: its wanted plugins moved to the front, then `p` appended if absent. */
  function Step(priority: seq<string>, p: string, wants: map<string, seq<string>>): seq<string>
  {
    var placed := PlaceDeps(priority, Wants(wants, p));
    if p in placed then placed else placed + [p]
  }

  /** Some plugin of `ps` wants a plugin that is not configured. */
  predicate Unmet(ps: seq<string>, plugins: seq<string>, wants: map<string, seq<string>>)
  {
    exists i, d :: 0 <= i < |ps| && d in Wants(wants, ps[i]) && d !in plugins
  }

  /** The outcome of handling the configured `plugins` in turn. */
  function LoadOrder(ps: seq<string>, plugins: seq<string>, wants: map<string, seq<string>>): Outcome
  {
    if ps == [] then Launched([])
    else
      var before := LoadOrder(ps[..|ps| - 1], plugins, wants);
      var p := ps[|ps| - 1];
      if before.Exit? then before
      else if exists d :: d in Wants(wants, p) && d !in plugins then Exit(UnmetDependencyExit)
      else Launched(Step(before.order, p, wants))
  }

  /**
   * The controller exits with status 2 exactly when some plugin wants an
   * unconfigured one; otherwise every configured plugin is launched once.
   */
  lemma LoadOrderSound(ps: seq<string>, plugins: seq<string>, wants: map<string, seq<string>>)
    ensures LoadOrder(ps, plugins, wants).Exit? <==> Unmet(ps, plugins, wants)
    ensures LoadOrder(ps, plugins, wants).Exit? ==> LoadOrder(ps, plugins, wants).code == UnmetDependencyExit
    ensures LoadOrder(ps, plugins, wants).Launched? ==>
      var order := LoadOrder(ps, plugins, wants).order;
      NoDup(order) && forall y :: y in order ==> y in ps || y in plugins
    ensures LoadOrder(ps, plugins, wants).Launched? ==> forall y :: y in ps ==> y in LoadOrder(ps, plugins, wants).order
  {
    LoadOrderExits(ps, plugins, wants);
    LoadOrderLaunches(ps, plugins, wants);
  }

  /** The exit half of `LoadOrderSound`. */
  lemma {:induction false} LoadOrderExits(ps: seq<string>, plugins: seq<string>, wants: map<string, seq<string>>)
    ensures LoadOrder(ps, plugins, wants).Exit? <==> Unmet(ps, plugins, wants)
    ensures LoadOrder(ps, plugins, wants).Exit? ==> LoadOrder(ps, plugins, wants).code == UnmetDependencyExit
  {
    if ps != [] {
      var init, p := ps[..|ps| - 1], ps[|ps| - 1];
      LoadOrderExits(init, plugins, wants);
      if LoadOrder(init, plugins, wants).Exit? {
        var i, d :| 0 <= i < |init| && d in Wants(wants, init[i]) && d !in plugins;
        assert ps[i] == init[i];
      } else if exists d :: d in Wants(wants, p) && d !in plugins {
        var d :| d in Wants(wants, p) && d !in plugins;
        assert d in Wants(wants, ps[|ps| - 1]);
      } else {
        forall i, d | 0 <= i < |ps| && d in Wants(wants, ps[i])
          ensures d in plugins
        {
          if i < |init| {
            assert init[i] == ps[i];
          }
        }
      }
    }
  }

  /** The launch half of `LoadOrderSound`. */
  lemma {:induction false} LoadOrderLaunches(ps: seq<string>, plugins: seq<string>, wants: map<string, seq<string>>)
    ensures LoadOrder(ps, plugins, wants).Launched? ==>
      var order := LoadOrder(ps, plugins, wants).order;
      NoDup(order) && forall y :: y in order ==> y in ps || y in plugins
    ensures LoadOrder(ps, plugins, wants).Launched? ==> forall y :: y in ps ==> y in LoadOrder(ps, plugins, wants).order
  {
    if ps != [] {
      var init, p := ps[..|ps| - 1], ps[|ps| - 1];
      var before := LoadOrder(init, plugins, wants);
      if before.Launched? && !exists d :: d in Wants(wants, p) && d !in plugins {
        LoadOrderLaunches(init, plugins, wants);
        assert forall y :: y in ps <==> y in init || y == p by {
          assert ps == init + [p];
        }
        PlaceDepsMembers(before.order, Wants(wants, p));
        var placed := PlaceDeps(before.order, Wants(wants, p));
        assert LoadOrder(ps, plugins, wants) == Launched(if p in placed then placed else placed + [p]);
      }
    }
  }

  /** With every wanted plugin configured and distinct names, the order is the configured plugins, each once. */
  lemma LoadOrderIsPermutation(plugins: seq<string>, wants: map<string, seq<string>>)
    requires !Unmet(plugins, plugins, wants)
    ensures LoadOrder(plugins, plugins, wants).Launched?
    ensures NoDup(LoadOrder(plugins, plugins, wants).order)
    ensures forall y :: y in LoadOrder(plugins, plugins, wants).order <==> y in plugins
  {
    LoadOrderSound(plugins, plugins, wants);
  }

  /**
   * The order is not a dependency order: with `b`, `a`, `c` configured in
   * that order, `a` wanting `b` and `b` wanting `c`, `b` is launched
   * before `c`, which it wants.
   */
  lemma LoadOrderNotTopological()
    ensures LoadOrder(["b", "a", "c"], ["b", "a", "c"], map["a" := ["b"], "b" := ["c"]]) == Launched(["b", "c", "a"])
  {
    var plugins := ["b", "a", "c"];
    var wants := map["a" := ["b"], "b" := ["c"]];
    assert plugins[..1] == ["b"] && plugins[..2] == ["b", "a"] && plugins[..0] == [];
    assert Wants(wants, "b") == ["c"] && Wants(wants, "a") == ["b"] && Wants(wants, "c") == [];
    assert ["c"][..0] == [] && ["b"][..0] == [];
    assert PlaceDeps([], ["c"]) == ["c"];
    assert LoadOrder(["b"], plugins, wants) == Launched(["c", "b"]);
    assert Remove(["c", "b"], "b") == ["c"];
    assert PlaceDeps(["c", "b"], ["b"]) == ["b", "c"];
    assert LoadOrder(["b", "a"], plugins, wants) == Launched(["b", "c", "a"]);
  }

  /**
   * The body of the loop over plugins: move each wanted plugin to the front
   * and append `p` if absent, or fail at the first wanted plugin that is not
   * configured.
   */
  method PlacePlugin(priority: seq<string>, p: string, plugins: seq<string>, wants: map<string, seq<string>>) returns (ok: bool, r: seq<string>)
    ensures ok <==> forall d :: d in Wants(wants, p) ==> d in plugins
    ensures ok ==> r == Step(priority, p, wants)
  {
    var deps := Wants(wants, p);
    r := priority;
    for j := 0 to |deps|
      invariant r == PlaceDeps(priority, deps[..j])
      invariant forall k :: 0 <= k < j ==> deps[k] in plugins
    {
      var dep := deps[j];
      if dep !in plugins {
        return false, r;
      }
      if dep in r {
        r := Remove(r, dep);
      }
      r := [dep] + r;
      assert deps[..j + 1][..j] == deps[..j];
    }
    assert deps[..|deps|] == deps;
    if p !in r {
      r := r + [p];
    }
    return true, r;
  }

  /** `NwGN`: the plugins launched so far. */
  class NwGN {
    ghost var launched: seq<string>

    constructor()
      ensures launched == []
    {
      launched := [];
    }

    /**
     * `load_plugins`: without a parser nothing happens; otherwise the order
     * is built plugin by plugin, and, unless a wanted plugin is missing, each
     * plugin of the order is launched in turn.
     */
    method LoadPlugins(hasParser: bool, plugins: seq<string>, wants: map<string, seq<string>>) returns (r: Outcome)
      modifies this
      ensures !hasParser ==> r == NoParser
      ensures hasParser ==> r == LoadOrder(plugins, plugins, wants)
      ensures launched == old(launched) + (if r.Launched? then r.order else [])
    {
      if !hasParser {
        return NoParser;
      }
      var priority: seq<string> := [];
      for i := 0 to |plugins|
        invariant LoadOrder(plugins[..i], plugins, wants) == Launched(priority)
        invariant launched == old(launched)
      {
        assert plugins[..i + 1][..i] == plugins[..i];
        var ok;
        ok, priority := PlacePlugin(priority, plugins[i], plugins, wants);
        if !ok {
          ghost var d :| d in Wants(wants, plugins[i]) && d !in plugins;
          assert Unmet(plugins, plugins, wants);
          LoadOrderSound(plugins, plugins, wants);
          return Exit(UnmetDependencyExit);
        }
      }
      assert plugins[..|plugins|] == plugins;
      for i := 0 to |priority|
        invariant launched == old(launched) + priority[..i]
      {
        launched := launched + [priority[i]];
        assert priority[..i + 1] == priority[..i] + [priority[i]];
      }
      assert priority[..|priority|] == priority;
      return Launched(priority);
    }
  }
}
