/** The states of the plugin manager as values: what every reachable state satisfies, what a cascading
    disable does to it, and why every step keeps it. */
module PluginModel {
  import opened Wrappers
  import opened Graphs
  import opened PluginVersions

  datatype PluginState = Installed | Enabled | Disabled | Updating | Failed | Deprecated | Uninstalled

  datatype Dependency = Dependency(pluginId: string, range: Range)

  datatype Manifest = Manifest(
    pluginId: string, version: Semver, apiRange: Range, providedTools: seq<string>,
    requiredPermissions: seq<string>, optionalPermissions: seq<string>, dependencies: seq<Dependency>)

  datatype Plugin = Plugin(manifest: Manifest, state: PluginState, granted: set<string>, process: bool)

  type Plugins = map<string, Plugin>

  function Declared(m: Manifest): set<string> {
    (set p | p in m.requiredPermissions) + (set p | p in m.optionalPermissions)
  }

  predicate Active(p: Plugin) {
    p.state == Enabled || p.state == Deprecated
  }

  /** From every active plugin to the plugins it depends on. */
  ghost function Links(plugins: Plugins): set<(string, string)> {
    set p, d | p in plugins && Active(plugins[p]) && d in plugins[p].manifest.dependencies :: (p, d.pluginId)
  }

  /** The active plugins that depend on a plugin, directly or through others. */
  ghost function Dependents(plugins: Plugins, id: string): set<string> {
    set q | q in plugins && ReachesPlus(Links(plugins), q, id)
  }

  predicate Provides(plugins: Plugins, d: Dependency) {
    && d.pluginId in plugins && plugins[d.pluginId].state == Enabled
    && SatisfiesRange(plugins[d.pluginId].manifest.version, d.range)
  }

  predicate DependenciesOk(plugins: Plugins, m: Manifest) {
    forall i :: 0 <= i < |m.dependencies| ==> Provides(plugins, m.dependencies[i])
  }

  /** What holds in every reachable state. */
  ghost predicate Healthy(plugins: Plugins) {
    && Tidy(plugins)
    && (forall p :: p in plugins && plugins[p].state == Enabled ==> DependenciesOk(plugins, plugins[p].manifest))
    && Acyclic(Links(plugins))
  }

  ghost predicate Tidy(plugins: Plugins) {
    forall p :: p in plugins ==>
      && plugins[p].manifest.pluginId == p
      && plugins[p].state in {Installed, Enabled, Disabled, Failed}
      && plugins[p].granted <= Declared(plugins[p].manifest)
  }

  /** A set that contains, with a plugin, every active plugin depending on it. */
  ghost predicate UpClosed(plugins: Plugins, S: set<string>) {
    forall e :: e in Links(plugins) && e.1 in S ==> e.0 in S
  }

  function DisabledForm(p: Plugin): Plugin {
    Plugin(p.manifest, Disabled, {}, false)
  }

  /** The plugins after those in X were disabled and the one in f failed to stop. */
  function Deactivated(plugins: Plugins, X: set<string>, f: Option<string>): Plugins {
    map id | id in plugins ::
      if id in X then DisabledForm(plugins[id])
      else if f == Some(id) then plugins[id].(state := Failed)
      else plugins[id]
  }

  /** A cascade that stopped early: only dependents of p (or p itself) changed, each only after everything
      depending on it was disabled, and the failing plugin was one that throws. */
  ghost predicate BrokenCascade(before: Plugins, after: Plugins, p: string, throwing: set<string>, X: set<string>,
                                f: string) {
    && X + {f} <= Dependents(before, p) + {p}
    && f in throwing && f !in X && X !! throwing
    && UpClosed(before, X) && UpClosed(before, X + {f})
    && after == Deactivated(before, X, Some(f))
  }

  /** What a confirmed cascade from p does. */
  ghost predicate Cascade(before: Plugins, after: Plugins, p: string, throwing: set<string>, ok: bool) {
    && (ok <==> throwing !! Dependents(before, p) + {p})
    && (ok ==> after == Deactivated(before, Dependents(before, p) + {p}, None))
    && (!ok ==> exists X, f :: BrokenCascade(before, after, p, throwing, X, f))
  }

  /** In terms of the records: `id` was disabled, and with it exactly the enabled plugins that list something
      disabled; being disabled takes the grants and the process. */
  ghost predicate DisabledWithDependents(before: Plugins, after: Plugins, id: string)
    requires id in before
  {
    && after.Keys == before.Keys
    && (forall q :: q in before ==>
          after[q] == before[q] || after[q] == Plugin(before[q].manifest, PluginState.Disabled, {}, false))
    && after[id].state == Disabled
    && (forall q :: q in before && q != id ==>
          (after[q] != before[q] <==> before[q].state == Enabled && ListsDisabled(before, after, q, id)))
  }

  ghost predicate ListsDisabled(before: Plugins, after: Plugins, q: string, id: string)
    requires q in before && after.Keys == before.Keys
  {
    exists i :: 0 <= i < |before[q].manifest.dependencies|
                && var d := before[q].manifest.dependencies[i].pluginId;
                   d == id || (d in before && after[d] != before[d])
  }

  /** In terms of the records: some plugin failed to stop; besides it only plugins that depend on `id`, or `id`
      itself, have been disabled, each after everything enabled that lists it. */
  ghost predicate BrokenOff(before: Plugins, after: Plugins, id: string, throwing: set<string>) {
    && after.Keys == before.Keys
    && (exists f :: FailedAt(before, after, id, throwing, f))
    && (forall q :: q in before && before[q].state == Enabled && ListsChanged(before, after, q) ==>
          after[q].state == Disabled)
  }

  ghost predicate ListsChanged(before: Plugins, after: Plugins, q: string)
    requires q in before && after.Keys == before.Keys
  {
    exists i :: 0 <= i < |before[q].manifest.dependencies|
                && var d := before[q].manifest.dependencies[i].pluginId; d in before && after[d] != before[d]
  }

  ghost predicate FailedAt(before: Plugins, after: Plugins, id: string, throwing: set<string>, f: string) {
    && f in throwing && f in before && f in after && after[f] == before[f].(state := Failed)
    && (f == id || ReachesPlus(Links(before), f, id))
    && forall q :: q in before && q != f ==>
         (q in after && after[q] == before[q]) || StoppedFor(before, after, id, throwing, q)
  }

  ghost predicate StoppedFor(before: Plugins, after: Plugins, id: string, throwing: set<string>, q: string) {
    && q in before && q in after && q !in throwing && (q == id || ReachesPlus(Links(before), q, id))
    && after[q] == Plugin(before[q].manifest, PluginState.Disabled, {}, false)
  }

  /** Plugin q lists `id` or a dependent of it. */
  ghost predicate ListsDependent(plugins: Plugins, q: string, id: string)
    requires q in plugins
  {
    exists i :: 0 <= i < |plugins[q].manifest.dependencies|
                && var d := plugins[q].manifest.dependencies[i].pluginId;
                   d == id || d in Dependents(plugins, id)
  }

  lemma DependentIff(plugins: Plugins, id: string, q: string)
    requires Healthy(plugins) && q in plugins
    ensures q in Dependents(plugins, id) <==> plugins[q].state == Enabled && ListsDependent(plugins, q, id)
  {
    var links := Links(plugins);
    assert Active(plugins[q]) <==> plugins[q].state == Enabled;
    hide Healthy, Acyclic, Links, ReachesPlus, Reaches;
    if q in Dependents(plugins, id) {
      var b := FirstStep(links, q, id);
      var i := LinkSource(plugins, (q, b));
      if b != id {
        PlusIsReaches(links, b, id);
        var c := FirstStep(links, b, id);
        var _ := LinkSource(plugins, (b, c));
      }
      assert plugins[q].manifest.dependencies[i].pluginId == b;
    } else if Active(plugins[q]) && ListsDependent(plugins, q, id) {
      var i :| 0 <= i < |plugins[q].manifest.dependencies|
        && var d := plugins[q].manifest.dependencies[i].pluginId; d == id || d in Dependents(plugins, id);
      var d := plugins[q].manifest.dependencies[i].pluginId;
      LinkOf(plugins, q, i);
      EdgeReaches(links, q, d);
      if d != id {
        PlusIsReaches(links, d, id);
        ReachesPlusTrans(links, q, d, id);
      }
    }
  }

  lemma CascadeDisables(before: Plugins, after: Plugins, id: string, throwing: set<string>)
    requires Healthy(before) && id in before && before[id].state != Disabled
    requires Cascade(before, after, id, throwing, true)
    ensures DisabledWithDependents(before, after, id)
  {
    var X := Dependents(before, id) + {id};
    assert Acyclic(Links(before));
    assert id !in Dependents(before, id);
    forall q | q in before && q != id
      ensures after[q] != before[q] <==> q in Dependents(before, id)
      ensures after[q] != before[q] <==> before[q].state == Enabled && ListsDisabled(before, after, q, id)
    {
      DependentIff(before, id, q);
    }
  }

  lemma CascadeBreaks(before: Plugins, after: Plugins, id: string, throwing: set<string>)
    requires Healthy(before) && id in before && before[id].state != Failed
    requires Cascade(before, after, id, throwing, false)
    ensures BrokenOff(before, after, id, throwing)
  {
    var X, f :| BrokenCascade(before, after, id, throwing, X, f);
    BrokenFailsAt(before, after, id, throwing, X, f);
    assert Acyclic(Links(before));
    hide Healthy, Acyclic, ReachesPlus, Links, UpClosed, FailedAt, Deactivated, Dependents, ListsChanged;
    forall q | q in before && before[q].state == Enabled && ListsChanged(before, after, q)
      ensures after[q].state == Disabled
    {
      ListersAreStopped(before, after, X, f, q);
    }
  }

  lemma BrokenFailsAt(before: Plugins, after: Plugins, id: string, throwing: set<string>, X: set<string>, f: string)
    requires Healthy(before) && id in before && BrokenCascade(before, after, id, throwing, X, f)
    ensures FailedAt(before, after, id, throwing, f) && after.Keys == before.Keys
  {
    hide Healthy, ReachesPlus, Links, UpClosed;
  }

  lemma ListersAreStopped(before: Plugins, after: Plugins, X: set<string>, f: string, q: string)
    requires Acyclic(Links(before)) && UpClosed(before, X) && UpClosed(before, X + {f})
    requires after == Deactivated(before, X, Some(f)) && after.Keys == before.Keys
    requires q in before && before[q].state == Enabled && ListsChanged(before, after, q)
    ensures after[q].state == Disabled
  {
    var i :| 0 <= i < |before[q].manifest.dependencies|
      && var d := before[q].manifest.dependencies[i].pluginId; d in before && after[d] != before[d];
    var d := before[q].manifest.dependencies[i].pluginId;
    LinkOf(before, q, i);
    EdgeReaches(Links(before), q, d);
    NoSelfLoop(before, q);
    hide Acyclic, Links, ReachesPlus;
    assert (q, d).1 in X ==> q in X;
    assert (q, d).1 in X + {f} ==> q in X + {f};
  }

  lemma NoSelfLoop(plugins: Plugins, q: string)
    requires Acyclic(Links(plugins))
    ensures !ReachesPlus(Links(plugins), q, q)
  {
  }

  /** What a cascade promises, in terms of the records. */
  lemma CascadeIs(before: Plugins, after: Plugins, id: string, throwing: set<string>, ok: bool)
    requires Healthy(before) && id in before && before[id].state !in {Disabled, Failed}
    requires Cascade(before, after, id, throwing, ok)
    ensures ok <==> id !in throwing && forall q :: q in throwing * before.Keys ==> !ReachesPlus(Links(before), q, id)
    ensures if ok then DisabledWithDependents(before, after, id) else BrokenOff(before, after, id, throwing)
  {
    if ok {
      CascadeDisables(before, after, id, throwing);
    } else {
      CascadeBreaks(before, after, id, throwing);
    }
    hide DisabledWithDependents, BrokenOff, BrokenCascade, Healthy, ReachesPlus, Links;
  }

  lemma NoDependentsIff(plugins: Plugins, id: string)
    ensures Dependents(plugins, id) == {} <==> forall q :: q in plugins ==> !ReachesPlus(Links(plugins), q, id)
  {
    hide ReachesPlus, Links;
    if Dependents(plugins, id) == {} {
      forall q | q in plugins ensures !ReachesPlus(Links(plugins), q, id) {
        assert q !in Dependents(plugins, id);
      }
    }
  }

  // ----- Deactivating plugins

  lemma LinksAfter(plugins: Plugins, X: set<string>, f: Option<string>)
    ensures forall e :: e in Links(Deactivated(plugins, X, f)) <==> e in Links(plugins) && e.0 !in X && f != Some(e.0)
  {
    var after := Deactivated(plugins, X, f);
    forall e | e in Links(plugins) && e.0 !in X && f != Some(e.0) ensures e in Links(after) {
      var i := LinkSource(plugins, e);
      LinkOf(after, e.0, i);
    }
    forall e | e in Links(after) ensures e in Links(plugins) && e.0 !in X && f != Some(e.0) {
      var i := LinkSource(after, e);
      LinkOf(plugins, e.0, i);
    }
  }

  /** Deactivating an upwards closed set keeps a state healthy. */
  lemma DeactivationKeepsHealthy(plugins: Plugins, X: set<string>, f: Option<string>)
    requires Healthy(plugins)
    requires UpClosed(plugins, X + (if f == None then {} else {f.value}))
    ensures Healthy(Deactivated(plugins, X, f))
  {
    var after := Deactivated(plugins, X, f);
    LinksAfter(plugins, X, f);
    AcyclicSubset(Links(after), Links(plugins));
    forall p | p in after && after[p].state == Enabled ensures DependenciesOk(after, after[p].manifest) {
      assert after[p] == plugins[p] && DependenciesOk(plugins, plugins[p].manifest);
      forall i | 0 <= i < |plugins[p].manifest.dependencies|
        ensures Provides(after, plugins[p].manifest.dependencies[i]) {
        var d := plugins[p].manifest.dependencies[i];
        assert Provides(plugins, d);
        LinkOf(plugins, p, i);
        assert (p, d.pluginId).1 !in X && f != Some(d.pluginId);
      }
    }
  }

  lemma CascadeKeepsHealthy(before: Plugins, after: Plugins, p: string, throwing: set<string>, ok: bool)
    requires Healthy(before) && p in before && Cascade(before, after, p, throwing, ok)
    ensures Healthy(after) && after.Keys == before.Keys
  {
    if ok {
      var all := Dependents(before, p) + {p};
      DependentsUpClosed(before, p);
      assert all + {} == all;
      DeactivationKeepsHealthy(before, all, None);
    } else {
      var X, f :| BrokenCascade(before, after, p, throwing, X, f);
      DeactivationKeepsHealthy(before, X, Some(f));
    }
  }

  lemma DependentsUpClosed(plugins: Plugins, p: string)
    ensures UpClosed(plugins, Dependents(plugins, p)) && UpClosed(plugins, Dependents(plugins, p) + {p})
    ensures forall e :: e in Links(plugins) && e.1 == p ==> e.0 in Dependents(plugins, p)
  {
    var links := Links(plugins);
    forall e | e in links && e.1 in Dependents(plugins, p) + {p} ensures e.0 in Dependents(plugins, p) {
      EdgeReaches(links, e.0, e.1);
      ReachesRefl(links, p);
      PlusIsReaches(links, e.1, p);
      ReachesPlusTrans(links, e.0, e.1, p);
    }
  }

  /** An upwards closed set that receives p contains all dependents of p. */
  lemma UpClosedContainsDependents(plugins: Plugins, S: set<string>, p: string)
    requires forall e :: e in Links(plugins) && e.1 in S + {p} ==> e.0 in S
    ensures Dependents(plugins, p) <= S
  {
    forall q | q in Dependents(plugins, p) ensures q in S {
      var path :| Walk(Links(plugins), q, p, path) && |path| >= 2;
      PathIntoUpClosed(Links(plugins), S, p, path);
    }
  }

  lemma {:induction false} PathIntoUpClosed(links: set<(string, string)>, S: set<string>, p: string, path: seq<string>)
    requires forall e :: e in links && e.1 in S + {p} ==> e.0 in S
    requires IsPath(links, path) && |path| >= 2 && path[|path| - 1] == p
    ensures path[0] in S
    decreases |path|
  {
    assert (path[0], path[0 + 1]) in links;
    if |path| > 2 {
      SubPath(links, path, 1, |path| - 1);
      assert path[1..|path|] == path[1..];
      PathIntoUpClosed(links, S, p, path[1..]);
    }
  }

  /** Disabling an upwards closed set takes exactly its members out of the dependents of the others. */
  lemma DependentsAfter(plugins: Plugins, X: set<string>, d: string)
    requires UpClosed(plugins, X)
    ensures d !in X ==> Dependents(Deactivated(plugins, X, None), d) == Dependents(plugins, d) - X
    ensures d in X ==> Dependents(Deactivated(plugins, X, None), d) == {} && Dependents(plugins, d) <= X
  {
    var after := Deactivated(plugins, X, None);
    LinksAfter(plugins, X, None);
    if d in X {
      forall q ensures q !in Dependents(after, d) {
        if q in Dependents(after, d) {
          var b := LastStep(Links(after), q, d);
          NotLinked(plugins, X, (b, d));
        }
      }
      forall e | e in Links(plugins) && e.1 in X + {d} ensures e.0 in X {
      }
      UpClosedContainsDependents(plugins, X, d);
    } else {
      forall q | q in Dependents(after, d) ensures q in Dependents(plugins, d) - X {
        MonotoneReaches(Links(after), Links(plugins), q, d);
        var b := FirstStep(Links(after), q, d);
      }
      forall q | q in Dependents(plugins, d) - X ensures q in Dependents(after, d) {
        var path :| Walk(Links(plugins), q, d, path) && |path| >= 2;
        PathAvoids(Links(plugins), X, path);
        forall i | 0 <= i < |path| - 1 ensures (path[i], path[i + 1]) in Links(after) {
          assert (path[i], path[i + 1]) in Links(plugins);
        }
        assert Walk(Links(after), q, d, path);
      }
    }
  }

  lemma NotLinked(plugins: Plugins, X: set<string>, e: (string, string))
    requires UpClosed(plugins, X) && e.1 in X
    ensures e !in Links(Deactivated(plugins, X, None))
  {
    LinksAfter(plugins, X, None);
  }

  lemma {:induction false} PathAvoids(links: set<(string, string)>, X: set<string>, path: seq<string>)
    requires forall e :: e in links && e.1 in X ==> e.0 in X
    requires IsPath(links, path) && path[0] !in X
    ensures forall i :: 0 <= i < |path| ==> path[i] !in X
    decreases |path|
  {
    if |path| >= 2 {
      assert (path[0], path[0 + 1]) in links;
      SubPath(links, path, 1, |path| - 1);
      assert path[1..|path|] == path[1..];
      PathAvoids(links, X, path[1..]);
      forall i | 0 <= i < |path| ensures path[i] !in X {
        if i > 0 {
          assert path[i] == path[1..][i - 1];
        }
      }
    }
  }

  lemma DeactivateTwice(plugins: Plugins, X: set<string>, Y: set<string>, f: Option<string>)
    requires f.Some? ==> f.value !in X
    ensures Deactivated(Deactivated(plugins, X, None), Y, f) == Deactivated(plugins, X + Y, f)
  {
  }

  /** The cascade has a strictly smaller cascade for each dependent: this is why it ends. */
  lemma DependentsShrink(plugins: Plugins, X: set<string>, p: string, d: string)
    requires Acyclic(Links(plugins)) && UpClosed(plugins, X)
    requires d in Dependents(plugins, p)
    ensures Dependents(Deactivated(plugins, X, None), d) < Dependents(plugins, p)
  {
    DependentsAfter(plugins, X, d);
    DependentsOfDependent(plugins, p, d);
    assert !ReachesPlus(Links(plugins), d, d);
    assert d !in Dependents(plugins, d);
  }

  lemma DependentsOfDependent(plugins: Plugins, p: string, d: string)
    requires d in Dependents(plugins, p)
    ensures Dependents(plugins, d) <= Dependents(plugins, p)
  {
    var links := Links(plugins);
    forall q | q in Dependents(plugins, d) ensures q in Dependents(plugins, p) {
      PlusIsReaches(links, q, d);
      PlusIsReaches(links, d, p);
      ReachesPlusTrans(links, q, d, p);
    }
  }

  /** A cascade for one dependent, run after X was disabled, extends the cascade for p. */
  lemma ExtendCascade(plugins: Plugins, p: string, X: set<string>, d: string, after: Plugins, throwing: set<string>)
    requires UpClosed(plugins, X) && X <= Dependents(plugins, p) && X !! throwing
    requires d in Dependents(plugins, p) && d !in X
    requires Cascade(Deactivated(plugins, X, None), after, d, throwing, true)
    ensures var X' := X + Dependents(plugins, d) + {d};
            UpClosed(plugins, X') && X' <= Dependents(plugins, p) && X' !! throwing
            && after == Deactivated(plugins, X', None)
  {
    var middle := Deactivated(plugins, X, None);
    DependentsAfter(plugins, X, d);
    DependentsOfDependent(plugins, p, d);
    var Y := Dependents(middle, d) + {d};
    DeactivateTwice(plugins, X, Y, None);
    assert X + Y == X + Dependents(plugins, d) + {d};
    DependentsUpClosed(plugins, d);
    hide Dependents, Deactivated, Links;
  }

  lemma BrokenParts(before: Plugins, after: Plugins, p: string, throwing: set<string>)
    returns (X: set<string>, f: string)
    requires Cascade(before, after, p, throwing, false)
    ensures X <= Dependents(before, p) + {p} && f in Dependents(before, p) + {p}
    ensures f in throwing && f !in X && X !! throwing
    ensures UpClosed(before, X) && UpClosed(before, X + {f}) && after == Deactivated(before, X, Some(f))
  {
    hide Dependents, Deactivated, UpClosed;
    X, f :| BrokenCascade(before, after, p, throwing, X, f);
  }

  lemma BreakCascade(plugins: Plugins, p: string, X: set<string>, d: string, after: Plugins, throwing: set<string>)
    requires UpClosed(plugins, X) && X <= Dependents(plugins, p) && X !! throwing
    requires d in Dependents(plugins, p) && d !in X
    requires Cascade(Deactivated(plugins, X, None), after, d, throwing, false)
    ensures Cascade(plugins, after, p, throwing, false)
  {
    hide *;
    var middle := Deactivated(plugins, X, None);
    DependentsAfter(plugins, X, d);
    DependentsOfDependent(plugins, p, d);
    var Y, f := BrokenParts(middle, after, d, throwing);
    DeactivateTwice(plugins, X, Y, Some(f));
    UpClosedTwice(plugins, X, Y);
    UpClosedTwice(plugins, X, Y + {f});
    BrokenIsCascade(plugins, after, p, throwing, X, Y, f);
  }

  lemma BrokenIsCascade(plugins: Plugins, after: Plugins, p: string, throwing: set<string>, X: set<string>,
                        Y: set<string>, f: string)
    requires X <= Dependents(plugins, p) && Y <= Dependents(plugins, p) && f in Dependents(plugins, p)
    requires f in throwing && f !in X && f !in Y && X !! throwing && Y !! throwing
    requires UpClosed(plugins, X + Y) && UpClosed(plugins, X + (Y + {f}))
    requires after == Deactivated(plugins, X + Y, Some(f))
    ensures Cascade(plugins, after, p, throwing, false)
  {
    hide Dependents, Deactivated, Links, UpClosed;
    assert X + Y + {f} == X + (Y + {f});
    assert BrokenCascade(plugins, after, p, throwing, X + Y, f);
    assert f in throwing * (Dependents(plugins, p) + {p});
  }

  lemma UpClosedTwice(plugins: Plugins, X: set<string>, Y: set<string>)
    requires UpClosed(plugins, X) && UpClosed(Deactivated(plugins, X, None), Y)
    ensures UpClosed(plugins, X + Y)
  {
    LinksAfter(plugins, X, None);
    hide Links, Deactivated;
    forall e | e in Links(plugins) && e.1 in X + Y ensures e.0 in X + Y {
      assert e.0 in X || e in Links(Deactivated(plugins, X, None));
    }
  }

  // ----- Enabling

  /** Enabling an inactive plugin keeps a state healthy exactly when its dependencies are enabled, in
      range, at the moment it is committed. */
  lemma EnablingKeepsHealthyIff(plugins: Plugins, id: string, granted: set<string>)
    requires Healthy(plugins) && id in plugins && !Active(plugins[id])
    requires granted <= Declared(plugins[id].manifest)
    ensures Healthy(plugins[id := Plugin(plugins[id].manifest, Enabled, granted, true)]) <==>
            DependenciesOk(plugins, plugins[id].manifest)
  {
    var m := plugins[id].manifest;
    var after := plugins[id := Plugin(m, Enabled, granted, true)];
    LinksAfterEnable(plugins, id, granted);
    if DependenciesOk(plugins, m) {
      EnabledStaysAcyclic(plugins, id);
      forall p | p in after && after[p].state == Enabled ensures DependenciesOk(after, after[p].manifest) {
        assert p == id || after[p] == plugins[p];
        assert DependenciesOk(plugins, plugins[p].manifest) && after[p].manifest == plugins[p].manifest;
        forall i | 0 <= i < |plugins[p].manifest.dependencies|
          ensures Provides(after, plugins[p].manifest.dependencies[i]) {
          assert Provides(plugins, plugins[p].manifest.dependencies[i]);
        }
      }
    }
    if Healthy(after) {
      assert id in after && after[id].state == Enabled && after[id].manifest == m;
      assert DependenciesOk(after, after[id].manifest);
      forall i | 0 <= i < |m.dependencies| ensures Provides(plugins, m.dependencies[i]) {
        assert Provides(after, m.dependencies[i]);
        LinkOf(after, id, i);
        if m.dependencies[i].pluginId == id {
          EdgeReaches(Links(after), id, id);
        }
      }
    }
  }

  ghost function DependencyIds(m: Manifest): set<string> {
    set d | d in m.dependencies :: d.pluginId
  }

  lemma LinksAfterEnable(plugins: Plugins, id: string, granted: set<string>)
    requires id in plugins && !Active(plugins[id])
    ensures Links(plugins[id := Plugin(plugins[id].manifest, Enabled, granted, true)]) ==
            Links(plugins) + OutEdges(id, DependencyIds(plugins[id].manifest))
  {
    var m := plugins[id].manifest;
    var after := plugins[id := Plugin(m, Enabled, granted, true)];
    forall e | e in Links(after) ensures e in Links(plugins) + OutEdges(id, DependencyIds(m)) {
      var i := LinkSource(after, e);
      if e.0 != id {
        LinkOf(plugins, e.0, i);
      } else {
        assert m.dependencies[i] in m.dependencies;
      }
    }
    forall e | e in Links(plugins) ensures e in Links(after) {
      var i := LinkSource(plugins, e);
      LinkOf(after, e.0, i);
    }
    forall e | e in OutEdges(id, DependencyIds(m)) ensures e in Links(after) {
      var d :| d in m.dependencies && d.pluginId == e.1;
      var i :| 0 <= i < |m.dependencies| && m.dependencies[i] == d;
      LinkOf(after, id, i);
    }
  }

  lemma LinkOf(plugins: Plugins, p: string, i: nat)
    requires p in plugins && Active(plugins[p]) && i < |plugins[p].manifest.dependencies|
    ensures (p, plugins[p].manifest.dependencies[i].pluginId) in Links(plugins)
  {
    assert plugins[p].manifest.dependencies[i] in plugins[p].manifest.dependencies;
  }

  lemma LinkSource(plugins: Plugins, e: (string, string)) returns (i: nat)
    requires e in Links(plugins)
    ensures e.0 in plugins && Active(plugins[e.0])
    ensures i < |plugins[e.0].manifest.dependencies| && plugins[e.0].manifest.dependencies[i].pluginId == e.1
  {
    var d :| d in plugins[e.0].manifest.dependencies && d.pluginId == e.1;
    i :| 0 <= i < |plugins[e.0].manifest.dependencies| && plugins[e.0].manifest.dependencies[i] == d;
  }

  /** Nothing active depends on an inactive plugin, so its own links close no cycle. */
  lemma EnabledStaysAcyclic(plugins: Plugins, id: string)
    requires Healthy(plugins) && id in plugins && !Active(plugins[id]) && DependenciesOk(plugins, plugins[id].manifest)
    ensures Acyclic(Links(plugins) + OutEdges(id, DependencyIds(plugins[id].manifest)))
  {
    var m := plugins[id].manifest;
    forall v | v in DependencyIds(m) ensures !Reaches(Links(plugins), v, id) {
      var d :| d in m.dependencies && d.pluginId == v;
      var i :| 0 <= i < |m.dependencies| && m.dependencies[i] == d;
      assert Provides(plugins, d) && v != id;
      NothingLinksTo(plugins, id);
      if ReachesPlus(Links(plugins), v, id) {
        var b := LastStep(Links(plugins), v, id);
      }
      PlusIsReaches(Links(plugins), v, id);
    }
    AddEdgesAcyclic(Links(plugins), id, DependencyIds(m));
  }

  lemma NothingLinksTo(plugins: Plugins, id: string)
    requires Healthy(plugins) && (id in plugins ==> !Active(plugins[id]))
    ensures forall e :: e in Links(plugins) ==> e.1 != id
  {
    forall e | e in Links(plugins) ensures e.1 != id {
      var i := LinkSource(plugins, e);
      assert DependenciesOk(plugins, plugins[e.0].manifest);
      assert Provides(plugins, plugins[e.0].manifest.dependencies[i]);
    }
  }

  /** Plugins whose active members depend on nothing have no links and no cycles. */
  lemma NoLinks(plugins: Plugins)
    requires forall p :: p in plugins && Active(plugins[p]) ==> plugins[p].manifest.dependencies == []
    ensures Links(plugins) == {} && Acyclic(Links(plugins))
  {
    forall e ensures e !in Links(plugins) {
      if e in Links(plugins) {
        var i := LinkSource(plugins, e);
      }
    }
    forall a ensures !ReachesPlus(Links(plugins), a, a) {
      if ReachesPlus(Links(plugins), a, a) {
        var b := FirstStep(Links(plugins), a, a);
      }
    }
  }

  // ----- Runs

  datatype Step =
    | Install(manifest: Manifest)
    | Enable(id: string, granted: set<string>)
    | FailToEnable(id: string, process: bool)
    | Disable(id: string, throwing: set<string>, ok: bool)
    | Remove(id: string)
    | Revoke(id: string, permission: string)

  /** The effect of one operation that does change the state. */
  ghost predicate Next(a: Plugins, step: Step, b: Plugins) {
    match step
    case Install(m) => m.pluginId !in a && b == a[m.pluginId := Plugin(m, Installed, {}, false)]
    case Enable(id, granted) =>
      && id in a && !Active(a[id]) && DependenciesOk(a, a[id].manifest) && granted <= Declared(a[id].manifest)
      && b == a[id := Plugin(a[id].manifest, Enabled, granted, true)]
    case FailToEnable(id, process) => id in a && !Active(a[id])
      && b == a[id := a[id].(state := Failed, process := process)]
    case Disable(id, throwing, ok) => id in a && Cascade(a, b, id, throwing, ok)
    case Remove(id) => id in a && !Active(a[id]) && b == a - {id}
    case Revoke(id, permission) => id in a && b == a[id := a[id].(granted := a[id].granted - {permission})]
  }

  lemma NextKeepsHealthy(a: Plugins, step: Step, b: Plugins)
    requires Healthy(a) && Next(a, step, b)
    ensures Healthy(b)
  {
    match step
    case Install(m) => PassiveChange(a, m.pluginId, b);
    case Enable(id, granted) => EnablingKeepsHealthyIff(a, id, granted);
    case FailToEnable(id, process) => PassiveChange(a, id, b);
    case Disable(id, throwing, ok) => CascadeKeepsHealthy(a, b, id, throwing, ok);
    case Remove(id) => PassiveChange(a, id, b);
    case Revoke(id, permission) => SameLinks(a, b);
  }

  /** Changes to an inactive plugin that leave it inactive are harmless. */
  lemma PassiveChange(a: Plugins, id: string, b: Plugins)
    requires Healthy(a) && Tidy(b)
    requires id in a ==> !Active(a[id])
    requires id in b ==> !Active(b[id])
    requires forall p :: p != id ==> (p in a <==> p in b) && (p in a ==> a[p] == b[p])
    ensures Healthy(b)
  {
    forall e ensures e in Links(a) <==> e in Links(b) {
      if e in Links(a) {
        var i := LinkSource(a, e);
        LinkOf(b, e.0, i);
      }
      if e in Links(b) {
        var i := LinkSource(b, e);
        LinkOf(a, e.0, i);
      }
    }
    assert Links(a) == Links(b);
    NothingLinksTo(a, id);
    forall p | p in b && b[p].state == Enabled ensures DependenciesOk(b, b[p].manifest) {
      assert DependenciesOk(a, a[p].manifest);
      forall i | 0 <= i < |a[p].manifest.dependencies| ensures Provides(b, a[p].manifest.dependencies[i]) {
        assert Provides(a, a[p].manifest.dependencies[i]);
      }
    }
  }

  lemma SameLinks(a: Plugins, b: Plugins)
    requires Healthy(a) && Tidy(b) && a.Keys == b.Keys
    requires forall p :: p in a ==> a[p].manifest == b[p].manifest && a[p].state == b[p].state
    ensures Healthy(b)
  {
    forall e ensures e in Links(a) <==> e in Links(b) {
      if e in Links(a) {
        var i := LinkSource(a, e);
        LinkOf(b, e.0, i);
      }
      if e in Links(b) {
        var i := LinkSource(b, e);
        LinkOf(a, e.0, i);
      }
    }
    assert Links(a) == Links(b);
    forall p | p in b && b[p].state == Enabled ensures DependenciesOk(b, b[p].manifest) {
      assert DependenciesOk(a, a[p].manifest);
      forall i | 0 <= i < |a[p].manifest.dependencies| ensures Provides(b, a[p].manifest.dependencies[i]) {
        assert Provides(a, a[p].manifest.dependencies[i]);
      }
    }
  }

  ghost predicate IsRun(states: seq<Plugins>, steps: seq<Step>) {
    && |states| == |steps| + 1 && states[0] == map[]
    && forall i :: 0 <= i < |steps| ==> Next(states[i], steps[i], states[i + 1])
  }

  /** Main result: in every state of every run, each enabled plugin has all its dependencies enabled in
      range, and the enabled plugins do not depend on each other in a circle. */
  lemma {:induction false} RunsAreHealthy(states: seq<Plugins>, steps: seq<Step>)
    requires IsRun(states, steps)
    ensures Healthy(states[|steps|])
    decreases |steps|
  {
    if steps == [] {
      NoLinks(states[0]);
    } else {
      var n := |steps| - 1;
      RunsAreHealthy(states[..n + 1], steps[..n]);
      NextKeepsHealthy(states[n], steps[n], states[n + 1]);
    }
  }
}
