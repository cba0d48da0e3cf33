/** Interleaved lifecycle operations of services/runtime/src/plugin-manager.ts: between two awaits an operation
    commits one record. Which commits keep the plugins healthy, whatever was validated before. */
module PluginInterleavings {
  import opened Wrappers
  import opened Graphs
  import opened PluginVersions
  import opened PluginModel

  /** One write to the table: a fresh record, a new value for a record, or its removal. */
  datatype Commit = Put(manifest: Manifest) | Write(id: string, record: Plugin) | Drop(id: string)

  /** Another enabled plugin lists this one as a dependency. */
  ghost predicate Needed(plugins: Plugins, id: string) {
    exists q, i :: Lists(plugins, q, i, id)
  }

  ghost predicate Lists(plugins: Plugins, q: string, i: nat, id: string) {
    q in plugins && q != id && plugins[q].state == Enabled && i < |plugins[q].manifest.dependencies|
    && plugins[q].manifest.dependencies[i].pluginId == id
  }

  /** A commit the operations can make: the manifest of a record never changes. */
  ghost predicate Fits(plugins: Plugins, c: Commit) {
    match c
    case Put(m) => m.pluginId !in plugins
    case Write(id, record) =>
      && id in plugins && record.manifest == plugins[id].manifest && record.granted <= Declared(record.manifest)
      && record.state in {Installed, Enabled, Disabled, Failed}
    case Drop(id) => id in plugins
  }

  ghost function Committed(plugins: Plugins, c: Commit): Plugins {
    match c
    case Put(m) => plugins[m.pluginId := Plugin(m, Installed, {}, false)]
    case Write(id, record) => plugins[id := record]
    case Drop(id) => plugins - {id}
  }

  /** The condition at the moment of the commit: what becomes enabled has its dependencies enabled in range,
      and what stops being enabled is needed by nobody. */
  ghost predicate Timely(plugins: Plugins, c: Commit)
    requires Fits(plugins, c)
  {
    match c
    case Put(_) => true
    case Write(id, record) =>
      if record.state == Enabled then Active(plugins[id]) || DependenciesOk(plugins, record.manifest)
      else !Needed(plugins, id)
    case Drop(id) => !Needed(plugins, id)
  }

  lemma NeededLink(plugins: Plugins, id: string)
    requires Healthy(plugins) && id in plugins
    ensures !Needed(plugins, id) ==> UpClosed(plugins, {id})
    ensures Needed(plugins, id) ==> Active(plugins[id])
  {
    if Needed(plugins, id) {
      var q, i: nat :| Lists(plugins, q, i, id);
      assert DependenciesOk(plugins, plugins[q].manifest);
      assert Provides(plugins, plugins[q].manifest.dependencies[i]);
    } else {
      forall e | e in Links(plugins) && e.1 == id ensures e.0 == id {
        var i := LinkSource(plugins, e);
        assert e.0 != id ==> Lists(plugins, e.0, i, id);
      }
    }
  }

  /** Disabling a plugin that nobody needs keeps a state healthy, and only that. */
  lemma DisablingKeepsHealthyIff(plugins: Plugins, id: string)
    requires Healthy(plugins) && id in plugins
    ensures Healthy(plugins[id := DisabledForm(plugins[id])]) <==> !Needed(plugins, id)
  {
    var after := plugins[id := DisabledForm(plugins[id])];
    if Needed(plugins, id) {
      var q, i: nat :| Lists(plugins, q, i, id);
      LateCommit(plugins, after, q, i, id);
    } else {
      NeededLink(plugins, id);
      hide Links, Needed;
      assert {id} + {} == {id};
      DeactivationKeepsHealthy(plugins, {id}, None);
      assert Deactivated(plugins, {id}, None) == after;
    }
  }

  /** Two records of a plugin that are both active, or both inactive, are equally healthy. */
  lemma SameActivity(plugins: Plugins, id: string, a: Plugin, b: Plugin)
    requires id in plugins && Fits(plugins, Write(id, a)) && Fits(plugins, Write(id, b))
    requires a.state == Enabled <==> b.state == Enabled
    requires Healthy(plugins[id := a]) && a.manifest.pluginId == id
    ensures Healthy(plugins[id := b])
  {
    var before, after := plugins[id := a], plugins[id := b];
    assert before[id] == a;
    assert Tidy(after) by {
      forall p | p in after && p != id ensures after[p] == before[p] {
      }
    }
    hide Healthy, Tidy, Declared;
    if a.state == Enabled {
      forall p | p in before ensures before[p].manifest == after[p].manifest && before[p].state == after[p].state {
      }
      SameLinks(plugins[id := a], plugins[id := b]);
    } else {
      PassiveChange(plugins[id := a], id, plugins[id := b]);
    }
  }

  /** Main result on one commit: it keeps a state healthy exactly when it is timely. */
  lemma CommitKeepsHealthyIff(plugins: Plugins, c: Commit)
    requires Healthy(plugins) && Fits(plugins, c)
    ensures Healthy(Committed(plugins, c)) <==> Timely(plugins, c)
  {
    match c
    case Put(m) =>
      PassiveChange(plugins, m.pluginId, Committed(plugins, c));
    case Write(id, record) =>
      if record.state == Enabled {
        WriteEnabled(plugins, id, record);
      } else {
        WriteInactive(plugins, id, record);
      }
    case Drop(id) =>
      DropKeepsHealthyIff(plugins, id);
  }

  lemma WriteEnabled(plugins: Plugins, id: string, record: Plugin)
    requires Healthy(plugins) && Fits(plugins, Write(id, record)) && record.state == Enabled
    ensures Healthy(plugins[id := record]) <==> Active(plugins[id]) || DependenciesOk(plugins, record.manifest)
  {
    assert plugins[id := plugins[id]] == plugins;
    if Active(plugins[id]) {
      hide Healthy;
      SameActivity(plugins, id, plugins[id], record);
    } else {
      var enabled := Plugin(record.manifest, Enabled, record.granted, true);
      EnablingKeepsHealthyIff(plugins, id, record.granted);
      if Healthy(plugins[id := enabled]) {
        SameActivity(plugins, id, enabled, record);
      }
      if Healthy(plugins[id := record]) {
        SameActivity(plugins, id, record, enabled);
      }
    }
  }

  lemma WriteInactive(plugins: Plugins, id: string, record: Plugin)
    requires Healthy(plugins) && Fits(plugins, Write(id, record)) && record.state != Enabled
    ensures Healthy(plugins[id := record]) <==> !Needed(plugins, id)
  {
    var disabled := DisabledForm(plugins[id]);
    DisablingKeepsHealthyIff(plugins, id);
    if Healthy(plugins[id := disabled]) {
      SameActivity(plugins, id, disabled, record);
    }
    if Healthy(plugins[id := record]) {
      SameActivity(plugins, id, record, disabled);
    }
  }

  lemma DropKeepsHealthyIff(plugins: Plugins, id: string)
    requires Healthy(plugins) && id in plugins
    ensures Healthy(plugins - {id}) <==> !Needed(plugins, id)
  {
    if Needed(plugins, id) {
      var q, i: nat :| Lists(plugins, q, i, id);
      LateCommit(plugins, plugins - {id}, q, i, id);
    } else {
      DisablingKeepsHealthyIff(plugins, id);
      hide Healthy, Needed;
      var disabled := plugins[id := DisabledForm(plugins[id])];
      StaysTidy(disabled, id);
      PassiveChange(disabled, id, plugins - {id});
    }
  }

  lemma StaysTidy(plugins: Plugins, id: string)
    requires Healthy(plugins)
    ensures Tidy(plugins - {id})
  {
  }

  /** A plugin that another one needs and that is not enabled any more. */
  lemma LateCommit(before: Plugins, after: Plugins, q: string, i: nat, id: string)
    requires Lists(before, q, i, id) && q in after && after[q] == before[q]
    requires id in after ==> after[id].state != Enabled
    ensures !Healthy(after)
  {
    assert !Provides(after, after[q].manifest.dependencies[i]);
    assert !DependenciesOk(after, after[q].manifest);
  }

  // ----- Runs of commits

  ghost predicate IsCommitRun(states: seq<Plugins>, commits: seq<Commit>) {
    && |states| == |commits| + 1 && states[0] == map[]
    && forall i :: 0 <= i < |commits| ==>
         Fits(states[i], commits[i]) && states[i + 1] == Committed(states[i], commits[i])
  }

  /** Main result: however the operations interleave, all states of a run are healthy exactly when every
      commit is timely when it is made. */
  lemma {:induction false} InterleavingsAreHealthyIff(states: seq<Plugins>, commits: seq<Commit>)
    requires IsCommitRun(states, commits)
    ensures (forall i :: 0 <= i < |states| ==> Healthy(states[i])) <==>
            (forall i :: 0 <= i < |commits| ==> Timely(states[i], commits[i]))
    decreases |commits|
  {
    hide Healthy, Timely, Fits, Committed;
    if commits == [] {
      NothingIsHealthy();
    } else {
      var n := |commits| - 1;
      InterleavingsAreHealthyIff(states[..n + 1], commits[..n]);
      assert states == states[..n + 1] + [states[n + 1]];
      if Healthy(states[n]) {
        CommitKeepsHealthyIff(states[n], commits[n]);
      }
      if forall i :: 0 <= i < |commits| ==> Timely(states[i], commits[i]) {
        assert forall i :: 0 <= i < n ==> Timely(states[..n + 1][i], commits[..n][i]);
        assert Healthy(states[..n + 1][n]);
      }
      if forall i :: 0 <= i < |states| ==> Healthy(states[i]) {
        assert Healthy(states[n]) && Healthy(states[n + 1]);
      }
    }
  }

  lemma NothingIsHealthy()
    ensures Healthy(map[])
  {
    NoLinks(map[]);
  }

  // ----- Commits that come too late

  /** An enabled plugin and an installed one that depends on it, reached by two installs and an enable. */
  lemma BaseAndTop(base: string, top: string) returns (plugins: Plugins, states: seq<Plugins>, steps: seq<Step>)
    requires base != top
    ensures IsRun(states, steps) && states[|steps|] == plugins
    ensures Healthy(plugins) && plugins.Keys == {base, top} && Links(plugins) == {}
    ensures plugins[base].state == Enabled && plugins[base].granted == {} && plugins[base].process
    ensures plugins[top].state == Installed && DependenciesOk(plugins, plugins[top].manifest)
    ensures |plugins[top].manifest.dependencies| == 1 && plugins[top].manifest.dependencies[0].pluginId == base
  {
    var v := Semver(1, 0, 0);
    var range := [Bound(Exactly, v)];
    var b := Manifest(base, v, range, [], [], [], []);
    var t := Manifest(top, v, range, [], [], [], [Dependency(base, range)]);
    var installed: Plugins := map[base := Plugin(b, Installed, {}, false)];
    var enabled := installed[base := Plugin(b, Enabled, {}, true)];
    plugins := enabled[top := Plugin(t, Installed, {}, false)];
    states, steps := [map[], installed, enabled, plugins], [Install(b), Enable(base, {}), Install(t)];
    assert Next(states[0], steps[0], states[1]) && Next(states[1], steps[1], states[2])
      && Next(states[2], steps[2], states[3]);
    NoLinks(plugins);
    RunsAreHealthy(states, steps);
    hide Links, Acyclic, Healthy;
    assert SatisfiesClause(v, range[0]);
    assert Provides(plugins, t.dependencies[0]);
  }

  lemma NoDependents(plugins: Plugins, id: string)
    requires Links(plugins) == {}
    ensures Dependents(plugins, id) == {}
  {
    forall q ensures q !in Dependents(plugins, id) {
      if ReachesPlus(Links(plugins), q, id) {
        var b := FirstStep(Links(plugins), q, id);
      }
    }
  }

  /** An enable validates its dependencies, then awaits. A disable in between makes its commit late. */
  lemma StaleEnable(base: string, top: string)
    returns (states: seq<Plugins>, steps: seq<Step>, before: Plugins, between: Plugins)
    requires base != top
    ensures IsRun(states, steps) && states[|steps|] == before
    ensures top in before && !Active(before[top]) && DependenciesOk(before, before[top].manifest)
    ensures Next(before, Disable(base, {}, true), between)
    ensures top in between && !Healthy(between[top := Plugin(between[top].manifest, Enabled, {}, true)])
  {
    before, states, steps := BaseAndTop(base, top);
    between := Deactivated(before, {base}, None);
    NoDependents(before, base);
    hide Links, Acyclic, SatisfiesRange, Dependents;
    assert {} + {base} == {base};
    NextKeepsHealthy(before, Disable(base, {}, true), between);
    assert !Provides(between, before[top].manifest.dependencies[0]);
    EnablingKeepsHealthyIff(between, top, {});
  }

  /** A disable finds no dependents, then awaits the stop of the process. An enable in between is accepted and
      makes its commit late. */
  lemma StaleDisable(base: string, top: string)
    returns (states: seq<Plugins>, steps: seq<Step>, before: Plugins, between: Plugins)
    requires base != top
    ensures IsRun(states, steps) && states[|steps|] == before
    ensures base in before && before[base].state == Enabled && Dependents(before, base) == {}
    ensures Next(before, Enable(top, {}), between)
    ensures base in between && !Healthy(between[base := DisabledForm(between[base])])
  {
    before, states, steps := BaseAndTop(base, top);
    between := before[top := Plugin(before[top].manifest, Enabled, {}, true)];
    NoDependents(before, base);
    hide Links, Acyclic, SatisfiesRange, Dependents;
    NextKeepsHealthy(before, Enable(top, {}), between);
    assert Lists(between, top, 0, base);
    DisablingKeepsHealthyIff(between, base);
  }
}
