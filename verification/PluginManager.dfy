/** The plugin manager of services/runtime/src/plugin-manager.ts: records updated in place, dependency
    validation and cascading disable by mutual recursion over the records. */
module PluginManagers {
  import opened Wrappers
  import opened Graphs
  import opened PluginVersions
  import opened PluginModel

  datatype PluginError =
    | InvalidManifest | AlreadyInstalled | NotInstalled | WasUninstalled
    | DependencyCycle(at: string) | DependencyNotInstalled(missing: string)
    | DependencyUnavailable(plugin: string, dependency: string)
    | DependencyIncompatible(plugin: string, dependency: string)
    | ApiIncompatible | VerificationFailed | SandboxFailed | Crashed
    | NeedsConfirmation(dependents: seq<string>)
    | NotDisabled(state: PluginState)
    | NotEnabled | ToolUndeclared | PermissionUndeclared | PermissionNotGranted

  datatype Answer = Accepts | Refuses | Throws

  /** How the host behaves during one enable.  `rejecting` are the permissions whose review throws. */
  datatype Host = Host(verify: Answer, sandbox: Answer, factoryThrows: bool, startThrows: bool,
                       approved: set<string>, rejecting: set<string>)

  const KNOWN_SCOPES: set<string> := {
    "memory.read", "memory.write", "tools.read", "tools.register", "files.read", "files.write",
    "tools.invoke:read_only", "tools.invoke:reversible_write", "tools.invoke:destructive_irreversible",
    "task.submit", "task.read", "task.cancel", "config.read", "config.write", "network.external"}

  predicate PermissionsOk(m: Manifest) {
    var declared := m.requiredPermissions + m.optionalPermissions;
    (forall i :: 0 <= i < |declared| ==> declared[i] in KNOWN_SCOPES)
    && forall i, j :: 0 <= i < j < |declared| ==> declared[i] != declared[j]
  }

  lemma PermissionsOkIff(m: Manifest)
    ensures var declared := m.requiredPermissions + m.optionalPermissions;
            PermissionsOk(m) <==> (forall s :: s in declared ==> s in KNOWN_SCOPES) && Distinct(declared)
  {
    hide KNOWN_SCOPES;
  }

  /** The first direct dependency that is not enabled in range. */
  function FirstProblem(plugins: Plugins, id: string, dependencies: seq<Dependency>): Option<PluginError> {
    if dependencies == [] then None
    else if dependencies[0].pluginId !in plugins || plugins[dependencies[0].pluginId].state != Enabled then
      Some(DependencyUnavailable(id, dependencies[0].pluginId))
    else if !SatisfiesRange(plugins[dependencies[0].pluginId].manifest.version, dependencies[0].range) then
      Some(DependencyIncompatible(id, dependencies[0].pluginId))
    else FirstProblem(plugins, id, dependencies[1..])
  }

  lemma {:induction false} NoProblemIff(plugins: Plugins, id: string, dependencies: seq<Dependency>)
    ensures FirstProblem(plugins, id, dependencies) == None <==>
            forall i :: 0 <= i < |dependencies| ==> Provides(plugins, dependencies[i])
  {
    if dependencies != [] {
      NoProblemIff(plugins, id, dependencies[1..]);
      assert dependencies == [dependencies[0]] + dependencies[1..];
      if Provides(plugins, dependencies[0]) {
        forall i | 0 <= i < |dependencies| && FirstProblem(plugins, id, dependencies) == None
          ensures Provides(plugins, dependencies[i]) {
          if i > 0 {
            assert dependencies[i] == dependencies[1..][i - 1];
          }
        }
      }
    }
  }

  lemma ProblemAt(plugins: Plugins, id: string, dependencies: seq<Dependency>, i: nat)
    requires i < |dependencies|
    ensures var d := dependencies[i];
            FirstProblem(plugins, id, dependencies[i..]) ==
              if d.pluginId !in plugins
                || plugins[d.pluginId].state != Enabled then Some(DependencyUnavailable(id, d.pluginId))
              else if !SatisfiesRange(plugins[d.pluginId].manifest.version, d.range)
                then Some(DependencyIncompatible(id, d.pluginId))
              else FirstProblem(plugins, id, dependencies[i + 1..])
    ensures FirstProblem(plugins, id, []) == None && dependencies[|dependencies|..] == []
  {
    assert dependencies[i..][1..] == dependencies[i + 1..];
  }

  predicate ReviewThrows(m: Manifest, host: Host) {
    Declared(m) * host.rejecting != {}
  }

  /** The outcome of an enable: the new plugins and the answer. */
  function EnableOutcome(plugins: Plugins, api: Option<Semver>, id: string, host: Host): (Plugins,
                         Result<Plugin, PluginError>)
    requires id in plugins
  {
    var p := plugins[id];
    var failed := plugins[id := p.(state := Failed)];
    if Active(p) then (plugins, Ok(p))
    else if p.state == Uninstalled then (plugins, Err(WasUninstalled))
    else if FirstProblem(plugins, id, p.manifest.dependencies).Some? then
      (failed, Err(FirstProblem(plugins, id, p.manifest.dependencies).value))
    else if api == None || !SatisfiesRange(api.value, p.manifest.apiRange) then (failed, Err(ApiIncompatible))
    else ProvisionOutcome(plugins, id, host)
  }

  /** The guarded part of an enable: verification, sandbox, process and permission review. */
  function ProvisionOutcome(plugins: Plugins, id: string, host: Host): (Plugins, Result<Plugin, PluginError>)
    requires id in plugins
  {
    var p := plugins[id];
    var failed := plugins[id := p.(state := Failed)];
    if host.verify == Refuses then (failed, Err(VerificationFailed))
    else if host.verify == Throws then (failed, Err(Crashed))
    else if host.sandbox == Refuses then (failed, Err(SandboxFailed))
    else if host.sandbox == Throws || host.factoryThrows then (failed, Err(Crashed))
    else LaunchOutcome(plugins, id, host)
  }

  /** Its last part, from the moment there is a process. */
  function LaunchOutcome(plugins: Plugins, id: string, host: Host): (Plugins, Result<Plugin, PluginError>)
    requires id in plugins
  {
    var p := plugins[id];
    if host.startThrows || ReviewThrows(p.manifest, host) then
      (plugins[id := p.(state := Failed, process := true)], Err(Crashed))
    else
      var enabled := Plugin(p.manifest, Enabled, Declared(p.manifest) * host.approved, true);
      (plugins[id := enabled], Ok(enabled))
  }

  // ----- An enable in terms of the records and the host

  ghost predicate Supplied(plugins: Plugins, d: Dependency) {
    && d.pluginId in plugins && plugins[d.pluginId].state == Enabled
    && SatisfiesRange(plugins[d.pluginId].manifest.version, d.range)
  }

  /** The first dependency that is not supplied, and what the refusal says about it. */
  ghost predicate IsFirstLack(plugins: Plugins, id: string, dependencies: seq<Dependency>, i: int, e: PluginError) {
    && 0 <= i < |dependencies| && !Supplied(plugins, dependencies[i])
    && (forall j :: 0 <= j < i ==> Supplied(plugins, dependencies[j]))
    && var d := dependencies[i].pluginId;
       e == if d in plugins && plugins[d].state == Enabled then DependencyIncompatible(id, d)
            else DependencyUnavailable(id, d)
  }

  /** Verification, sandbox, process and review: the plugin is enabled exactly when all accept and nothing throws,
      with the approved part of the declared permissions; otherwise it has failed for the first reason. */
  ghost predicate IsProvisioned(before: Plugins, id: string, host: Host, after: Plugins, r: Result<Plugin, PluginError>)
    requires id in before
  {
    var p, m := before[id], before[id].manifest;
    var attached := host.verify == Accepts && host.sandbox == Accepts && !host.factoryThrows;
    var rejected := exists s :: s in host.rejecting && (s in m.requiredPermissions || s in m.optionalPermissions);
    && (r.Ok? <==> attached && !host.startThrows && !rejected)
    && (r == Err(VerificationFailed) <==> host.verify == Refuses)
    && (r == Err(SandboxFailed) <==> host.verify == Accepts && host.sandbox == Refuses)
    && (r == Err(Crashed) <==>
          || host.verify == Throws || (host.verify == Accepts && host.sandbox == Throws)
          || (host.verify == Accepts && host.sandbox == Accepts && host.factoryThrows)
          || (attached && (host.startThrows || rejected)))
    && (r.Ok? ==>
          && after == before[id := r.value] && r.value.manifest == m && r.value.state == Enabled && r.value.process
          && forall s :: s in r.value.granted <==>
               s in host.approved && (s in m.requiredPermissions || s in m.optionalPermissions))
    && (r.Err? ==> after == before[id := Plugin(m, PluginState.Failed, p.granted, p.process || attached)])
  }

  /** A plugin that is not enabled: its dependencies are looked at first, then the version of the interface. */
  ghost predicate IsEnabled(before: Plugins, api: Option<Semver>, id: string, host: Host, after: Plugins,
                            r: Result<Plugin, PluginError>)
    requires id in before
  {
    var p := before[id];
    if exists i :: 0 <= i < |p.manifest.dependencies| && !Supplied(before, p.manifest.dependencies[i]) then
      && after == before[id := p.(state := Failed)]
      && r.Err? && exists i :: IsFirstLack(before, id, p.manifest.dependencies, i, r.error)
    else if api == None || !SatisfiesRange(api.value, p.manifest.apiRange) then
      after == before[id := p.(state := Failed)] && r == Err(ApiIncompatible)
    else
      IsProvisioned(before, id, host, after, r)
  }

  lemma {:induction false} FirstProblemIs(plugins: Plugins, id: string, dependencies: seq<Dependency>)
    ensures var problem := FirstProblem(plugins, id, dependencies);
            && (problem == None <==> forall i :: 0 <= i < |dependencies| ==> Supplied(plugins, dependencies[i]))
            && (problem.Some? ==> exists i :: IsFirstLack(plugins, id, dependencies, i, problem.value))
  {
    hide SatisfiesRange;
    if dependencies != [] {
      var tail := dependencies[1..];
      FirstProblemIs(plugins, id, tail);
      assert dependencies == [dependencies[0]] + tail;
      assert forall i :: 0 < i < |dependencies| ==> dependencies[i] == tail[i - 1];
      if !Supplied(plugins, dependencies[0]) {
        assert IsFirstLack(plugins, id, dependencies, 0, FirstProblem(plugins, id, dependencies).value);
      } else if FirstProblem(plugins, id, dependencies).Some? {
        var e := FirstProblem(plugins, id, dependencies).value;
        var i :| IsFirstLack(plugins, id, tail, i, e);
        assert IsFirstLack(plugins, id, dependencies, i + 1, e);
      }
    }
  }

  lemma ProvisionIs(plugins: Plugins, id: string, host: Host)
    requires id in plugins
    ensures var (after, r) := ProvisionOutcome(plugins, id, host); IsProvisioned(plugins, id, host, after, r)
  {
    var m := plugins[id].manifest;
    if ReviewThrows(m, host) {
      var s :| s in Declared(m) * host.rejecting;
    }
    forall s | s in host.rejecting && (s in m.requiredPermissions || s in m.optionalPermissions)
      ensures ReviewThrows(m, host)
    {
      assert s in Declared(m) * host.rejecting;
    }
  }

  lemma EnableIs(plugins: Plugins, api: Option<Semver>, id: string, host: Host)
    requires id in plugins && plugins[id].state in {Installed, Disabled, Failed}
    ensures var (after, r) := EnableOutcome(plugins, api, id, host); IsEnabled(plugins, api, id, host, after, r)
  {
    FirstProblemIs(plugins, id, plugins[id].manifest.dependencies);
    ProvisionIs(plugins, id, host);
    hide ProvisionOutcome, IsProvisioned, FirstProblem, Supplied, IsFirstLack, SatisfiesRange;
  }

  lemma ActiveIsEnabled(plugins: Plugins, api: Option<Semver>, id: string, host: Host)
    requires id in plugins && Active(plugins[id])
    ensures EnableOutcome(plugins, api, id, host) == (plugins, Ok(plugins[id]))
  {
  }

  class PluginRecord {
    const manifest: Manifest
    var state: PluginState
    var granted: set<string>
    var process: bool  // whether a plugin process is attached

    function Value(): Plugin
      reads this
    {
      Plugin(manifest, state, granted, process)
    }

    constructor (manifest: Manifest)
      ensures Value() == Plugin(manifest, Installed, {}, false)
    {
      this.manifest := manifest;
      state, granted, process := Installed, {}, false;
    }
  }

  class PluginManager {
    var order: seq<string>  // identifiers in installation order
    var plugins: map<string, PluginRecord>
    const apiVersion: Option<Semver>

    function View(): Plugins
      reads this, plugins.Values
    {
      map id | id in plugins :: plugins[id].Value()
    }

    ghost predicate Valid()
      reads this, plugins.Values
    {
      && Elements(order) == plugins.Keys && Distinct(order)
      && (forall id :: id in plugins ==> plugins[id].manifest.pluginId == id)
      && Healthy(View())
    }

    constructor (apiVersion: Option<Semver>)
      ensures Valid() && View() == map[] && this.apiVersion == apiVersion
    {
      this.apiVersion := apiVersion;
      order, plugins := [], map[];
      new;
      NoLinks(View());
    }

    method Install(manifest: Manifest, wellFormed: bool) returns (r: Result<Plugin, PluginError>)
      requires Valid()
      modifies this
      ensures Valid()
      ensures r == if !wellFormed
                     || (exists s :: s in manifest.requiredPermissions + manifest.optionalPermissions
                                     && s !in KNOWN_SCOPES)
                     || !Distinct(manifest.requiredPermissions + manifest.optionalPermissions)
                     then Err(InvalidManifest)
                   else if manifest.pluginId in old(View()) then Err(AlreadyInstalled)
                   else Ok(Plugin(manifest, Installed, {}, false))
      ensures View() == if r.Ok? then old(View())[manifest.pluginId := r.value] else old(View())
      ensures r.Ok? ==> Next(old(View()), Step.Install(manifest), View())
      ensures fresh(plugins.Values - old(plugins.Values))
    {
      PermissionsOkIff(manifest);
      hide Healthy, Links, Distinct, PermissionsOk;
      if !wellFormed || !PermissionsOk(manifest) {
        return Err(InvalidManifest);
      }
      if manifest.pluginId in plugins {
        return Err(AlreadyInstalled);
      }
      ghost var before := View();
      var record := new PluginRecord(manifest);
      ElementsAppend(order, manifest.pluginId);
      DistinctAppend(order, manifest.pluginId);
      order := order + [manifest.pluginId];
      plugins := plugins[manifest.pluginId := record];
      assert View() == before[manifest.pluginId := Plugin(manifest, Installed, {}, false)];
      NextKeepsHealthy(before, Step.Install(manifest), View());
      r := Ok(record.Value());
    }

    /** The recursive validation of the source visits the whole dependency tree below a plugin that is not
        active, yet in a healthy state it never meets a cycle: only the direct dependencies can fail. */
    method ValidateDependencies(id: string, visiting: set<string>)
      returns (e: Option<PluginError>, visiting': set<string>)
      requires Valid() && visiting <= plugins.Keys && id in plugins
      requires if visiting == {} then !Active(plugins[id].Value()) else plugins[id].state == Enabled
      requires forall v :: v in visiting ==> !Reaches(Links(View()), id, v)
      ensures e == FirstProblem(View(), id, plugins[id].manifest.dependencies)
      ensures visiting != {} ==> e == None
      ensures e == None ==> visiting' == visiting
      ensures e.Some? ==> e.value.DependencyUnavailable? || e.value.DependencyIncompatible?
      decreases plugins.Keys - visiting
    {
      HealthyIsValidated(View(), id, visiting);
      hide Distinct, Links, Healthy, Elements, DependenciesOk, Reaches, FirstProblem, SatisfiesRange;
      ghost var view := View();
      visiting' := visiting;
      if id in visiting {
        ReachesRefl(Links(view), id);
        return Some(DependencyCycle(id)), visiting';
      }
      if id !in plugins {
        return Some(DependencyNotInstalled(id)), visiting';
      }
      visiting' := visiting' + {id};
      var dependencies := plugins[id].manifest.dependencies;
      for i := 0 to |dependencies|
        invariant visiting' == visiting + {id}
        invariant FirstProblem(view, id, dependencies) == FirstProblem(view, id, dependencies[i..])
      {
        var d := dependencies[i];
        ProblemAt(view, id, dependencies, i);
        if d.pluginId !in plugins || plugins[d.pluginId].state != Enabled {
          return Some(DependencyUnavailable(id, d.pluginId)), visiting';
        }
        if !SatisfiesRange(plugins[d.pluginId].manifest.version, d.range) {
          return Some(DependencyIncompatible(id, d.pluginId)), visiting';
        }
        NoWayBack(view, id, visiting, i);
        e, visiting' := ValidateDependencies(d.pluginId, visiting');
        if e.Some? {
          return;
        }
      }
      visiting' := visiting' - {id};
      e := None;
    }

    method Enable(id: string, host: Host) returns (r: Result<Plugin, PluginError>)
      requires Valid()
      modifies plugins.Values
      ensures Valid()
      ensures id !in plugins ==> r == Err(NotInstalled) && View() == old(View())
      ensures id in plugins ==> (View(), r) == EnableOutcome(old(View()), apiVersion, id, host)
      ensures id in plugins && old(View())[id].state != Enabled ==>
                exists step :: Next(old(View()), step, View()) && EnableStep(step, id, r, host)
      ensures id in plugins && old(View())[id].state != Enabled ==>
                IsEnabled(old(View()), apiVersion, id, host, View(), r)
      ensures id in plugins && old(View())[id].state == Enabled ==> r == Ok(old(View())[id])
    {
      if id !in plugins {
        return Err(NotInstalled);
      }
      ghost var before := View();
      EnableKeepsHealthy(before, apiVersion, id, host);
      ReachableStates(before, id);
      if before[id].state == Enabled {
        ActiveIsEnabled(before, apiVersion, id, host);
      } else {
        EnableIs(before, apiVersion, id, host);
      }
      hide Healthy, Links, Distinct, EnableOutcome, Elements, IsEnabled, Next, EnableStep, Active;
      r := EnableInstalled(id, host);
    }

    /** The part of an enable after the record was found. */
    method EnableInstalled(id: string, host: Host) returns (r: Result<Plugin, PluginError>)
      requires Valid() && id in plugins
      modifies plugins[id]
      ensures (View(), r) == EnableOutcome(old(View()), apiVersion, id, host)
      ensures forall i :: i in plugins ==> plugins[i].manifest.pluginId == i
    {
      hide Healthy, Links, Distinct, ProvisionOutcome, Elements, IsProvisioned, FirstProblem, SatisfiesRange;
      var record := plugins[id];
      if record.state == Enabled || record.state == Deprecated {
        return Ok(record.Value());
      }
      if record.state == Uninstalled {
        return Err(WasUninstalled);
      }
      var problem, _ := ValidateDependencies(id, {});
      if problem.Some? {
        Fail(id);
        return Err(problem.value);
      }
      if apiVersion == None || !SatisfiesRange(apiVersion.value, record.manifest.apiRange) {
        Fail(id);
        return Err(ApiIncompatible);
      }
      r := Provision(id, host);
    }

    method Provision(id: string, host: Host) returns (r: Result<Plugin, PluginError>)
      requires id in plugins && forall i :: i in plugins ==> plugins[i].manifest.pluginId == i
      modifies plugins[id]
      ensures (View(), r) == ProvisionOutcome(old(View()), id, host)
      ensures IsProvisioned(old(View()), id, host, View(), r)
    {
      ProvisionIs(View(), id, host);
      hide LaunchOutcome, IsProvisioned;
      if host.verify != Accepts {
        Fail(id);
        return Err(if host.verify == Refuses then VerificationFailed else Crashed);
      }
      if host.sandbox != Accepts {
        Fail(id);
        return Err(if host.sandbox == Refuses then SandboxFailed else Crashed);
      }
      if host.factoryThrows {
        Fail(id);
        return Err(Crashed);
      }
      r := Launch(id, host);
    }

    method Launch(id: string, host: Host) returns (r: Result<Plugin, PluginError>)
      requires id in plugins && forall i :: i in plugins ==> plugins[i].manifest.pluginId == i
      modifies plugins[id]
      ensures (View(), r) == LaunchOutcome(old(View()), id, host)
    {
      hide Declared, ReviewThrows;
      var record := plugins[id];
      ghost var before := View();
      record.process := true;
      var reviewed: Option<set<string>> := ReviewDeclaredPermissions(record.manifest, host);
      if host.startThrows || reviewed == None {
        record.state := Failed;
        assert View() == before[id := record.Value()];
        return Err(Crashed);
      }
      record.granted := reviewed.value;
      record.state := Enabled;
      r := Ok(record.Value());
      assert View() == before[id := record.Value()];
    }

    /** Removes a plugin that is not active; an active one goes through the cascade first. */
    method Uninstall(id: string, confirmed: bool, throwing: set<string>) returns (r: Result<(), PluginError>)
      requires Valid()
      modifies this, plugins.Values
      ensures Valid()
      ensures id !in old(View()) ==> r == Err(NotInstalled) && View() == old(View())
      ensures r.Ok? ==>
                && id in old(View())
                && (exists middle :: ReadyToRemove(old(View()), middle, id, throwing) && View() == middle - {id})
                && old(plugins[id]).state == Uninstalled
      ensures r.Err? && id in old(View()) && old(View())[id].state == Installed ==>
                r.error == NotDisabled(Installed) && View() == old(View())
      ensures id in old(View()) && old(View())[id].state in {Disabled, Failed} ==> r.Ok?
      ensures id in old(View()) && old(View())[id].state == Enabled ==>
                var all := Dependents(old(View()), id) + {id};
                r.Ok? <==> (Dependents(old(View()), id) == {} || confirmed) && throwing !! all
      ensures r.Err? && id in old(View()) && old(View())[id].state == Enabled ==>
                View() == old(View()) || Cascade(old(View()), View(), id, throwing, false)
    {
      hide Healthy, Distinct, Links, Cascade, Deactivated, Dependents, UpClosed, Elements, DisabledWithDependents,
        BrokenOff;
      if id !in plugins {
        return Err(NotInstalled);
      }
      var record := plugins[id];
      ghost var before := View();
      ReachableStates(before, id);
      if record.state == Enabled || record.state == Deprecated {
        var disabled := Disable(id, confirmed, throwing);
        CascadeOutcome(before, View(), id, throwing);
        if disabled.Err? {
          return Err(disabled.error);
        }
        CascadeIs(before, View(), id, throwing, true);
      }
      if record.state != Disabled && record.state != Failed {
        return Err(NotDisabled(record.state));
      }
      ghost var middle := View();
      assert ReadyToRemove(before, middle, id, throwing);
      NextKeepsHealthy(middle, Step.Remove(id), middle - {id});
      Remove(id);
      r := Ok(());
    }

    method Remove(id: string)
      requires Valid() && id in plugins && Healthy(View() - {id})
      modifies this, plugins[id]
      ensures Valid() && View() == old(View()) - {id} && old(plugins[id]).state == Uninstalled
    {
      hide Healthy, Distinct, Elements;
      ghost var before := View();
      WithoutElement(order, id);
      plugins[id].state := Uninstalled;
      order := Without(order, id);
      plugins := plugins - {id};
      assert View() == before - {id};
    }

    method RevokePermission(id: string, permission: string) returns (r: Result<Plugin, PluginError>)
      requires Valid()
      modifies plugins.Values
      ensures Valid()
      ensures r.Err? ==> View() == old(View())
      ensures r.Ok? <==> id in plugins && permission in Declared(plugins[id].manifest)
      ensures r.Ok? ==> Next(old(View()), Step.Revoke(id, permission), View()) && r.value == View()[id]
      ensures r.Ok? ==>
                View() == old(View())[id := old(View())[id].(granted := old(View())[id].granted - {permission})]
      ensures r == Err(NotInstalled) <==> id !in plugins
      ensures r.Ok? || r == Err(NotInstalled) || r == Err(PermissionUndeclared)
    {
      hide Healthy, Distinct, Links;
      if id !in plugins {
        return Err(NotInstalled);
      }
      var record := plugins[id];
      if permission !in record.manifest.requiredPermissions && permission !in record.manifest.optionalPermissions {
        return Err(PermissionUndeclared);
      }
      ghost var before := View();
      record.granted := record.granted - {permission};
      assert View() == before[id := before[id].(granted := before[id].granted - {permission})];
      NextKeepsHealthy(before, Step.Revoke(id, permission), View());
      r := Ok(record.Value());
    }

    /** A tool invocation is authorized exactly for an enabled plugin, a provided tool and a granted
        permission: in a reachable state what is granted has been declared. */
    method AuthorizeToolInvocation(id: string, tool: string, permission: string) returns (r: Result<(), PluginError>)
      requires Valid()
      ensures r.Ok? <==> id in plugins && plugins[id].state == Enabled
                         && tool in plugins[id].manifest.providedTools && permission in plugins[id].granted
      ensures r == Err(NotEnabled) <==> id !in plugins || plugins[id].state != Enabled
      ensures r == Err(ToolUndeclared) <==>
                id in plugins && plugins[id].state == Enabled && tool !in plugins[id].manifest.providedTools
      ensures r == Err(PermissionUndeclared) <==>
                id in plugins && plugins[id].state == Enabled && tool in plugins[id].manifest.providedTools
                && permission !in Declared(plugins[id].manifest)
      ensures r == Err(PermissionNotGranted) <==>
                id in plugins && plugins[id].state == Enabled && tool in plugins[id].manifest.providedTools
                && permission in Declared(plugins[id].manifest) - plugins[id].granted
    {
      if id in plugins {
        ReachableStates(View(), id);
        assert View()[id].granted <= Declared(View()[id].manifest);
      }
      if id !in plugins || (plugins[id].state != Enabled && plugins[id].state != Deprecated) {
        return Err(NotEnabled);
      }
      var record := plugins[id];
      if tool !in record.manifest.providedTools {
        return Err(ToolUndeclared);
      }
      if permission !in record.manifest.requiredPermissions && permission !in record.manifest.optionalPermissions {
        return Err(PermissionUndeclared);
      }
      if permission !in record.granted {
        return Err(PermissionNotGranted);
      }
      r := Ok(());
    }

    method Fail(id: string)
      requires id in plugins && forall i :: i in plugins ==> plugins[i].manifest.pluginId == i
      modifies plugins[id]
      ensures View() == old(View())[id := old(View())[id].(state := Failed)]
    {
      plugins[id].state := Failed;
    }

    /** Asks for every declared permission in turn; one throwing review spoils the whole review. */
    method ReviewDeclaredPermissions(manifest: Manifest, host: Host) returns (granted: Option<set<string>>)
      ensures granted == if ReviewThrows(manifest, host) then None else Some(Declared(manifest) * host.approved)
    {
      var declared := manifest.requiredPermissions + manifest.optionalPermissions;
      assert Declared(manifest) == Elements(declared);
      var approved: set<string> := {};
      for i := 0 to |declared|
        invariant approved == Elements(declared[..i]) * host.approved
        invariant Elements(declared[..i]) * host.rejecting == {}
      {
        ElementsTake(declared, i);
        assert declared[i] in Elements(declared);
        if declared[i] in host.rejecting {
          assert declared[i] in Declared(manifest) * host.rejecting;
          return None;
        }
        if declared[i] in host.approved {
          approved := approved + {declared[i]};
        }
      }
      assert declared[..|declared|] == declared;
      granted := Some(approved);
    }

    /** The active dependents of a plugin, in the order the depth-first walk of the source finds them. */
    method EnabledDependents(id: string) returns (dependents: seq<string>)
      requires Valid()
      ensures Distinct(dependents) && Elements(dependents) == Dependents(View(), id)
    {
      DistinctEmpty<string>();
      dependents := VisitDependents(id, []);
      assert Elements<string>([]) == {};
      UpClosedContainsDependents(View(), Elements(dependents), id);
    }

    method VisitDependents(id: string, found: seq<string>) returns (found': seq<string>)
      requires Valid() && Distinct(found) && Elements(found) <= plugins.Keys
      ensures Distinct(found') && Elements(found) <= Elements(found') <= plugins.Keys
      ensures Elements(found') - Elements(found) <= Dependents(View(), id)
      ensures forall e :: e in Links(View()) && e.1 in (Elements(found') - Elements(found)) + {id} ==>
                e.0 in Elements(found')
      decreases plugins.Keys - Elements(found)
    {
      hide Healthy, Distinct, Dependents, Links;
      ghost var view := View();
      found' := found;
      for i := 0 to |order|
        invariant Distinct(found') && Elements(found) <= Elements(found') <= plugins.Keys
        invariant Elements(found') - Elements(found) <= Dependents(view, id)
        invariant forall e :: e in Links(view) && e.1 in Elements(found') - Elements(found) ==> e.0 in Elements(found')
        invariant forall j :: 0 <= j < i && (order[j], id) in Links(view) ==> order[j] in Elements(found')
      {
        var candidate := order[i];
        assert candidate in Elements(order);
        LinkTest(view, candidate, id);
        if (plugins[candidate].state == Enabled || plugins[candidate].state == Deprecated)
           && (exists k :: 0 <= k < |plugins[candidate].manifest.dependencies|
                && plugins[candidate].manifest.dependencies[k].pluginId == id)
           && candidate !in found'
        {
          FoundDependent(view, candidate, id);
          DistinctAppend(found', candidate);
          ElementsAppend(found', candidate);
          ghost var earlier := found';
          found' := VisitDependents(candidate, found' + [candidate]);
        }
      }
      forall e | e in Links(view) && e.1 == id ensures e.0 in Elements(found') {
        LinkTest(view, e.0, id);
        assert e.0 in Elements(order);
      }
    }

    /** Disabling a plugin without active dependents needs no confirmation.  With them, it is refused
        unless confirmed; then everything depending on it is disabled before it. */
    method Disable(id: string, confirmed: bool, throwing: set<string>) returns (r: Result<Plugin, PluginError>)
      requires Valid()
      modifies plugins.Values
      ensures Valid()
      ensures id !in plugins ==> r == Err(NotInstalled) && View() == old(View())
      ensures id in plugins && old(View())[id].state in {Disabled, Failed} ==> r.Ok? && View() == old(View())
      ensures id in plugins && old(View())[id].state !in {Disabled, Failed} && Dependents(old(View()), id) != {}
                && !confirmed ==>
                && r.Err? && r.error.NeedsConfirmation?
                && Elements(r.error.dependents) == Dependents(old(View()), id) && View() == old(View())
      ensures id in plugins && old(View())[id].state !in {Disabled, Failed}
                && (Dependents(old(View()), id) == {} || confirmed) ==>
                Cascade(old(View()), View(), id, throwing, r.Ok?) && (r.Err? ==> r.error == Crashed)
      ensures id in plugins && old(View())[id].state !in {Disabled, Failed}
                && (confirmed || forall q :: q in plugins ==> !ReachesPlus(Links(old(View())), q, id)) ==>
                && (r.Ok? <==>
                      && id !in throwing
                      && forall q :: q in throwing * plugins.Keys ==> !ReachesPlus(Links(old(View())), q, id))
                && if r.Ok? then DisabledWithDependents(old(View()), View(), id)
                   else BrokenOff(old(View()), View(), id, throwing)
      ensures r.Ok? ==> id in plugins && r.value == View()[id] && r.value.state in {Disabled, Failed}
      decreases Dependents(View(), id), 2
    {
      hide Healthy, Distinct, Links, Cascade, Deactivated, Dependents, UpClosed, Elements, ReachesPlus, BrokenOff,
        DisabledWithDependents;
      if id !in plugins {
        return Err(NotInstalled);
      }
      var record := plugins[id];
      ReachableStates(View(), id);
      NoDependentsIff(View(), id);
      if record.state == Disabled || record.state == Failed {
        return Ok(record.Value());
      }
      if record.state == Uninstalled {
        return Err(WasUninstalled);
      }
      var dependents := EnabledDependents(id);
      NoElements(dependents);
      if |dependents| > 0 && !confirmed {
        return Err(NeedsConfirmation(dependents));
      }
      ghost var before := View();
      r := DisableAll(id, dependents, throwing);
      CascadeIs(before, View(), id, throwing, r.Ok?);
    }

    /** First all dependents, then the plugin itself. */
    method DisableAll(id: string, dependents: seq<string>, throwing: set<string>)
      returns (r: Result<Plugin, PluginError>)
      requires Valid() && id in plugins && Elements(dependents) == Dependents(View(), id)
      modifies plugins.Values
      ensures Valid()
      ensures Cascade(old(View()), View(), id, throwing, r.Ok?)
      ensures r == if r.Ok? then Ok(View()[id]) else Err(Crashed)
      ensures r.Ok? ==> View()[id].state == Disabled
      decreases Dependents(View(), id), 1
    {
      hide Healthy, Distinct, Links, Cascade, Deactivated, Dependents, UpClosed, Elements;
      ghost var start := View();
      StartIsAcyclic(start, id);
      var broken := DisableDependents(id, dependents, throwing);
      if broken.Some? {
        CascadeKeepsHealthy(start, View(), id, throwing, false);
        return Err(broken.value);
      }
      r := DisableSingle(id, throwing);
      FinishCascade(start, id, View(), throwing, r.Ok?);
      CascadeKeepsHealthy(start, View(), id, throwing, r.Ok?);
    }

    /** The loop over the dependents, last found first; each is disabled with its own cascade. */
    method DisableDependents(id: string, dependents: seq<string>, throwing: set<string>)
      returns (broken: Option<PluginError>)
      requires Valid() && id in plugins && Elements(dependents) == Dependents(View(), id)
      modifies plugins.Values
      ensures Valid()
      ensures broken == None ==>
                && Dependents(old(View()), id) !! throwing
                && View() == Deactivated(old(View()), Dependents(old(View()), id), None)
      ensures broken.Some? ==> broken.value == Crashed && Cascade(old(View()), View(), id, throwing, false)
      decreases Dependents(View(), id), 0
    {
      hide Healthy, Distinct, Links, Dependents, UpClosed, Deactivated, Cascade;
      ghost var start := View();
      ghost var X: set<string> := {};
      NothingDisabled(start);
      StartIsAcyclic(start, id);
      var k := |dependents|;
      while k > 0
        invariant 0 <= k <= |dependents|
        invariant Valid() && View() == Deactivated(start, X, None)
        invariant UpClosed(start, X) && X <= Dependents(start, id) && X !! throwing
        invariant forall j :: k <= j < |dependents| ==> dependents[j] in X
      {
        k := k - 1;
        var d := dependents[k];
        assert d in Elements(dependents);
        DependentsShrink(start, X, id, d);
        DependentState(start, id, X, d);
        var disabled := Disable(d, true, throwing);
        if d !in X {
          if disabled.Ok? {
            ExtendCascade(start, id, X, d, View(), throwing);
            X := X + Dependents(start, d) + {d};
          } else {
            BreakCascade(start, id, X, d, View(), throwing);
          }
        }
        if disabled.Err? {
          return Some(disabled.error);
        }
      }
      forall d | d in Elements(dependents) ensures d in X {
        var j :| 0 <= j < |dependents| && dependents[j] == d;
      }
      assert X == Dependents(start, id);
      broken := None;
    }

    method DisableSingle(id: string, throwing: set<string>) returns (r: Result<Plugin, PluginError>)
      requires id in plugins && forall i :: i in plugins ==> plugins[i].manifest.pluginId == i
      modifies plugins[id]
      ensures View() == if id in throwing then old(View())[id := old(View())[id].(state := Failed)]
                        else old(View())[id := DisabledForm(old(View())[id])]
      ensures r == if id in throwing then Err(Crashed) else Ok(View()[id])
    {
      var record := plugins[id];
      if id in throwing {
        record.state := Failed;
        return Err(Crashed);
      }
      record.process := false;
      record.granted := {};
      record.state := Disabled;
      r := Ok(record.Value());
    }
  }

  /** What an uninstall does before it removes the record. */
  ghost predicate ReadyToRemove(before: Plugins, middle: Plugins, id: string, throwing: set<string>) {
    && id in before && id in middle && middle[id].state in {Disabled, Failed}
    && (if before[id].state == Enabled then
          Cascade(before, middle, id, throwing, true) && DisabledWithDependents(before, middle, id)
        else middle == before)
  }

  lemma CascadeOutcome(before: Plugins, after: Plugins, id: string, throwing: set<string>)
    requires id in before
    ensures Cascade(before, after, id, throwing, true) ==>
              id in after && after[id].state == Disabled && throwing !! Dependents(before, id) + {id}
    ensures Cascade(before, after, id, throwing, false) ==> !(throwing !! Dependents(before, id) + {id})
  {
  }

  lemma ReachableStates(plugins: Plugins, id: string)
    requires Healthy(plugins) && id in plugins
    ensures plugins[id].state in {Installed, Enabled, Disabled, Failed}
  {
  }

  function Without(s: seq<string>, x: string): seq<string> {
    if s == [] then [] else if s[0] == x then Without(s[1..], x) else [s[0]] + Without(s[1..], x)
  }

  lemma {:induction false} WithoutElement(s: seq<string>, x: string)
    requires Distinct(s)
    ensures Elements(Without(s, x)) == Elements(s) - {x} && Distinct(Without(s, x))
  {
    if s != [] {
      WithoutElement(s[1..], x);
      assert s == [s[0]] + s[1..];
      assert Elements(s) == {s[0]} + Elements(s[1..]);
      assert s[0] !in Elements(s[1..]);
      if s[0] != x {
        var rest := Without(s[1..], x);
        assert Elements([s[0]] + rest) == {s[0]} + Elements(rest);
        assert s[0] !in Elements(rest);
      }
    }
  }

  lemma NoElements(s: seq<string>)
    ensures Elements(s) == {} <==> s == []
  {
    if s != [] {
      assert s[0] in Elements(s);
    }
  }

  lemma NothingDisabled(plugins: Plugins)
    ensures Deactivated(plugins, {}, None) == plugins && UpClosed(plugins, {})
  {
  }

  lemma StartIsAcyclic(plugins: Plugins, id: string)
    requires Healthy(plugins)
    ensures Acyclic(Links(plugins)) && id !in Dependents(plugins, id)
  {
    assert !ReachesPlus(Links(plugins), id, id);
  }

  /** During a cascade a dependent is still enabled, unless it was disabled by the cascade itself. */
  lemma DependentState(plugins: Plugins, id: string, X: set<string>, d: string)
    requires Healthy(plugins) && d in Dependents(plugins, id)
    ensures d in plugins && plugins[d].state == Enabled
    ensures Deactivated(plugins, X, None)[d].state == if d in X then Disabled else Enabled
  {
    var b := FirstStep(Links(plugins), d, id);
    var i := LinkSource(plugins, (d, b));
  }

  /** The last step of a cascade, once all dependents are disabled. */
  lemma FinishCascade(start: Plugins, id: string, after: Plugins, throwing: set<string>, ok: bool)
    requires id in start && Dependents(start, id) !! throwing && ok == (id !in throwing)
    requires id !in Dependents(start, id)
    requires var middle := Deactivated(start, Dependents(start, id), None);
             after == if id in throwing then middle[id := middle[id].(state := Failed)]
               else middle[id := DisabledForm(middle[id])]
    ensures Cascade(start, after, id, throwing, ok)
  {
    DependentsUpClosed(start, id);
    var X := Dependents(start, id);
    DeactivateOne(start, X, id);
    hide Dependents, UpClosed, Links, Deactivated;
    if !ok {
      assert BrokenCascade(start, after, id, throwing, X, id);
    }
  }

  lemma DeactivateOne(plugins: Plugins, X: set<string>, id: string)
    requires id in plugins && id !in X
    ensures var middle := Deactivated(plugins, X, None);
            && middle[id := middle[id].(state := Failed)] == Deactivated(plugins, X, Some(id))
            && middle[id := DisabledForm(middle[id])] == Deactivated(plugins, X + {id}, None)
  {
  }

  lemma LinkTest(plugins: Plugins, p: string, id: string)
    ensures (p, id) in Links(plugins) <==>
            p in plugins && Active(plugins[p])
            && exists k :: 0 <= k < |plugins[p].manifest.dependencies|
                 && plugins[p].manifest.dependencies[k].pluginId == id
  {
    if (p, id) in Links(plugins) {
      var k := LinkSource(plugins, (p, id));
    }
    if p in plugins && Active(plugins[p]) {
      if k :| 0 <= k < |plugins[p].manifest.dependencies| && plugins[p].manifest.dependencies[k].pluginId == id {
        LinkOf(plugins, p, k);
      }
    }
  }

  lemma FoundDependent(plugins: Plugins, q: string, id: string)
    requires (q, id) in Links(plugins)
    ensures q in Dependents(plugins, id) && Dependents(plugins, q) <= Dependents(plugins, id)
  {
    EdgeReaches(Links(plugins), q, id);
    DependentsOfDependent(plugins, id, q);
  }

  lemma HealthyIsValidated(plugins: Plugins, id: string, visiting: set<string>)
    requires Healthy(plugins) && id in plugins
    ensures plugins[id].state == Enabled ==> FirstProblem(plugins, id, plugins[id].manifest.dependencies) == None
  {
    NoProblemIff(plugins, id, plugins[id].manifest.dependencies);
    if plugins[id].state == Enabled {
      assert DependenciesOk(plugins, plugins[id].manifest);
    }
  }

  /** Going down a dependency, no plugin on the way can be met again. */
  lemma NoWayBack(plugins: Plugins, id: string, visiting: set<string>, i: nat)
    requires Healthy(plugins) && id in plugins && i < |plugins[id].manifest.dependencies|
    requires if visiting == {} then !Active(plugins[id]) else plugins[id].state == Enabled
    requires forall v :: v in visiting ==> !Reaches(Links(plugins), id, v)
    requires Provides(plugins, plugins[id].manifest.dependencies[i])
    ensures forall v :: v in visiting + {id} ==>
              !Reaches(Links(plugins), plugins[id].manifest.dependencies[i].pluginId, v)
  {
    var links := Links(plugins);
    var d := plugins[id].manifest.dependencies[i].pluginId;
    if Active(plugins[id]) {
      LinkOf(plugins, id, i);
      EdgeReaches(links, id, d);
      forall v | v in visiting + {id} ensures !Reaches(links, d, v) {
        if Reaches(links, d, v) {
          ReachesTrans(links, id, d, v);
          ReachesPlusTrans(links, id, d, v);
        }
      }
    } else {
      NothingLinksTo(plugins, id);
      if ReachesPlus(links, d, id) {
        var b := LastStep(links, d, id);
      }
      PlusIsReaches(links, d, id);
    }
  }

  /** An enable either commits the plugin with the approved part of its declared permissions, or fails. */
  ghost predicate EnableStep(step: Step, id: string, r: Result<Plugin, PluginError>, host: Host) {
    match step
    case Enable(target, granted) => target == id && r.Ok? && r.value.state == Enabled && r.value.granted == granted
      && granted <= host.approved
    case FailToEnable(target, process) => target == id && r.Err?
    case _ => false
  }

  lemma EnableKeepsHealthy(plugins: Plugins, api: Option<Semver>, id: string, host: Host)
    requires Healthy(plugins) && id in plugins
    ensures Healthy(EnableOutcome(plugins, api, id, host).0)
    ensures plugins[id].state == Enabled <==> Active(plugins[id])
    ensures plugins[id].state != Enabled ==>
              exists step :: Next(plugins, step, EnableOutcome(plugins, api, id, host).0)
                             && EnableStep(step, id, EnableOutcome(plugins, api, id, host).1, host)
  {
    var p := plugins[id];
    var outcome := EnableOutcome(plugins, api, id, host);
    NoProblemIff(plugins, id, p.manifest.dependencies);
    if !Active(p) {
      var step :=
        if outcome.1.Ok? then Enable(id, outcome.1.value.granted) else FailToEnable(id, outcome.0[id].process);
      assert Next(plugins, step, outcome.0) && EnableStep(step, id, outcome.1, host);
      NextKeepsHealthy(plugins, step, outcome.0);
    }
  }
}
