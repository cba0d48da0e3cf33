/** Start and stop order of services/runtime/src/runtime-manager.ts: a depth-first search over the
    registered services that either finds an order with dependencies first or reports why none exists. */
module StartOrders {
  import opened Wrappers
  import opened Graphs

  datatype ServiceDefinition = ServiceDefinition(
    name: string, dependencies: seq<string>, critical: bool,
    restartWindowMs: int, maxImmediateRestarts: int, backoffCeilingMs: int)

  datatype OrderError = CycleAt(service: string) | MissingService(service: string)

  type Definitions = map<string, ServiceDefinition>

  ghost function Dependencies(services: Definitions): set<(string, string)> {
    set n, d | n in services && d in services[n].dependencies :: (n, d)
  }

  /** All dependencies are registered and no service depends on itself through others. */
  ghost predicate Startable(services: Definitions) {
    (forall n, d :: n in services && d in services[n].dependencies ==> d in services)
    && Acyclic(Dependencies(services))
  }

  /** A list of services that contains every dependency of a listed service before that service. */
  ghost predicate Ordered(services: Definitions, order: seq<string>) {
    Distinct(order) && Elements(order) <= services.Keys && DependenciesFirst(Dependencies(services), order)
  }

  /** The order exists exactly when the services are startable; then it lists each service once, with
      dependencies first.  Otherwise the error names what is wrong. */
  method StartOrder(services: Definitions, names: seq<string>) returns (r: Result<seq<string>, OrderError>)
    requires Elements(names) == services.Keys
    ensures r.Ok? <==> Startable(services)
    ensures r.Ok? ==> Ordered(services, r.value) && Elements(r.value) == services.Keys
    ensures r.Err? && r.error.CycleAt? ==> ReachesPlus(Dependencies(services), r.error.service, r.error.service)
    ensures r.Err? && r.error.MissingService? ==>
              r.error.service !in services && exists n :: (n, r.error.service) in Dependencies(services)
  {
    var visited: set<string>, order: seq<string> := {}, [];
    for i := 0 to |names|
      invariant Ordered(services, order) && Elements(order) == visited
      invariant Elements(names[..i]) <= visited
    {
      assert names[i] in Elements(names);
      var e, visiting;
      e, visiting, visited, order := Visit(services, names[i], {}, visited, order, []);
      if e.Some? {
        FailureIsReal(services, e.value);
        return Err(e.value);
      }
      assert names[..i + 1] == names[..i] + [names[i]];
    }
    assert names[..|names|] == names;
    OrderShowsStartable(services, order);
    r := Ok(order);
  }

  /** One recursive call of the search.  The sets `visiting` and `visited` and the list `order` are the
      variables the closure in the source captures; `stack` is the chain of calls in progress. */
  method Visit(services: Definitions, name: string, visiting: set<string>, visited: set<string>, order: seq<string>,
               ghost stack: seq<string>)
    returns (e: Option<OrderError>, visiting': set<string>, visited': set<string>, order': seq<string>)
    requires Ordered(services, order) && Elements(order) == visited
    requires visiting !! visited && visiting == Elements(stack) && visiting <= services.Keys
    requires IsPath(Dependencies(services), stack + [name])
    requires stack == [] ==> name in services
    ensures e == None ==> visiting' == visiting && visiting !! visited'
    ensures e == None ==> Ordered(services, order') && Elements(order') == visited'
    ensures e == None ==> visited + {name} <= visited'
    ensures e.Some? ==> Justified(services, e.value)
    decreases services.Keys - visiting
  {
    visiting', visited', order' := visiting, visited, order;
    if name in visited {
      return None, visiting', visited', order';
    }
    if name in visiting {
      StackCycle(Dependencies(services), stack, name);
      return Some(CycleAt(name)), visiting', visited', order';
    }
    if name !in services {
      assert (stack + [name])[|stack| - 1 + 1] == name;
      assert ((stack + [name])[|stack| - 1], name) in Dependencies(services);
      return Some(MissingService(name)), visiting', visited', order';
    }
    visiting' := visiting' + {name};
    ElementsAppend(stack, name);
    var dependencies := services[name].dependencies;
    for i := 0 to |dependencies|
      invariant visiting' == visiting + {name} && visiting' !! visited'
      invariant Ordered(services, order') && Elements(order') == visited'
      invariant visited <= visited'
      invariant forall j :: 0 <= j < i ==> dependencies[j] in visited'
    {
      ExtendPath(Dependencies(services), stack + [name], dependencies[i]);
      e, visiting', visited', order' := Visit(services, dependencies[i], visiting', visited', order', stack + [name]);
      if e.Some? {
        return;
      }
    }
    visiting' := visiting' - {name};
    AppendOrdered(services, order', name);
    ElementsAppend(order', name);
    visited' := visited' + {name};
    order' := order' + [name];
    e := None;
  }

  /** What an error of the search testifies to. */
  ghost predicate Justified(services: Definitions, e: OrderError) {
    match e
    case CycleAt(n) => ReachesPlus(Dependencies(services), n, n)
    case MissingService(n) => n !in services && exists m :: (m, n) in Dependencies(services)
  }

  lemma FailureIsReal(services: Definitions, e: OrderError)
    requires Justified(services, e)
    ensures !Startable(services)
  {
  }

  lemma AppendOrdered(services: Definitions, order: seq<string>, n: string)
    requires Ordered(services, order) && n in services && n !in order
    requires forall d :: d in services[n].dependencies ==> d in order
    ensures Ordered(services, order + [n])
  {
    var edges := Dependencies(services);
    var longer := order + [n];
    forall i, b | 0 <= i < |longer| && (longer[i], b) in edges ensures b in longer[..i] {
      if i < |order| {
        assert (order[i], b) in edges && longer[..i] == order[..i];
      } else {
        assert longer[..i] == order;
      }
    }
    ElementsAppend(order, n);
  }

  /** A complete order with dependencies first shows that the services are startable. */
  lemma OrderShowsStartable(services: Definitions, order: seq<string>)
    requires Ordered(services, order) && Elements(order) == services.Keys
    ensures Startable(services)
  {
    var edges := Dependencies(services);
    forall e | e in edges ensures e.0 in order && e.1 in services {
      assert e.0 in Elements(order);
      var i :| 0 <= i < |order| && order[i] == e.0;
      assert (order[i], e.1) in edges;
      assert e.1 in order[..i];
      assert e.1 in Elements(order);
    }
    forall n, d | n in services && d in services[n].dependencies ensures d in services {
      assert (n, d) in edges;
    }
    OrderRefutesCycles(edges, order);
  }
}
