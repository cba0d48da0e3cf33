/** The knowledge graph of services/runtime/src/knowledge-graph.ts: typed nodes, typed directed edges
    guarded against cycles by a depth-first search, and a bounded breadth-first query. */
module KnowledgeGraphs {
  import opened Wrappers
  import opened Graphs

  datatype NodeType =
    | User | Project | File | Application | Task | Decision | Tool | Conversation | Person | Goal | Device
    | ForeignNode(nodeName: string)

  datatype EdgeType =
    | BelongsTo | DependsOn | ProducedBy | PerformedOn | RelatedTo | Involves | Pursues | Advances | Blocks | ResidesOn
    | ForeignEdge(edgeName: string)

  datatype GraphNode = GraphNode(id: string, nodeType: NodeType, name: string, properties: map<string, string>,
                                 active: bool)

  datatype GraphEdge = GraphEdge(id: string, edgeType: EdgeType, source: string, target: string, weight: real)

  datatype Direction = Incoming | Outgoing | Both | ForeignDirection(directionName: string)

  datatype GraphError = OntologyViolation | NodeMissing | InvalidQuery

  datatype QueryResult = QueryResult(root: GraphNode, nodes: seq<GraphNode>, edges: seq<GraphEdge>)

  /** The fixed ontology: which node types an edge type may connect. */
  predicate ValidDirection(edgeType: EdgeType, source: NodeType, target: NodeType) {
    match edgeType
    case BelongsTo => source == File && target == Project
    case DependsOn => source == Project && target == Tool
    case ProducedBy => source == Decision && (target == Task || target == Conversation)
    case PerformedOn => source == Task && (target == File || target == Application)
    case Involves => (source == Conversation || source == Task) && target == Person
    case Pursues => source == User && target == Goal
    case Advances => source == Task && target == Goal
    case ResidesOn => source == File && target == Device
    case Blocks => target == Goal
    case RelatedTo => true
    case ForeignEdge(_) => false
  }

  /** The ontology read from the ends of an edge. */
  ghost function Admissible(source: NodeType, target: NodeType): set<EdgeType> {
    {RelatedTo}
    + (if target == Goal then {Blocks} else {})
    + match source
      case File => (if target == Project then {BelongsTo} else if target == Device then {ResidesOn} else {})
      case Project => (if target == Tool then {DependsOn} else {})
      case Decision => (if target == Task || target == Conversation then {ProducedBy} else {})
      case Task => (if target == File || target == Application then {PerformedOn}
                    else if target == Person then {Involves} else if target == Goal then {Advances} else {})
      case Conversation => (if target == Person then {Involves} else {})
      case User => (if target == Goal then {Pursues} else {})
      case _ => {}
  }

  lemma OntologyByEnds(edgeType: EdgeType, source: NodeType, target: NodeType)
    ensures ValidDirection(edgeType, source, target) <==> edgeType in Admissible(source, target)
  {
  }

  /** The directed links of a list of edges. */
  ghost function Links(edges: seq<GraphEdge>): set<(string, string)> {
    set e | e in edges :: (e.source, e.target)
  }

  /** Nodes are stored under their own identifiers, edge identifiers are distinct, and every edge
      joins two stored nodes in a direction the ontology allows. */
  ghost predicate Consistent(nodes: map<string, GraphNode>, edges: seq<GraphEdge>) {
    && (forall id :: id in nodes ==> nodes[id].id == id && !nodes[id].nodeType.ForeignNode?)
    && (forall i, j :: 0 <= i < j < |edges| ==> edges[i].id != edges[j].id)
    && (forall e :: e in edges ==>
          && e.source in nodes && e.target in nodes && e.source != e.target
          && ValidDirection(e.edgeType, nodes[e.source].nodeType, nodes[e.target].nodeType))
  }

  /** What holds of the two maps in every reachable state. */
  ghost predicate WellFormed(nodes: map<string, GraphNode>, edges: seq<GraphEdge>) {
    Consistent(nodes, edges) && Acyclic(Links(edges))
  }

  /** The steps a query may take: along an edge, against it, or both. */
  predicate TypeMatches(e: GraphEdge, edgeType: Option<EdgeType>) {
    edgeType == None || edgeType == Some(e.edgeType)
  }

  predicate AllowedAt(e: GraphEdge, direction: Direction, edgeType: Option<EdgeType>, nodeId: string) {
    && TypeMatches(e, edgeType)
    && (match direction
        case Outgoing => e.source == nodeId
        case Incoming => e.target == nodeId
        case _ => e.source == nodeId || e.target == nodeId)
  }

  function Neighbor(e: GraphEdge, nodeId: string): string {
    if e.source == nodeId then e.target else e.source
  }

  ghost function Steps(edges: seq<GraphEdge>, direction: Direction, edgeType: Option<EdgeType>): set<(string, string)> {
    (set e | e in edges && AllowedAt(e, direction, edgeType, e.source) :: (e.source, e.target)) +
    (set e | e in edges && AllowedAt(e, direction, edgeType, e.target) :: (e.target, e.source))
  }

  /** Exactly the other nodes within `depth` admissible steps of the root, and exactly the admissible
      edges at nodes within `depth - 1` steps. */
  ghost predicate IsNeighborhood(edges: seq<GraphEdge>, direction: Direction, edgeType: Option<EdgeType>,
                                 root: string, depth: nat, ids: seq<string>, found: seq<GraphEdge>)
    requires depth >= 1
  {
    && (forall id :: id in ids <==> id != root && Within(Steps(edges, direction, edgeType), root, id, depth))
    && (forall e :: e in found <==>
          e in edges && exists v :: AllowedAt(e, direction, edgeType, v) &&
                                    Within(Steps(edges, direction, edgeType), root, v, depth - 1))
  }

  /** The admissible edges incident to a node of S. */
  ghost function Touched(edges: seq<GraphEdge>, direction: Direction, edgeType: Option<EdgeType>,
                         S: set<string>): set<GraphEdge> {
    set e, v | v in S && e in edges && AllowedAt(e, direction, edgeType, v) :: e
  }

  ghost function NodeIds(s: seq<GraphNode>): seq<string> {
    seq(|s|, i requires 0 <= i < |s| => s[i].id)
  }

  class KnowledgeGraph {
    var nodes: map<string, GraphNode>
    var edges: seq<GraphEdge>  // in insertion order

    ghost predicate Valid()
      reads this
    {
      WellFormed(nodes, edges)
    }

    constructor ()
      ensures Valid() && nodes == map[] && edges == []
    {
      nodes := map[];
      edges := [];
      new;
      NoEdgesAcyclic();
    }

    method AddNode(node: GraphNode) returns (r: Result<GraphNode, GraphError>)
      requires Valid()
      modifies this
      ensures Valid() && edges == old(edges)
      ensures r == if node.nodeType.ForeignNode? || node.id in old(nodes) then Err(OntologyViolation) else Ok(node)
      ensures nodes == if r.Ok? then old(nodes)[node.id := node] else old(nodes)
    {
      if node.nodeType.ForeignNode? || node.id in nodes {
        return Err(OntologyViolation);
      }
      nodes := nodes[node.id := node];
      r := Ok(node);
    }

    method MarkInactive(nodeId: string) returns (r: Result<GraphNode, GraphError>)
      requires Valid()
      modifies this
      ensures Valid() && edges == old(edges)
      ensures r == if nodeId in old(nodes) then Ok(old(nodes)[nodeId].(active := false)) else Err(NodeMissing)
      ensures nodes == if r.Ok? then old(nodes)[nodeId := r.value] else old(nodes)
    {
      if nodeId !in nodes {
        return Err(NodeMissing);
      }
      var updated := nodes[nodeId].(active := false);
      nodes := nodes[nodeId := updated];
      r := Ok(updated);
    }

    /** An edge is accepted exactly when its endpoints exist, the ontology allows it, its identifier is
        new and the graph stays without cycles. */
    method AddEdge(edge: GraphEdge) returns (r: Result<GraphEdge, GraphError>)
      requires Valid()
      modifies this
      ensures Valid() && nodes == old(nodes)
      ensures edges == if r.Ok? then old(edges) + [edge] else old(edges)
      ensures r.Ok? <==>
              && edge.source in nodes && edge.target in nodes
              && edge.edgeType in Admissible(nodes[edge.source].nodeType, nodes[edge.target].nodeType)
              && (forall e :: e in old(edges) ==> e.id != edge.id)
              && Acyclic(Links(old(edges) + [edge]))
      ensures r == Err(NodeMissing) <==> edge.source !in nodes || edge.target !in nodes
      ensures r in {Ok(edge), Err(NodeMissing), Err(OntologyViolation)}
    {
      if edge.source !in nodes || edge.target !in nodes {
        return Err(NodeMissing);
      }
      OntologyByEnds(edge.edgeType, nodes[edge.source].nodeType, nodes[edge.target].nodeType);
      hide Admissible;
      if edge.edgeType.ForeignEdge?
        || !ValidDirection(edge.edgeType, nodes[edge.source].nodeType, nodes[edge.target].nodeType) {
        return Err(OntologyViolation);
      }
      var closesCycle := PathExists(edge.target, edge.source);
      GuardIsExact(edges, edge);
      if (exists i :: 0 <= i < |edges| && edges[i].id == edge.id) || closesCycle {
        return Err(OntologyViolation);
      }
      edges := edges + [edge];
      r := Ok(edge);
    }

    method PathExists(start: string, target: string) returns (found: bool)
      ensures found <==> Reaches(Links(edges), start, target)
    {
      ghost var universe := Endpoints(Links(edges)) + {start};
      var visited;
      found, visited := Visit(start, target, {}, universe);
      if !found && Reaches(Links(edges), start, target) {
        ClosedContainsReachable(Links(edges), visited, start, target);
      }
    }

    /** The depth-first search shares one visited set between all branches and stops at the first
        success.  When it fails, every node it added has all its successors visited. */
    method Visit(nodeId: string, target: string, visited: set<string>, ghost universe: set<string>)
      returns (found: bool, visited': set<string>)
      requires visited <= universe && nodeId in universe && Endpoints(Links(edges)) <= universe
      requires target !in visited
      ensures found ==> Reaches(Links(edges), nodeId, target)
      ensures !found ==> visited <= visited' <= universe && nodeId in visited' && target !in visited'
      ensures !found ==> forall a, b :: a in visited' - visited && (a, b) in Links(edges) ==> b in visited'
      decreases universe - visited
    {
      if nodeId == target {
        ReachesRefl(Links(edges), nodeId);
        return true, visited;
      }
      if nodeId in visited {
        return false, visited;
      }
      visited' := visited + {nodeId};
      for i := 0 to |edges|
        invariant visited + {nodeId} <= visited' <= universe && target !in visited'
        invariant forall a, b :: a in visited' - visited - {nodeId} && (a, b) in Links(edges) ==> b in visited'
        invariant forall j :: 0 <= j < i && edges[j].source == nodeId ==> edges[j].target in visited'
      {
        if edges[i].source == nodeId {
          assert (nodeId, edges[i].target) in Links(edges);
          found, visited' := Visit(edges[i].target, target, visited', universe);
          if found {
            EdgeReaches(Links(edges), nodeId, edges[i].target);
            ReachesTrans(Links(edges), nodeId, edges[i].target, target);
            return;
          }
        }
      }
      found := false;
    }

    /** The query returns, each once, exactly the other nodes within `depth` admissible steps of the
        root and exactly the admissible edges at nodes within `depth - 1` steps. */
    method Query(nodeId: string, direction: Direction, edgeType: Option<EdgeType>, depth: real)
      returns (r: Result<QueryResult, GraphError>)
      requires Valid()
      ensures r == Err(NodeMissing) <==> nodeId !in nodes
      ensures r == Err(InvalidQuery) <==>
              nodeId in nodes && (direction.ForeignDirection? || depth < 1.0 || depth > 3.0
                || depth.Floor as real != depth)
      ensures r == Err(OntologyViolation) <==>
              && nodeId in nodes && !direction.ForeignDirection? && depth in {1.0, 2.0, 3.0}
              && edgeType.Some? && edgeType.value.ForeignEdge?
      ensures r.Ok? <==>
              && nodeId in nodes && !direction.ForeignDirection? && depth in {1.0, 2.0, 3.0}
              && !(edgeType.Some? && edgeType.value.ForeignEdge?)
      ensures r.Ok? ==> r.value.root == nodes[nodeId]
      ensures r.Ok? ==> Distinct(NodeIds(r.value.nodes)) && Distinct(r.value.edges)
      ensures r.Ok? ==> forall n :: n in r.value.nodes ==> n.id in nodes && n == nodes[n.id]
      ensures r.Ok? ==> IsNeighborhood(edges, direction, edgeType, nodeId, depth.Floor, NodeIds(r.value.nodes),
                r.value.edges)
      ensures r.Ok? ==>
                var steps, near: nat := Steps(edges, direction, edgeType), depth.Floor - 1;
                && (forall a, b :: (a, b) in steps <==>
                      exists e :: e in edges && Asked(e, edgeType)
                                  && ((direction != Incoming && e.source == a && e.target == b)
                                      || (direction != Outgoing && e.source == b && e.target == a)))
                && (forall id ::
                      id in NodeIds(r.value.nodes) <==> id != nodeId && Within(steps, nodeId, id, near + 1))
                && (forall e :: e in r.value.edges <==>
                      && e in edges && Asked(e, edgeType)
                      && ((direction != Incoming && Within(steps, nodeId, e.source, near))
                          || (direction != Outgoing && Within(steps, nodeId, e.target, near))))
    {
      hide Acyclic, Consistent, IsNeighborhood, Distinct, Steps, Touched, Ball, Within, Elements, Asked;
      if nodeId !in nodes {
        return Err(NodeMissing);
      }
      if direction.ForeignDirection? {
        return Err(InvalidQuery);
      }
      if depth < 1.0 || depth > 3.0 || depth.Floor as real != depth {
        return Err(InvalidQuery);
      }
      if edgeType.Some? && edgeType.value.ForeignEdge? {
        return Err(OntologyViolation);
      }
      var resultNodes, resultEdges := Search(nodeId, direction, edgeType, depth.Floor);
      ghost var reach := depth.Floor;
      SearchIsExact(edges, direction, edgeType, nodeId, reach, resultNodes, resultEdges);
      forall a, b { StepsByEnds(edges, direction, edgeType, a, b); }
      forall e { EdgesByEnds(edges, direction, edgeType, nodeId, reach, NodeIds(resultNodes), resultEdges, e); }
      NodesAreNear(edges, direction, edgeType, nodeId, reach, NodeIds(resultNodes), resultEdges);
      r := Ok(QueryResult(nodes[nodeId], resultNodes, resultEdges));
    }

    /** The breadth-first search itself, for any depth. */
    method Search(rootId: string, direction: Direction, edgeType: Option<EdgeType>, depth: nat)
      returns (resultNodes: seq<GraphNode>, resultEdges: seq<GraphEdge>)
      requires Consistent(nodes, edges) && rootId in nodes && depth >= 1
      ensures Distinct(NodeIds(resultNodes)) && Distinct(resultEdges)
      ensures forall n :: n in resultNodes ==> n.id in nodes && n == nodes[n.id]
      ensures Elements(NodeIds(resultNodes)) == Ball(Steps(edges, direction, edgeType), rootId, depth) - {rootId}
      ensures Elements(resultEdges) ==
              Touched(edges, direction, edgeType, Ball(Steps(edges, direction, edgeType), rootId, depth - 1))
    {
      hide Consistent, Steps, Distinct, Ball, Successors, Touched;
      ghost var steps := Steps(edges, direction, edgeType);
      DistinctEmpty<GraphEdge>();
      DistinctEmpty<string>();
      assert NodeIds([]) == [];
      SearchStart(edges, direction, edgeType, rootId);
      var visited := {rootId};
      var frontier := [rootId];
      resultNodes, resultEdges := [], [];
      ghost var inner: set<string> := {};  // the nodes already expanded
      var level := 0;
      while level < depth && |frontier| > 0
        invariant 0 <= level <= depth
        invariant inner == if level == 0 then {} else Ball(steps, rootId, level - 1)
        invariant visited == Ball(steps, rootId, level) == inner + Elements(frontier)
        invariant Recorded(nodes, visited, rootId, resultNodes) && Distinct(resultEdges)
        invariant Elements(resultEdges) == Touched(edges, direction, edgeType, inner)
      {
        ghost var ball := inner + Elements(frontier);
        LevelSuccessors(steps, rootId, level, inner);
        visited, frontier, resultNodes, resultEdges :=
          ExpandLevel(frontier, direction, edgeType, visited, resultNodes, resultEdges, rootId, inner);
        inner := ball;
        NextBall(steps, rootId, level, ball);
        level := level + 1;
      }
      SearchSettled(steps, rootId, level, depth, inner, frontier);
    }

    /** All nodes of one frontier, in order. */
    method ExpandLevel(frontier: seq<string>, direction: Direction, edgeType: Option<EdgeType>, seen: set<string>,
                       nodesSoFar: seq<GraphNode>, edgesSoFar: seq<GraphEdge>, ghost rootId: string,
                         ghost inner: set<string>)
      returns (visited: set<string>, next: seq<string>, resultNodes: seq<GraphNode>, resultEdges: seq<GraphEdge>)
      requires Consistent(nodes, edges)
      requires Recorded(nodes, seen, rootId, nodesSoFar) && Distinct(edgesSoFar)
      requires Elements(edgesSoFar) == Touched(edges, direction, edgeType, inner)
      requires Successors(Steps(edges, direction, edgeType), inner) <= seen
      ensures visited == seen + Elements(next)
      ensures visited == seen + Successors(Steps(edges, direction, edgeType), inner + Elements(frontier))
      ensures Recorded(nodes, visited, rootId, resultNodes) && Distinct(resultEdges)
      ensures Elements(resultEdges) == Touched(edges, direction, edgeType, inner + Elements(frontier))
    {
      visited, next, resultNodes, resultEdges := seen, [], nodesSoFar, edgesSoFar;
      ghost var before := inner;
      assert inner + Elements(frontier[..0]) == inner;
      hide Elements, Recorded, Distinct, Steps, Successors, Touched, TouchedAt, NeighborsAt, Consistent;
      for i := 0 to |frontier|
        invariant before == inner + Elements(frontier[..i])
        invariant visited == seen + Elements(next)
        invariant visited == seen + Successors(Steps(edges, direction, edgeType), before)
        invariant Recorded(nodes, visited, rootId, resultNodes) && Distinct(resultEdges)
        invariant Elements(resultEdges) == Touched(edges, direction, edgeType, before)
      {
        var nodeId := frontier[i];
        ExpandOne(edges, direction, edgeType, before, nodeId);
        visited, next, resultNodes, resultEdges :=
          Expand(nodeId, direction, edgeType, visited, next, resultNodes, resultEdges, rootId, seen);
        ElementsTake(frontier, i);
        before := before + {nodeId};
      }
      assert frontier[..|frontier|] == frontier;
    }

    /** One node of the frontier: its admissible edges, and the neighbours not seen before. */
    method Expand(nodeId: string, direction: Direction, edgeType: Option<EdgeType>, seen: set<string>,
                  queue: seq<string>,
                  nodesSoFar: seq<GraphNode>, edgesSoFar: seq<GraphEdge>, ghost rootId: string, ghost ball: set<string>)
      returns (visited: set<string>, next: seq<string>, resultNodes: seq<GraphNode>, resultEdges: seq<GraphEdge>)
      requires Consistent(nodes, edges)
      requires seen == ball + Elements(queue)
      requires Recorded(nodes, seen, rootId, nodesSoFar) && Distinct(edgesSoFar)
      requires Elements(edgesSoFar) <= Elements(edges)
      ensures visited == ball + Elements(next)
      ensures visited == seen + NeighborsAt(edges, direction, edgeType, nodeId)
      ensures Recorded(nodes, visited, rootId, resultNodes) && Distinct(resultEdges)
      ensures Elements(resultEdges) == Elements(edgesSoFar) + TouchedAt(edges, direction, edgeType, nodeId)
    {
      hide Recorded, Distinct, NeighborsAt, TouchedAt, AllowedAt;
      NoEdgeYet(edges, direction, edgeType, nodeId);
      visited, next, resultNodes, resultEdges := seen, queue, nodesSoFar, edgesSoFar;
      for j := 0 to |edges|
        invariant visited == ball + Elements(next)
        invariant visited == seen + NeighborsAt(edges[..j], direction, edgeType, nodeId)
        invariant Recorded(nodes, visited, rootId, resultNodes) && Distinct(resultEdges)
        invariant Elements(resultEdges) == Elements(edgesSoFar) + TouchedAt(edges[..j], direction, edgeType, nodeId)
        invariant Elements(resultEdges) <= Elements(edges)
      {
        var edge := edges[j];
        OneMoreEdge(edges, j, direction, edgeType, nodeId);
        if !AllowedAt(edge, direction, edgeType, nodeId) {
          continue;
        }
        var neighborId := Neighbor(edge, nodeId);
        NewEdgeByIdentifier(edges, resultEdges, edge);
        if forall k :: 0 <= k < |resultEdges| ==> resultEdges[k].id != edge.id {
          resultEdges := resultEdges + [edge];
        }
        if neighborId in visited || neighborId !in nodes {
          continue;
        }
        RecordNode(nodes, visited, rootId, resultNodes, neighborId);
        ElementsAppend(next, neighborId);
        visited := visited + {neighborId};
        resultNodes := resultNodes + [nodes[neighborId]];
        next := next + [neighborId];
      }
      assert edges[..|edges|] == edges;
    }
  }

  /** The result nodes are the visited nodes other than the root, each once. */
  ghost predicate Recorded(nodes: map<string, GraphNode>, visited: set<string>, rootId: string,
                           resultNodes: seq<GraphNode>) {
    && rootId in visited
    && Distinct(NodeIds(resultNodes))
    && Elements(NodeIds(resultNodes)) == visited - {rootId}
    && (forall n :: n in resultNodes ==> n.id in nodes && n == nodes[n.id])
  }

  lemma RecordNode(nodes: map<string, GraphNode>, visited: set<string>, rootId: string, s: seq<GraphNode>, id: string)
    requires Recorded(nodes, visited, rootId, s)
    requires id !in visited && id in nodes && nodes[id].id == id
    ensures Recorded(nodes, visited + {id}, rootId, s + [nodes[id]])
  {
    assert id !in Elements(NodeIds(s));
    assert NodeIds(s + [nodes[id]]) == NodeIds(s) + [id];
    ElementsAppend(NodeIds(s), id);
  }

  lemma NoEdgeYet(edges: seq<GraphEdge>, direction: Direction, edgeType: Option<EdgeType>, v: string)
    ensures NeighborsAt(edges[..0], direction, edgeType, v) == {} && TouchedAt(edges[..0], direction, edgeType, v) == {}
  {
  }

  lemma OneMoreEdge(edges: seq<GraphEdge>, j: nat, direction: Direction, edgeType: Option<EdgeType>, v: string)
    requires j < |edges|
    ensures NeighborsAt(edges[..j + 1], direction, edgeType, v) ==
            NeighborsAt(edges[..j], direction, edgeType, v) +
            (if AllowedAt(edges[j], direction, edgeType, v) then {Neighbor(edges[j], v)} else {})
    ensures TouchedAt(edges[..j + 1], direction, edgeType, v) ==
            TouchedAt(edges[..j], direction, edgeType, v) +
            (if AllowedAt(edges[j], direction, edgeType, v) then {edges[j]} else {})
  {
    assert edges[..j + 1] == edges[..j] + [edges[j]];
  }

  /** Identifiers are distinct, so looking for an equal identifier is looking for the edge. */
  lemma NewEdgeByIdentifier(edges: seq<GraphEdge>, found: seq<GraphEdge>, edge: GraphEdge)
    requires forall i, j :: 0 <= i < j < |edges| ==> edges[i].id != edges[j].id
    requires Elements(found) <= Elements(edges) && edge in edges && Distinct(found)
    ensures (forall k :: 0 <= k < |found| ==> found[k].id != edge.id) <==> edge !in found
    ensures edge !in found ==> Distinct(found + [edge]) && Elements(found + [edge]) == Elements(found) + {edge}
    ensures edge in found ==> Elements(found) == Elements(found) + {edge}
  {
    forall k | 0 <= k < |found| && found[k].id == edge.id ensures found[k] == edge {
      assert found[k] in Elements(found);
      assert found[k] in edges;
    }
  }

  ghost function NeighborsAt(es: seq<GraphEdge>, direction: Direction, edgeType: Option<EdgeType>,
                             v: string): set<string> {
    set e | e in es && AllowedAt(e, direction, edgeType, v) :: Neighbor(e, v)
  }

  ghost function TouchedAt(es: seq<GraphEdge>, direction: Direction, edgeType: Option<EdgeType>,
                           v: string): set<GraphEdge> {
    set e | e in es && AllowedAt(e, direction, edgeType, v)
  }

  /** Expanding one more node adds its neighbours and its admissible edges. */
  lemma ExpandOne(edges: seq<GraphEdge>, direction: Direction, edgeType: Option<EdgeType>, S: set<string>, v: string)
    ensures Successors(Steps(edges, direction, edgeType), S + {v}) ==
            Successors(Steps(edges, direction, edgeType), S) + NeighborsAt(edges, direction, edgeType, v)
    ensures Touched(edges, direction, edgeType, S + {v}) ==
            Touched(edges, direction, edgeType, S) + TouchedAt(edges, direction, edgeType, v)
  {
    StepsAreNeighbors(edges, direction, edgeType, v);
    hide Steps, NeighborsAt, AllowedAt;
    TouchOne(edges, direction, edgeType, S, v);
  }

  lemma StepsAreNeighbors(edges: seq<GraphEdge>, direction: Direction, edgeType: Option<EdgeType>, v: string)
    ensures forall b :: b in NeighborsAt(edges, direction, edgeType, v) <==> (v, b) in Steps(edges, direction, edgeType)
  {
    forall b | b in NeighborsAt(edges, direction, edgeType, v) ensures (v, b) in Steps(edges, direction, edgeType) {
      var e :| e in edges && AllowedAt(e, direction, edgeType, v) && b == Neighbor(e, v);
    }
  }

  lemma TouchOne(edges: seq<GraphEdge>, direction: Direction, edgeType: Option<EdgeType>, S: set<string>, v: string)
    ensures Touched(edges, direction, edgeType, S + {v}) ==
            Touched(edges, direction, edgeType, S) + TouchedAt(edges, direction, edgeType, v)
  {
    hide AllowedAt;
  }

  ghost predicate Asked(e: GraphEdge, edgeType: Option<EdgeType>) {
    edgeType.Some? ==> e.edgeType == edgeType.value
  }

  /** A step follows an edge of the asked type from its source, from its target, or from either end. */
  lemma StepsByEnds(edges: seq<GraphEdge>, direction: Direction, edgeType: Option<EdgeType>, a: string, b: string)
    ensures (a, b) in Steps(edges, direction, edgeType) <==>
              exists e :: e in edges && Asked(e, edgeType)
                          && ((direction != Incoming && e.source == a && e.target == b)
                              || (direction != Outgoing && e.source == b && e.target == a))
  {
  }

  /** The edges found are those of the asked type with an end near the root from which they are followed. */
  lemma EdgesByEnds(edges: seq<GraphEdge>, direction: Direction, edgeType: Option<EdgeType>, root: string, depth: nat,
                    ids: seq<string>, found: seq<GraphEdge>, e: GraphEdge)
    requires depth >= 1 && IsNeighborhood(edges, direction, edgeType, root, depth, ids, found)
    ensures var steps := Steps(edges, direction, edgeType);
            e in found <==>
              && e in edges && Asked(e, edgeType)
              && ((direction != Incoming && Within(steps, root, e.source, depth - 1))
                  || (direction != Outgoing && Within(steps, root, e.target, depth - 1)))
  {
    hide Steps, Within;
    forall v
      ensures AllowedAt(e, direction, edgeType, v) <==>
                && Asked(e, edgeType)
                && ((direction != Incoming && v == e.source) || (direction != Outgoing && v == e.target))
    {
    }
    assert Asked(e, edgeType) && direction != Incoming ==> AllowedAt(e, direction, edgeType, e.source);
    assert Asked(e, edgeType) && direction != Outgoing ==> AllowedAt(e, direction, edgeType, e.target);
  }

  lemma NodesAreNear(edges: seq<GraphEdge>, direction: Direction, edgeType: Option<EdgeType>, root: string, depth: nat,
                     ids: seq<string>, found: seq<GraphEdge>)
    requires depth >= 1 && IsNeighborhood(edges, direction, edgeType, root, depth, ids, found)
    ensures forall id :: id in ids <==> id != root && Within(Steps(edges, direction, edgeType), root, id, depth)
  {
  }

  lemma SearchIsExact(edges: seq<GraphEdge>, direction: Direction, edgeType: Option<EdgeType>, root: string, depth: nat,
                      resultNodes: seq<GraphNode>, resultEdges: seq<GraphEdge>)
    requires depth >= 1
    requires Elements(NodeIds(resultNodes)) == Ball(Steps(edges, direction, edgeType), root, depth) - {root}
    requires Elements(resultEdges) ==
               Touched(edges, direction, edgeType, Ball(Steps(edges, direction, edgeType), root, depth - 1))
    ensures IsNeighborhood(edges, direction, edgeType, root, depth, NodeIds(resultNodes), resultEdges)
  {
    var steps := Steps(edges, direction, edgeType);
    var ids := NodeIds(resultNodes);
    forall id ensures id in ids <==> id != root && Within(steps, root, id, depth) {
      BallIsWithin(steps, root, depth, id);
      assert id in ids <==> id in Elements(ids);
    }
    var ball := Ball(steps, root, depth - 1);
    forall v ensures v in ball <==> Within(steps, root, v, depth - 1) {
      BallIsWithin(steps, root, depth - 1, v);
    }
    forall e
      ensures e in resultEdges <==>
                e in edges && exists v :: AllowedAt(e, direction, edgeType, v) && Within(steps, root, v, depth - 1)
    {
      assert e in resultEdges <==> e in Elements(resultEdges);
    }
  }

  lemma SearchStart(edges: seq<GraphEdge>, direction: Direction, edgeType: Option<EdgeType>, root: string)
    ensures Ball(Steps(edges, direction, edgeType), root, 0) == {root} == {} + Elements([root])
    ensures Touched(edges, direction, edgeType, {}) == {} == Elements<GraphEdge>([])
  {
    hide Steps;
  }

  lemma NextBall(steps: set<(string, string)>, root: string, level: nat, ball: set<string>)
    requires ball == Ball(steps, root, level)
    ensures Ball(steps, root, level + 1) == ball + Successors(steps, ball)
  {
  }

  /** The search may stop at the full depth, or earlier once the frontier is empty. */
  lemma SearchSettled(steps: set<(string, string)>, root: string, level: nat, depth: nat, inner: set<string>,
                      frontier: seq<string>)
    requires 1 <= depth && level <= depth && (level == depth || frontier == [])
    requires inner == if level == 0 then {} else Ball(steps, root, level - 1)
    requires Ball(steps, root, level) == inner + Elements(frontier)
    ensures Ball(steps, root, depth) == Ball(steps, root, level)
    ensures Ball(steps, root, depth - 1) == inner
  {
    if level < depth {
      assert Elements(frontier) == {} && inner + {} == inner;
      assert root in Ball(steps, root, 0);
      EmptyFrontierSettles(steps, root, level, depth);
    }
  }

  lemma EmptyFrontierSettles(steps: set<(string, string)>, root: string, level: nat, depth: nat)
    requires 1 <= level < depth && Ball(steps, root, level) == Ball(steps, root, level - 1)
    ensures Ball(steps, root, depth) == Ball(steps, root, level)
    ensures Ball(steps, root, depth - 1) == Ball(steps, root, level - 1)
  {
    hide Ball, Successors;
    BallFixpoint(steps, root, level - 1, depth);
    BallFixpoint(steps, root, level - 1, depth - 1);
  }

  lemma LevelSuccessors(steps: set<(string, string)>, root: string, level: nat, inner: set<string>)
    requires inner == if level == 0 then {} else Ball(steps, root, level - 1)
    ensures Successors(steps, inner) <= Ball(steps, root, level)
  {
  }

  lemma NoEdgesAcyclic()
    ensures Acyclic(Links([]))
  {
    forall a ensures !ReachesPlus(Links([]), a, a) {
      if ReachesPlus(Links([]), a, a) {
        var b := FirstStep(Links([]), a, a);
      }
    }
  }

  /** The guard `pathExists(target, source)` refuses exactly the edges that would close a cycle. */
  lemma GuardIsExact(edges: seq<GraphEdge>, edge: GraphEdge)
    requires Acyclic(Links(edges))
    ensures Acyclic(Links(edges + [edge])) <==> !Reaches(Links(edges), edge.target, edge.source)
    ensures edge.source == edge.target ==> !Acyclic(Links(edges + [edge]))
  {
    var links := Links(edges);
    assert Links(edges + [edge]) == links + {(edge.source, edge.target)};
    if edge.source == edge.target {
      ReachesRefl(links, edge.target);
    }
    if Reaches(links, edge.target, edge.source) {
      AddEdgeCyclic(links, edge.source, edge.target);
    } else {
      AddEdgesAcyclic(links, edge.source, {edge.target});
      assert Links(edges + [edge]) == links + OutEdges(edge.source, {edge.target});
    }
  }
}
