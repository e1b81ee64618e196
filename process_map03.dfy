/** process_map03: the mapper that draws with the `diagrams` library. Steps are grouped
    by role into clusters; inside a cluster the nodes are chained in entry order, the
    first nodes of the clusters are chained in role order, START leads to the first
    node of the first role and the first node of the last role leads to END. */
module ProcessMap03 {
  import opened Wrappers
  import opened Text
  import opened Collections
  import opened Bpmn

  /** A collected step: its id S1, S2, ..., the stripped name, the lower-cased type and
      the stripped role. */
  datatype Step = Step(id: string, name: string, kind: string, role: string)

  /** The raw answers of one round after the name: name, type and role. */
  datatype StepAnswers = StepAnswers(name: string, kind: string, role: string)

  /** The name that ends the collection, compared after stripping. */
  predicate IsDone(name: string) {
    Lower(name) == "done"
  }

  function StepFrom(k: nat, a: StepAnswers): Step {
    Step(StepId(k), Strip(a.name), Lower(a.kind), Strip(a.role))
  }

  /** The rounds of the collection loop: the stripped name is checked first, so the
      closing round is one answer long and every other round three. */
  function AnswerRounds(answers: seq<string>, done: string -> bool): Result<seq<StepAnswers>>
    decreases |answers|
  {
    if |answers| == 0 then Err(EndOfInput)
    else if done(Strip(answers[0])) then Ok([])
    else if |answers| < 3 then Err(EndOfInput)
    else Prepend([StepAnswers(answers[0], answers[1], answers[2])], AnswerRounds(answers[3..], done))
  }

  lemma AnswerRoundsStep(answers: seq<string>, done: string -> bool)
    requires |answers| >= 3 && !done(Strip(answers[0]))
    ensures AnswerRounds(answers, done) == Prepend([StepAnswers(answers[0], answers[1], answers[2])], AnswerRounds(answers[3..], done))
  {
  }

  /** Round j of a successful read is answers 3j to 3j+2 and its stripped name is not
      `done`; the answer after the last round is a `done` name. */
  lemma {:induction false} AnswerRoundsContent(answers: seq<string>, done: string -> bool)
    requires AnswerRounds(answers, done).Ok?
    ensures var gs := AnswerRounds(answers, done).value;
            3 * |gs| < |answers| && done(Strip(answers[3 * |gs|])) &&
            forall j :: 0 <= j < |gs| ==>
              gs[j] == StepAnswers(answers[3 * j], answers[3 * j + 1], answers[3 * j + 2]) && !done(Strip(answers[3 * j]))
    decreases |answers|
  {
    var gs := AnswerRounds(answers, done).value;
    if !done(Strip(answers[0])) {
      var rest := answers[3..];
      AnswerRoundsStep(answers, done);
      AnswerRoundsContent(rest, done);
      var gs' := AnswerRounds(rest, done).value;
      assert gs == [StepAnswers(answers[0], answers[1], answers[2])] + gs';
      assert rest[3 * |gs'|] == answers[3 * |gs|];
      forall j | 1 <= j < |gs|
        ensures gs[j] == StepAnswers(answers[3 * j], answers[3 * j + 1], answers[3 * j + 2])
        ensures !done(Strip(answers[3 * j]))
      {
        assert gs[j] == gs'[j - 1];
        assert rest[3 * (j - 1)] == answers[3 * j];
        assert rest[3 * (j - 1) + 1] == answers[3 * j + 1];
        assert rest[3 * (j - 1) + 2] == answers[3 * j + 2];
      }
    }
  }

  function StepsFrom(rounds: seq<StepAnswers>): (r: seq<Step>)
  {
    seq(|rounds|, j requires 0 <= j < |rounds| => StepFrom(j + 1, rounds[j]))
  }

  lemma StepsFromSnoc(rounds: seq<StepAnswers>, g: StepAnswers)
    ensures StepsFrom(rounds + [g]) == StepsFrom(rounds) + [StepFrom(|rounds| + 1, g)]
  {
    assert StepsFrom(rounds + [g])[|rounds|] == StepFrom(|rounds| + 1, g);
  }

  function CollectedSteps(answers: seq<string>): Result<seq<Step>> {
    match AnswerRounds(answers, IsDone)
    case Err(e) => Err(e)
    case Ok(gs) => Ok(StepsFrom(gs))
  }

  predicate DistinctIds(steps: seq<Step>) {
    forall i, j :: 0 <= i < j < |steps| ==> steps[i].id != steps[j].id
  }

  /** The steps are S1..Sn in entry order, so their ids differ; step j is built from
      answers 3j to 3j+2 and its name is not 'done'; the collection stopped at a 'done'
      name. */
  lemma CollectedShape(answers: seq<string>)
    requires CollectedSteps(answers).Ok?
    ensures var steps := CollectedSteps(answers).value;
            3 * |steps| < |answers| && IsDone(Strip(answers[3 * |steps|])) && DistinctIds(steps) &&
            forall j :: 0 <= j < |steps| ==>
              steps[j] == Step(StepId(j + 1), Strip(answers[3 * j]), Lower(answers[3 * j + 1]), Strip(answers[3 * j + 2])) &&
              !IsDone(steps[j].name)
  {
    AnswerRoundsContent(answers, IsDone);
    StepsFromDistinct(AnswerRounds(answers, IsDone).value);
  }

  /** S1..Sn are pairwise different. */
  lemma StepsFromDistinct(rounds: seq<StepAnswers>)
    ensures DistinctIds(StepsFrom(rounds))
  {
    var steps := StepsFrom(rounds);
    forall i, j | 0 <= i < j < |steps| ensures steps[i].id != steps[j].id {
      StepIdsDiffer(i + 1, j + 1);
    }
  }

  /** A stopping name ends the read with the rounds so far. */
  lemma RoundsEnd(answers: seq<string>, pos: nat, rounds: seq<StepAnswers>, done: string -> bool)
    requires pos < |answers| && done(Strip(answers[pos]))
    requires AnswerRounds(answers, done) == Prepend(rounds, AnswerRounds(answers[pos..], done))
    ensures AnswerRounds(answers, done) == Ok(rounds)
  {
    assert answers[pos..][0] == answers[pos];
    assert AnswerRounds(answers[pos..], done) == Ok([]);
    assert rounds + [] == rounds;
  }

  /** A name with fewer than two answers after it ends the read in an error. */
  lemma RoundsShort(answers: seq<string>, pos: nat, rounds: seq<StepAnswers>, done: string -> bool)
    requires pos < |answers| < pos + 3 && !done(Strip(answers[pos]))
    requires AnswerRounds(answers, done) == Prepend(rounds, AnswerRounds(answers[pos..], done))
    ensures AnswerRounds(answers, done) == Err(EndOfInput)
  {
    assert answers[pos..][0] == answers[pos];
  }

  /** One more round of three answers extends the rounds read so far. */
  lemma ReadOneMore(answers: seq<string>, pos: nat, rounds: seq<StepAnswers>, done: string -> bool)
    requires pos + 3 <= |answers| && !done(Strip(answers[pos]))
    requires AnswerRounds(answers, done) == Prepend(rounds, AnswerRounds(answers[pos..], done))
    ensures AnswerRounds(answers, done) ==
            Prepend(rounds + [StepAnswers(answers[pos], answers[pos + 1], answers[pos + 2])],
                    AnswerRounds(answers[pos + 3..], done))
  {
    var g := StepAnswers(answers[pos], answers[pos + 1], answers[pos + 2]);
    assert answers[pos..][0] == answers[pos];
    AnswerRoundsStep(answers[pos..], done);
    assert answers[pos..][3..] == answers[pos + 3..];
    PrependTwice(rounds, [g], AnswerRounds(answers[pos + 3..], done));
  }

  /** `steps.append({...})`: step S<k> from the name already read and the other two
      answers. */
  method AppendStep(steps: seq<Step>, ghost rounds: seq<StepAnswers>, stepId: nat, name: string, g: StepAnswers)
      returns (steps': seq<Step>)
    requires steps == StepsFrom(rounds) && stepId == |rounds| + 1 && name == Strip(g.name)
    ensures steps' == StepsFrom(rounds + [g])
  {
    var step := Step(StepId(stepId), name, Lower(g.kind), Strip(g.role));
    StepsFromSnoc(rounds, g);
    steps' := steps + [step];
  }

  /** The collection loop over the answer stream, with `name.lower() == 'done'`. */
  method GatherSteps(answers: seq<string>) returns (r: Result<seq<Step>>)
    ensures r == CollectedSteps(answers)
  {
    r := ReadSteps(answers, IsDone);
  }

  /** The collection loop, for a stopping test `done` on the stripped name. */
  method ReadSteps(answers: seq<string>, done: string -> bool) returns (r: Result<seq<Step>>)
    ensures match AnswerRounds(answers, done)
            case Ok(rounds) => r == Ok(StepsFrom(rounds))
            case Err(e) => r == Err(e)
  {
    var steps: seq<Step> := [];
    var pos := 0;
    var stepId := 1;
    ghost var rounds: seq<StepAnswers> := [];
    assert answers[pos..] == answers;
    PrependEmpty(AnswerRounds(answers, done));
    while true
      invariant pos == 3 * |rounds| && pos <= |answers| && stepId == |rounds| + 1
      invariant steps == StepsFrom(rounds)
      invariant AnswerRounds(answers, done) == Prepend(rounds, AnswerRounds(answers[pos..], done))
      decreases |answers| - pos
    {
      if pos == |answers| {
        return Err(EndOfInput);
      }
      var name := Strip(answers[pos]);
      if done(name) {
        RoundsEnd(answers, pos, rounds, done);
        return Ok(steps);
      }
      if pos + 3 > |answers| {
        RoundsShort(answers, pos, rounds, done);
        return Err(EndOfInput);
      }
      var g := StepAnswers(answers[pos], answers[pos + 1], answers[pos + 2]);
      ReadOneMore(answers, pos, rounds, done);
      steps := AppendStep(steps, rounds, stepId, name, g);
      rounds := rounds + [g];
      pos := pos + 3;
      stepId := stepId + 1;
    }
  }

  // ----- generate_diagram -----

  datatype Shape = Diamond | Box

  /** A decision is drawn as a diamond, everything else as a box. */
  function ShapeOf(kind: string): (s: Shape)
    ensures s == Diamond <==> kind == "decision"
  {
    if kind == "decision" then Diamond else Box
  }

  /** A FlowChart node, identified by the step it draws. */
  datatype Node = Node(id: string, shape: Shape, caption: string)

  /** The node of a step: its shape by type and the step name as its label. */
  function NodeOf(s: Step): (n: Node)
    ensures n.id == s.id && n.caption == s.name
    ensures n.shape == Diamond <==> s.kind == "decision"
  {
    Node(s.id, ShapeOf(s.kind), s.name)
  }

  /** The ends of an edge: the START and END blanks or a step's node. */
  datatype NodeRef = StartNode | EndNode | StepNode(id: string)

  datatype Edge = Edge(tail: NodeRef, head: NodeRef)

  function RoleOf(s: Step): string { s.role }

  /** A swimlane cluster: the role and its nodes in entry order. */
  datatype Cluster = Cluster(role: string, nodes: seq<Node>)

  function ClusterOf(g: Group<string, Step>): (c: Cluster)
  {
    Cluster(g.key, seq(|g.members|, i requires 0 <= i < |g.members| => NodeOf(g.members[i])))
  }

  function ClustersOf(groups: seq<Group<string, Step>>): (r: seq<Cluster>)
    ensures |r| == |groups|
    ensures forall j :: 0 <= j < |groups| ==> r[j] == ClusterOf(groups[j])
  {
    seq(|groups|, j requires 0 <= j < |groups| => ClusterOf(groups[j]))
  }

  /** `a >> b` for each consecutive pair of a list of step nodes. */
  function ChainOf(ids: seq<string>): (r: seq<Edge>)
  {
    seq(if ids == [] then 0 else |ids| - 1, i requires 0 <= i < |ids| - 1 => Edge(StepNode(ids[i]), StepNode(ids[i + 1])))
  }

  function IdsOf(steps: seq<Step>): (r: seq<string>)
    ensures |r| == |steps| && forall i :: 0 <= i < |steps| ==> r[i] == steps[i].id
  {
    seq(|steps|, i requires 0 <= i < |steps| => steps[i].id)
  }

  /** The within-cluster edges, cluster after cluster. */
  function WithinEdges(groups: seq<Group<string, Step>>): seq<Edge> {
    if groups == [] then []
    else WithinEdges(groups[..|groups| - 1]) + ChainOf(IdsOf(groups[|groups| - 1].members))
  }

  predicate NonEmptyGroups(groups: seq<Group<string, Step>>) {
    forall j :: 0 <= j < |groups| ==> groups[j].members != []
  }

  /** `[clusters[role] for role in roles]`: the first step of every role. */
  function Firsts(groups: seq<Group<string, Step>>): (r: seq<string>)
    requires NonEmptyGroups(groups)
  {
    seq(|groups|, j requires 0 <= j < |groups| => groups[j].members[0].id)
  }

  /** The drawn diagram: its title, clusters and edges in the order they are drawn. */
  datatype Diagram = Diagram(title: string, filename: string, clusters: seq<Cluster>, edges: seq<Edge>)

  /** The edges in drawing order: the clusters' chains, the chain of first steps, then
      START to the first role's first step and the last role's first step to END. */
  function EdgesOf(groups: seq<Group<string, Step>>): seq<Edge>
    requires NonEmptyGroups(groups) && groups != []
  {
    var firsts := Firsts(groups);
    WithinEdges(groups) + ChainOf(firsts) + [Edge(StartNode, StepNode(firsts[0])), Edge(StepNode(firsts[|firsts| - 1]), EndNode)]
  }

  /** generate_diagram on the collected steps; with no steps `first_steps[0]` fails. */
  function DiagramOf(what: string, steps: seq<Step>): Result<Diagram> {
    var groups := Grouped(steps, RoleOf);
    GroupedMembers(steps, RoleOf);
    if groups == [] then Err(IndexOutOfRange)
    else Ok(Diagram(what, FileStem(what), ClustersOf(groups), EdgesOf(groups)))
  }

  /** There is a diagram exactly when there is at least one step. */
  lemma DiagramOfValue(what: string, steps: seq<Step>)
    requires steps != []
    ensures NonEmptyGroups(Grouped(steps, RoleOf)) && Grouped(steps, RoleOf) != []
    ensures DiagramOf(what, steps) ==
            Ok(Diagram(what, FileStem(what), ClustersOf(Grouped(steps, RoleOf)), EdgesOf(Grouped(steps, RoleOf))))
  {
    DiagramOfFails(what, steps);
    GroupedMembers(steps, RoleOf);
  }

  lemma DiagramOfFails(what: string, steps: seq<Step>)
    ensures DiagramOf(what, steps).Err? <==> steps == []
    ensures steps == [] ==> DiagramOf(what, steps) == Err(IndexOutOfRange)
  {
    if steps != [] {
      GroupedCovers(steps, RoleOf);
      KeysMember(steps, RoleOf, 0);
    }
  }

  /** Cluster j holds the nodes of exactly the steps whose role is its key. */
  lemma ClusterContents(steps: seq<Step>, j: nat)
    requires j < |Grouped(steps, RoleOf)|
    ensures var g := Grouped(steps, RoleOf)[j];
            var c := ClusterOf(g);
            c.nodes != [] &&
            forall n :: n in c.nodes <==> exists i :: 0 <= i < |steps| && steps[i].role == g.key && n == NodeOf(steps[i])
  {
    var g := Grouped(steps, RoleOf)[j];
    var c := ClusterOf(g);
    var m := g.members;
    assert m != [] && forall x :: x in m <==> x in steps && x.role == g.key by {
      GroupedMembers(steps, RoleOf);
      forall x ensures x in m <==> x in steps && x.role == g.key {
        assert RoleOf(x) == x.role;
      }
    }
    forall n | n in c.nodes
      ensures exists i :: 0 <= i < |steps| && steps[i].role == g.key && n == NodeOf(steps[i])
    {
      var k :| 0 <= k < |m| && c.nodes[k] == n;
      assert m[k] in m;
      var i :| 0 <= i < |steps| && steps[i] == m[k];
    }
    forall i | 0 <= i < |steps| && steps[i].role == g.key ensures NodeOf(steps[i]) in c.nodes {
      assert steps[i] in steps;
      var k :| 0 <= k < |m| && m[k] == steps[i];
      assert c.nodes[k] == NodeOf(steps[i]);
    }
  }

  /** One cluster per role in first-seen order, none of them empty, holding the nodes of
      exactly that role's steps. */
  lemma DiagramClusters(what: string, steps: seq<Step>)
    requires steps != []
    ensures DiagramOf(what, steps).Ok?
    ensures var d := DiagramOf(what, steps).value;
            var roles := FirstSeenKeys(steps, RoleOf);
            d.title == what && d.filename == FileStem(what) && |d.clusters| == |roles| &&
            forall j :: 0 <= j < |roles| ==>
              d.clusters[j].role == roles[j] && d.clusters[j].nodes != [] &&
              forall n :: n in d.clusters[j].nodes <==> exists i :: 0 <= i < |steps| && steps[i].role == roles[j] && n == NodeOf(steps[i])
  {
    DiagramOfFails(what, steps);
    GroupedKeys(steps, RoleOf);
    var groups := Grouped(steps, RoleOf);
    forall j | 0 <= j < |groups|
      ensures var c := ClusterOf(groups[j]);
              c.nodes != [] &&
              forall n :: n in c.nodes <==> exists i :: 0 <= i < |steps| && steps[i].role == groups[j].key && n == NodeOf(steps[i])
    {
      ClusterContents(steps, j);
    }
  }

  /** Each cluster of k nodes contributes k-1 edges. */
  lemma {:induction false} WithinEdgesCount(groups: seq<Group<string, Step>>)
    requires NonEmptyGroups(groups)
    ensures |WithinEdges(groups)| + |groups| == MemberCount(groups)
    decreases |groups|
  {
    if groups != [] {
      WithinEdgesCount(groups[..|groups| - 1]);
    }
  }

  /** Consecutive nodes of a cluster are joined. */
  lemma {:induction false} WithinEdgesHas(groups: seq<Group<string, Step>>, j: nat, k: nat)
    requires j < |groups| && k + 1 < |groups[j].members|
    ensures Edge(StepNode(groups[j].members[k].id), StepNode(groups[j].members[k + 1].id)) in WithinEdges(groups)
    decreases |groups|
  {
    var n := |groups|;
    var e := Edge(StepNode(groups[j].members[k].id), StepNode(groups[j].members[k + 1].id));
    if j == n - 1 {
      assert ChainOf(IdsOf(groups[j].members))[k] == e;
    } else {
      WithinEdgesHas(groups[..n - 1], j, k);
    }
  }

  /** The within-cluster edges join step nodes only. */
  lemma {:induction false} WithinEdgesSteps(groups: seq<Group<string, Step>>)
    ensures forall e :: e in WithinEdges(groups) ==> e.tail.StepNode? && e.head.StepNode?
    decreases |groups|
  {
    if groups != [] {
      WithinEdgesSteps(groups[..|groups| - 1]);
    }
  }

  /** For n >= 1 steps in R roles the diagram has n+1 edges: n-R inside the clusters,
      R-1 between their first nodes, and the START and END edges. */
  lemma DiagramEdgeCount(what: string, steps: seq<Step>)
    requires steps != []
    ensures DiagramOf(what, steps).Ok? && |DiagramOf(what, steps).value.edges| == |steps| + 1
  {
    DiagramOfFails(what, steps);
    var groups := Grouped(steps, RoleOf);
    GroupedMembers(steps, RoleOf);
    WithinEdgesCount(groups);
    GroupedCount(steps, RoleOf);
  }

  /** START leads to the first step of the first role, and the only edge into END leaves
      the first step of the last role, whichever step was entered last. */
  lemma EdgesOfEnds(groups: seq<Group<string, Step>>)
    requires NonEmptyGroups(groups) && groups != []
    ensures Edge(StartNode, StepNode(groups[0].members[0].id)) in EdgesOf(groups)
    ensures forall e :: e in EdgesOf(groups) && e.head == EndNode <==> e == Edge(StepNode(groups[|groups| - 1].members[0].id), EndNode)
  {
    WithinEdgesSteps(groups);
    var edges := EdgesOf(groups);
    assert edges[|edges| - 1] == Edge(StepNode(groups[|groups| - 1].members[0].id), EndNode);
    assert edges[|edges| - 2] == Edge(StartNode, StepNode(groups[0].members[0].id));
  }

  lemma DiagramEnds(what: string, steps: seq<Step>)
    requires steps != []
    ensures DiagramOf(what, steps).Ok?
    ensures var edges := DiagramOf(what, steps).value.edges;
            var groups := Grouped(steps, RoleOf);
            |groups| > 0 && groups[0].members != [] && groups[|groups| - 1].members != [] &&
            Edge(StartNode, StepNode(groups[0].members[0].id)) in edges &&
            forall e :: e in edges && e.head == EndNode <==> e == Edge(StepNode(groups[|groups| - 1].members[0].id), EndNode)
  {
    DiagramOfFails(what, steps);
    GroupedMembers(steps, RoleOf);
    EdgesOfEnds(Grouped(steps, RoleOf));
  }

  /** Member k of cluster j is entered: from START if it is the first step of the first
      role, from the previous role's first step if it is another role's first step, and
      from the step before it in its role otherwise. */
  lemma EdgesOfEnter(groups: seq<Group<string, Step>>, j: nat, k: nat)
    requires NonEmptyGroups(groups) && j < |groups| && k < |groups[j].members|
    ensures exists e :: e in EdgesOf(groups) && e.head == StepNode(groups[j].members[k].id)
  {
    var firsts := Firsts(groups);
    var edges := EdgesOf(groups);
    if k > 0 {
      WithinEdgesHas(groups, j, k - 1);
    } else if j == 0 {
      assert edges[|edges| - 2] == Edge(StartNode, StepNode(firsts[0]));
    } else {
      assert ChainOf(firsts)[j - 1] in edges;
    }
  }

  /** The node of step i is the head of some edge. */
  lemma StepEntered(steps: seq<Step>, i: nat)
    requires i < |steps|
    ensures NonEmptyGroups(Grouped(steps, RoleOf)) && Grouped(steps, RoleOf) != []
    ensures exists e :: e in EdgesOf(Grouped(steps, RoleOf)) && e.head == StepNode(steps[i].id)
  {
    var groups := Grouped(steps, RoleOf);
    GroupedMembers(steps, RoleOf);
    GroupedCovers(steps, RoleOf);
    KeysMember(steps, RoleOf, i);
    var j :| 0 <= j < |groups| && groups[j].key == steps[i].role;
    assert steps[i] in steps;
    var k :| 0 <= k < |groups[j].members| && groups[j].members[k] == steps[i];
    EdgesOfEnter(groups, j, k);
  }

  /** Every step's node is the head of some edge. */
  lemma DiagramEntersEveryStep(what: string, steps: seq<Step>)
    requires steps != []
    ensures DiagramOf(what, steps).Ok?
    ensures forall i :: 0 <= i < |steps| ==>
              exists e :: e in DiagramOf(what, steps).value.edges && e.head == StepNode(steps[i].id)
  {
    DiagramOfValue(what, steps);
    var edges := EdgesOf(Grouped(steps, RoleOf));
    forall i | 0 <= i < |steps| ensures exists e :: e in edges && e.head == StepNode(steps[i].id) {
      StepEntered(steps, i);
    }
  }

  lemma ClustersOfSnoc(groups: seq<Group<string, Step>>, g: Group<string, Step>)
    ensures ClustersOf(groups + [g]) == ClustersOf(groups) + [ClusterOf(g)]
  {
  }

  lemma WithinEdgesSnoc(groups: seq<Group<string, Step>>, g: Group<string, Step>)
    ensures WithinEdges(groups + [g]) == WithinEdges(groups) + ChainOf(IdsOf(g.members))
  {
    assert (groups + [g])[..|groups|] == groups;
  }

  /** One cluster's nodes and its chain. */
  method DrawCluster(g: Group<string, Step>) returns (c: Cluster, chain: seq<Edge>)
    ensures c == ClusterOf(g) && chain == ChainOf(IdsOf(g.members))
  {
    var members := g.members;
    var nodes: seq<Node> := [];
    for i := 0 to |members|
      invariant |nodes| == i && forall t :: 0 <= t < i ==> nodes[t] == NodeOf(members[t])
    {
      var s := members[i];
      nodes := nodes + [Node(s.id, if s.kind == "decision" then Diamond else Box, s.name)];
    }
    chain := [];
    if nodes != [] {
      for i := 0 to |nodes| - 1
        invariant |chain| == i && forall t :: 0 <= t < i ==> chain[t] == Edge(StepNode(nodes[t].id), StepNode(nodes[t + 1].id))
      {
        chain := chain + [Edge(StepNode(nodes[i].id), StepNode(nodes[i + 1].id))];
      }
    }
    c := Cluster(g.key, nodes);
  }

  /** After the first n clusters, `clusters` and `prev_nodes` hold each of their roles'
      first and last step. */
  predicate Recorded(groups: seq<Group<string, Step>>, n: nat, firstOf: map<string, string>, lastOf: map<string, string>)
    requires NonEmptyGroups(groups) && n <= |groups|
  {
    forall g :: 0 <= g < n ==>
      groups[g].key in firstOf && firstOf[groups[g].key] == groups[g].members[0].id &&
      groups[g].key in lastOf && lastOf[groups[g].key] == groups[g].members[|groups[g].members| - 1].id
  }

  lemma RecordedSnoc(groups: seq<Group<string, Step>>, n: nat, firstOf: map<string, string>, lastOf: map<string, string>)
    requires NonEmptyGroups(groups) && n < |groups|
    requires forall i, j :: 0 <= i < j < |groups| ==> groups[i].key != groups[j].key
    requires Recorded(groups, n, firstOf, lastOf)
    ensures var m := groups[n].members;
            Recorded(groups, n + 1, firstOf[groups[n].key := m[0].id], lastOf[groups[n].key := m[|m| - 1].id])
  {
  }

  /** The cluster loop: each role's nodes, the chain inside it, and the `clusters` and
      `prev_nodes` entries for its first and last node. */
  method DrawClusters(groups: seq<Group<string, Step>>)
    returns (clusters: seq<Cluster>, edges: seq<Edge>, firstOf: map<string, string>, lastOf: map<string, string>)
    requires NonEmptyGroups(groups)
    requires forall i, j :: 0 <= i < j < |groups| ==> groups[i].key != groups[j].key
    ensures clusters == ClustersOf(groups) && edges == WithinEdges(groups)
    ensures Recorded(groups, |groups|, firstOf, lastOf)
  {
    clusters, edges, firstOf, lastOf := [], [], map[], map[];
    for j := 0 to |groups|
      invariant clusters == ClustersOf(groups[..j]) && edges == WithinEdges(groups[..j])
      invariant Recorded(groups, j, firstOf, lastOf)
    {
      var c, chain := DrawCluster(groups[j]);
      assert groups[..j + 1] == groups[..j] + [groups[j]];
      ClustersOfSnoc(groups[..j], groups[j]);
      WithinEdgesSnoc(groups[..j], groups[j]);
      RecordedSnoc(groups, j, firstOf, lastOf);
      clusters := clusters + [c];
      edges := edges + chain;
      firstOf := firstOf[c.role := c.nodes[0].id];
      lastOf := lastOf[c.role := c.nodes[|c.nodes| - 1].id];
    }
    assert groups[..|groups|] == groups;
  }

  /** The first-steps list and its chain. */
  method ChainFirsts(groups: seq<Group<string, Step>>, firstOf: map<string, string>) returns (firsts: seq<string>, edges: seq<Edge>)
    requires NonEmptyGroups(groups)
    requires forall j :: 0 <= j < |groups| ==> groups[j].key in firstOf && firstOf[groups[j].key] == groups[j].members[0].id
    ensures firsts == Firsts(groups) && edges == ChainOf(firsts)
  {
    firsts := [];
    for j := 0 to |groups|
      invariant firsts == Firsts(groups[..j])
    {
      firsts := firsts + [firstOf[groups[j].key]];
    }
    assert groups[..|groups|] == groups;
    edges := [];
    if firsts != [] {
      for i := 0 to |firsts| - 1
        invariant |edges| == i && forall t :: 0 <= t < i ==> edges[t] == Edge(StepNode(firsts[t]), StepNode(firsts[t + 1]))
      {
        edges := edges + [Edge(StepNode(firsts[i]), StepNode(firsts[i + 1]))];
      }
    }
  }

  /** The keys of the core questions, in the order they are asked. */
  const CoreKeys: seq<string> := ["what", "why", "who", "when", "how", "where"]

  class ProcessMapper {
    var core: map<string, string>
    var steps: seq<Step>

    constructor ()
      ensures core == map[] && steps == []
    {
      core := map[];
      steps := [];
    }

    /** ask_core_questions: each answer, stripped, is stored under its key as soon as it
        is read, so running out of answers keeps the keys answered so far. */
    method AskCoreQuestions(answers: seq<string>) returns (r: Result<()>)
      modifies this
      ensures r == (if |answers| < |CoreKeys| then Err(EndOfInput) else Ok(()))
      ensures core == Assigned(old(core), CoreKeys, StripEach(answers), if |answers| < |CoreKeys| then |answers| else |CoreKeys|)
      ensures steps == old(steps)
    {
      core, r := AssignEach(core, CoreKeys, StripEach(answers));
    }

    /** collect_steps over the answer stream. */
    method CollectSteps(answers: seq<string>) returns (r: Result<()>)
      modifies this
      ensures var c := CollectedSteps(answers);
              (c.Ok? ==> r == Ok(()) && steps == c.value) && (c.Err? ==> r == Err(c.error) && steps == old(steps))
      ensures core == old(core)
    {
      var c := GatherSteps(answers);
      if c.Err? {
        return Err(c.error);
      }
      steps := c.value;
      r := Ok(());
    }

    /** generate_diagram: group the steps by role, draw the clusters and their chains,
        chain the first steps and attach START and END; the file stem comes back. */
    method GenerateDiagram() returns (r: Result<Diagram>)
      requires "what" in core
      ensures r == DiagramOf(core["what"], steps)
      ensures r.Ok? ==> r.value.filename == FileStem(core["what"])
    {
      var what := core["what"];
      var groups := GroupBy(steps, RoleOf);
      GroupedMembers(steps, RoleOf);
      GroupedKeys(steps, RoleOf);
      var clusters, within, firstOf, lastOf := DrawClusters(groups);
      var firsts, across := ChainFirsts(groups, firstOf);
      if |firsts| == 0 {
        return Err(IndexOutOfRange);
      }
      var edges := within + across + [Edge(StartNode, StepNode(firsts[0])), Edge(StepNode(firsts[|firsts| - 1]), EndNode)];
      r := Ok(Diagram(what, FileStem(what), clusters, edges));
    }
  }
}
