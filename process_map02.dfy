/** process_map02: the interactive Graphviz mapper. collect_steps reads five answers per
    step until a 'done' name, then one connection answer; generate_map draws one
    cluster per lane, a node per step, the edges of the connection answer (or the
    linear chain when it is empty) and START/END sentinel edges. Console input is an
    answer stream; running out of answers is input()'s EOFError. The Digraph is
    modelled by what is added to it. */
module ProcessMap02 {
  import opened Wrappers
  import opened Text
  import opened Collections
  import opened Bpmn

  /** A step record: every field as typed, except the stripped name and the
      lower-cased type. */
  datatype Step = Step(id: string, name: string, kind: string, lane: string, duration: string, tool: string)

  /** The five answers of one step: name, type, lane, duration and tool. */
  datatype StepAnswers = StepAnswers(name: string, kind: string, lane: string, duration: string, tool: string)

  /** What collect_steps stores: the steps and the stripped connection answer. */
  datatype Collection = Collection(steps: seq<Step>, connections: string)

  /** The name answer that ends the collection. */
  predicate IsDone(answer: string) {
    Lower(Strip(answer)) == "done"
  }

  function StepFrom(k: nat, a: StepAnswers): Step {
    Step(StepId(k), Strip(a.name), Lower(a.kind), a.lane, a.duration, a.tool)
  }

  /** The answer groups the step loop reads: a name answer, and unless `done` holds of
      it four more answers, round after round. Running out of answers is an error. */
  function AnswerGroups(answers: seq<string>, done: string -> bool): Result<seq<StepAnswers>>
    decreases |answers|
  {
    if answers == [] then Err(EndOfInput)
    else if done(answers[0]) then Ok([])
    else if |answers| < 5 then Err(EndOfInput)
    else Prepend([StepAnswers(answers[0], answers[1], answers[2], answers[3], answers[4])], AnswerGroups(answers[5..], done))
  }

  lemma AnswerGroupsStep(answers: seq<string>, done: string -> bool)
    requires |answers| >= 5 && !done(answers[0])
    ensures AnswerGroups(answers, done) ==
            Prepend([StepAnswers(answers[0], answers[1], answers[2], answers[3], answers[4])], AnswerGroups(answers[5..], done))
  {
  }

  /** Group j of a successful read is answers 5j to 5j+4, `done` does not hold of its
      name answer, and the read ends at a name answer `done` holds of. */
  lemma {:induction false} AnswerGroupsContent(answers: seq<string>, done: string -> bool)
    requires AnswerGroups(answers, done).Ok?
    ensures var gs := AnswerGroups(answers, done).value;
            5 * |gs| < |answers| && done(answers[5 * |gs|]) &&
            forall j :: 0 <= j < |gs| ==>
              gs[j] == StepAnswers(answers[5 * j], answers[5 * j + 1], answers[5 * j + 2], answers[5 * j + 3], answers[5 * j + 4]) &&
              !done(answers[5 * j])
    decreases |answers|
  {
    var gs := AnswerGroups(answers, done).value;
    if !done(answers[0]) {
      var rest := answers[5..];
      AnswerGroupsStep(answers, done);
      AnswerGroupsContent(rest, done);
      var gs' := AnswerGroups(rest, done).value;
      assert gs == [StepAnswers(answers[0], answers[1], answers[2], answers[3], answers[4])] + gs';
      assert rest[5 * |gs'|] == answers[5 * |gs|];
      forall j | 1 <= j < |gs|
        ensures gs[j] == StepAnswers(answers[5 * j], answers[5 * j + 1], answers[5 * j + 2], answers[5 * j + 3], answers[5 * j + 4])
        ensures !done(answers[5 * j])
      {
        assert gs[j] == gs'[j - 1];
        assert rest[5 * (j - 1)] == answers[5 * j];
        assert rest[5 * (j - 1) + 1] == answers[5 * j + 1];
        assert rest[5 * (j - 1) + 2] == answers[5 * j + 2];
        assert rest[5 * (j - 1) + 3] == answers[5 * j + 3];
        assert rest[5 * (j - 1) + 4] == answers[5 * j + 4];
      }
    }
  }

  /** The steps built from the groups, numbered from S1. */
  function StepsFrom(groups: seq<StepAnswers>): (r: seq<Step>)
  {
    seq(|groups|, j requires 0 <= j < |groups| => StepFrom(j + 1, groups[j]))
  }

  lemma StepsFromSnoc(groups: seq<StepAnswers>, g: StepAnswers)
    ensures StepsFrom(groups + [g]) == StepsFrom(groups) + [StepFrom(|groups| + 1, g)]
  {
    assert StepsFrom(groups + [g])[|groups|] == StepFrom(|groups| + 1, g);
  }

  /** What collect_steps stores: the steps, then the answer after 'done', stripped. */
  function Collected(answers: seq<string>): Result<Collection> {
    match AnswerGroups(answers, IsDone)
    case Err(e) => Err(e)
    case Ok(gs) =>
      var n := 5 * |gs| + 1;
      if n < |answers| then Ok(Collection(StepsFrom(gs), Strip(answers[n]))) else Err(EndOfInput)
  }

  /** The collected steps are S1..Sn in entry order, step j named by answer 5j (stripped,
      and not 'done' in any case) with its type lower-cased and its lane, duration and
      tool as typed; the collection ended at a 'done' name answer, and the connection
      answer is the one after it, stripped. */
  lemma CollectedShape(answers: seq<string>)
    requires Collected(answers).Ok?
    ensures var c := Collected(answers).value;
            var n := |c.steps|;
            5 * n + 1 < |answers| && IsDone(answers[5 * n]) && c.connections == Strip(answers[5 * n + 1]) &&
            forall j :: 0 <= j < n ==>
              c.steps[j].id == StepId(j + 1) && c.steps[j].name == Strip(answers[5 * j]) && !IsDone(answers[5 * j]) &&
              c.steps[j].kind == Lower(answers[5 * j + 1]) && c.steps[j].lane == answers[5 * j + 2] &&
              c.steps[j].duration == answers[5 * j + 3] && c.steps[j].tool == answers[5 * j + 4]
  {
    AnswerGroupsContent(answers, IsDone);
  }

  /** A stopping name answer ends the read with the groups so far. */
  lemma GroupsEnd(answers: seq<string>, pos: nat, groups: seq<StepAnswers>, done: string -> bool)
    requires pos < |answers| && done(answers[pos])
    requires AnswerGroups(answers, done) == Prepend(groups, AnswerGroups(answers[pos..], done))
    ensures AnswerGroups(answers, done) == Ok(groups)
  {
    assert answers[pos..][0] == answers[pos];
    assert AnswerGroups(answers[pos..], done) == Ok([]);
    assert groups + [] == groups;
  }

  /** A name answer with fewer than four answers after it ends the read in an error. */
  lemma GroupsShort(answers: seq<string>, pos: nat, groups: seq<StepAnswers>, done: string -> bool)
    requires pos < |answers| < pos + 5 && !done(answers[pos])
    requires AnswerGroups(answers, done) == Prepend(groups, AnswerGroups(answers[pos..], done))
    ensures AnswerGroups(answers, done) == Err(EndOfInput)
  {
    assert answers[pos..][0] == answers[pos];
  }

  /** One more group of five answers extends the groups read so far. */
  lemma ReadOneMore(answers: seq<string>, pos: nat, groups: seq<StepAnswers>, done: string -> bool)
    requires pos + 5 <= |answers| && !done(answers[pos])
    requires AnswerGroups(answers, done) == Prepend(groups, AnswerGroups(answers[pos..], done))
    ensures AnswerGroups(answers, done) ==
            Prepend(groups + [StepAnswers(answers[pos], answers[pos + 1], answers[pos + 2], answers[pos + 3], answers[pos + 4])],
                    AnswerGroups(answers[pos + 5..], done))
  {
    var g := StepAnswers(answers[pos], answers[pos + 1], answers[pos + 2], answers[pos + 3], answers[pos + 4]);
    assert answers[pos..][0] == answers[pos];
    AnswerGroupsStep(answers[pos..], done);
    assert answers[pos..][5..] == answers[pos + 5..];
    PrependTwice(groups, [g], AnswerGroups(answers[pos + 5..], done));
  }

  /** `steps.append({...})`: step S<k> from a group of five answers. */
  method AppendStep(steps: seq<Step>, ghost groups: seq<StepAnswers>, stepId: nat, g: StepAnswers)
      returns (steps': seq<Step>)
    requires steps == StepsFrom(groups) && stepId == |groups| + 1
    ensures steps' == StepsFrom(groups + [g])
  {
    var step := Step("S" + NatToString(stepId), Strip(g.name), Lower(g.kind), g.lane, g.duration, g.tool);
    assert step == StepFrom(stepId, g);
    StepsFromSnoc(groups, g);
    steps' := steps + [step];
  }

  /** The step loop of collect_steps, for a stopping test `done` on the name answer. */
  method ReadSteps(answers: seq<string>, done: string -> bool) returns (r: Result<seq<Step>>)
    ensures match AnswerGroups(answers, done)
            case Ok(groups) => r == Ok(StepsFrom(groups))
            case Err(e) => r == Err(e)
  {
    var steps: seq<Step> := [];
    var pos := 0;
    var stepId := 1;
    ghost var groups: seq<StepAnswers> := [];
    assert answers[pos..] == answers;
    PrependEmpty(AnswerGroups(answers, done));
    while true
      invariant pos == 5 * |groups| && pos <= |answers| && stepId == |groups| + 1
      invariant steps == StepsFrom(groups)
      invariant AnswerGroups(answers, done) == Prepend(groups, AnswerGroups(answers[pos..], done))
      decreases |answers| - pos
    {
      if pos == |answers| {
        return Err(EndOfInput);
      }
      if done(answers[pos]) {
        GroupsEnd(answers, pos, groups, done);
        return Ok(steps);
      }
      if pos + 5 > |answers| {
        GroupsShort(answers, pos, groups, done);
        return Err(EndOfInput);
      }
      var g := StepAnswers(answers[pos], answers[pos + 1], answers[pos + 2], answers[pos + 3], answers[pos + 4]);
      ReadOneMore(answers, pos, groups, done);
      steps := AppendStep(steps, groups, stepId, g);
      groups := groups + [g];
      pos := pos + 5;
      stepId := stepId + 1;
    }
  }

  // ----- nodes and lane clusters -----

  datatype Shape = Box | Diamond | Folder | Ellipse

  /** `shapes.get(type, 'box')`. */
  function ShapeFor(kind: string): (sh: Shape)
    ensures sh == Diamond <==> kind == "decision"
    ensures sh == Folder <==> kind == "subprocess"
    ensures sh == Box <==> kind != "decision" && kind != "subprocess"
  {
    if kind == "decision" then Diamond
    else if kind == "subprocess" then Folder
    else Box
  }

  datatype Node = Node(id: string, caption: string, shape: Shape)

  /** A step's node: name, duration with "min" and tool on three lines (the separator
      is a literal backslash-n, which Graphviz reads as a line break). */
  function NodeFor(s: Step): Node {
    Node(s.id, s.name + "\\n" + s.duration + "min\\n" + s.tool, ShapeFor(s.kind))
  }

  function NodesOf(steps: seq<Step>): (r: seq<Node>)
  {
    seq(|steps|, j requires 0 <= j < |steps| => NodeFor(steps[j]))
  }

  lemma NodesOfSnoc(steps: seq<Step>, s: Step)
    ensures NodesOf(steps + [s]) == NodesOf(steps) + [NodeFor(s)]
  {
    assert NodesOf(steps + [s])[|steps|] == NodeFor(s);
  }

  /** A lane subgraph `cluster_<lane>` inside the rank=same subgraph. generate_map sets
      only its attributes (the label is the lane as typed); the step nodes are added to the
      root graph, so no cluster holds a node. */
  datatype Cluster = Cluster(name: string, caption: string)

  function LaneOf(s: Step): string { s.lane }

  /** `cluster_` and the lane with spaces as underscores. */
  function ClusterName(lane: string): string {
    "cluster_" + ReplaceChar(lane, ' ', '_')
  }

  function ClusterOf(g: Group<string, Step>): Cluster {
    Cluster(ClusterName(g.key), g.key)
  }

  function ClustersOf(groups: seq<Group<string, Step>>): (r: seq<Cluster>)
    ensures |r| == |groups|
    ensures forall j :: 0 <= j < |groups| ==> r[j] == ClusterOf(groups[j])
  {
    seq(|groups|, j requires 0 <= j < |groups| => ClusterOf(groups[j]))
  }

  lemma ClustersOfSnoc(groups: seq<Group<string, Step>>, g: Group<string, Step>)
    ensures ClustersOf(groups + [g]) == ClustersOf(groups) + [ClusterOf(g)]
  {
    assert ClustersOf(groups + [g])[|groups|] == ClusterOf(g);
  }

  /** The subgraphs generate_map opens: one per lane of the defaultdict grouping. */
  function Clusters(steps: seq<Step>): seq<Cluster> {
    ClustersOf(Grouped(steps, LaneOf))
  }

  /** The order in which the loops visit the steps: lane by lane in first-seen order, each
      lane's steps in list order. */
  function LaneOrder(steps: seq<Step>): seq<Step> {
    Flattened(Grouped(steps, LaneOf))
  }

  /** The `self.dot.node` statements, in the order the loops make them. */
  function LaneNodes(steps: seq<Step>): seq<Node> {
    NodesOf(LaneOrder(steps))
  }

  /** One cluster per distinct lane, named and labelled by it, in first-seen order, no
      two with the same label. */
  lemma ClustersByLane(steps: seq<Step>)
    ensures var cs := Clusters(steps);
            var lanes := FirstSeenKeys(steps, LaneOf);
            |cs| == |lanes| &&
            (forall j :: 0 <= j < |cs| ==> cs[j].caption == lanes[j] && cs[j].name == ClusterName(lanes[j])) &&
            (forall i, j :: 0 <= i < j < |cs| ==> cs[i].caption != cs[j].caption)
  {
    GroupedKeys(steps, LaneOf);
  }

  /** The root graph receives one node per step and no other step node: the visiting
      order is a permutation of the steps, every step's node is drawn, and every drawn
      node is some step's. */
  lemma NodesAtTop(steps: seq<Step>)
    ensures multiset(LaneOrder(steps)) == multiset(steps)
    ensures |LaneNodes(steps)| == |steps|
    ensures forall i :: 0 <= i < |steps| ==> NodeFor(steps[i]) in LaneNodes(steps)
    ensures forall n :: n in LaneNodes(steps) ==> exists i :: 0 <= i < |steps| && n == NodeFor(steps[i])
  {
    var order := LaneOrder(steps);
    var nodes := LaneNodes(steps);
    GroupedPermutes(steps, LaneOf);
    assert |multiset(order)| == |multiset(steps)|;
    forall i | 0 <= i < |steps| ensures NodeFor(steps[i]) in nodes {
      assert steps[i] in multiset(steps);
      var k :| 0 <= k < |order| && order[k] == steps[i];
      assert nodes[k] == NodeFor(steps[i]);
    }
    forall n | n in nodes ensures exists i :: 0 <= i < |steps| && n == NodeFor(steps[i]) {
      var k :| 0 <= k < |nodes| && nodes[k] == n;
      assert order[k] in multiset(steps);
      var i :| 0 <= i < |steps| && steps[i] == order[k];
    }
  }

  /** The cluster j of step i's lane, and the position k of the step in that lane. */
  lemma StepCluster(steps: seq<Step>, i: nat) returns (j: nat, k: nat)
    requires i < |steps|
    ensures j < |Grouped(steps, LaneOf)| && Grouped(steps, LaneOf)[j].key == steps[i].lane
    ensures k < |Grouped(steps, LaneOf)[j].members| && Grouped(steps, LaneOf)[j].members[k] == steps[i]
  {
    var g := Grouped(steps, LaneOf);
    assert exists j :: 0 <= j < |g| && g[j].key == LaneOf(steps[i]) by {
      KeysMember(steps, LaneOf, i);
      GroupedCovers(steps, LaneOf);
    }
    j :| 0 <= j < |g| && g[j].key == LaneOf(steps[i]);
    assert steps[i] in g[j].members by {
      assert steps[i] in steps;
      GroupedMembers(steps, LaneOf);
    }
    k :| 0 <= k < |g[j].members| && g[j].members[k] == steps[i];
  }

  /** The drawing loops of generate_map: the lanes grouped, then for each lane a cluster
      with its attributes, and one root-graph node per step of the lane. */
  method LayoutClusters(steps: seq<Step>) returns (clusters: seq<Cluster>, nodes: seq<Node>)
    ensures clusters == Clusters(steps)
    ensures nodes == LaneNodes(steps)
  {
    var groups := GroupBy(steps, LaneOf);
    clusters := [];
    nodes := [];
    for g := 0 to |groups|
      invariant clusters == ClustersOf(groups[..g])
      invariant nodes == NodesOf(Flattened(groups[..g]))
    {
      var members := groups[g].members;
      ghost var before := Flattened(groups[..g]);
      clusters := clusters + [Cluster(ClusterName(groups[g].key), groups[g].key)];
      for i := 0 to |members|
        invariant nodes == NodesOf(before + members[..i])
      {
        assert before + members[..i + 1] == (before + members[..i]) + [members[i]];
        NodesOfSnoc(before + members[..i], members[i]);
        nodes := nodes + [NodeFor(members[i])];
      }
      assert members[..|members|] == members;
      assert groups[..g + 1] == groups[..g] + [groups[g]];
      FlattenedSnoc(groups[..g], groups[g]);
      ClustersOfSnoc(groups[..g], groups[g]);
    }
    assert groups[..|groups|] == groups;
  }

  // ----- edges -----

  /** A Digraph edge: tail, head and the optional label. */
  datatype Edge = Edge(tail: string, head: string, text: Option<string>)

  /** The linear chain: step i to step i+1, for i < n-1. */
  function LinearChain(steps: seq<Step>): (r: seq<Edge>)
  {
    seq(if steps == [] then 0 else |steps| - 1, i requires 0 <= i < |steps| - 1 => Edge(steps[i].id, steps[i + 1].id, None))
  }

  /** The label pieces after the tail and head. */
  function LabelPieces(text: Option<string>): seq<string> {
    if text.Some? then [text.value] else []
  }

  /** `dot.edge(*token.strip().split('->'))`: two pieces are tail and head, a third is
      the label; one piece lacks the head argument. Four or more pieces would
      reach graphviz's attribute argument; the model simplifies them to an error. A successful edge joins back to the stripped token, and neither end
      holds an arrow. */
  function EdgeOf(token: string): (r: Result<Edge>)
    ensures r.Ok? ==> Join([r.value.tail, r.value.head] + LabelPieces(r.value.text), "->") == Strip(token)
    ensures r.Ok? ==> !Contains(r.value.tail, "->") && !Contains(r.value.head, "->")
    ensures r == Err(MissingArrow(Strip(token))) <==> !Contains(Strip(token), "->")
  {
    var t := Strip(token);
    var parts := Split(t, "->");
    SplitJoin(t, "->");
    SplitPiecesFree(t, "->");
    SplitSingle(t, "->");
    assert parts[0] in parts && parts[1 % |parts|] in parts;
    if |parts| == 1 then Err(MissingArrow(t))
    else if |parts| == 2 then
      assert [parts[0], parts[1]] + [] == parts;
      Ok(Edge(parts[0], parts[1], None))
    else if |parts| == 3 then
      assert [parts[0], parts[1]] + [parts[2]] == parts;
      Ok(Edge(parts[0], parts[1], Some(parts[2])))
    else Err(TooManyParts(t))
  }

  /** Parsing the tokens in order; the first failing token's error ends it. */
  function EdgesBy(tokens: seq<string>, parse: string -> Result<Edge>): Result<seq<Edge>>
    decreases |tokens|
  {
    if tokens == [] then Ok([])
    else match parse(tokens[0])
      case Err(e) => Err(e)
      case Ok(edge) => Prepend([edge], EdgesBy(tokens[1..], parse))
  }

  /** Tokens that each parse to an edge give those edges, in order. */
  lemma {:induction false} EdgesByAll(tokens: seq<string>, parse: string -> Result<Edge>, edges: seq<Edge>)
    requires |tokens| == |edges|
    requires forall j :: 0 <= j < |tokens| ==> parse(tokens[j]) == Ok(edges[j])
    ensures EdgesBy(tokens, parse) == Ok(edges)
    decreases |tokens|
  {
    if tokens != [] {
      EdgesByAll(tokens[1..], parse, edges[1..]);
      assert [edges[0]] + edges[1..] == edges;
    }
  }

  /** A failing token makes the whole parse fail. */
  lemma {:induction false} EdgesByFails(tokens: seq<string>, parse: string -> Result<Edge>, j: nat)
    requires j < |tokens| && parse(tokens[j]).Err?
    ensures EdgesBy(tokens, parse).Err?
    decreases |tokens|
  {
    if j > 0 && parse(tokens[0]).Ok? {
      EdgesByFails(tokens[1..], parse, j - 1);
    }
  }

  /** The edges `dot.edge` has already drawn when the token loop stops: those of the
      tokens before the first one that fails, or of all tokens. */
  function EdgesBefore(tokens: seq<string>, parse: string -> Result<Edge>): seq<Edge>
    decreases |tokens|
  {
    if tokens == [] then []
    else match parse(tokens[0])
      case Err(_) => []
      case Ok(edge) => [edge] + EdgesBefore(tokens[1..], parse)
  }

  /** When every token parses, the edges drawn are the parsed edges. */
  lemma {:induction false} EdgesBeforeOk(tokens: seq<string>, parse: string -> Result<Edge>)
    requires EdgesBy(tokens, parse).Ok?
    ensures EdgesBy(tokens, parse).value == EdgesBefore(tokens, parse)
    decreases |tokens|
  {
    if tokens != [] {
      EdgesBeforeOk(tokens[1..], parse);
    }
  }

  /** When a token fails, it is the j-th: the error is its error, and the edges drawn
      are exactly those of the j tokens before it. */
  lemma {:induction false} EdgesBeforeFail(tokens: seq<string>, parse: string -> Result<Edge>) returns (j: nat)
    requires EdgesBy(tokens, parse).Err?
    ensures j < |tokens| && parse(tokens[j]).Err? && EdgesBy(tokens, parse) == Err(parse(tokens[j]).error)
    ensures |EdgesBefore(tokens, parse)| == j
    ensures forall i :: 0 <= i < j ==> parse(tokens[i]) == Ok(EdgesBefore(tokens, parse)[i])
    decreases |tokens|
  {
    if parse(tokens[0]).Err? {
      j := 0;
    } else {
      var k := EdgesBeforeFail(tokens[1..], parse);
      j := k + 1;
      var rest := EdgesBefore(tokens[1..], parse);
      assert EdgesBefore(tokens, parse) == [parse(tokens[0]).value] + rest;
      forall i | 0 <= i < j ensures parse(tokens[i]) == Ok(EdgesBefore(tokens, parse)[i]) {
        if i > 0 {
          assert tokens[i] == tokens[1..][i - 1];
        }
      }
    }
  }

  /** The edges of generate_map's connection step: the linear chain when the answer is
      empty, otherwise one edge per comma-separated token. */
  function ConnectionEdges(steps: seq<Step>, connections: string): Result<seq<Edge>> {
    if connections == [] then Ok(LinearChain(steps))
    else EdgesBy(Split(connections, ","), EdgeOf)
  }

  /** The connection edges drawn, also when a token fails part-way. */
  function ConnectionDrawn(steps: seq<Step>, connections: string): seq<Edge> {
    if connections == [] then LinearChain(steps)
    else EdgesBefore(Split(connections, ","), EdgeOf)
  }

  /** The sentinel edges from START to the first step and from the last step to END;
      `steps[0]` on an empty list is an IndexError. */
  function GraphEdges(steps: seq<Step>, connections: string): Result<seq<Edge>> {
    match ConnectionEdges(steps, connections)
    case Err(e) => Err(e)
    case Ok(es) =>
      if steps == [] then Err(IndexOutOfRange)
      else Ok(es + [Edge("start", steps[0].id, None), Edge(steps[|steps| - 1].id, "end", None)])
  }

  /** With an empty connection answer there are n+1 edges: START to S1, the chain, and
      the last step to END; with no steps at all generate_map fails. */
  lemma LinearGraph(steps: seq<Step>)
    ensures steps == [] <==> GraphEdges(steps, "").Err?
    ensures steps == [] ==> GraphEdges(steps, "") == Err(IndexOutOfRange)
    ensures steps != [] ==>
              var es := GraphEdges(steps, "").value;
              |es| == |steps| + 1 &&
              (forall i :: 0 <= i < |steps| - 1 ==> es[i] == Edge(steps[i].id, steps[i + 1].id, None)) &&
              es[|steps| - 1] == Edge("start", steps[0].id, None) &&
              es[|steps|] == Edge(steps[|steps| - 1].id, "end", None)
  {
  }

  /** A connection token that does not parse fails generate_map whatever the steps. */
  lemma BadTokenFails(steps: seq<Step>, connections: string, j: nat)
    requires connections != []
    requires j < |Split(connections, ",")| && !Contains(Strip(Split(connections, ",")[j]), "->")
    ensures GraphEdges(steps, connections).Err?
  {
    EdgesByFails(Split(connections, ","), EdgeOf, j);
  }

  /** A node name the connection syntax can carry: non-empty, without whitespace,
      dashes, commas or bars. */
  predicate NodeName(a: string) {
    a != [] && forall k :: 0 <= k < |a| ==> !IsSpace(a[k]) && a[k] != '-' && a[k] != ',' && a[k] != '|'
  }

  /** `tail->head`. */
  function ArrowToken(e: Edge): string {
    e.tail + "->" + e.head
  }

  /** The connection answer that lists the edges, comma-separated. */
  function FormatConnections(edges: seq<Edge>): string {
    Join(seq(|edges|, j requires 0 <= j < |edges| => ArrowToken(edges[j])), ",")
  }

  /** One `tail->head` token between node names parses to its edge. */
  lemma EdgeOfArrow(a: string, b: string)
    requires NodeName(a) && NodeName(b)
    ensures EdgeOf(a + "->" + b) == Ok(Edge(a, b, None))
  {
    var t := a + "->" + b;
    assert t[0] == a[0] && t[|t| - 1] == b[|b| - 1];
    StripUnchanged(t);
    SplitAtSep(a, "->", b);
    SplitAbsentSep(b, "->");
  }

  /** Round trip: the comma-separated `tail->head` listing of unlabelled edges between
      node names parses back to exactly those edges, and START/END edges are added. */
  lemma ParseFormatted(steps: seq<Step>, edges: seq<Edge>)
    requires edges != []
    requires forall j :: 0 <= j < |edges| ==> NodeName(edges[j].tail) && NodeName(edges[j].head) && edges[j].text == None
    ensures ConnectionEdges(steps, FormatConnections(edges)) == Ok(edges)
    ensures steps != [] ==>
              GraphEdges(steps, FormatConnections(edges)) ==
              Ok(edges + [Edge("start", steps[0].id, None), Edge(steps[|steps| - 1].id, "end", None)])
  {
    var tokens := seq(|edges|, j requires 0 <= j < |edges| => ArrowToken(edges[j]));
    forall j | 0 <= j < |tokens| ensures ',' !in tokens[j] && EdgeOf(tokens[j]) == Ok(edges[j]) {
      EdgeOfArrow(edges[j].tail, edges[j].head);
      assert tokens[j] == edges[j].tail + "->" + edges[j].head;
    }
    SplitJoinInverse(tokens, ',');
    EdgesByAll(tokens, EdgeOf, edges);
    assert FormatConnections(edges) != [] by {
      assert |FormatConnections(edges)| > 0 by { JoinNonEmpty(tokens, ","); }
    }
  }

  /** The join of pieces whose first is non-empty is non-empty. */
  lemma JoinNonEmpty(parts: seq<string>, sep: string)
    requires parts != [] && parts[0] != []
    ensures Join(parts, sep) != []
  {
  }

  // ----- the documented branch syntax -----

  /** The prompt's grammar: comma-separated tokens, each a `|`-separated list of
      branches, each branch `tail->head`. */
  function Branches(tokens: seq<string>): seq<string>
    decreases |tokens|
  {
    if tokens == [] then [] else Split(Strip(tokens[0]), "|") + Branches(tokens[1..])
  }

  /** One branch: exactly one arrow. */
  function BranchEdge(branch: string): (r: Result<Edge>)
    ensures r.Ok? ==> r.value.text == None && r.value.tail + "->" + r.value.head == Strip(branch)
    ensures r.Ok? ==> !Contains(r.value.tail, "->") && !Contains(r.value.head, "->")
  {
    var t := Strip(branch);
    var parts := Split(t, "->");
    SplitJoin(t, "->");
    SplitPiecesFree(t, "->");
    assert parts[0] in parts && parts[1 % |parts|] in parts;
    if |parts| == 1 then Err(MissingArrow(t))
    else if |parts| == 2 then
      assert Join(parts, "->") == parts[0] + "->" + Join(parts[1..], "->");
      Ok(Edge(parts[0], parts[1], None))
    else Err(TooManyParts(t))
  }

  /** The connections as the prompt documents them, with the linear chain for an empty
      answer. */
  function DocumentedEdges(steps: seq<Step>, connections: string): Result<seq<Edge>> {
    if connections == [] then Ok(LinearChain(steps))
    else EdgesBy(Branches(Split(connections, ",")), BranchEdge)
  }

  /** Tokens without bars and without surrounding whitespace are single branches. */
  lemma {:induction false} BranchesPlain(tokens: seq<string>)
    requires forall j :: 0 <= j < |tokens| ==> '|' !in tokens[j] && Trimmed(tokens[j])
    ensures Branches(tokens) == tokens
    decreases |tokens|
  {
    if tokens != [] {
      BranchesPlain(tokens[1..]);
      StripUnchanged(tokens[0]);
      SplitAbsentSep(tokens[0], "|");
      assert [tokens[0]] + tokens[1..] == tokens;
    }
  }

  lemma BranchEdgeArrow(a: string, b: string)
    requires NodeName(a) && NodeName(b)
    ensures BranchEdge(a + "->" + b) == Ok(Edge(a, b, None))
  {
    var t := a + "->" + b;
    assert t[0] == a[0] && t[|t| - 1] == b[|b| - 1];
    StripUnchanged(t);
    SplitAtSep(a, "->", b);
    SplitAbsentSep(b, "->");
  }

  /** The documented grammar agrees with the code on plain comma-separated listings. */
  lemma DocumentedFormatted(steps: seq<Step>, edges: seq<Edge>)
    requires edges != []
    requires forall j :: 0 <= j < |edges| ==> NodeName(edges[j].tail) && NodeName(edges[j].head) && edges[j].text == None
    ensures DocumentedEdges(steps, FormatConnections(edges)) == Ok(edges)
    ensures DocumentedEdges(steps, FormatConnections(edges)) == ConnectionEdges(steps, FormatConnections(edges))
  {
    var tokens := seq(|edges|, j requires 0 <= j < |edges| => ArrowToken(edges[j]));
    forall j | 0 <= j < |tokens|
      ensures ',' !in tokens[j] && '|' !in tokens[j] && Trimmed(tokens[j]) && BranchEdge(tokens[j]) == Ok(edges[j])
    {
      var a, b := edges[j].tail, edges[j].head;
      BranchEdgeArrow(a, b);
      assert tokens[j] == a + "->" + b;
      assert tokens[j][0] == a[0] && tokens[j][|tokens[j]| - 1] == b[|b| - 1];
    }
    SplitJoinInverse(tokens, ',');
    BranchesPlain(tokens);
    EdgesByAll(tokens, BranchEdge, edges);
    ParseFormatted(steps, edges);
  }

  /** Node names hold none of the syntax characters and have no surrounding space. */
  lemma NodeNameChars(a: string)
    requires NodeName(a)
    ensures '-' !in a && ',' !in a && '|' !in a && Trimmed(a)
  {
  }

  /** Text that starts and ends with non-space characters is trimmed, whatever lies
      between. */
  lemma EndsTrimmed(a: string, m: string, b: string)
    requires a != [] && b != [] && !IsSpace(a[0]) && !IsSpace(b[|b| - 1])
    ensures Trimmed(a + m + b)
  {
    var t := a + m + b;
    assert t[0] == a[0] && t[|t| - 1] == b[|b| - 1];
  }

  /** Two pieces around one separator character. */
  lemma SplitTwo(t1: string, t2: string, c: char)
    requires c !in t1 && c !in t2
    ensures Split(t1 + [c] + t2, [c]) == [t1, t2]
  {
    SplitAtSep(t1, [c], t2);
    SplitAbsentSep(t2, [c]);
  }

  /** A trimmed token with two arrows is an edge with a label. */
  lemma EdgeOfLabelled(c: string, m: string, e: string)
    requires '-' !in c && '-' !in m && '-' !in e
    requires Trimmed(c + "->" + m + "->" + e)
    ensures EdgeOf(c + "->" + m + "->" + e) == Ok(Edge(c, m, Some(e)))
  {
    var t := c + "->" + m + "->" + e;
    StripUnchanged(t);
    assert Split(t, "->") == [c, m, e] by {
      assert t == c + "->" + (m + "->" + e);
      SplitAtSep(c, "->", m + "->" + e);
      SplitAtSep(m, "->", e);
      SplitAbsentSep(e, "->");
    }
  }

  /** The two ways to read the example shape: as two comma-separated tokens whose
      second holds two arrows, or whose second holds two `|`-separated branches. */
  lemma Regroup(a: string, b: string, c: string, d: string, e: string)
    ensures a + "->" + b + "," + c + "->" + d + "|" + c + "->" + e == (a + "->" + b) + "," + (c + "->" + (d + "|" + c) + "->" + e)
    ensures a + "->" + b + "," + c + "->" + d + "|" + c + "->" + e == (a + "->" + b) + "," + ((c + "->" + d) + "|" + (c + "->" + e))
  {
  }

  /** The prompt's example shape `a->b,c->d|c->e` as the code reads it: the second
      token splits on its two arrows into c, `d|c` and e, giving an edge from c to the
      node `d|c` labelled e. */
  lemma BranchAsWritten(a: string, b: string, c: string, d: string, e: string)
    requires NodeName(a) && NodeName(b) && NodeName(c) && NodeName(d) && NodeName(e)
    ensures ConnectionEdges([], a + "->" + b + "," + c + "->" + d + "|" + c + "->" + e) ==
            Ok([Edge(a, b, None), Edge(c, d + "|" + c, Some(e))])
  {
    NodeNameChars(a);
    NodeNameChars(b);
    NodeNameChars(c);
    NodeNameChars(d);
    NodeNameChars(e);
    Regroup(a, b, c, d, e);
    var t1 := a + "->" + b;
    var mid := d + "|" + c;
    var t2 := c + "->" + mid + "->" + e;
    SplitTwo(t1, t2, ',');
    EdgeOfArrow(a, b);
    EndsTrimmed(c, "->" + mid + "->", e);
    assert c + ("->" + mid + "->") + e == t2;
    EdgeOfLabelled(c, mid, e);
    EdgesByAll([t1, t2], EdgeOf, [Edge(a, b, None), Edge(c, mid, Some(e))]);
  }

  lemma BranchesTwo(t1: string, t2: string)
    ensures Branches([t1, t2]) == Split(Strip(t1), "|") + Split(Strip(t2), "|")
  {
    assert [t1, t2][1..] == [t2];
    assert [t2][1..] == [];
    assert Branches([t2]) == Split(Strip(t2), "|") + Branches([]);
    assert Split(Strip(t2), "|") + [] == Split(Strip(t2), "|");
  }

  /** A plain token and a token of two branches give three branches. */
  lemma BranchesOfTwoTokens(t1: string, b1: string, b2: string)
    requires ',' !in t1 && ',' !in b1 && ',' !in b2 && '|' !in t1 && '|' !in b1 && '|' !in b2
    requires t1 != [] && b1 != [] && b2 != [] && !IsSpace(t1[0]) && !IsSpace(t1[|t1| - 1])
    requires !IsSpace(b1[0]) && !IsSpace(b2[|b2| - 1])
    ensures Branches(Split(t1 + "," + (b1 + "|" + b2), ",")) == [t1, b1, b2]
  {
    var t2 := b1 + "|" + b2;
    SplitTwo(t1, t2, ',');
    EndsTrimmed(b1, "|", b2);
    StripUnchanged(t1);
    StripUnchanged(t2);
    SplitAbsentSep(t1, "|");
    SplitTwo(b1, b2, '|');
    BranchesTwo(t1, t2);
  }

  /** The same text under the documented grammar: the edges a to b, c to d and c to e. */
  lemma BranchDocumented(a: string, b: string, c: string, d: string, e: string)
    requires NodeName(a) && NodeName(b) && NodeName(c) && NodeName(d) && NodeName(e)
    ensures DocumentedEdges([], a + "->" + b + "," + c + "->" + d + "|" + c + "->" + e) ==
            Ok([Edge(a, b, None), Edge(c, d, None), Edge(c, e, None)])
  {
    NodeNameChars(a);
    NodeNameChars(b);
    NodeNameChars(c);
    NodeNameChars(d);
    NodeNameChars(e);
    Regroup(a, b, c, d, e);
    var t1 := a + "->" + b;
    var b1 := c + "->" + d;
    var b2 := c + "->" + e;
    assert t1[0] == a[0] && t1[|t1| - 1] == b[|b| - 1];
    assert b1[0] == c[0] && b2[|b2| - 1] == e[|e| - 1];
    BranchesOfTwoTokens(t1, b1, b2);
    BranchEdgeArrow(a, b);
    BranchEdgeArrow(c, d);
    BranchEdgeArrow(c, e);
    EdgesByAll([t1, b1, b2], BranchEdge, [Edge(a, b, None), Edge(c, d, None), Edge(c, e, None)]);
  }

  /** The prompt's own example `S1->S2,S2->S3|S2->S4`: the code draws S1 to S2 and an
      edge from S2 to a node named `S3|S2` labelled S4. */
  lemma PromptExampleAsWritten(s1: string, s2: string, s3: string, s4: string)
    requires s1 == "S1" && s2 == "S2" && s3 == "S3" && s4 == "S4"
    ensures ConnectionEdges([], s1 + "->" + s2 + "," + s2 + "->" + s3 + "|" + s2 + "->" + s4) ==
            Ok([Edge(s1, s2, None), Edge(s2, s3 + "|" + s2, Some(s4))])
  {
    assert NodeName(s1) && NodeName(s2) && NodeName(s3) && NodeName(s4);
    BranchAsWritten(s1, s2, s2, s3, s4);
  }

  /** The prompt's example under the documented grammar: S1 to S2, S2 to S3, S2 to S4. */
  lemma PromptExampleDocumented(s1: string, s2: string, s3: string, s4: string)
    requires s1 == "S1" && s2 == "S2" && s3 == "S3" && s4 == "S4"
    ensures DocumentedEdges([], s1 + "->" + s2 + "," + s2 + "->" + s3 + "|" + s2 + "->" + s4) ==
            Ok([Edge(s1, s2, None), Edge(s2, s3, None), Edge(s2, s4, None)])
  {
    assert NodeName(s1) && NodeName(s2) && NodeName(s3) && NodeName(s4);
    BranchDocumented(s1, s2, s2, s3, s4);
  }

  /** The edge loops of generate_map. */
  method ConnectSteps(steps: seq<Step>, connections: string) returns (r: Result<seq<Edge>>, drawn: seq<Edge>)
    ensures r == ConnectionEdges(steps, connections)
    ensures drawn == ConnectionDrawn(steps, connections)
  {
    if connections == [] {
      drawn := ChainSteps(steps);
      r := Ok(drawn);
    } else {
      r, drawn := ParseTokens(Split(connections, ","));
    }
  }

  /** `for i in range(len(steps)-1): dot.edge(steps[i].id, steps[i+1].id)`. */
  method ChainSteps(steps: seq<Step>) returns (drawn: seq<Edge>)
    ensures drawn == LinearChain(steps)
  {
    drawn := [];
    var i := 0;
    while i + 1 < |steps|
      invariant 0 <= i && (i == 0 || i < |steps|)
      invariant |drawn| == i
      invariant forall j :: 0 <= j < i ==> drawn[j] == Edge(steps[j].id, steps[j + 1].id, None)
    {
      drawn := drawn + [Edge(steps[i].id, steps[i + 1].id, None)];
      i := i + 1;
    }
  }

  /** `for conn in tokens: dot.edge(*conn.strip().split('->'))`, stopping at the first
      token that fails with the edges drawn so far. */
  method ParseTokens(tokens: seq<string>) returns (r: Result<seq<Edge>>, drawn: seq<Edge>)
    ensures r == EdgesBy(tokens, EdgeOf)
    ensures drawn == EdgesBefore(tokens, EdgeOf)
  {
    drawn := [];
    assert tokens[0..] == tokens;
    PrependEmpty(EdgesBy(tokens, EdgeOf));
    for i := 0 to |tokens|
      invariant EdgesBy(tokens, EdgeOf) == Prepend(drawn, EdgesBy(tokens[i..], EdgeOf))
      invariant EdgesBefore(tokens, EdgeOf) == drawn + EdgesBefore(tokens[i..], EdgeOf)
    {
      var e := EdgeOf(tokens[i]);
      assert tokens[i..][0] == tokens[i] && tokens[i..][1..] == tokens[i + 1..];
      if e.Err? {
        assert drawn + [] == drawn;
        return Err(e.error), drawn;
      }
      PrependTwice(drawn, [e.value], EdgesBy(tokens[i + 1..], EdgeOf));
      assert drawn + ([e.value] + EdgesBefore(tokens[i + 1..], EdgeOf)) == drawn + [e.value] + EdgesBefore(tokens[i + 1..], EdgeOf);
      drawn := drawn + [e.value];
    }
    assert EdgesBy(tokens[|tokens|..], EdgeOf) == Ok([]);
    assert drawn + [] == drawn;
    r := Ok(drawn);
  }

  // ----- the mapper -----

  /** What generate_map adds to the Digraph: the lane clusters (attributes only), the
      step nodes at the root, the edges, the START and END nodes, and the graph label. */
  datatype Graph = Graph(clusters: seq<Cluster>, nodes: seq<Node>, edges: seq<Edge>, terminals: seq<Node>, caption: Option<string>)

  const Terminals: seq<Node> := [Node("start", "START", Ellipse), Node("end", "END", Ellipse)]

  /** The graph label: the process name and the first 60 characters of the purpose. */
  function GraphLabel(what: string, why: string): string {
    what + "\\n" + Take(why, 60) + "..."
  }

  /** What the Digraph holds when generate_map returns or raises. The clusters and the
      root nodes are always added. A failing connection token stops the edges at the
      tokens before it, and nothing after them is added. Otherwise START and END are
      added; with no steps `steps[0]` then raises, so neither sentinel edge nor the label
      follows. */
  function DrawnGraph(steps: seq<Step>, connections: string, what: string, why: string): Graph {
    var drawn := ConnectionDrawn(steps, connections);
    if ConnectionEdges(steps, connections).Err? then
      Graph(Clusters(steps), LaneNodes(steps), drawn, [], None)
    else if steps == [] then
      Graph(Clusters(steps), LaneNodes(steps), drawn, Terminals, None)
    else
      Graph(Clusters(steps), LaneNodes(steps),
            drawn + [Edge("start", steps[0].id, None), Edge(steps[|steps| - 1].id, "end", None)],
            Terminals, Some(GraphLabel(what, why)))
  }

  /** generate_map completes exactly when the edges do, and then the graph carries them,
      the terminals and the label; on a failing token the graph holds the edges of the
      tokens before it and no terminals; with no steps it holds the terminals but no
      label. */
  lemma GeneratedGraph(steps: seq<Step>, connections: string, what: string, why: string)
    ensures var g := DrawnGraph(steps, connections, what, why);
            g.clusters == Clusters(steps) && g.nodes == LaneNodes(steps) &&
            (GraphEdges(steps, connections).Ok? <==> g.caption.Some?) &&
            (GraphEdges(steps, connections).Ok? ==>
               g.edges == GraphEdges(steps, connections).value && g.terminals == Terminals &&
               g.caption == Some(GraphLabel(what, why)))
    ensures ConnectionEdges(steps, connections).Ok? && steps == [] ==>
              DrawnGraph(steps, connections, what, why) ==
              Graph([], [], ConnectionEdges(steps, connections).value, Terminals, None)
  {
    if steps == [] {
      assert Grouped(steps, LaneOf) == [];
      assert LaneOrder(steps) == [];
    }
    if connections != [] && EdgesBy(Split(connections, ","), EdgeOf).Ok? {
      EdgesBeforeOk(Split(connections, ","), EdgeOf);
    }
  }

  /** A failing connection token, the j-th, leaves the graph with the edges of the j
      tokens before it and without the START and END nodes or the label. */
  lemma GeneratedGraphFails(steps: seq<Step>, connections: string, what: string, why: string) returns (j: nat)
    requires connections != [] && ConnectionEdges(steps, connections).Err?
    ensures var g := DrawnGraph(steps, connections, what, why);
            var tokens := Split(connections, ",");
            j < |tokens| && EdgeOf(tokens[j]).Err? && ConnectionEdges(steps, connections) == Err(EdgeOf(tokens[j]).error) &&
            |g.edges| == j && (forall i :: 0 <= i < j ==> EdgeOf(tokens[i]) == Ok(g.edges[i])) &&
            g.terminals == [] && g.caption == None
  {
    j := EdgesBeforeFail(Split(connections, ","), EdgeOf);
  }

  /** The keys of the core questions, in the order they are asked. */
  const CoreKeys: seq<string> := ["why", "what", "who", "when", "how", "where"]

  /** The mapper object. */
  class ProcessMapper {
    var core: map<string, string>
    var steps: seq<Step>
    var connections: string
    var dot: Option<Graph>

    constructor ()
      ensures core == map[] && steps == [] && connections == "" && dot == None
    {
      core := map[];
      steps := [];
      connections := "";
      dot := None;
    }

    /** ask_core_questions: each answer, stripped, is stored under its key as soon as it
        is read, so running out of answers keeps the keys answered so far. */
    method AskCoreQuestions(answers: seq<string>) returns (r: Result<()>)
      modifies this
      ensures r == (if |answers| < |CoreKeys| then Err(EndOfInput) else Ok(()))
      ensures core == Assigned(old(core), CoreKeys, StripEach(answers), if |answers| < |CoreKeys| then |answers| else |CoreKeys|)
      ensures steps == old(steps) && connections == old(connections) && dot == old(dot)
    {
      core, r := AssignEach(core, CoreKeys, StripEach(answers));
    }

    /** collect_steps: the steps are stored as soon as the 'done' name is read, before
        the connection answer is asked for; running out of answers during the rounds
        stores nothing. */
    method CollectSteps(answers: seq<string>) returns (r: Result<()>)
      modifies this
      ensures var c := Collected(answers);
              (c.Ok? ==> r == Ok(()) && steps == c.value.steps && connections == c.value.connections) &&
              (c.Err? ==> r == Err(c.error) && connections == old(connections))
      ensures match AnswerGroups(answers, IsDone)
              case Ok(groups) => steps == StepsFrom(groups)
              case Err(_) => steps == old(steps)
      ensures core == old(core) && dot == old(dot)
    {
      var read := ReadSteps(answers, IsDone);
      if read.Err? {
        return Err(read.error);
      }
      steps := read.value;
      var n := 5 * |steps| + 1;
      if n >= |answers| {
        return Err(EndOfInput);
      }
      connections := Strip(answers[n]);
      r := Ok(());
    }

    /** generate_map: the lane clusters, the step nodes at the root, the connection
        edges, the START/END nodes and sentinel edges, and the label. The graph is
        assigned before anything is added to it, so a bad token or an empty step list
        leaves the graph drawn so far. */
    method GenerateMap() returns (r: Result<()>)
      requires "what" in core && "why" in core
      modifies this
      ensures core == old(core) && steps == old(steps) && connections == old(connections)
      ensures var e := GraphEdges(steps, connections);
              r == (if e.Ok? then Ok(()) else Err(e.error))
      ensures dot == Some(DrawnGraph(steps, connections, core["what"], core["why"]))
    {
      var clusters, nodes := LayoutClusters(steps);
      var c, drawn := ConnectSteps(steps, connections);
      if c.Err? {
        dot := Some(Graph(clusters, nodes, drawn, [], None));
        return Err(c.error);
      }
      if |steps| == 0 {
        dot := Some(Graph(clusters, nodes, drawn, Terminals, None));
        return Err(IndexOutOfRange);
      }
      var edges := drawn + [Edge("start", steps[0].id, None), Edge(steps[|steps| - 1].id, "end", None)];
      dot := Some(Graph(clusters, nodes, edges, Terminals, Some(GraphLabel(core["what"], core["why"]))));
      r := Ok(());
    }

    /** save_and_export's file stem: the lower-cased name with spaces as underscores. */
    method SaveAndExport() returns (stem: string)
      requires "what" in core
      ensures stem == FileStem(core["what"])
    {
      stem := FileStem(core["what"]);
    }
  }
}
