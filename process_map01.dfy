/** process_map01: the first interactive BPMN mapper. collect_steps reads all five
    answers of a step before it checks the name for 'done', numbers the steps 1..n and
    reads a connection answer it never uses; generate_map creates one lane per distinct
    lane name in a single pool named after the process, one element per step keyed by
    its number, and chains the elements 1, 2, ..., n. */
module ProcessMap01 {
  import opened Wrappers
  import opened Text
  import opened Collections
  import opened Bpmn

  /** A step record with its integer id; only the type is normalised (lower-cased). */
  datatype Step = Step(id: nat, name: string, kind: string, lane: string, duration: string, tool: string)

  /** The five answers of one round: name, type, lane, duration and tool. */
  datatype StepAnswers = StepAnswers(name: string, kind: string, lane: string, duration: string, tool: string)

  /** The name that ends the collection: 'done' in any case, not stripped. */
  predicate IsDone(name: string) {
    Lower(name) == "done"
  }

  function StepFrom(k: nat, a: StepAnswers): Step {
    Step(k, a.name, Lower(a.kind), a.lane, a.duration, a.tool)
  }

  /** The rounds of the collection loop: every round reads five answers, and only then
      does `done` on the name end the loop, so the closing round needs five answers
      too. Running out of answers is an error. */
  function AnswerGroups(answers: seq<string>, done: string -> bool): Result<seq<StepAnswers>>
    decreases |answers|
  {
    if |answers| < 5 then Err(EndOfInput)
    else if done(answers[0]) then Ok([])
    else Prepend([StepAnswers(answers[0], answers[1], answers[2], answers[3], answers[4])], AnswerGroups(answers[5..], done))
  }

  lemma AnswerGroupsStep(answers: seq<string>, done: string -> bool)
    requires |answers| >= 5 && !done(answers[0])
    ensures AnswerGroups(answers, done) ==
            Prepend([StepAnswers(answers[0], answers[1], answers[2], answers[3], answers[4])], AnswerGroups(answers[5..], done))
  {
  }

  /** Group j of a successful read is answers 5j to 5j+4 and its name is not `done`;
      the closing round, five answers long, starts with a `done` name. */
  lemma {:induction false} AnswerGroupsContent(answers: seq<string>, done: string -> bool)
    requires AnswerGroups(answers, done).Ok?
    ensures var gs := AnswerGroups(answers, done).value;
            5 * |gs| + 5 <= |answers| && done(answers[5 * |gs|]) &&
            forall j :: 0 <= j < |gs| ==>
              gs[j] == StepAnswers(answers[5 * j], answers[5 * j + 1], answers[5 * j + 2], answers[5 * j + 3], answers[5 * j + 4]) &&
              !done(answers[5 * j])
    decreases |answers|
  {
    var gs := AnswerGroups(answers, done).value;
    if !done(answers[0]) {
      var rest := answers[5..];
      AnswerGroupsStep(answers, done);
      AnswerGroupsContent(rest, done);
      var gs' := AnswerGroups(rest, done).value;
      assert gs == [StepAnswers(answers[0], answers[1], answers[2], answers[3], answers[4])] + gs';
      assert rest[5 * |gs'|] == answers[5 * |gs|];
      forall j | 1 <= j < |gs|
        ensures gs[j] == StepAnswers(answers[5 * j], answers[5 * j + 1], answers[5 * j + 2], answers[5 * j + 3], answers[5 * j + 4])
        ensures !done(answers[5 * j])
      {
        assert gs[j] == gs'[j - 1];
        assert rest[5 * (j - 1)] == answers[5 * j];
        assert rest[5 * (j - 1) + 1] == answers[5 * j + 1];
        assert rest[5 * (j - 1) + 2] == answers[5 * j + 2];
        assert rest[5 * (j - 1) + 3] == answers[5 * j + 3];
        assert rest[5 * (j - 1) + 4] == answers[5 * j + 4];
      }
    }
  }

  function StepsFrom(groups: seq<StepAnswers>): (r: seq<Step>)
  {
    seq(|groups|, j requires 0 <= j < |groups| => StepFrom(j + 1, groups[j]))
  }

  lemma StepsFromSnoc(groups: seq<StepAnswers>, g: StepAnswers)
    ensures StepsFrom(groups + [g]) == StepsFrom(groups) + [StepFrom(|groups| + 1, g)]
  {
    assert StepsFrom(groups + [g])[|groups|] == StepFrom(|groups| + 1, g);
  }

  /** What collect_steps stores: the steps, and the stripped answer after the closing
      round. */
  datatype Collection = Collection(steps: seq<Step>, connections: string)

  function Collected(answers: seq<string>): Result<Collection> {
    match AnswerGroups(answers, IsDone)
    case Err(e) => Err(e)
    case Ok(gs) =>
      var n := 5 * |gs| + 5;
      if n < |answers| then Ok(Collection(StepsFrom(gs), Strip(answers[n]))) else Err(EndOfInput)
  }

  /** The steps are numbered 1..n in list order. */
  predicate NumberedInOrder(steps: seq<Step>) {
    forall j :: 0 <= j < |steps| ==> steps[j].id == j + 1
  }

  /** The collected steps are numbered 1..n; step j's fields are answers 5j to 5j+4
      (type lower-cased), its name is not 'done'; the closing round of five answers
      starts with 'done' and is discarded, and the connection answer follows it. */
  lemma CollectedShape(answers: seq<string>)
    requires Collected(answers).Ok?
    ensures var c := Collected(answers).value;
            var n := |c.steps|;
            NumberedInOrder(c.steps) &&
            5 * n + 5 < |answers| && IsDone(answers[5 * n]) && c.connections == Strip(answers[5 * n + 5]) &&
            forall j :: 0 <= j < n ==>
              c.steps[j] == Step(j + 1, answers[5 * j], Lower(answers[5 * j + 1]), answers[5 * j + 2], answers[5 * j + 3], answers[5 * j + 4]) &&
              !IsDone(answers[5 * j])
  {
    AnswerGroupsContent(answers, IsDone);
  }

  /** The collection loop over the answer stream: five answers per round, then the
      'done' test on the name. */
  method ReadSteps(answers: seq<string>) returns (r: Result<seq<Step>>)
    ensures match AnswerGroups(answers, IsDone)
            case Ok(groups) => r == Ok(StepsFrom(groups))
            case Err(e) => r == Err(e)
  {
    var steps: seq<Step> := [];
    var pos := 0;
    var stepId := 1;
    ghost var groups: seq<StepAnswers> := [];
    assert answers[pos..] == answers;
    PrependEmpty(AnswerGroups(answers, IsDone));
    while true
      invariant pos == 5 * |groups| && pos <= |answers| && stepId == |groups| + 1
      invariant steps == StepsFrom(groups)
      invariant AnswerGroups(answers, IsDone) == Prepend(groups, AnswerGroups(answers[pos..], IsDone))
      decreases |answers| - pos
    {
      if pos + 5 > |answers| {
        return Err(EndOfInput);
      }
      var step := Step(stepId, answers[pos], Lower(answers[pos + 1]), answers[pos + 2], answers[pos + 3], answers[pos + 4]);
      assert answers[pos..][0] == answers[pos];
      if Lower(step.name) == "done" {
        assert AnswerGroups(answers[pos..], IsDone) == Ok([]);
        assert groups + [] == groups;
        return Ok(steps);
      }
      var g := StepAnswers(answers[pos], answers[pos + 1], answers[pos + 2], answers[pos + 3], answers[pos + 4]);
      assert step == StepFrom(stepId, g);
      AnswerGroupsStep(answers[pos..], IsDone);
      assert answers[pos..][5..] == answers[pos + 5..];
      PrependTwice(groups, [g], AnswerGroups(answers[pos + 5..], IsDone));
      StepsFromSnoc(groups, g);
      steps := steps + [step];
      groups := groups + [g];
      pos := pos + 5;
      stepId := stepId + 1;
    }
  }

  // ----- generate_map -----

  /** The type lookup of generate_map: a decision is an exclusive gateway, a task and
      every other type (start and end included) a task. */
  function ElementTypeOf(kind: string): (t: ElementType)
    ensures t == Exclusive <==> kind == "decision"
    ensures t == Task <==> kind != "decision"
  {
    if kind == "task" then Task
    else if kind == "decision" then Exclusive
    else Task
  }

  function LaneOf(s: Step): string { s.lane }

  /** The lanes generate_map creates: one per distinct lane name, in first-seen order,
      all in the process's pool. */
  function LanesCreated(pool: string, steps: seq<Step>): (r: seq<LaneRef>)
  {
    var d := DedupBy(steps, LaneOf);
    seq(|d|, j requires 0 <= j < |d| => LaneRef(pool, d[j].lane))
  }

  lemma LanesCreatedSnoc(pool: string, steps: seq<Step>, s: Step)
    ensures LanesCreated(pool, steps + [s]) ==
            if s.lane in Keys(steps, LaneOf) then LanesCreated(pool, steps) else LanesCreated(pool, steps) + [LaneRef(pool, s.lane)]
  {
    DedupBySnoc(steps, s, LaneOf);
  }

  /** One lane per distinct lane name: the lanes are the first-seen lane names, each
      once, in the process's pool, and every step's lane is among them. */
  lemma LanesOncePerName(pool: string, steps: seq<Step>)
    ensures var lanes := LanesCreated(pool, steps);
            var names := FirstSeenKeys(steps, LaneOf);
            |lanes| == |names| &&
            (forall j :: 0 <= j < |lanes| ==> lanes[j] == LaneRef(pool, names[j])) &&
            (forall i, j :: 0 <= i < j < |lanes| ==> lanes[i] != lanes[j]) &&
            (forall i :: 0 <= i < |steps| ==> LaneRef(pool, steps[i].lane) in lanes)
  {
    var lanes := LanesCreated(pool, steps);
    var names := FirstSeenKeys(steps, LaneOf);
    var d := DedupBy(steps, LaneOf);
    FirstSeenKeysProperties(steps, LaneOf);
    forall i | 0 <= i < |steps| ensures LaneRef(pool, steps[i].lane) in lanes {
      KeysMember(steps, LaneOf, i);
      var j :| 0 <= j < |names| && names[j] == steps[i].lane;
      assert names[j] == LaneOf(d[j]) == d[j].lane;
      assert lanes[j] == LaneRef(pool, steps[i].lane);
    }
  }

  function ElementOf(pool: string, s: Step): Element {
    Element(s.name, ElementTypeOf(s.kind), LaneRef(pool, s.lane))
  }

  /** The `elements` dictionary after the first n steps: each step's element under its
      id. */
  function ElementsUpTo(pool: string, steps: seq<Step>, n: nat): map<nat, Element>
    requires n <= |steps|
  {
    if n == 0 then map[] else ElementsUpTo(pool, steps, n - 1)[steps[n - 1].id := ElementOf(pool, steps[n - 1])]
  }

  /** For steps numbered 1..n the dictionary has exactly the keys 1..n, key k holding
      step k's element in the lane of its own name. */
  lemma {:induction false} ElementsKeys(pool: string, steps: seq<Step>, n: nat)
    requires n <= |steps| && NumberedInOrder(steps)
    ensures forall k :: k in ElementsUpTo(pool, steps, n) <==> 1 <= k <= n
    ensures forall k :: 1 <= k <= n ==> ElementsUpTo(pool, steps, n)[k] == ElementOf(pool, steps[k - 1])
  {
    if n > 0 {
      ElementsKeys(pool, steps, n - 1);
    }
  }

  /** The chain `prev.connect(elements[k])` for k = 2..n: element k-1 to element k,
      named by their keys. */
  function ChainLinks(n: nat): (r: seq<Link>)
  {
    seq(if n == 0 then 0 else n - 1, j requires 0 <= j < n - 1 => Link(j + 1, j + 2, None))
  }

  /** Every link joins two keys of the elements dictionary, consecutive numbers. */
  lemma ChainWithinElements(pool: string, steps: seq<Step>)
    requires NumberedInOrder(steps)
    ensures forall j :: 0 <= j < |ChainLinks(|steps|)| ==>
              ChainLinks(|steps|)[j].source in ElementsUpTo(pool, steps, |steps|) &&
              ChainLinks(|steps|)[j].target in ElementsUpTo(pool, steps, |steps|) &&
              ChainLinks(|steps|)[j].target == ChainLinks(|steps|)[j].source + 1
  {
    ElementsKeys(pool, steps, |steps|);
  }

  /** The `Pool` generate_map builds: its name, the lanes made with `pool=pool`, the
      elements added to them and the links between those elements. */
  datatype PoolDrawing = PoolDrawing(name: string, lanes: seq<LaneRef>, elements: map<nat, Element>, links: seq<Link>)

  /** The `ProcessMap` generate_map creates and draws: its title, the pools added to
      it and its footer. */
  datatype MapDrawing = MapDrawing(title: string, pools: seq<PoolDrawing>, footer: string)

  function Footer(why: string): string {
    "Automated from " + Take(why, 50) + "..."
  }

  function DetachedPool(what: string, steps: seq<Step>): PoolDrawing {
    PoolDrawing(what, LanesCreated(what, steps), ElementsUpTo(what, steps, |steps|), ChainLinks(|steps|))
  }

  /** The pool is built beside the map and never added to it: only the title and
      the footer reach `self.pm`. */
  function MapOf(what: string, why: string): MapDrawing {
    MapDrawing(what, [], Footer(why))
  }

  /** The pool holds an element for every collected step, yet the map that is drawn
      contains no pool, so none of those elements is drawn. */
  lemma PoolNotDrawn(what: string, why: string, steps: seq<Step>)
    requires NumberedInOrder(steps)
    ensures forall k :: 1 <= k <= |steps| ==>
              k in DetachedPool(what, steps).elements && DetachedPool(what, steps).elements[k].name == steps[k - 1].name
    ensures DetachedPool(what, steps) !in MapOf(what, why).pools
    ensures forall p, k :: p in MapOf(what, why).pools ==> k !in p.elements
  {
    ElementsKeys(what, steps, |steps|);
  }

  /** The lane loop: `if step["lane"] not in lanes: lanes[...] = Lane(...)`. */
  method CreateLanes(pool: string, steps: seq<Step>) returns (lanes: map<string, LaneRef>, created: seq<LaneRef>)
    ensures created == LanesCreated(pool, steps)
    ensures lanes.Keys == Keys(steps, LaneOf) && forall n :: n in lanes ==> lanes[n] == LaneRef(pool, n)
    ensures forall i :: 0 <= i < |steps| ==> steps[i].lane in lanes
  {
    lanes := map[];
    created := [];
    for i := 0 to |steps|
      invariant created == LanesCreated(pool, steps[..i])
      invariant lanes.Keys == Keys(steps[..i], LaneOf) && forall n :: n in lanes ==> lanes[n] == LaneRef(pool, n)
    {
      var step := steps[i];
      assert steps[..i + 1] == steps[..i] + [step];
      KeysSnoc(steps[..i], step, LaneOf);
      LanesCreatedSnoc(pool, steps[..i], step);
      if step.lane !in lanes {
        lanes := lanes[step.lane := LaneRef(pool, step.lane)];
        created := created + [LaneRef(pool, step.lane)];
      }
    }
    assert steps[..|steps|] == steps;
    forall i | 0 <= i < |steps| ensures steps[i].lane in lanes {
      KeysMember(steps, LaneOf, i);
    }
  }

  /** The element loop: each step's element in its lane, under its id. */
  method AddElements(pool: string, steps: seq<Step>, lanes: map<string, LaneRef>) returns (elements: map<nat, Element>)
    requires forall i :: 0 <= i < |steps| ==> steps[i].lane in lanes && lanes[steps[i].lane] == LaneRef(pool, steps[i].lane)
    requires NumberedInOrder(steps)
    ensures elements == ElementsUpTo(pool, steps, |steps|)
    ensures forall k :: 1 <= k <= |steps| ==> k in elements
  {
    elements := map[];
    for i := 0 to |steps|
      invariant elements == ElementsUpTo(pool, steps, i)
    {
      var step := steps[i];
      var lane := lanes[step.lane];
      var el := Element(step.name, ElementTypeOf(step.kind), lane);
      elements := elements[step.id := el];
    }
    ElementsKeys(pool, steps, |steps|);
  }

  /** The connecting loop over the ids 1..n, with `prev` the previous element's key. */
  method ConnectChain(n: nat, elements: map<nat, Element>) returns (links: seq<Link>)
    requires forall k :: 1 <= k <= n ==> k in elements
    ensures links == ChainLinks(n)
  {
    links := [];
    var prev: Option<nat> := None;
    for k := 1 to n + 1
      invariant |links| == k - 2 || (k == 1 && links == [])
      invariant forall j :: 0 <= j < |links| ==> links[j] == Link(j + 1, j + 2, None)
      invariant prev == if k == 1 then None else Some(k - 1)
    {
      if prev.Some? {
        links := links + [Link(prev.value, k, None)];
      }
      prev := Some(k);
    }
  }

  /** The keys of the core questions, in the order they are asked. */
  const CoreKeys: seq<string> := ["why", "what", "who", "when", "how", "where"]

  class ProcessMapper {
    var core: map<string, string>
    var steps: seq<Step>
    var connections: string
    var pm: Option<MapDrawing>

    /** The steps are the numbered ones collect_steps stores. */
    predicate Valid()
      reads this
    {
      NumberedInOrder(steps)
    }

    constructor ()
      ensures Valid() && core == map[] && steps == [] && connections == "" && pm == None
    {
      core := map[];
      steps := [];
      connections := "";
      pm := None;
    }

    /** ask_core_questions: each answer, stripped, is stored under its key as soon as it
        is read, so running out of answers keeps the keys answered so far. */
    method AskCoreQuestions(answers: seq<string>) returns (r: Result<()>)
      requires Valid()
      modifies this
      ensures Valid()
      ensures r == (if |answers| < |CoreKeys| then Err(EndOfInput) else Ok(()))
      ensures core == Assigned(old(core), CoreKeys, StripEach(answers), if |answers| < |CoreKeys| then |answers| else |CoreKeys|)
      ensures steps == old(steps) && connections == old(connections) && pm == old(pm)
    {
      core, r := AssignEach(core, CoreKeys, StripEach(answers));
    }

    /** collect_steps: the steps are stored as soon as the 'done' round is read, before
        the connection answer is asked for; running out of answers during the rounds
        stores nothing. */
    method CollectSteps(answers: seq<string>) returns (r: Result<()>)
      requires Valid()
      modifies this
      ensures Valid()
      ensures var c := Collected(answers);
              (c.Ok? ==> r == Ok(()) && steps == c.value.steps && connections == c.value.connections) &&
              (c.Err? ==> r == Err(c.error) && connections == old(connections))
      ensures match AnswerGroups(answers, IsDone)
              case Ok(groups) => steps == StepsFrom(groups)
              case Err(_) => steps == old(steps)
      ensures core == old(core) && pm == old(pm)
    {
      var read := ReadSteps(answers);
      if read.Err? {
        return Err(read.error);
      }
      steps := read.value;
      var n := 5 * |steps| + 5;
      if n >= |answers| {
        return Err(EndOfInput);
      }
      connections := Strip(answers[n]);
      r := Ok(());
    }

    /** generate_map: a new ProcessMap, then a separate Pool with its lanes, elements
        and chain, then the map's footer. The pool is the method's local `pool`; the
        connection answer is not consulted. */
    method GenerateMap() returns (pool: PoolDrawing)
      requires Valid() && "what" in core && "why" in core
      modifies this
      ensures Valid() && core == old(core) && steps == old(steps) && connections == old(connections)
      ensures pm == Some(MapOf(core["what"], core["why"]))
      ensures pool == DetachedPool(core["what"], steps)
    {
      var what, why, st := core["what"], core["why"], steps;
      var lanes, created := CreateLanes(what, st);
      var elements := AddElements(what, st, lanes);
      var links := ConnectChain(|st|, elements);
      pool := PoolDrawing(what, created, elements, links);
      pm := Some(MapDrawing(what, [], Footer(why)));
    }

    /** save_and_export's file stem. */
    method SaveAndExport() returns (stem: string)
      requires "what" in core
      ensures stem == FileStem(core["what"])
    {
      stem := FileStem(core["what"]);
    }
  }
}
