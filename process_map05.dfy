/** process_map05: the interactive BPMN mapper whose steps name a `pool/lane` token.
    collect_steps reads steps until a 'done' name; build_process_map creates each pool
    once, calls add_lane once or twice per step (the lane dictionary maps a lane name to
    the pool it was last created in), records the element on the step itself and
    chains the steps in list order, each connection labelled with its target's name.
    Console input is an answer stream; running out of answers is input()'s EOFError. */
module ProcessMap05 {
  import opened Wrappers
  import opened Text
  import opened Collections
  import opened Bpmn

  /** A step record; `element` is the index of the element build_process_map adds for
      it, absent until then. */
  datatype Step = Step(id: string, name: string, kind: string, lane: string, element: Option<nat>)

  /** The three answers of one step: name, type and lane token, as typed. */
  datatype StepAnswers = StepAnswers(name: string, kind: string, lane: string)

  /** The name answer that ends the collection. */
  predicate IsDone(answer: string) {
    Lower(Strip(answer)) == "done"
  }

  /** Step k from its answers: the name and the lane token stripped, the type
      lower-cased. */
  function StepFrom(k: nat, a: StepAnswers): Step {
    Step(StepId(k), Strip(a.name), Lower(a.kind), Strip(a.lane), None)
  }

  /** The answer groups collect_steps reads: a name answer, and unless `done` holds of
      it two more answers, round after round. Running out of answers is an error. */
  function AnswerGroups(answers: seq<string>, done: string -> bool): Result<seq<StepAnswers>>
    decreases |answers|
  {
    if answers == [] then Err(EndOfInput)
    else if done(answers[0]) then Ok([])
    else if |answers| < 3 then Err(EndOfInput)
    else Prepend([StepAnswers(answers[0], answers[1], answers[2])], AnswerGroups(answers[3..], done))
  }

  lemma AnswerGroupsStep(answers: seq<string>, done: string -> bool)
    requires |answers| >= 3 && !done(answers[0])
    ensures AnswerGroups(answers, done) ==
            Prepend([StepAnswers(answers[0], answers[1], answers[2])], AnswerGroups(answers[3..], done))
  {
  }

  /** Group j of a successful read is answers 3j to 3j+2, `done` does not hold of its
      name answer, and the read ends at a name answer `done` holds of. */
  lemma {:induction false} AnswerGroupsContent(answers: seq<string>, done: string -> bool)
    requires AnswerGroups(answers, done).Ok?
    ensures var gs := AnswerGroups(answers, done).value;
            3 * |gs| < |answers| && done(answers[3 * |gs|]) &&
            forall j :: 0 <= j < |gs| ==>
              gs[j] == StepAnswers(answers[3 * j], answers[3 * j + 1], answers[3 * j + 2]) && !done(answers[3 * j])
    decreases |answers|
  {
    var gs := AnswerGroups(answers, done).value;
    if !done(answers[0]) {
      var rest := answers[3..];
      AnswerGroupsStep(answers, done);
      AnswerGroupsContent(rest, done);
      var gs' := AnswerGroups(rest, done).value;
      assert gs == [StepAnswers(answers[0], answers[1], answers[2])] + gs';
      assert rest[3 * |gs'|] == answers[3 * |gs|];
      forall j | 1 <= j < |gs|
        ensures gs[j] == StepAnswers(answers[3 * j], answers[3 * j + 1], answers[3 * j + 2])
        ensures !done(answers[3 * j])
      {
        assert gs[j] == gs'[j - 1];
        assert rest[3 * (j - 1)] == answers[3 * j];
        assert rest[3 * (j - 1) + 1] == answers[3 * j + 1];
        assert rest[3 * (j - 1) + 2] == answers[3 * j + 2];
      }
    }
  }

  /** The steps built from the groups, numbered from S1. */
  function StepsFrom(groups: seq<StepAnswers>): (r: seq<Step>)
  {
    seq(|groups|, j requires 0 <= j < |groups| => StepFrom(j + 1, groups[j]))
  }

  lemma StepsFromSnoc(groups: seq<StepAnswers>, g: StepAnswers)
    ensures StepsFrom(groups + [g]) == StepsFrom(groups) + [StepFrom(|groups| + 1, g)]
  {
    assert StepsFrom(groups + [g])[|groups|] == StepFrom(|groups| + 1, g);
  }

  /** What collect_steps stores. */
  function CollectedSteps(answers: seq<string>): Result<seq<Step>> {
    match AnswerGroups(answers, IsDone)
    case Ok(gs) => Ok(StepsFrom(gs))
    case Err(e) => Err(e)
  }

  /** The collected steps are S1..Sn in entry order, step j named by answer 3j
      (stripped, and not 'done' in any case), and the collection ended at a 'done' name
      answer. No step has an element yet. */
  lemma CollectedIds(answers: seq<string>)
    requires CollectedSteps(answers).Ok?
    ensures var steps := CollectedSteps(answers).value;
            3 * |steps| < |answers| && IsDone(answers[3 * |steps|]) &&
            forall j :: 0 <= j < |steps| ==>
              steps[j].id == StepId(j + 1) && steps[j].name == Strip(answers[3 * j]) &&
              !IsDone(answers[3 * j]) && steps[j].element.None?
  {
    AnswerGroupsContent(answers, IsDone);
  }

  /** The collection loop of collect_steps, over the answer stream. */
  method GatherSteps(answers: seq<string>) returns (r: Result<seq<Step>>)
    ensures r == CollectedSteps(answers)
  {
    var steps: seq<Step> := [];
    var pos := 0;
    var stepId := 1;
    ghost var groups: seq<StepAnswers> := [];
    assert answers[pos..] == answers;
    PrependEmpty(AnswerGroups(answers, IsDone));
    while true
      invariant pos == 3 * |groups| && pos <= |answers| && stepId == |groups| + 1
      invariant steps == StepsFrom(groups)
      invariant AnswerGroups(answers, IsDone) == Prepend(groups, AnswerGroups(answers[pos..], IsDone))
      decreases |answers| - pos
    {
      if pos >= |answers| {
        return Err(EndOfInput);
      }
      var name := Strip(answers[pos]);
      if Lower(name) == "done" {
        assert answers[pos..][0] == answers[pos];
        assert AnswerGroups(answers[pos..], IsDone) == Ok([]);
        assert groups + [] == groups;
        return Ok(steps);
      }
      if pos + 3 > |answers| {
        assert answers[pos..][0] == answers[pos];
        return Err(EndOfInput);
      }
      var g := StepAnswers(answers[pos], answers[pos + 1], answers[pos + 2]);
      var step := Step("S" + NatToString(stepId), name, Lower(answers[pos + 1]), Strip(answers[pos + 2]), None);
      assert step == StepFrom(stepId, g);
      assert answers[pos..][0] == answers[pos];
      AnswerGroupsStep(answers[pos..], IsDone);
      assert answers[pos..][3..] == answers[pos + 3..];
      PrependTwice(groups, [g], AnswerGroups(answers[pos + 3..], IsDone));
      StepsFromSnoc(groups, g);
      steps := steps + [step];
      groups := groups + [g];
      pos := pos + 3;
      stepId := stepId + 1;
    }
  }

  /** The registry's view of a step: its lane token resolved. */
  function Place(processName: string, s: Step): PlacedStep {
    PlacedStep(s.id, s.name, s.kind, SplitPoolLane(processName, s.lane))
  }

  function PlaceAll(processName: string, steps: seq<Step>): (r: seq<PlacedStep>)
  {
    seq(|steps|, j requires 0 <= j < |steps| => Place(processName, steps[j]))
  }

  function LaneNameOf(s: PlacedStep): string { s.lane.name }

  /** The `lanes` dictionary after the steps: each lane name mapped to the pool of its
      latest step. */
  function LaneOwners(steps: seq<PlacedStep>): map<string, string>
    decreases |steps|
  {
    if steps == [] then map[]
    else
      var s := steps[|steps| - 1];
      LaneOwners(steps[..|steps| - 1])[s.lane.name := s.lane.pool]
  }

  /** The condition of the first add_lane call: the lane name is new, or the dictionary
      maps it to another pool. */
  predicate NeedsLane(owners: map<string, string>, s: PlacedStep) {
    s.lane.name !in owners || owners[s.lane.name] != s.lane.pool
  }

  /** Every add_lane call, in order: the conditional one, then the unconditional one
      whose lane receives the element. */
  function LaneCalls(steps: seq<PlacedStep>): seq<LaneRef>
    decreases |steps|
  {
    if steps == [] then []
    else
      var init := steps[..|steps| - 1];
      var s := steps[|steps| - 1];
      LaneCalls(init) + (if NeedsLane(LaneOwners(init), s) then [s.lane, s.lane] else [s.lane])
  }

  /** The lane dictionary knows exactly the lane names seen so far. */
  lemma {:induction false} LaneOwnersKeys(steps: seq<PlacedStep>)
    ensures LaneOwners(steps).Keys == Keys(steps, LaneNameOf)
    decreases |steps|
  {
    if steps != [] {
      var init := steps[..|steps| - 1];
      LaneOwnersKeys(init);
      KeysSnoc(init, steps[|steps| - 1], LaneNameOf);
      assert init + [steps[|steps| - 1]] == steps;
    }
  }

  /** Every step makes one or two add_lane calls, each for its own lane. */
  lemma {:induction false} LaneCallsBounds(steps: seq<PlacedStep>)
    ensures |steps| <= |LaneCalls(steps)| <= 2 * |steps|
    ensures forall l :: l in LaneCalls(steps) ==> exists s :: s in steps && s.lane == l
    decreases |steps|
  {
    if steps != [] {
      var init := steps[..|steps| - 1];
      LaneCallsBounds(init);
      forall l | l in LaneCalls(steps) ensures exists s :: s in steps && s.lane == l {
        if l in LaneCalls(init) {
          var s :| s in init && s.lane == l;
          assert s in steps;
        } else {
          assert steps[|steps| - 1] in steps;
        }
      }
    }
  }

  /** When every step is in one pool, the lane dictionary maps every name to it. */
  lemma {:induction false} LaneOwnersOnePool(steps: seq<PlacedStep>, pool: string)
    requires forall j :: 0 <= j < |steps| ==> steps[j].lane.pool == pool
    ensures forall n :: n in LaneOwners(steps) ==> LaneOwners(steps)[n] == pool
    decreases |steps|
  {
    if steps != [] {
      LaneOwnersOnePool(steps[..|steps| - 1], pool);
    }
  }

  /** When every step is in one pool the lane dictionary never sees another pool, so the
      extra add_lane call happens exactly once per distinct lane name. */
  lemma {:induction false} LaneCallsOnePool(steps: seq<PlacedStep>, pool: string)
    requires forall j :: 0 <= j < |steps| ==> steps[j].lane.pool == pool
    ensures |LaneCalls(steps)| == |steps| + |Keys(steps, LaneNameOf)|
    decreases |steps|
  {
    if steps != [] {
      var init := steps[..|steps| - 1];
      var s := steps[|steps| - 1];
      LaneCallsOnePool(init, pool);
      LaneOwnersOnePool(init, pool);
      LaneOwnersKeys(init);
      KeysSnoc(init, s, LaneNameOf);
      assert init + [s] == steps;
      var known := Keys(init, LaneNameOf);
      assert Keys(steps, LaneNameOf) == known + {s.lane.name};
      if s.lane.name in known {
        assert !NeedsLane(LaneOwners(init), s);
        assert known + {s.lane.name} == known;
      } else {
        assert NeedsLane(LaneOwners(init), s);
        assert |known + {s.lane.name}| == |known| + 1;
      }
    }
  }

  /** `if lane_name not in lanes or lanes[lane_name] != pools[pool_name]`: the first
      add_lane call and the dictionary update, then the unconditional add_lane call. */
  method AddLanes(seen: seq<PlacedStep>, step: PlacedStep, lanes: map<string, string>, laneCalls: seq<LaneRef>)
      returns (lanes': map<string, string>, laneCalls': seq<LaneRef>)
    requires lanes == LaneOwners(seen) && laneCalls == LaneCalls(seen)
    ensures lanes' == LaneOwners(seen + [step]) && laneCalls' == LaneCalls(seen + [step])
  {
    assert (seen + [step])[..|seen|] == seen;
    lanes', laneCalls' := lanes, laneCalls;
    if step.lane.name !in lanes || lanes[step.lane.name] != step.lane.pool {
      laneCalls' := laneCalls' + [step.lane];
      lanes' := lanes[step.lane.name := step.lane.pool];
    }
    laneCalls' := laneCalls' + [step.lane];
  }

  /** An element as build_process_map adds it: its name and type, and the lane object
      that received it, named by the index of the add_lane call that returned that lane. */
  datatype LaneElement = LaneElement(name: string, etype: ElementType, laneCall: nat)

  /** The add_lane calls made up to step j extend those made before it by the step's own
      one or two calls. */
  lemma LaneCallsStep(steps: seq<PlacedStep>, j: nat)
    requires j < |steps|
    ensures LaneCalls(steps[..j + 1]) ==
            LaneCalls(steps[..j]) + (if NeedsLane(LaneOwners(steps[..j]), steps[j]) then [steps[j].lane, steps[j].lane] else [steps[j].lane])
  {
    assert steps[..j + 1][..j] == steps[..j];
  }

  /** The calls made for the first n steps are the first calls made for all of them. */
  lemma {:induction false} LaneCallsPrefix(steps: seq<PlacedStep>, n: nat)
    requires n <= |steps|
    ensures LaneCalls(steps[..n]) <= LaneCalls(steps)
    decreases |steps|
  {
    if n < |steps| {
      var init := steps[..|steps| - 1];
      assert steps[..n] == init[..n];
      LaneCallsPrefix(init, n);
    } else {
      assert steps[..n] == steps;
    }
  }

  /** Line 64's call for step j: the last add_lane call made by the end of that step. */
  function ElementCall(steps: seq<PlacedStep>, j: nat): nat
    requires j < |steps|
  {
    LaneCallsStep(steps, j);
    |LaneCalls(steps[..j + 1])| - 1
  }

  /** The element of each step, in the lane returned by the step's own last add_lane call. */
  function ElementsOf(steps: seq<PlacedStep>): seq<LaneElement> {
    seq(|steps|, j requires 0 <= j < |steps| => LaneElement(steps[j].name, ElementTypeFor(steps[j].kind), ElementCall(steps, j)))
  }

  lemma ElementsOfSnoc(steps: seq<PlacedStep>, s: PlacedStep)
    ensures ElementsOf(steps + [s]) == ElementsOf(steps) + [LaneElement(s.name, ElementTypeFor(s.kind), |LaneCalls(steps + [s])| - 1)]
  {
    var steps' := steps + [s];
    forall j | 0 <= j < |steps| ensures ElementCall(steps', j) == ElementCall(steps, j) {
      assert steps'[..j + 1] == steps[..j + 1];
    }
    assert steps'[..|steps| + 1] == steps';
  }

  /** Step j's element call comes after every call made before the step, is a call for
      the step's own lane, and follows the step's line-60 call when there is one. */
  lemma ElementCallOf(steps: seq<PlacedStep>, j: nat)
    requires j < |steps|
    ensures |LaneCalls(steps[..j])| <= ElementCall(steps, j) < |LaneCalls(steps)|
    ensures LaneCalls(steps)[ElementCall(steps, j)] == steps[j].lane
    ensures NeedsLane(LaneOwners(steps[..j]), steps[j]) ==>
              ElementCall(steps, j) == |LaneCalls(steps[..j])| + 1 &&
              LaneCalls(steps)[ElementCall(steps, j) - 1] == steps[j].lane
  {
    LaneCallsStep(steps, j);
    LaneCallsPrefix(steps, j + 1);
  }

  /** An earlier step's element call is among the calls made before a later step. */
  lemma ElementCallBefore(steps: seq<PlacedStep>, i: nat, j: nat)
    requires i < j < |steps|
    ensures ElementCall(steps, i) < |LaneCalls(steps[..j])|
  {
    LaneCallsStep(steps, i);
    assert steps[..i + 1] == steps[..j][..i + 1];
    LaneCallsPrefix(steps[..j], i + 1);
  }

  /** Each element sits in a lane of its own step's name, made by its step's last
      add_lane call, and later steps' elements sit in later lanes, so no lane object
      holds two elements. */
  lemma ElementLanes(steps: seq<PlacedStep>)
    ensures forall j :: 0 <= j < |steps| ==>
              ElementsOf(steps)[j].laneCall < |LaneCalls(steps)| && LaneCalls(steps)[ElementsOf(steps)[j].laneCall] == steps[j].lane
    ensures forall i, j :: 0 <= i < j < |steps| ==> ElementsOf(steps)[i].laneCall < ElementsOf(steps)[j].laneCall
  {
    var es := ElementsOf(steps);
    forall j | 0 <= j < |steps|
      ensures es[j].laneCall < |LaneCalls(steps)| && LaneCalls(steps)[es[j].laneCall] == steps[j].lane
    {
      ElementCallOf(steps, j);
    }
    forall i, j | 0 <= i < j < |steps| ensures es[i].laneCall < es[j].laneCall {
      ElementCallBefore(steps, i, j);
      ElementCallOf(steps, j);
    }
  }

  /** The lane that line 60 creates for step j is the call just before the step's
      element call, a lane of the step's name, and no element is ever added to it. */
  lemma FirstLaneUnused(steps: seq<PlacedStep>, j: nat)
    requires j < |steps| && NeedsLane(LaneOwners(steps[..j]), steps[j])
    ensures var k := ElementsOf(steps)[j].laneCall;
            1 <= k < |LaneCalls(steps)| && LaneCalls(steps)[k - 1] == steps[j].lane &&
            forall i :: 0 <= i < |steps| ==> ElementsOf(steps)[i].laneCall != k - 1
  {
    var es := ElementsOf(steps);
    ElementCallOf(steps, j);
    forall i | 0 <= i < |steps| ensures es[i].laneCall != es[j].laneCall - 1 {
      if i < j {
        ElementCallBefore(steps, i, j);
      } else if j < i {
        ElementCallBefore(steps, j, i);
        ElementCallOf(steps, i);
      }
    }
  }

  /** The steps after build_process_map: step j carries element j. */
  function Tagged(steps: seq<Step>): (r: seq<Step>)
  {
    seq(|steps|, j requires 0 <= j < |steps| => steps[j].(element := Some(j)))
  }

  /** The steps with the first i tagged. */
  function TaggedUpTo(steps: seq<Step>, i: nat): (r: seq<Step>)
    ensures |r| == |steps|
  {
    seq(|steps|, j requires 0 <= j < |steps| => if j < i then steps[j].(element := Some(j)) else steps[j])
  }

  /** Tagging step i in place extends the tagged prefix by one. */
  lemma TagStep(steps: seq<Step>, i: nat)
    requires i < |steps|
    ensures TaggedUpTo(steps, i)[i := TaggedUpTo(steps, i)[i].(element := Some(i))] == TaggedUpTo(steps, i + 1)
  {
  }

  /** The registry loop of build_process_map: each pool created once, in first-seen
      order; the add_lane calls of the lane rule; one element per step, in the lane
      object returned by the step's own last add_lane call; and each step record tagged
      with its element. */
  method PlaceSteps(processName: string, steps: seq<Step>)
      returns (pools: seq<string>, laneCalls: seq<LaneRef>, elements: seq<LaneElement>, tagged: seq<Step>)
    ensures var placed := PlaceAll(processName, steps);
            pools == PoolsCreated(placed) && laneCalls == LaneCalls(placed) && elements == ElementsOf(placed)
    ensures tagged == Tagged(steps)
  {
    var placed := PlaceAll(processName, steps);
    pools := [];
    var poolDict: set<string> := {};
    var lanes: map<string, string> := map[];
    laneCalls := [];
    elements := [];
    tagged := steps;
    assert tagged == TaggedUpTo(steps, 0);
    for i := 0 to |steps|
      invariant PoolRegistry(placed[..i], poolDict, pools)
      invariant lanes == LaneOwners(placed[..i]) && laneCalls == LaneCalls(placed[..i])
      invariant elements == ElementsOf(placed[..i])
      invariant tagged == TaggedUpTo(steps, i)
    {
      var step := Place(processName, steps[i]);
      TakeSnoc(placed, i);
      poolDict, pools := AddPool(placed[..i], step, poolDict, pools);
      lanes, laneCalls := AddLanes(placed[..i], step, lanes, laneCalls);
      ElementsOfSnoc(placed[..i], step);
      elements := elements + [LaneElement(step.name, ElementTypeFor(step.kind), |laneCalls| - 1)];
      TagStep(steps, i);
      tagged := tagged[i := tagged[i].(element := Some(i))];
    }
    assert placed[..|steps|] == placed;
    assert tagged == Tagged(steps);
  }

  /** The chain in list order, each connection labelled with its target's name. */
  function LabelledLinks(steps: seq<Step>): (r: seq<Link>)
  {
    seq(if steps == [] then 0 else |steps| - 1, j requires 0 <= j < |steps| - 1 => Link(j, j + 1, Some(steps[j + 1].name)))
  }

  /** The connecting loop: `prev_elem` is the previous step's element. */
  method ConnectSequential(steps: seq<Step>) returns (links: seq<Link>)
    requires forall j :: 0 <= j < |steps| ==> steps[j].element == Some(j)
    ensures links == LabelledLinks(steps)
  {
    links := [];
    var prev: Option<nat> := None;
    for i := 0 to |steps|
      invariant |links| == if i == 0 then 0 else i - 1
      invariant forall j :: 0 <= j < |links| ==> links[j] == Link(j, j + 1, Some(steps[j + 1].name))
      invariant prev == if i == 0 then None else Some(i - 1)
    {
      if prev.Some? {
        links := links + [Link(prev.value, steps[i].element.value, Some(steps[i].name))];
      }
      prev := steps[i].element;
    }
  }

  /** The footer text set on the map. */
  function Footer(why: string): string {
    "Automated from " + Take(why, 60) + "..."
  }

  /** Everything added to the map: pools, every add_lane call, elements and links. */
  datatype LaneDrawing = LaneDrawing(pools: seq<string>, laneCalls: seq<LaneRef>, elements: seq<LaneElement>, links: seq<Link>)

  /** The mapper object. */
  class ProcessMapper {
    var core: map<string, string>
    var steps: seq<Step>
    var drawing: Option<LaneDrawing>
    var footer: string

    constructor ()
      ensures core == map[] && steps == [] && drawing == None && footer == ""
    {
      core := map[];
      steps := [];
      drawing := None;
      footer := "";
    }

    /** ask_core_questions: three answers, kept as typed. */
    method AskCoreQuestions(answers: seq<string>) returns (r: Result<()>)
      modifies this
      ensures |answers| < 3 ==> r == Err(EndOfInput) && core == old(core)
      ensures |answers| >= 3 ==> r == Ok(()) && core == map["name" := answers[0], "why" := answers[1], "roles" := answers[2]]
      ensures steps == old(steps) && drawing == old(drawing) && footer == old(footer)
    {
      if |answers| < 3 {
        return Err(EndOfInput);
      }
      core := map["name" := answers[0], "why" := answers[1], "roles" := answers[2]];
      r := Ok(());
    }

    /** collect_steps over the step answers. */
    method CollectSteps(answers: seq<string>) returns (r: Result<()>)
      modifies this
      ensures var c := CollectedSteps(answers);
              (c.Ok? ==> r == Ok(()) && steps == c.value) &&
              (c.Err? ==> r == Err(c.error) && steps == old(steps))
      ensures core == old(core) && drawing == old(drawing) && footer == old(footer)
    {
      var c := GatherSteps(answers);
      if c.Err? {
        return Err(c.error);
      }
      steps := c.value;
      r := Ok(());
    }

    /** build_process_map: pools, lanes and elements, each step tagged with its element
        in place, and the labelled chain. */
    method BuildProcessMap()
      requires "name" in core && "why" in core
      modifies this
      ensures core == old(core) && steps == Tagged(old(steps))
      ensures var placed := PlaceAll(core["name"], old(steps));
              drawing == Some(LaneDrawing(PoolsCreated(placed), LaneCalls(placed), ElementsOf(placed), LabelledLinks(steps)))
      ensures footer == Footer(core["why"])
    {
      var pools, laneCalls, elements, tagged := PlaceSteps(core["name"], steps);
      steps := tagged;
      var links := ConnectSequential(steps);
      drawing := Some(LaneDrawing(pools, laneCalls, elements, links));
      footer := Footer(core["why"]);
    }

    /** save_all's file stem: the lower-cased name with spaces as underscores. */
    method SaveAll() returns (stem: string)
      requires "name" in core
      ensures stem == FileStem(core["name"])
    {
      stem := FileStem(core["name"]);
    }
  }
}
