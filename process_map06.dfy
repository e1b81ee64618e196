/** process_map06: the interactive BPMN mapper with guaranteed start and end steps.
    collect_steps always begins with the S1 start step, reads at most four more steps
    and appends S99 "Process End" when no step is an end event; build_process_map
    creates pools and lanes once each and chains the elements in step-number order.
    Console input is an answer stream: each input() call takes the next answer, and
    running out of answers is the EOFError input() raises. */
module ProcessMap06 {
  import opened Wrappers
  import opened Text
  import opened Collections
  import opened Bpmn

  /** A step record: id, name, type, pool and lane. */
  datatype Step = Step(id: string, name: string, kind: string, pool: string, lane: string)

  /** `answer or default`: an empty answer falls back to the default. */
  function OrDefault(answer: string, default: string): (r: string)
  {
    if answer == [] then default else answer
  }

  /** The core answers: process name and purpose, stripped, with their defaults. */
  function CoreFrom(nameAnswer: string, whyAnswer: string): (core: map<string, string>)
    ensures core.Keys == {"name", "why"}
    ensures core["name"] == OrDefault(Strip(nameAnswer), "Business Process")
    ensures core["why"] == OrDefault(Strip(whyAnswer), "Streamline operations")
    ensures core["name"] != [] && core["why"] != []
  {
    map["name" := OrDefault(Strip(nameAnswer), "Business Process"),
        "why" := OrDefault(Strip(whyAnswer), "Streamline operations")]
  }

  /** The step every list starts with. */
  function StartStep(processName: string): Step {
    Step("S1", "Process Start", "start", processName, "Team")
  }

  /** The step appended when no step is an end event. */
  function EndStep(processName: string): Step {
    Step("S99", "Process End", "end", processName, "Team")
  }

  /** The name answer of step k after the step-2 default: a blank name at step 2 becomes
      "Main Task"; the 'done' check looks at this value. */
  function NameAnswer(answer: string, k: nat): string {
    var name := Strip(answer);
    if name == [] && k == 2 then "Main Task" else name
  }

  /** The four answers of one step: name, type, pool and lane, as typed. */
  datatype StepAnswers = StepAnswers(name: string, kind: string, pool: string, lane: string)

  /** Step k from its answers, with the per-field defaults. */
  function StepFrom(processName: string, k: nat, a: StepAnswers): Step {
    Step(StepId(k), OrDefault(NameAnswer(a.name, k), "Step " + NatToString(k)),
         OrDefault(Lower(a.kind), "task"),
         OrDefault(Strip(a.pool), processName),
         OrDefault(Strip(a.lane), "Team"))
  }

  /** The defaults of a step: a blank name is "Main Task" at step 2 and "Step k"
      elsewhere, a blank type is "task", a blank pool the process name, a blank lane
      "Team"; answers given are kept, the name, pool and lane stripped and the type
      lower-cased. */
  lemma StepDefaults(processName: string, k: nat, a: StepAnswers)
    ensures var s := StepFrom(processName, k, a);
            s.id == StepId(k) &&
            (Strip(a.name) == [] && k == 2 ==> s.name == "Main Task") &&
            (Strip(a.name) == [] && k != 2 ==> s.name == "Step " + NatToString(k)) &&
            (Strip(a.name) != [] ==> s.name == Strip(a.name)) &&
            (a.kind == [] ==> s.kind == "task") &&
            (a.kind != [] ==> s.kind == Lower(a.kind)) &&
            (Strip(a.pool) == [] ==> s.pool == processName) &&
            (Strip(a.pool) != [] ==> s.pool == Strip(a.pool)) &&
            (Strip(a.lane) == [] ==> s.lane == "Team") &&
            (Strip(a.lane) != [] ==> s.lane == Strip(a.lane))
  {
  }

  /** The name answer ends the collection. */
  predicate IsDone(answer: string, k: nat) {
    Lower(NameAnswer(answer, k)) == "done"
  }

  /** The answer groups the collection loop reads once the list holds `count` steps
      (so the next id is S{count+1}): a name answer, and unless `done` holds of it three
      more answers, until the list holds five steps. Running out of answers is an
      error. collect_steps stops on IsDone. */
  function AnswerGroups(answers: seq<string>, count: nat, done: (string, nat) -> bool): Result<seq<StepAnswers>>
    decreases |answers|
  {
    if count >= 5 then Ok([])
    else if answers == [] then Err(EndOfInput)
    else if done(answers[0], count + 1) then Ok([])
    else if |answers| < 4 then Err(EndOfInput)
    else Prepend([StepAnswers(answers[0], answers[1], answers[2], answers[3])],
                 AnswerGroups(answers[4..], count + 1, done))
  }

  /** One group read past a name answer that is not 'done'. */
  lemma AnswerGroupsStep(answers: seq<string>, count: nat, done: (string, nat) -> bool)
    requires count < 5 && |answers| >= 4 && !done(answers[0], count + 1)
    ensures AnswerGroups(answers, count, done) ==
            Prepend([StepAnswers(answers[0], answers[1], answers[2], answers[3])], AnswerGroups(answers[4..], count + 1, done))
  {
  }

  /** The loop's view of the read: after `groups` were read and `pos` answers taken,
      one more group is read past a name answer that is not `done`. */
  lemma ReadOneMore(answers: seq<string>, pos: nat, count: nat, groups: seq<StepAnswers>, done: (string, nat) -> bool)
    requires count < 5 && pos + 4 <= |answers| && !done(answers[pos], count + 1)
    requires AnswerGroups(answers, 1, done) == Prepend(groups, AnswerGroups(answers[pos..], count, done))
    ensures AnswerGroups(answers, 1, done) ==
            Prepend(groups + [StepAnswers(answers[pos], answers[pos + 1], answers[pos + 2], answers[pos + 3])],
                    AnswerGroups(answers[pos + 4..], count + 1, done))
  {
    var g := StepAnswers(answers[pos], answers[pos + 1], answers[pos + 2], answers[pos + 3]);
    assert answers[pos..][0] == answers[pos];
    AnswerGroupsStep(answers[pos..], count, done);
    assert answers[pos..][4..] == answers[pos + 4..];
    PrependTwice(groups, [g], AnswerGroups(answers[pos + 4..], count + 1, done));
  }

  /** The read ends at the cap or at a name answer `done` holds of. */
  lemma AnswerGroupsStop(answers: seq<string>, count: nat, done: (string, nat) -> bool)
    requires count >= 5 || (answers != [] && done(answers[0], count + 1))
    ensures AnswerGroups(answers, count, done) == Ok([])
  {
  }

  /** The read fails when the answers run out before the cap. */
  lemma AnswerGroupsShort(answers: seq<string>, count: nat, done: (string, nat) -> bool)
    requires count < 5
    requires answers == [] || (!done(answers[0], count + 1) && |answers| < 4)
    ensures AnswerGroups(answers, count, done) == Err(EndOfInput)
  {
  }

  /** A successful read from `count` steps takes at most 5 - count groups of four
      answers; it stops short of the cap only at a name answer `done` holds of. */
  lemma {:induction false} AnswerGroupsLength(answers: seq<string>, count: nat, done: (string, nat) -> bool)
    requires 1 <= count <= 5 && AnswerGroups(answers, count, done).Ok?
    ensures var gs := AnswerGroups(answers, count, done).value;
            |gs| <= 5 - count && 4 * |gs| <= |answers| &&
            (|gs| < 5 - count ==> 4 * |gs| < |answers| && done(answers[4 * |gs|], count + 1 + |gs|))
    decreases |answers|
  {
    if count < 5 && answers != [] && !done(answers[0], count + 1) {
      AnswerGroupsStep(answers, count, done);
      AnswerGroupsLength(answers[4..], count + 1, done);
      var gs' := AnswerGroups(answers[4..], count + 1, done).value;
      if |gs'| < 5 - (count + 1) {
        assert answers[4..][4 * |gs'|] == answers[4 * (|gs'| + 1)];
      }
    }
  }

  /** Group j of a successful read is answers 4j to 4j+3, and `done` does not hold of
      its name answer. */
  lemma {:induction false} AnswerGroupsContent(answers: seq<string>, count: nat, done: (string, nat) -> bool)
    requires AnswerGroups(answers, count, done).Ok?
    ensures var gs := AnswerGroups(answers, count, done).value;
            forall j :: 0 <= j < |gs| ==>
              4 * j + 3 < |answers| &&
              gs[j] == StepAnswers(answers[4 * j], answers[4 * j + 1], answers[4 * j + 2], answers[4 * j + 3]) &&
              !done(answers[4 * j], count + 1 + j)
    decreases |answers|
  {
    var gs := AnswerGroups(answers, count, done).value;
    if count < 5 && answers != [] && !done(answers[0], count + 1) {
      var rest := answers[4..];
      AnswerGroupsStep(answers, count, done);
      AnswerGroupsContent(rest, count + 1, done);
      var gs' := AnswerGroups(rest, count + 1, done).value;
      assert gs == [StepAnswers(answers[0], answers[1], answers[2], answers[3])] + gs';
      forall j | 1 <= j < |gs|
        ensures 4 * j + 3 < |answers|
        ensures gs[j] == StepAnswers(answers[4 * j], answers[4 * j + 1], answers[4 * j + 2], answers[4 * j + 3])
        ensures !done(answers[4 * j], count + 1 + j)
      {
        assert gs[j] == gs'[j - 1];
        assert rest[4 * (j - 1)] == answers[4 * j];
        assert rest[4 * (j - 1) + 1] == answers[4 * j + 1];
        assert rest[4 * (j - 1) + 2] == answers[4 * j + 2];
        assert rest[4 * (j - 1) + 3] == answers[4 * j + 3];
      }
    }
  }

  /** The steps built from the groups, numbered from S2. */
  function StepsFrom(processName: string, groups: seq<StepAnswers>): (r: seq<Step>)
  {
    seq(|groups|, j requires 0 <= j < |groups| => StepFrom(processName, j + 2, groups[j]))
  }

  lemma StepsFromSnoc(processName: string, groups: seq<StepAnswers>, g: StepAnswers)
    ensures StepsFrom(processName, groups + [g]) == StepsFrom(processName, groups) + [StepFrom(processName, |groups| + 2, g)]
  {
    assert StepsFrom(processName, groups + [g])[|groups|] == StepFrom(processName, |groups| + 2, g);
  }

  /** The guaranteed end: S99 is appended iff no step has type "end". */
  function WithEnd(processName: string, steps: seq<Step>): (r: seq<Step>)
    ensures (exists j :: 0 <= j < |steps| && steps[j].kind == "end") ==> r == steps
    ensures (forall j :: 0 <= j < |steps| ==> steps[j].kind != "end") ==> r == steps + [EndStep(processName)]
    ensures exists j :: 0 <= j < |r| && r[j].kind == "end"
  {
    if exists j :: 0 <= j < |steps| && steps[j].kind == "end" then steps
    else
      var r := steps + [EndStep(processName)];
      assert r[|steps|].kind == "end";
      r
  }

  /** What collect_steps stores: S1, the collected steps, and S99 when needed. */
  function CollectedSteps(processName: string, answers: seq<string>): Result<seq<Step>> {
    match AnswerGroups(answers, 1, IsDone)
    case Ok(gs) => Ok(WithEnd(processName, [StartStep(processName)] + StepsFrom(processName, gs)))
    case Err(e) => Err(e)
  }

  /** The id numbers: S1, then S2.., then S99 when appended. */
  function Number(s: Step): int { IdNumber(s.id) }

  lemma EndIdNumber()
    ensures IdNumber("S99") == 99
  {
    assert StepId(99) == "S99";
    IdNumberOfStepId(99);
  }

  /** S1 followed by the collected steps: step j carries id number j + 1. */
  lemma FrontNumbers(processName: string, groups: seq<StepAnswers>)
    ensures var front := [StartStep(processName)] + StepsFrom(processName, groups);
            forall j :: 0 <= j < |front| ==> Number(front[j]) == j + 1
  {
    var front := [StartStep(processName)] + StepsFrom(processName, groups);
    forall j | 0 <= j < |front| ensures Number(front[j]) == j + 1 {
      if j == 0 {
        assert StepId(1) == "S1";
        IdNumberOfStepId(1);
      } else {
        assert front[j].id == StepId(j + 1);
        IdNumberOfStepId(j + 1);
      }
    }
  }

  /** collect_steps' result has 2 to 6 steps, S1 first, and strictly ascending id
      numbers, so S99, when present, is last. */
  lemma CollectedAscending(processName: string, answers: seq<string>)
    requires CollectedSteps(processName, answers).Ok?
    ensures var steps := CollectedSteps(processName, answers).value;
            2 <= |steps| <= 6 && steps[0] == StartStep(processName) && StrictlyAscending(steps, Number)
  {
    var gs := AnswerGroups(answers, 1, IsDone).value;
    var front := [StartStep(processName)] + StepsFrom(processName, gs);
    var steps := CollectedSteps(processName, answers).value;
    AnswerGroupsLength(answers, 1, IsDone);
    FrontNumbers(processName, gs);
    EndIdNumber();
    AscendingByPosition(front, Number);
    if steps != front {
      StrictlyAscendingSnoc(front, EndStep(processName), Number);
    }
  }

  /** collect_steps' result always holds an end step; S99 is appended exactly when no
      collected step (S1 included) has type "end", and otherwise the list is S1 and the
      collected steps unchanged. */
  lemma CollectedEnd(processName: string, answers: seq<string>)
    requires CollectedSteps(processName, answers).Ok?
    ensures var steps := CollectedSteps(processName, answers).value;
            var front := [StartStep(processName)] + StepsFrom(processName, AnswerGroups(answers, 1, IsDone).value);
            (exists j :: 0 <= j < |steps| && steps[j].kind == "end") &&
            (steps == front + [EndStep(processName)] <==> forall j :: 0 <= j < |front| ==> front[j].kind != "end") &&
            (steps != front + [EndStep(processName)] ==> steps == front)
  {
    var front := [StartStep(processName)] + StepsFrom(processName, AnswerGroups(answers, 1, IsDone).value);
    var steps := CollectedSteps(processName, answers).value;
    if !(forall j :: 0 <= j < |front| ==> front[j].kind != "end") {
      assert |steps| != |front + [EndStep(processName)]|;
    }
  }

  /** collect_steps: the collection loop, then the end-step guarantee. */
  method GatherSteps(processName: string, answers: seq<string>) returns (r: Result<seq<Step>>)
    ensures r == CollectedSteps(processName, answers)
  {
    var front := ReadSteps(processName, StartStep(processName), answers, IsDone);
    if front.Err? {
      return Err(front.error);
    }
    var steps := EnsureEnd(processName, front.value);
    r := Ok(steps);
  }

  /** `steps.append({...})` for the next group of answers. */
  method AppendStep(processName: string, start: Step, steps: seq<Step>, ghost groups: seq<StepAnswers>, g: StepAnswers)
      returns (steps': seq<Step>)
    requires steps == [start] + StepsFrom(processName, groups)
    ensures steps' == steps + [StepFrom(processName, |steps| + 1, g)]
    ensures steps' == [start] + StepsFrom(processName, groups + [g])
  {
    StepsFromSnoc(processName, groups, g);
    steps' := steps + [StepFrom(processName, |steps| + 1, g)];
  }

  /** The read so far is the whole read once the cap is reached or a name answer stops it. */
  lemma GroupsEnd(answers: seq<string>, pos: nat, count: nat, groups: seq<StepAnswers>, done: (string, nat) -> bool)
    requires pos <= |answers|
    requires count >= 5 || (pos < |answers| && done(answers[pos], count + 1))
    requires AnswerGroups(answers, 1, done) == Prepend(groups, AnswerGroups(answers[pos..], count, done))
    ensures AnswerGroups(answers, 1, done) == Ok(groups)
  {
    if count < 5 {
      assert answers[pos..][0] == answers[pos];
    }
    AnswerGroupsStop(answers[pos..], count, done);
    assert groups + [] == groups;
  }

  /** The read fails when the answers run out before the cap. */
  lemma GroupsShort(answers: seq<string>, pos: nat, count: nat, groups: seq<StepAnswers>, done: (string, nat) -> bool)
    requires count < 5 && pos <= |answers|
    requires pos == |answers| || (!done(answers[pos], count + 1) && |answers| < pos + 4)
    requires AnswerGroups(answers, 1, done) == Prepend(groups, AnswerGroups(answers[pos..], count, done))
    ensures AnswerGroups(answers, 1, done) == Err(EndOfInput)
  {
    if pos < |answers| {
      assert answers[pos..][0] == answers[pos];
    }
    AnswerGroupsShort(answers[pos..], count, done);
  }

  /** The collection loop of collect_steps, over the answer stream: the first step, then one
      step per group of answers. */
  method ReadSteps(processName: string, start: Step, answers: seq<string>, done: (string, nat) -> bool)
      returns (r: Result<seq<Step>>)
    ensures match AnswerGroups(answers, 1, done)
            case Ok(gs) => r == Ok([start] + StepsFrom(processName, gs))
            case Err(e) => r == Err(e)
  {
    var steps := [start];
    var pos := 0;
    var stepId := 2;
    ghost var groups: seq<StepAnswers> := [];
    assert answers[pos..] == answers;
    PrependEmpty(AnswerGroups(answers, 1, done));
    assert steps == [start] + StepsFrom(processName, groups);
    while |steps| < 5
      invariant 1 <= |steps| <= 5 && stepId == |steps| + 1 && |groups| == |steps| - 1
      invariant pos == 4 * (|steps| - 1) && pos <= |answers|
      invariant steps == [start] + StepsFrom(processName, groups)
      invariant AnswerGroups(answers, 1, done) == Prepend(groups, AnswerGroups(answers[pos..], |steps|, done))
      decreases 5 - |steps|
    {
      if pos == |answers| {
        GroupsShort(answers, pos, |steps|, groups, done);
        return Err(EndOfInput);
      }
      if done(answers[pos], stepId) {
        GroupsEnd(answers, pos, |steps|, groups, done);
        return Ok(steps);
      }
      if pos + 4 > |answers| {
        GroupsShort(answers, pos, |steps|, groups, done);
        return Err(EndOfInput);
      }
      var g := StepAnswers(answers[pos], answers[pos + 1], answers[pos + 2], answers[pos + 3]);
      ReadOneMore(answers, pos, |steps|, groups, done);
      steps := AppendStep(processName, start, steps, groups, g);
      groups := groups + [g];
      pos := pos + 4;
      stepId := stepId + 1;
    }
    GroupsEnd(answers, pos, |steps|, groups, done);
    r := Ok(steps);
  }

  /** The end-step guarantee: S99 is appended when no step has type "end". */
  method EnsureEnd(processName: string, steps: seq<Step>) returns (r: seq<Step>)
    ensures r == WithEnd(processName, steps)
  {
    var hasEnd := false;
    for j := 0 to |steps|
      invariant hasEnd <==> exists i :: 0 <= i < j && steps[i].kind == "end"
    {
      if steps[j].kind == "end" {
        hasEnd := true;
      }
    }
    r := steps;
    if !hasEnd {
      r := steps + [EndStep(processName)];
    }
  }

  /** The registry's view of a step: its pool and lane fields as a lane reference. */
  function Place(s: Step): PlacedStep {
    PlacedStep(s.id, s.name, s.kind, LaneRef(s.pool, s.lane))
  }

  function PlaceAll(steps: seq<Step>): (r: seq<PlacedStep>)
  {
    seq(|steps|, j requires 0 <= j < |steps| => Place(steps[j]))
  }

  /** The footer text set on the map. */
  function Footer(why: string): string {
    "Auto-generated: " + Take(why, 50) + "..."
  }

  /** The mapper object: the collected data, the element registry and the drawing. */
  class ProcessMapper {
    var core: map<string, string>
    var steps: seq<Step>
    var elements: map<string, nat>
    var drawing: Option<Drawing>
    var footer: string

    /** The step id numbers strictly ascend. */
    predicate Valid()
      reads this
    {
      StrictlyAscending(steps, Number)
    }

    constructor ()
      ensures core == map[] && steps == [] && elements == map[] && drawing == None && footer == ""
      ensures Valid()
    {
      core := map[];
      steps := [];
      elements := map[];
      drawing := None;
      footer := "";
    }

    /** ask_core_questions: two answers, stripped, with their defaults. */
    method AskCoreQuestions(answers: seq<string>) returns (r: Result<()>)
      modifies this
      ensures |answers| < 2 ==> r == Err(EndOfInput) && core == old(core)
      ensures |answers| >= 2 ==> r == Ok(()) && core == CoreFrom(answers[0], answers[1])
      ensures steps == old(steps) && elements == old(elements) && drawing == old(drawing) && footer == old(footer)
    {
      if |answers| < 2 {
        return Err(EndOfInput);
      }
      core := CoreFrom(answers[0], answers[1]);
      r := Ok(());
    }

    /** collect_steps over the step answers. */
    method CollectSteps(answers: seq<string>) returns (r: Result<()>)
      requires "name" in core
      modifies this
      ensures var c := CollectedSteps(old(core["name"]), answers);
              (c.Ok? ==> r == Ok(()) && steps == c.value) &&
              (c.Err? ==> r == Err(c.error) && steps == old(steps))
      ensures core == old(core) && elements == old(elements) && drawing == old(drawing) && footer == old(footer)
      ensures old(Valid()) ==> Valid()
    {
      var c := GatherSteps(core["name"], answers);
      if c.Err? {
        return Err(c.error);
      }
      CollectedAscending(core["name"], answers);
      steps := c.value;
      r := Ok(());
    }

    /** build_process_map: pools and lanes once each, one element per step, and the
        chain in step-number order. */
    method BuildProcessMap()
      requires "why" in core
      requires Valid()
      modifies this
      ensures core == old(core) && steps == old(steps)
      ensures drawing.Some?
      ensures var placed := PlaceAll(steps);
              drawing.value.pools == PoolsCreated(placed) &&
              drawing.value.lanes == LanesCreated(placed) &&
              drawing.value.elements == PlacedElements(placed) &&
              drawing.value.links == LinearLinks(|steps|)
      ensures forall j :: 0 <= j < |steps| ==> steps[j].id in elements && elements[steps[j].id] == j
      ensures footer == Footer(core["why"])
    {
      var placed := PlaceAll(steps);
      assert |placed| == |steps| && forall j :: 0 <= j < |steps| ==> placed[j].id == steps[j].id;
      assert StrictlyAscending(placed, StepNumber) by {
        forall i, j | 0 <= i < j < |placed| ensures StepNumber(placed[i]) < StepNumber(placed[j]) {
          assert placed[i].id == steps[i].id && placed[j].id == steps[j].id;
        }
      }
      var d, e := DrawSteps(placed);
      drawing := Some(d);
      elements := e;
      footer := Footer(core["why"]);
    }

    /** save_all's file stem: the lower-cased name with spaces as underscores. */
    method SaveAll() returns (stem: string)
      requires "name" in core
      ensures stem == FileStem(core["name"])
    {
      stem := FileStem(core["name"]);
    }
  }
}
