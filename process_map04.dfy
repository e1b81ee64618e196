/** process_map04: the interactive mapper that draws its own swimlane flowchart.
    collect_steps reads four answers per step until a 'done' name; generate_flowchart
    groups the steps by role, draws one lane band per role, places each step in its
    role's lane at an x position taken from its list position, records the positions
    and joins consecutive steps with arrows. Coordinates are in tenths of a plot unit,
    so every constant of the layout is an integer. */
module ProcessMap04 {
  import opened Wrappers
  import opened Text
  import opened Collections
  import opened Bpmn

  /** A step record: the name, role and duration stripped, the type lower-cased. */
  datatype Step = Step(id: string, name: string, kind: string, role: string, duration: string)

  /** The four answers of one step: name, type, role and duration. */
  datatype StepAnswers = StepAnswers(name: string, kind: string, role: string, duration: string)

  predicate IsDone(answer: string) {
    Lower(Strip(answer)) == "done"
  }

  function StepFrom(k: nat, a: StepAnswers): Step {
    Step(StepId(k), Strip(a.name), Lower(a.kind), Strip(a.role), Strip(a.duration))
  }

  /** The answer groups the step loop reads: a name answer, and unless `done` holds of
      it three more answers, round after round. Running out of answers is an error. */
  function AnswerGroups(answers: seq<string>, done: string -> bool): Result<seq<StepAnswers>>
    decreases |answers|
  {
    if answers == [] then Err(EndOfInput)
    else if done(answers[0]) then Ok([])
    else if |answers| < 4 then Err(EndOfInput)
    else Prepend([StepAnswers(answers[0], answers[1], answers[2], answers[3])], AnswerGroups(answers[4..], done))
  }

  lemma AnswerGroupsStep(answers: seq<string>, done: string -> bool)
    requires |answers| >= 4 && !done(answers[0])
    ensures AnswerGroups(answers, done) ==
            Prepend([StepAnswers(answers[0], answers[1], answers[2], answers[3])], AnswerGroups(answers[4..], done))
  {
  }

  /** Group j of a successful read is answers 4j to 4j+3, `done` does not hold of its
      name answer, and the read ends at a name answer `done` holds of. */
  lemma {:induction false} AnswerGroupsContent(answers: seq<string>, done: string -> bool)
    requires AnswerGroups(answers, done).Ok?
    ensures var gs := AnswerGroups(answers, done).value;
            4 * |gs| < |answers| && done(answers[4 * |gs|]) &&
            forall j :: 0 <= j < |gs| ==>
              gs[j] == StepAnswers(answers[4 * j], answers[4 * j + 1], answers[4 * j + 2], answers[4 * j + 3]) &&
              !done(answers[4 * j])
    decreases |answers|
  {
    var gs := AnswerGroups(answers, done).value;
    if !done(answers[0]) {
      var rest := answers[4..];
      AnswerGroupsStep(answers, done);
      AnswerGroupsContent(rest, done);
      var gs' := AnswerGroups(rest, done).value;
      assert gs == [StepAnswers(answers[0], answers[1], answers[2], answers[3])] + gs';
      assert rest[4 * |gs'|] == answers[4 * |gs|];
      forall j | 1 <= j < |gs|
        ensures gs[j] == StepAnswers(answers[4 * j], answers[4 * j + 1], answers[4 * j + 2], answers[4 * j + 3])
        ensures !done(answers[4 * j])
      {
        assert gs[j] == gs'[j - 1];
        assert rest[4 * (j - 1)] == answers[4 * j];
        assert rest[4 * (j - 1) + 1] == answers[4 * j + 1];
        assert rest[4 * (j - 1) + 2] == answers[4 * j + 2];
        assert rest[4 * (j - 1) + 3] == answers[4 * j + 3];
      }
    }
  }

  function StepsFrom(groups: seq<StepAnswers>): (r: seq<Step>)
  {
    seq(|groups|, j requires 0 <= j < |groups| => StepFrom(j + 1, groups[j]))
  }

  lemma StepsFromSnoc(groups: seq<StepAnswers>, g: StepAnswers)
    ensures StepsFrom(groups + [g]) == StepsFrom(groups) + [StepFrom(|groups| + 1, g)]
  {
    assert StepsFrom(groups + [g])[|groups|] == StepFrom(|groups| + 1, g);
  }

  function CollectedSteps(answers: seq<string>): Result<seq<Step>> {
    match AnswerGroups(answers, IsDone)
    case Ok(gs) => Ok(StepsFrom(gs))
    case Err(e) => Err(e)
  }

  /** Step ids are pairwise different. */
  predicate DistinctIds(steps: seq<Step>) {
    forall i, j :: 0 <= i < j < |steps| ==> steps[i].id != steps[j].id
  }

  /** The collected steps are S1..Sn in entry order, so their ids differ; step j is
      named by answer 4j, which is not 'done', and the collection ended at a 'done'
      answer. */
  lemma CollectedIds(answers: seq<string>)
    requires CollectedSteps(answers).Ok?
    ensures var steps := CollectedSteps(answers).value;
            4 * |steps| < |answers| && IsDone(answers[4 * |steps|]) && DistinctIds(steps) &&
            forall j :: 0 <= j < |steps| ==>
              steps[j].id == StepId(j + 1) && steps[j].name == Strip(answers[4 * j]) && !IsDone(answers[4 * j])
  {
    AnswerGroupsContent(answers, IsDone);
    StepsFromDistinct(AnswerGroups(answers, IsDone).value);
  }

  /** S1..Sn are pairwise different. */
  lemma StepsFromDistinct(groups: seq<StepAnswers>)
    ensures DistinctIds(StepsFrom(groups))
  {
    var steps := StepsFrom(groups);
    forall i, j | 0 <= i < j < |steps| ensures steps[i].id != steps[j].id {
      StepIdsDiffer(i + 1, j + 1);
    }
  }

  /** `name = input(...).strip()` and the `name.lower() == 'done'` test. */
  method NameAnswer(answer: string) returns (name: string, stop: bool)
    ensures name == Strip(answer) && (stop <==> IsDone(answer))
  {
    name := Strip(answer);
    stop := Lower(name) == "done";
  }

  /** One more group of four answers extends the groups read so far. */
  lemma ReadOneMore(answers: seq<string>, pos: nat, groups: seq<StepAnswers>)
    requires pos + 4 <= |answers| && !IsDone(answers[pos])
    requires AnswerGroups(answers, IsDone) == Prepend(groups, AnswerGroups(answers[pos..], IsDone))
    ensures AnswerGroups(answers, IsDone) ==
            Prepend(groups + [StepAnswers(answers[pos], answers[pos + 1], answers[pos + 2], answers[pos + 3])],
                    AnswerGroups(answers[pos + 4..], IsDone))
  {
    var g := StepAnswers(answers[pos], answers[pos + 1], answers[pos + 2], answers[pos + 3]);
    assert answers[pos..][0] == answers[pos];
    AnswerGroupsStep(answers[pos..], IsDone);
    assert answers[pos..][4..] == answers[pos + 4..];
    PrependTwice(groups, [g], AnswerGroups(answers[pos + 4..], IsDone));
  }

  /** `steps.append({...})`: step S<k> from the name already read and the other three
      answers. */
  method AppendStep(steps: seq<Step>, ghost groups: seq<StepAnswers>, stepId: nat, name: string, g: StepAnswers)
      returns (steps': seq<Step>)
    requires steps == StepsFrom(groups) && stepId == |groups| + 1 && name == Strip(g.name)
    ensures steps' == StepsFrom(groups + [g])
  {
    var step := Step("S" + NatToString(stepId), name, Lower(g.kind), Strip(g.role), Strip(g.duration));
    assert step == StepFrom(stepId, g);
    StepsFromSnoc(groups, g);
    steps' := steps + [step];
  }

  /** The loop of collect_steps, over the answer stream. */
  method GatherSteps(answers: seq<string>) returns (r: Result<seq<Step>>)
    ensures r == CollectedSteps(answers)
  {
    var steps: seq<Step> := [];
    var pos := 0;
    var stepId := 1;
    ghost var groups: seq<StepAnswers> := [];
    assert answers[pos..] == answers;
    PrependEmpty(AnswerGroups(answers, IsDone));
    while true
      invariant pos == 4 * |groups| && pos <= |answers| && stepId == |groups| + 1
      invariant steps == StepsFrom(groups)
      invariant AnswerGroups(answers, IsDone) == Prepend(groups, AnswerGroups(answers[pos..], IsDone))
      decreases |answers| - pos
    {
      if pos >= |answers| {
        return Err(EndOfInput);
      }
      var name, stop := NameAnswer(answers[pos]);
      if stop {
        assert answers[pos..][0] == answers[pos];
        assert AnswerGroups(answers[pos..], IsDone) == Ok([]);
        assert groups + [] == groups;
        return Ok(steps);
      }
      if pos + 4 > |answers| {
        assert answers[pos..][0] == answers[pos];
        return Err(EndOfInput);
      }
      var g := StepAnswers(answers[pos], answers[pos + 1], answers[pos + 2], answers[pos + 3]);
      ReadOneMore(answers, pos, groups);
      steps := AppendStep(steps, groups, stepId, name, g);
      groups := groups + [g];
      pos := pos + 4;
      stepId := stepId + 1;
    }
  }

  // ----- geometry, in tenths -----

  datatype Point = Point(x: int, y: int)

  /** An axis-aligned rectangle: lower-left corner, width and height. */
  datatype Rect = Rect(x: int, y: int, w: int, h: int)

  /** The bottom of lane i: 10 - 1.5 * 1.2 * i. */
  function LaneY(i: nat): int {
    100 - 18 * i
  }

  /** Lane i's band: from x 0.5, 11 wide and 1.5 high. */
  function LaneRect(i: nat): (r: Rect)
    ensures r.x == 5 && r.x + r.w == 115 && r.y == LaneY(i) && r.y + r.h == LaneY(i) + 15
  {
    Rect(5, LaneY(i), 110, 15)
  }

  /** Lanes never overlap: a later lane lies wholly below an earlier one, and
      consecutive lanes are 0.3 apart. */
  lemma LanesDisjoint(i: nat, j: nat)
    requires i < j
    ensures LaneRect(j).y + LaneRect(j).h + 3 <= LaneRect(i).y
    ensures j == i + 1 ==> LaneRect(i).y - (LaneRect(j).y + LaneRect(j).h) == 3
  {
  }

  /** The x of the step at list position idx: 2 + (1.5 * idx) mod 8. */
  function StepX(idx: nat): int {
    20 + (15 * idx) % 80
  }

  /** Step x positions lie in [2, 10) on a 0.5 grid and repeat every 16 positions, so
      steps 16 apart in the same lane are drawn on top of each other. */
  lemma StepXRange(idx: nat)
    ensures 20 <= StepX(idx) < 100 && StepX(idx) % 5 == 0
    ensures StepX(idx + 16) == StepX(idx)
  {
    var a := 15 * idx;
    var q, r := a / 80, a % 80;
    assert a == 80 * q + r && 0 <= r < 80;
    assert (a + 240) % 80 == r by {
      assert a + 240 == 80 * (q + 3) + r;
    }
    assert r % 5 == 0 by {
      assert r == 5 * (3 * idx - 16 * q);
    }
  }

  datatype Shape = Diamond | RoundBox

  /** The box handed to FancyBboxPatch for a step at p: a 1.2 by 1.2 box for a
      decision, a 1.6 by 1.2 box otherwise, centred on p. */
  function Footprint(kind: string, p: Point): (r: Rect)
    ensures r.x + r.w / 2 == p.x && r.y + r.h / 2 == p.y && r.h == 12
    ensures r.w == 12 <==> kind == "decision"
    ensures r.w == 16 <==> kind != "decision"
  {
    if kind == "decision" then Rect(p.x - 6, p.y - 6, 12, 12) else Rect(p.x - 8, p.y - 6, 16, 12)
  }

  /** Both box styles carry `pad=0.1`: the outline is drawn that far outside the box. */
  const Pad: int := 1

  function Padded(r: Rect): Rect {
    Rect(r.x - Pad, r.y - Pad, r.w + 2 * Pad, r.h + 2 * Pad)
  }

  function ShapeFor(kind: string): Shape {
    if kind == "decision" then Diamond else RoundBox
  }

  /** The outline of a patch at lane i's step height (0.2 above the lane bottom),
      padded by 0.1, stays within the lane's x range and below its top, but reaches 0.5
      below its bottom: across the 0.3 gap and 0.2 into the next lane. */
  lemma FootprintInLane(kind: string, i: nat, idx: nat)
    ensures var r := Padded(Footprint(kind, Point(StepX(idx), LaneY(i) + 2)));
            var lane := LaneRect(i);
            var next := LaneRect(i + 1);
            lane.x <= r.x && r.x + r.w <= lane.x + lane.w &&
            r.y + r.h <= lane.y + lane.h && r.y == lane.y - 5 &&
            r.y == next.y + next.h - 2
  {
    StepXRange(idx);
    LanesDisjoint(i, i + 1);
  }

  // ----- the figure -----

  function RoleOf(s: Step): string { s.role }

  /** A lane band and the role written beside it. */
  datatype Lane = Lane(role: string, band: Rect)

  /** A drawn step: its patch and its text, name over duration. */
  datatype StepPatch = StepPatch(shape: Shape, rect: Rect, text: string, at: Point)

  /** An arrow from its tail point to its head point. */
  datatype Arrow = Arrow(from: Point, to: Point)

  function LanesOf(roles: seq<Group<string, Step>>): (r: seq<Lane>)
  {
    seq(|roles|, i requires 0 <= i < |roles| => Lane(roles[i].key, LaneRect(i)))
  }

  /** `role_y_positions` after the lane loop over the first groups. */
  function RoleYs(roles: seq<Group<string, Step>>): map<string, int>
    decreases |roles|
  {
    if roles == [] then map[]
    else RoleYs(roles[..|roles| - 1])[roles[|roles| - 1].key := LaneY(|roles| - 1) + 2]
  }

  /** With distinct role keys, each role's step height is 0.2 above its own lane's
      bottom, and the map knows exactly the roles. */
  lemma {:induction false} RoleYsAt(roles: seq<Group<string, Step>>)
    requires forall i, j :: 0 <= i < j < |roles| ==> roles[i].key != roles[j].key
    ensures forall j :: 0 <= j < |roles| ==> roles[j].key in RoleYs(roles) && RoleYs(roles)[roles[j].key] == LaneY(j) + 2
    ensures forall r :: r in RoleYs(roles) ==> exists j :: 0 <= j < |roles| && roles[j].key == r
    decreases |roles|
  {
    if roles != [] {
      var init := roles[..|roles| - 1];
      RoleYsAt(init);
      forall r | r in RoleYs(roles) ensures exists j :: 0 <= j < |roles| && roles[j].key == r {
        if r != roles[|roles| - 1].key {
          var j :| 0 <= j < |init| && init[j].key == r;
          assert roles[j].key == r;
        }
      }
    }
  }

  /** The step heights of generate_flowchart: every step's role has one. */
  function StepYs(steps: seq<Step>): (ys: map<string, int>)
    ensures forall i :: 0 <= i < |steps| ==> steps[i].role in ys
  {
    var roles := Grouped(steps, RoleOf);
    GroupedKeys(steps, RoleOf);
    RoleYsAt(roles);
    GroupedCovers(steps, RoleOf);
    assert forall i :: 0 <= i < |steps| ==> steps[i].role in Keys(steps, RoleOf) by {
      forall i | 0 <= i < |steps| ensures steps[i].role in Keys(steps, RoleOf) {
        KeysMember(steps, RoleOf, i);
      }
    }
    RoleYs(roles)
  }

  /** Where step i is drawn: x from the position `list.index` reports, y from its
      role. */
  function StepPoint(steps: seq<Step>, i: nat): Point
    requires i < |steps|
  {
    assert steps[i] in steps;
    Point(StepX(IndexOf(steps, steps[i])), StepYs(steps)[steps[i].role])
  }

  function PatchOf(steps: seq<Step>, i: nat): StepPatch
    requires i < |steps|
  {
    var p := StepPoint(steps, i);
    StepPatch(ShapeFor(steps[i].kind), Footprint(steps[i].kind, p), steps[i].name + "\n" + steps[i].duration, p)
  }

  function PatchesUpTo(steps: seq<Step>, n: nat): (r: seq<StepPatch>)
    requires n <= |steps|
  {
    seq(n, i requires 0 <= i < n => PatchOf(steps, i))
  }

  lemma PatchesSnoc(steps: seq<Step>, i: nat)
    requires i < |steps|
    ensures PatchesUpTo(steps, i + 1) == PatchesUpTo(steps, i) + [PatchOf(steps, i)]
  {
    assert PatchesUpTo(steps, i + 1)[i] == PatchOf(steps, i);
  }

  /** `step_positions` after the first n steps. */
  function PositionsUpTo(steps: seq<Step>, n: nat): (r: map<string, Point>)
    requires n <= |steps|
    ensures forall i :: 0 <= i < n ==> steps[i].id in r
  {
    if n == 0 then map[] else PositionsUpTo(steps, n - 1)[steps[n - 1].id := StepPoint(steps, n - 1)]
  }

  /** Every step id is a key of `step_positions`; with distinct ids each maps to its own
      step's point. */
  lemma {:induction false} PositionsAt(steps: seq<Step>, n: nat)
    requires n <= |steps|
    ensures PositionsUpTo(steps, n).Keys == set i | 0 <= i < n :: steps[i].id
    ensures DistinctIds(steps) ==> forall i :: 0 <= i < n ==> PositionsUpTo(steps, n)[steps[i].id] == StepPoint(steps, i)
  {
    if n > 0 {
      PositionsAt(steps, n - 1);
    }
  }

  /** The arrows between consecutive steps, from 0.8 right of one step's point to 0.8
      left of the next's, both looked up in `step_positions`. */
  function ArrowsOf(steps: seq<Step>, positions: map<string, Point>): (r: seq<Arrow>)
    requires forall i :: 0 <= i < |steps| ==> steps[i].id in positions
    ensures |r| == if steps == [] then 0 else |steps| - 1
  {
    seq(if steps == [] then 0 else |steps| - 1, i requires 0 <= i < |steps| - 1 =>
      var p1 := positions[steps[i].id];
      var p2 := positions[steps[i + 1].id];
      Arrow(Point(p1.x + 8, p1.y), Point(p2.x - 8, p2.y)))
  }

  /** What generate_flowchart draws. */
  datatype Figure = Figure(lanes: seq<Lane>, patches: seq<StepPatch>, positions: map<string, Point>, arrows: seq<Arrow>, title: string)

  /** The title: process name over the first 80 characters of the purpose. */
  function Title(what: string, why: string): string {
    what + "\n" + Take(why, 80) + "..."
  }

  function FlowchartOf(steps: seq<Step>, what: string, why: string): Figure {
    var positions := PositionsUpTo(steps, |steps|);
    Figure(LanesOf(Grouped(steps, RoleOf)), PatchesUpTo(steps, |steps|), positions, ArrowsOf(steps, positions), Title(what, why))
  }

  /** With distinct ids (as collect_steps makes them), `list.index` finds each step at
      its own position. */
  lemma IndexOfDistinct(steps: seq<Step>, i: nat)
    requires DistinctIds(steps) && i < |steps|
    ensures steps[i] in steps && IndexOf(steps, steps[i]) == i
  {
    assert steps[i] in steps;
    var k := IndexOf(steps, steps[i]);
    assert steps[k].id == steps[i].id;
  }

  /** One lane per role, in first-seen order, lane j with its bottom at 10 - 1.8j;
      `role_y_positions` puts each role's steps 0.2 above its lane's bottom. */
  lemma FlowchartLanes(steps: seq<Step>, what: string, why: string)
    ensures var f := FlowchartOf(steps, what, why);
            var roles := FirstSeenKeys(steps, RoleOf);
            |f.lanes| == |roles| &&
            (forall j :: 0 <= j < |roles| ==>
               f.lanes[j] == Lane(roles[j], LaneRect(j)) && roles[j] in StepYs(steps) && StepYs(steps)[roles[j]] == LaneY(j) + 2)
  {
    var groups := Grouped(steps, RoleOf);
    GroupedKeys(steps, RoleOf);
    RoleYsAt(groups);
  }

  /** For steps with distinct ids, step i is drawn at x = 2 + 1.5i mod 8, 0.2 above the
      bottom of its role's lane. */
  lemma StepPointAt(steps: seq<Step>, i: nat)
    requires DistinctIds(steps) && i < |steps|
    ensures var roles := FirstSeenKeys(steps, RoleOf);
            exists j :: 0 <= j < |roles| && roles[j] == steps[i].role && StepPoint(steps, i) == Point(StepX(i), LaneY(j) + 2)
  {
    var roles := FirstSeenKeys(steps, RoleOf);
    FlowchartLanes(steps, "", "");
    FirstSeenKeysProperties(steps, RoleOf);
    KeysMember(steps, RoleOf, i);
    var j :| 0 <= j < |roles| && roles[j] == steps[i].role;
    IndexOfDistinct(steps, i);
    assert StepPoint(steps, i) == Point(StepX(i), LaneY(j) + 2);
  }

  /** With distinct ids, `step_positions` holds each step's point under its id, and its
      patch (diamond for a decision, box otherwise) is centred there with the name over
      the duration. */
  lemma FlowchartSteps(steps: seq<Step>, what: string, why: string)
    requires DistinctIds(steps)
    ensures var f := FlowchartOf(steps, what, why);
            |f.patches| == |steps| &&
            forall i :: 0 <= i < |steps| ==>
              var p := StepPoint(steps, i);
              f.positions[steps[i].id] == p && f.patches[i].at == p &&
              f.patches[i].rect == Footprint(steps[i].kind, p) &&
              f.patches[i].shape == (if steps[i].kind == "decision" then Diamond else RoundBox) &&
              f.patches[i].text == steps[i].name + "\n" + steps[i].duration
  {
    PositionsAt(steps, |steps|);
    var patches := PatchesUpTo(steps, |steps|);
    forall i | 0 <= i < |steps| ensures patches[i] == PatchOf(steps, i) { }
  }

  /** `step_positions` has exactly the step ids as keys, and there are n-1 arrows. */
  lemma FlowchartKeys(steps: seq<Step>, what: string, why: string)
    ensures var f := FlowchartOf(steps, what, why);
            f.positions.Keys == (set i | 0 <= i < |steps| :: steps[i].id) &&
            |f.arrows| == (if steps == [] then 0 else |steps| - 1)
  {
    PositionsAt(steps, |steps|);
  }

  /** The arrows for steps with distinct ids: arrow i leaves step i's point 0.8 to the
      right and reaches step i+1's point 0.8 to the left. */
  lemma FlowchartArrows(steps: seq<Step>, what: string, why: string)
    requires DistinctIds(steps)
    ensures var f := FlowchartOf(steps, what, why);
            forall i :: 0 <= i < |f.arrows| ==>
              var p1 := StepPoint(steps, i);
              var p2 := StepPoint(steps, i + 1);
              f.arrows[i] == Arrow(Point(p1.x + 8, p1.y), Point(p2.x - 8, p2.y))
  {
    PositionsAt(steps, |steps|);
  }

  // ----- the mapper -----

  /** The keys of the core questions, in the order they are asked. */
  const CoreKeys: seq<string> := ["what", "why", "who", "when", "how", "where"]

  class ProcessMapper {
    var core: map<string, string>
    var steps: seq<Step>
    var figure: Option<Figure>

    constructor ()
      ensures core == map[] && steps == [] && figure == None
    {
      core := map[];
      steps := [];
      figure := None;
    }

    /** ask_core_questions: each answer, stripped, is stored under its key as soon as it
        is read, so running out of answers keeps the keys answered so far. */
    method AskCoreQuestions(answers: seq<string>) returns (r: Result<()>)
      modifies this
      ensures r == (if |answers| < |CoreKeys| then Err(EndOfInput) else Ok(()))
      ensures core == Assigned(old(core), CoreKeys, StripEach(answers), if |answers| < |CoreKeys| then |answers| else |CoreKeys|)
      ensures steps == old(steps) && figure == old(figure)
    {
      core, r := AssignEach(core, CoreKeys, StripEach(answers));
    }

    /** collect_steps over the step answers. */
    method CollectSteps(answers: seq<string>) returns (r: Result<()>)
      modifies this
      ensures var c := CollectedSteps(answers);
              (c.Ok? ==> r == Ok(()) && steps == c.value) && (c.Err? ==> r == Err(c.error) && steps == old(steps))
      ensures core == old(core) && figure == old(figure)
    {
      var c := GatherSteps(answers);
      if c.Err? {
        return Err(c.error);
      }
      steps := c.value;
      r := Ok(());
    }

    /** generate_flowchart: the lane loop, the step loop and the arrow loop; returns the
        file stem. */
    method GenerateFlowchart() returns (filename: string)
      requires "what" in core && "why" in core
      modifies this
      ensures core == old(core) && steps == old(steps)
      ensures figure == Some(FlowchartOf(steps, core["what"], core["why"]))
      ensures filename == FileStem(core["what"])
    {
      filename := FileStem(core["what"]);
      var lanes, roleYs := DrawLanes(steps);
      var positions, patches := DrawPatches(steps, roleYs);
      var arrows := DrawArrows(steps, positions);
      figure := Some(Figure(lanes, patches, positions, arrows, Title(core["what"], core["why"])));
    }
  }

  /** The lane loop: a band per role group, and each role's step height. */
  method DrawLanes(steps: seq<Step>) returns (lanes: seq<Lane>, roleYs: map<string, int>)
    ensures lanes == LanesOf(Grouped(steps, RoleOf)) && roleYs == StepYs(steps)
  {
    var roles := GroupBy(steps, RoleOf);
    lanes := [];
    roleYs := map[];
    for i := 0 to |roles|
      invariant lanes == LanesOf(roles[..i]) && roleYs == RoleYs(roles[..i])
    {
      assert roles[..i + 1][..i] == roles[..i];
      assert LanesOf(roles[..i + 1]) == lanes + [Lane(roles[i].key, LaneRect(i))];
      roleYs := roleYs[roles[i].key := LaneY(i) + 2];
      lanes := lanes + [Lane(roles[i].key, LaneRect(i))];
    }
    assert roles[..|roles|] == roles;
  }

  /** The step loop: each step's patch and its entry in `step_positions`. */
  method DrawPatches(steps: seq<Step>, roleYs: map<string, int>) returns (positions: map<string, Point>, patches: seq<StepPatch>)
    requires roleYs == StepYs(steps)
    ensures positions == PositionsUpTo(steps, |steps|) && patches == PatchesUpTo(steps, |steps|)
  {
    positions := map[];
    patches := [];
    for i := 0 to |steps|
      invariant positions == PositionsUpTo(steps, i) && patches == PatchesUpTo(steps, i)
    {
      var p, patch := DrawPatch(steps, i, roleYs);
      PatchesSnoc(steps, i);
      patches := patches + [patch];
      positions := positions[steps[i].id := p];
    }
  }

  /** One step's point (x by its list position, y by its role) and patch. */
  method DrawPatch(steps: seq<Step>, i: nat, roleYs: map<string, int>) returns (p: Point, patch: StepPatch)
    requires i < |steps| && roleYs == StepYs(steps)
    ensures p == StepPoint(steps, i) && patch == PatchOf(steps, i)
  {
    var step := steps[i];
    var roleY := roleYs[step.role];
    assert step in steps;
    p := Point(StepX(IndexOf(steps, step)), roleY);
    patch := StepPatch(ShapeFor(step.kind), Footprint(step.kind, p), step.name + "\n" + step.duration, p);
  }

  /** The arrow loop over consecutive steps. */
  method DrawArrows(steps: seq<Step>, positions: map<string, Point>) returns (arrows: seq<Arrow>)
    requires forall k :: 0 <= k < |steps| ==> steps[k].id in positions
    ensures arrows == ArrowsOf(steps, positions)
  {
    arrows := [];
    var i := 0;
    while i + 1 < |steps|
      invariant i == 0 || i < |steps|
      invariant arrows == ArrowsOf(steps, positions)[..i]
    {
      var p1 := positions[steps[i].id];
      var p2 := positions[steps[i + 1].id];
      arrows := arrows + [Arrow(Point(p1.x + 8, p1.y), Point(p2.x - 8, p2.y))];
      i := i + 1;
    }
    assert arrows == ArrowsOf(steps, positions);
  }
}
