/** The calls the processpiper-based mappers make on a ProcessMap, recorded as values,
    and the pool/lane registry that process_map06 and process_map07 share. */
module Bpmn {
  import opened Wrappers
  import opened Text
  import opened Collections

  /** The element kinds the mappers pass to add_element. */
  datatype ElementType = Start | End | Exclusive | Task

  /** A lane, named by its pool and its own name. */
  datatype LaneRef = LaneRef(pool: string, name: string)

  /** lane.add_element(name, type). */
  datatype Element = Element(name: string, etype: ElementType, lane: LaneRef)

  /** source.connect(target[, label]); source and target index the added elements. */
  datatype Link = Link(source: nat, target: nat, text: Option<string>)

  /** Everything added to one ProcessMap, in call order. */
  datatype Drawing = Drawing(pools: seq<string>, lanes: seq<LaneRef>, elements: seq<Element>, links: seq<Link>)

  /** The kind lookup of process_map05/06/07: start, end and decision have their own
      element type, every other kind becomes a task. */
  function ElementTypeFor(kind: string): (t: ElementType)
    ensures t == Start <==> kind == "start"
    ensures t == End <==> kind == "end"
    ensures t == Exclusive <==> kind == "decision"
    ensures t == Task <==> kind != "start" && kind != "end" && kind != "decision"
  {
    if kind == "start" then Start
    else if kind == "end" then End
    else if kind == "decision" then Exclusive
    else Task
  }

  /** The step id f"S{k}". */
  function StepId(k: nat): string {
    "S" + NatToString(k)
  }

  /** The pool and lane a `pool/lane` token names: split at the first '/', or the whole
      token as a lane of the process's own pool (process_map05 and process_map07). */
  function SplitPoolLane(processName: string, token: string): (l: LaneRef)
    ensures '/' in token ==> l.pool + "/" + l.name == token && '/' !in l.pool
    ensures '/' !in token ==> l == LaneRef(processName, token)
  {
    if '/' in token then
      var (pool, lane) := SplitOnce(token, '/');
      LaneRef(pool, lane)
    else LaneRef(processName, token)
  }

  /** The sort key int(id[1:]). */
  function IdNumber(id: string): int {
    if id == [] then 0 else DigitsValue(id[1..])
  }

  /** int(f"S{k}"[1:]) == k, so ids with different numbers differ. */
  lemma IdNumberOfStepId(k: nat)
    ensures IdNumber(StepId(k)) == k
  {
    assert StepId(k)[1..] == NatToString(k);
    DigitsValueOfNatToString(k);
  }

  /** Different step numbers give different ids. */
  lemma StepIdsDiffer(i: nat, j: nat)
    requires i != j
    ensures StepId(i) != StepId(j)
  {
    IdNumberOfStepId(i);
    IdNumberOfStepId(j);
  }

  /** A step as the registry sees it: its id, name, kind and resolved lane. */
  datatype PlacedStep = PlacedStep(id: string, name: string, kind: string, lane: LaneRef)

  function PoolOf(s: PlacedStep): string { s.lane.pool }

  /** The registry's lane dictionary key, f"{pool_name}/{lane_name}". */
  function LaneKey(l: LaneRef): string { l.pool + "/" + l.name }

  function LaneKeyOf(s: PlacedStep): string { LaneKey(s.lane) }

  function StepNumber(s: PlacedStep): int { IdNumber(s.id) }

  function IdOf(s: PlacedStep): string { s.id }

  /** The pools add_pool creates: one per distinct pool name, in first-seen order. */
  function PoolsCreated(steps: seq<PlacedStep>): seq<string> {
    var d := DedupBy(steps, PoolOf);
    seq(|d|, j requires 0 <= j < |d| => d[j].lane.pool)
  }

  function RegisteredLane(steps: seq<PlacedStep>, k: string): LaneRef
    requires k in Keys(steps, LaneKeyOf)
  {
    steps[FirstIndex(steps, LaneKeyOf, k)].lane
  }

  /** The lanes add_lane creates: one per distinct lane key, in first-seen order. */
  function LanesCreated(steps: seq<PlacedStep>): seq<LaneRef> {
    var d := DedupBy(steps, LaneKeyOf);
    seq(|d|, j requires 0 <= j < |d| => d[j].lane)
  }

  /** lane_dict[lane_key] for step j: the lane created by the first step with that key. */
  function ResolvedLane(steps: seq<PlacedStep>, j: nat): LaneRef
    requires j < |steps|
  {
    KeysMember(steps, LaneKeyOf, j);
    steps[FirstIndex(steps, LaneKeyOf, LaneKeyOf(steps[j]))].lane
  }

  function PlacedElements(steps: seq<PlacedStep>): seq<Element> {
    seq(|steps|, j requires 0 <= j < |steps| =>
      Element(steps[j].name, ElementTypeFor(steps[j].kind), ResolvedLane(steps, j)))
  }

  /** The sequential connections: element j to element j + 1. */
  function LinearLinks(n: nat): seq<Link> {
    seq(if n == 0 then 0 else n - 1, j requires 0 <= j < n - 1 => Link(j, j + 1, None))
  }

  lemma PoolsCreatedSnoc(steps: seq<PlacedStep>, s: PlacedStep)
    ensures PoolsCreated(steps + [s]) ==
            if s.lane.pool in Keys(steps, PoolOf) then PoolsCreated(steps) else PoolsCreated(steps) + [s.lane.pool]
  {
    DedupBySnoc(steps, s, PoolOf);
  }

  lemma LanesCreatedSnoc(steps: seq<PlacedStep>, s: PlacedStep)
    ensures LanesCreated(steps + [s]) ==
            if LaneKey(s.lane) in Keys(steps, LaneKeyOf) then LanesCreated(steps) else LanesCreated(steps) + [s.lane]
  {
    DedupBySnoc(steps, s, LaneKeyOf);
  }

  /** `pm.add_element(step.name, element_type, lane)`: element i of the drawing, given
      the lane the registry resolved for step i. */
  method PlaceElement(steps: seq<PlacedStep>, i: nat, placed: seq<Element>, lane: LaneRef) returns (placed': seq<Element>)
    requires i < |steps| && placed == PlacedElements(steps)[..i]
    requires lane == ResolvedLane(steps, i)
    ensures placed' == placed + [Element(steps[i].name, ElementTypeFor(steps[i].kind), lane)]
    ensures placed' == PlacedElements(steps)[..i + 1]
  {
    placed' := placed + [Element(steps[i].name, ElementTypeFor(steps[i].kind), lane)];
  }

  /** No two steps share an id. */
  predicate DistinctIds(steps: seq<PlacedStep>) {
    forall a, b :: 0 <= a < b < |steps| ==> steps[a].id != steps[b].id
  }

  /** Ids whose numbers strictly ascend are distinct. */
  lemma AscendingIdsDistinct(steps: seq<PlacedStep>)
    requires StrictlyAscending(steps, StepNumber)
    ensures DistinctIds(steps)
  {
    forall a, b | 0 <= a < b < |steps| ensures steps[a].id != steps[b].id {
      assert StepNumber(steps[a]) < StepNumber(steps[b]);
    }
  }

  /** `elements[step.id] = el` for the first i steps: each id maps to its step's position. */
  ghost predicate Remembered(steps: seq<PlacedStep>, i: nat, elements: map<string, nat>)
    requires i <= |steps|
  {
    forall j :: 0 <= j < i ==> steps[j].id in elements && elements[steps[j].id] == j
  }

  /** `elements[step.id] = el`: remembering step i under its id keeps the earlier
      steps' entries. */
  method Remember(steps: seq<PlacedStep>, i: nat, elements: map<string, nat>) returns (elements': map<string, nat>)
    requires DistinctIds(steps) && i < |steps| && Remembered(steps, i, elements)
    ensures elements' == elements[steps[i].id := i]
    ensures Remembered(steps, i + 1, elements')
  {
    elements' := elements[steps[i].id := i];
  }

  /** The pool dictionary and the add_pool calls after the steps of `seen`. */
  ghost predicate PoolRegistry(seen: seq<PlacedStep>, poolDict: set<string>, pools: seq<string>) {
    (forall p :: p in poolDict <==> p in Keys(seen, PoolOf)) && pools == PoolsCreated(seen)
  }

  /** The lane dictionary and the add_lane calls after the first i steps. */
  ghost predicate LaneRegistry(steps: seq<PlacedStep>, i: nat, laneDict: map<string, LaneRef>, lanes: seq<LaneRef>)
    requires i <= |steps|
  {
    (forall k :: k in laneDict <==> k in Keys(steps[..i], LaneKeyOf)) &&
    (forall k :: k in laneDict ==> k in Keys(steps, LaneKeyOf) && laneDict[k] == RegisteredLane(steps, k)) &&
    lanes == LanesCreated(steps[..i])
  }

  /** `if pool_name not in pool_dict: pool_dict[pool_name] = pm.add_pool(pool_name)` */
  method AddPool(seen: seq<PlacedStep>, step: PlacedStep, poolDict: set<string>, pools: seq<string>)
      returns (poolDict': set<string>, pools': seq<string>)
    requires PoolRegistry(seen, poolDict, pools)
    ensures PoolRegistry(seen + [step], poolDict', pools')
  {
    KeysSnoc(seen, step, PoolOf);
    PoolsCreatedSnoc(seen, step);
    poolDict', pools' := poolDict, pools;
    if step.lane.pool !in poolDict {
      pools' := pools + [step.lane.pool];
      poolDict' := poolDict + {step.lane.pool};
    }
  }

  /** `if lane_key not in lane_dict: lane_dict[lane_key] = pool.add_lane(lane_name)`,
      then the lane registered under the key. */
  method AddLane(steps: seq<PlacedStep>, i: nat, laneDict: map<string, LaneRef>, lanes: seq<LaneRef>)
      returns (laneDict': map<string, LaneRef>, lanes': seq<LaneRef>, lane: LaneRef)
    requires i < |steps| && LaneRegistry(steps, i, laneDict, lanes)
    ensures LaneRegistry(steps, i + 1, laneDict', lanes')
    ensures lane == ResolvedLane(steps, i)
  {
    var step := steps[i];
    var laneKey := LaneKey(step.lane);
    laneDict', lanes' := laneDict, lanes;
    if laneKey !in laneDict {
      lanes' := lanes + [step.lane];
      laneDict' := laneDict[laneKey := step.lane];
      LaneKeyNew(steps, i, laneDict, lanes);
    } else {
      LaneKeySeen(steps, i, laneDict, lanes);
    }
    lane := laneDict'[laneKey];
  }

  /** A key already in the lane dictionary leaves it as it is. */
  lemma LaneKeySeen(steps: seq<PlacedStep>, i: nat, laneDict: map<string, LaneRef>, lanes: seq<LaneRef>)
    requires i < |steps| && LaneRegistry(steps, i, laneDict, lanes) && LaneKeyOf(steps[i]) in laneDict
    ensures LaneRegistry(steps, i + 1, laneDict, lanes)
    ensures laneDict[LaneKeyOf(steps[i])] == ResolvedLane(steps, i)
  {
    assert steps[..i + 1] == steps[..i] + [steps[i]];
    KeysSnoc(steps[..i], steps[i], LaneKeyOf);
    LanesCreatedSnoc(steps[..i], steps[i]);
  }

  /** A new key registers the step's own lane. */
  lemma LaneKeyNew(steps: seq<PlacedStep>, i: nat, laneDict: map<string, LaneRef>, lanes: seq<LaneRef>)
    requires i < |steps| && LaneRegistry(steps, i, laneDict, lanes) && LaneKeyOf(steps[i]) !in laneDict
    ensures LaneRegistry(steps, i + 1, laneDict[LaneKeyOf(steps[i]) := steps[i].lane], lanes + [steps[i].lane])
    ensures steps[i].lane == ResolvedLane(steps, i)
  {
    assert steps[..i + 1] == steps[..i] + [steps[i]];
    KeysSnoc(steps[..i], steps[i], LaneKeyOf);
    LanesCreatedSnoc(steps[..i], steps[i]);
    FirstLaneKey(steps, i);
  }

  /** A key not seen before step i is first used by step i. */
  lemma FirstLaneKey(steps: seq<PlacedStep>, i: nat)
    requires i < |steps| && LaneKeyOf(steps[i]) !in Keys(steps[..i], LaneKeyOf)
    ensures LaneKeyOf(steps[i]) in Keys(steps, LaneKeyOf)
    ensures RegisteredLane(steps, LaneKeyOf(steps[i])) == steps[i].lane
  {
    var k := LaneKeyOf(steps[i]);
    KeysMember(steps, LaneKeyOf, i);
  }

  /** The registry loop of build_process_map: create each pool and each pool/lane key
      once, add one element per step to the lane registered under its key, and remember
      the element's position under the step id. */
  method RegisterSteps(steps: seq<PlacedStep>)
      returns (pools: seq<string>, lanes: seq<LaneRef>, placed: seq<Element>, elements: map<string, nat>)
    requires DistinctIds(steps)
    ensures pools == PoolsCreated(steps)
    ensures lanes == LanesCreated(steps)
    ensures placed == PlacedElements(steps)
    ensures forall j :: 0 <= j < |steps| ==> steps[j].id in elements && elements[steps[j].id] == j
  {
    pools := [];
    var poolDict: set<string> := {};
    lanes := [];
    var laneDict: map<string, LaneRef> := map[];
    placed := [];
    elements := map[];
    for i := 0 to |steps|
      invariant PoolRegistry(steps[..i], poolDict, pools)
      invariant LaneRegistry(steps, i, laneDict, lanes)
      invariant placed == PlacedElements(steps)[..i]
      invariant Remembered(steps, i, elements)
    {
      TakeSnoc(steps, i);
      poolDict, pools := AddPool(steps[..i], steps[i], poolDict, pools);
      var lane;
      laneDict, lanes, lane := AddLane(steps, i, laneDict, lanes);
      placed := PlaceElement(steps, i, placed, lane);
      elements := Remember(steps, i, elements);
    }
    assert steps[..|steps|] == steps;
    assert Remembered(steps, |steps|, elements);
  }

  /** The step ids in step order. */
  function Ids(steps: seq<PlacedStep>): (ids: seq<string>)
    ensures |ids| == |steps| && forall j :: 0 <= j < |steps| ==> ids[j] == steps[j].id
  {
    seq(|steps|, j requires 0 <= j < |steps| => steps[j].id)
  }

  /** Sorting the ids by their number keeps step order when the numbers ascend. */
  lemma SortedIdsInStepOrder(steps: seq<PlacedStep>)
    requires StrictlyAscending(steps, StepNumber)
    ensures SortBy(Ids(steps), IdNumber) == Ids(steps)
  {
    var ids := Ids(steps);
    forall i, j | 0 <= i < j < |ids| ensures IdNumber(ids[i]) < IdNumber(ids[j]) {
      assert StepNumber(steps[i]) < StepNumber(steps[j]);
    }
    SortByAscendingIdentity(ids, IdNumber);
  }

  /** The connecting loop of build_process_map: sort the ids by their number and connect
      each element to the next. Ids that already ascend keep their order, so element j is
      connected to element j + 1. */
  method ConnectInIdOrder(steps: seq<PlacedStep>, elements: map<string, nat>) returns (links: seq<Link>)
    requires StrictlyAscending(steps, StepNumber)
    requires forall j :: 0 <= j < |steps| ==> steps[j].id in elements && elements[steps[j].id] == j
    ensures links == LinearLinks(|steps|)
  {
    var stepIds := SortBy(Ids(steps), IdNumber);
    SortedIdsInStepOrder(steps);
    links := ConnectConsecutive(steps, stepIds, elements);
  }

  method ConnectConsecutive(steps: seq<PlacedStep>, stepIds: seq<string>, elements: map<string, nat>)
      returns (links: seq<Link>)
    requires stepIds == Ids(steps)
    requires forall j :: 0 <= j < |steps| ==> steps[j].id in elements && elements[steps[j].id] == j
    ensures links == LinearLinks(|steps|)
  {
    links := [];
    var i := 0;
    while i + 1 < |stepIds|
      invariant i == 0 || i < |stepIds|
      invariant |links| == i
      invariant forall j :: 0 <= j < i ==> links[j] == Link(j, j + 1, None)
    {
      assert stepIds[i] == steps[i].id && stepIds[i + 1] == steps[i + 1].id;
      links := links + [Link(elements[stepIds[i]], elements[stepIds[i + 1]], None)];
      i := i + 1;
    }
    assert i == if |steps| == 0 then 0 else |steps| - 1;
    LinearLinksExt(links, |steps|);
  }

  lemma LinearLinksExt(links: seq<Link>, n: nat)
    requires |links| == if n == 0 then 0 else n - 1
    requires forall j :: 0 <= j < |links| ==> links[j] == Link(j, j + 1, None)
    ensures links == LinearLinks(n)
  {
  }

  /** The shared body of build_process_map in process_map06 and process_map07. */
  method DrawSteps(steps: seq<PlacedStep>) returns (d: Drawing, elements: map<string, nat>)
    requires StrictlyAscending(steps, StepNumber)
    ensures d.pools == PoolsCreated(steps)
    ensures d.lanes == LanesCreated(steps)
    ensures d.elements == PlacedElements(steps)
    ensures d.links == LinearLinks(|steps|)
    ensures forall j :: 0 <= j < |steps| ==> steps[j].id in elements && elements[steps[j].id] == j
  {
    var pools, lanes, placed;
    AscendingIdsDistinct(steps);
    pools, lanes, placed, elements := RegisterSteps(steps);
    var links := ConnectInIdOrder(steps, elements);
    d := Drawing(pools, lanes, placed, links);
  }

  /** The pools in first-seen order: their names are distinct, every step's pool is among
      them, and each is some step's pool. */
  lemma PoolsCreatedOnce(steps: seq<PlacedStep>)
    ensures forall i, j :: 0 <= i < j < |PoolsCreated(steps)| ==> PoolsCreated(steps)[i] != PoolsCreated(steps)[j]
    ensures forall s :: s in steps ==> s.lane.pool in PoolsCreated(steps)
    ensures forall p :: p in PoolsCreated(steps) ==> p in Keys(steps, PoolOf)
  {
    FirstSeenKeysProperties(steps, PoolOf);
    assert PoolsCreated(steps) == FirstSeenKeys(steps, PoolOf);
    forall s | s in steps ensures s.lane.pool in Keys(steps, PoolOf) {
      var i :| 0 <= i < |steps| && steps[i] == s;
      KeysMember(steps, PoolOf, i);
    }
  }

  /** Pools appear in the order their names are first mentioned. */
  lemma PoolsCreatedInOrder(steps: seq<PlacedStep>, i: nat, j: nat)
    requires i < j < |PoolsCreated(steps)|
    ensures PoolsCreated(steps)[i] in Keys(steps, PoolOf) && PoolsCreated(steps)[j] in Keys(steps, PoolOf)
    ensures FirstIndex(steps, PoolOf, PoolsCreated(steps)[i]) < FirstIndex(steps, PoolOf, PoolsCreated(steps)[j])
  {
    FirstSeenKeysProperties(steps, PoolOf);
    assert PoolsCreated(steps) == FirstSeenKeys(steps, PoolOf);
  }

  /** Each lane key is created once and every step's lane key is created. */
  lemma LanesCreatedOnce(steps: seq<PlacedStep>)
    ensures forall i, j :: 0 <= i < j < |LanesCreated(steps)| ==>
              LaneKey(LanesCreated(steps)[i]) != LaneKey(LanesCreated(steps)[j])
    ensures forall s :: s in steps ==> exists l :: l in LanesCreated(steps) && LaneKey(l) == LaneKey(s.lane)
    ensures forall l :: l in LanesCreated(steps) ==> exists s :: s in steps && s.lane == l
  {
    var ls := LanesCreated(steps);
    FirstSeenKeysProperties(steps, LaneKeyOf);
    var ks := FirstSeenKeys(steps, LaneKeyOf);
    assert forall j :: 0 <= j < |ls| ==> LaneKey(ls[j]) == ks[j];
    forall s | s in steps ensures exists l :: l in ls && LaneKey(l) == LaneKey(s.lane) {
      var i :| 0 <= i < |steps| && steps[i] == s;
      KeysMember(steps, LaneKeyOf, i);
      var j :| 0 <= j < |ks| && ks[j] == LaneKeyOf(s);
      assert ls[j] in ls;
    }
    LanesCreatedFromSteps(steps);
  }

  /** Every created lane is some step's lane. */
  lemma LanesCreatedFromSteps(steps: seq<PlacedStep>)
    ensures forall l :: l in LanesCreated(steps) ==> exists s :: s in steps && s.lane == l
  {
    var d := DedupBy(steps, LaneKeyOf);
    var ls := LanesCreated(steps);
    DedupByFirstSeen(steps, LaneKeyOf);
    forall l | l in ls ensures exists s :: s in steps && s.lane == l {
      var j :| 0 <= j < |ls| && ls[j] == l;
      var i := FirstIndex(steps, LaneKeyOf, LaneKeyOf(d[j]));
      assert steps[i] in steps && steps[i].lane == l;
    }
  }

  /** Lanes appear in the order their keys are first mentioned. */
  lemma LanesCreatedInOrder(steps: seq<PlacedStep>, i: nat, j: nat)
    requires i < j < |LanesCreated(steps)|
    ensures LaneKey(LanesCreated(steps)[i]) in Keys(steps, LaneKeyOf)
    ensures LaneKey(LanesCreated(steps)[j]) in Keys(steps, LaneKeyOf)
    ensures FirstIndex(steps, LaneKeyOf, LaneKey(LanesCreated(steps)[i])) <
            FirstIndex(steps, LaneKeyOf, LaneKey(LanesCreated(steps)[j]))
  {
    FirstSeenKeysProperties(steps, LaneKeyOf);
    var ks := FirstSeenKeys(steps, LaneKeyOf);
    assert LaneKey(LanesCreated(steps)[i]) == ks[i];
    assert LaneKey(LanesCreated(steps)[j]) == ks[j];
  }

  lemma LaneKeyChars(l: LaneRef)
    ensures LaneKey(l)[|l.pool|] == '/'
    ensures forall i :: 0 <= i < |l.pool| ==> LaneKey(l)[i] == l.pool[i]
  {
  }

  /** When no pool name contains '/', the key determines the lane. */
  lemma LaneKeyInjective(a: LaneRef, b: LaneRef)
    requires '/' !in a.pool && '/' !in b.pool
    requires LaneKey(a) == LaneKey(b)
    ensures a == b
  {
    var ka := LaneKey(a);
    LaneKeyChars(a);
    LaneKeyChars(b);
    assert a.pool == ka[..|a.pool|] == b.pool;
    assert a.name == ka[|a.pool| + 1..] == b.name;
  }

  /** So every element is added to its own step's lane when no pool name contains '/'. */
  lemma ElementsInOwnLane(steps: seq<PlacedStep>, j: nat)
    requires j < |steps|
    requires forall s :: s in steps ==> '/' !in s.lane.pool
    ensures PlacedElements(steps)[j].lane == steps[j].lane
  {
    KeysMember(steps, LaneKeyOf, j);
    var i := FirstIndex(steps, LaneKeyOf, LaneKeyOf(steps[j]));
    LaneKeyInjective(steps[i].lane, steps[j].lane);
  }

  /** Two steps in different pools under one lane key: one lane is created, in the
      first step's pool, and both elements land in it. */
  lemma SharedLaneKey(s1: PlacedStep, s2: PlacedStep)
    requires LaneKeyOf(s1) == LaneKeyOf(s2) && PoolOf(s1) != PoolOf(s2)
    ensures LanesCreated([s1, s2]) == [s1.lane]
    ensures PoolsCreated([s1, s2]) == [s1.lane.pool, s2.lane.pool]
    ensures PlacedElements([s1, s2])[1].lane == s1.lane
  {
    var steps := [s1, s2];
    assert steps[..1] == [s1] == [] + [s1];
    assert DedupBy(steps, LaneKeyOf) == [s1] by {
      KeysSnoc([], s1, LaneKeyOf);
      KeysSnoc([s1], s2, LaneKeyOf);
      assert DedupBy([s1], LaneKeyOf) == [s1];
    }
    assert DedupBy(steps, PoolOf) == [s1, s2] by {
      KeysSnoc([], s1, PoolOf);
      assert DedupBy([s1], PoolOf) == [s1];
    }
    assert FirstIndex(steps, LaneKeyOf, LaneKeyOf(s1)) == 0;
  }

  /** The key is a plain concatenation, so two different lanes can share it: a step in
      lane c of pool a/b and a later step in lane b/c of pool a both use key a/b/c (for
      instance pools "A/B" and "A", lanes "C" and "B/C"), and the later step's element
      lands in the earlier step's lane. */
  lemma LaneKeyCollision(s1: PlacedStep, s2: PlacedStep, a: string, b: string, c: string)
    requires s1.lane == LaneRef(a + "/" + b, c) && s2.lane == LaneRef(a, b + "/" + c)
    ensures LaneKey(s1.lane) == LaneKey(s2.lane) && s1.lane != s2.lane
    ensures LanesCreated([s1, s2]) == [s1.lane]
    ensures PoolsCreated([s1, s2]) == [a + "/" + b, a]
    ensures PlacedElements([s1, s2])[1].lane == s1.lane
  {
    assert LaneKey(s1.lane) == a + "/" + b + "/" + c == LaneKey(s2.lane);
    assert |s1.lane.pool| != |s2.lane.pool|;
    SharedLaneKey(s1, s2);
  }
}
