/** process_map07: the file-driven BPMN mapper. load_from_file reads the process name,
    the purpose and one `name|type|pool/lane` line per step; build_process_map creates
    the pools, lanes and elements and chains the elements in step-number order. */
module ProcessMap07 {
  import opened Wrappers
  import opened Text
  import opened Collections
  import opened Bpmn

  /** A step record as load_from_file stores it. */
  datatype FileStep = FileStep(id: string, name: string, kind: string, poolLane: string)

  function FileStepNumber(s: FileStep): int { IdNumber(s.id) }

  /** Line k (counted from 1) of the step section: a step when the line contains '|' and
      its stripped text has at least three '|'-separated fields. */
  function ParseStepLine(line: string, k: nat): (r: Option<FileStep>)
    ensures r.Some? ==> '|' in line && r.value.id == StepId(k)
  {
    if '|' !in line then None
    else
      var fields := StripEach(Split(Strip(line), "|"));
      if |fields| >= 3 then
        Some(FileStep(StepId(k), fields[0], if |fields| > 1 then fields[1] else "task", fields[2]))
      else None
  }

  /** The fields of a parsed step are stripped and contain no '|'. */
  lemma ParsedFieldsClean(line: string, k: nat)
    requires ParseStepLine(line, k).Some?
    ensures var s := ParseStepLine(line, k).value;
            Strip(s.name) == s.name && Strip(s.kind) == s.kind && Strip(s.poolLane) == s.poolLane &&
            '|' !in s.name && '|' !in s.kind && '|' !in s.poolLane
  {
    var parts := Split(Strip(line), "|");
    var s := ParseStepLine(line, k).value;
    SplitPiecesFree(Strip(line), "|");
    assert parts[0] in parts && parts[1] in parts && parts[2] in parts;
    StripIdempotent(parts[0]);
    StripIdempotent(parts[1]);
    StripIdempotent(parts[2]);
    ContainsChar(parts[0], '|');
    ContainsChar(parts[1], '|');
    ContainsChar(parts[2], '|');
    StripKeeps(parts[0], '|');
    StripKeeps(parts[1], '|');
    StripKeeps(parts[2], '|');
  }

  /** A line with '|' whose stripped text splits into exactly three fields parses to
      those fields, stripped. */
  lemma ParseThreeFields(line: string, k: nat, p0: string, p1: string, p2: string)
    requires '|' in line && Split(Strip(line), "|") == [p0, p1, p2]
    ensures ParseStepLine(line, k) == Some(FileStep(StepId(k), Strip(p0), Strip(p1), Strip(p2)))
  {
  }

  lemma FormattedStrip(name: string, kind: string, poolLane: string, newline: string)
    requires name != [] && Trimmed(name)
    requires poolLane != [] && Trimmed(poolLane)
    requires Blank(newline)
    ensures Strip(name + "|" + kind + "|" + poolLane + newline) == name + "|" + kind + "|" + poolLane
  {
    var text := name + "|" + kind + "|" + poolLane;
    assert text[0] == name[0] && text[|text| - 1] == poolLane[|poolLane| - 1];
    StripTrailing(text, newline);
  }

  lemma FormattedSplit(name: string, kind: string, poolLane: string)
    requires '|' !in name && '|' !in kind && '|' !in poolLane
    ensures Split(name + "|" + kind + "|" + poolLane, "|") == [name, kind, poolLane]
  {
    var text := name + "|" + kind + "|" + poolLane;
    assert text == name + ['|'] + (kind + ['|'] + poolLane);
    SplitAt(name, '|', kind + ['|'] + poolLane);
    SplitAt(kind, '|', poolLane);
    SplitAbsent(poolLane, '|');
  }

  /** A line written as `name|type|pool/lane`, possibly followed by its newline, parses
      back to exactly those fields. */
  lemma ParseFormattedLine(name: string, kind: string, poolLane: string, newline: string, k: nat)
    requires '|' !in name && '|' !in kind && '|' !in poolLane
    requires name != [] && Trimmed(name)
    requires Trimmed(kind)
    requires poolLane != [] && Trimmed(poolLane)
    requires Blank(newline)
    ensures ParseStepLine(name + "|" + kind + "|" + poolLane + newline, k) ==
            Some(FileStep(StepId(k), name, kind, poolLane))
  {
    var line := name + "|" + kind + "|" + poolLane + newline;
    assert line[|name|] == '|';
    FormattedStrip(name, kind, poolLane, newline);
    FormattedSplit(name, kind, poolLane);
    ParseThreeFields(line, k, name, kind, poolLane);
  }

  /** Each line of the step section parsed on its own, numbered from 1. */
  function ParsedLines(body: seq<string>): (r: seq<Option<FileStep>>)
  {
    seq(|body|, j requires 0 <= j < |body| => ParseStepLine(body[j], j + 1))
  }

  /** The step records collected from the step section. */
  function ParseSteps(body: seq<string>): seq<FileStep> {
    Somes(ParsedLines(body))
  }

  /** Every collected step is what its own line k parses to, the line numbers strictly
      ascend (skipped lines leave gaps), and every line that parses is collected. */
  lemma ParseStepsOrigin(body: seq<string>)
    ensures forall j :: 0 <= j < |ParseSteps(body)| ==>
              exists i :: 0 <= i < |body| && ParseStepLine(body[i], i + 1) == Some(ParseSteps(body)[j])
    ensures forall j :: 0 <= j < |body| && ParseStepLine(body[j], j + 1).Some? ==>
              ParseStepLine(body[j], j + 1).value in ParseSteps(body)
  {
    var xs := ParsedLines(body);
    assert forall i :: 0 <= i < |body| ==> xs[i] == ParseStepLine(body[i], i + 1);
    SomesOrigin(xs);
    SomesComplete(xs);
    var idx := SomeIndices(xs);
    forall j | 0 <= j < |ParseSteps(body)|
      ensures exists i :: 0 <= i < |body| && ParseStepLine(body[i], i + 1) == Some(ParseSteps(body)[j])
    {
      var i := idx[j];
      assert ParseStepLine(body[i], i + 1) == xs[i];
      assert 0 <= i < |body| && ParseStepLine(body[i], i + 1) == Some(ParseSteps(body)[j]);
    }
  }

  /** The collected ids S{k} carry strictly ascending numbers. */
  lemma ParseStepsAscending(body: seq<string>)
    ensures StrictlyAscending(ParseSteps(body), FileStepNumber)
  {
    var xs := ParsedLines(body);
    var steps := ParseSteps(body);
    var idx := SomeIndices(xs);
    SomesOrigin(xs);
    forall j | 0 <= j < |steps| ensures FileStepNumber(steps[j]) == idx[j] + 1 {
      assert xs[idx[j]] == ParseStepLine(body[idx[j]], idx[j] + 1);
      IdNumberOfStepId(idx[j] + 1);
    }
  }

  /** The parsing loop of load_from_file over lines[2:], numbered from 1. */
  method LoadSteps(body: seq<string>) returns (steps: seq<FileStep>)
    ensures steps == ParseSteps(body)
  {
    steps := [];
    ghost var xs := ParsedLines(body);
    for i := 0 to |body|
      invariant steps == Somes(xs[..i])
    {
      var parsed := ParseStepLine(body[i], i + 1);
      assert xs[..i + 1] == xs[..i] + [parsed];
      SomesSnoc(xs[..i], parsed);
      if parsed.Some? {
        steps := steps + [parsed.value];
      }
    }
    assert xs[..|body|] == xs;
  }

  /** The step that replaces an empty step list. */
  function DefaultStep(processName: string): FileStep {
    FileStep("S1", "Default Task", "task", processName + "/Team")
  }

  /** The steps build_process_map uses: the loaded ones, or the default step when none
      were loaded. */
  function EffectiveSteps(processName: string, steps: seq<FileStep>): (r: seq<FileStep>)
  {
    if steps == [] then [DefaultStep(processName)] else steps
  }

  /** The registry's view of a step: its pool/lane token resolved. */
  function Place(processName: string, s: FileStep): PlacedStep {
    PlacedStep(s.id, s.name, s.kind, SplitPoolLane(processName, s.poolLane))
  }

  function PlaceAll(processName: string, steps: seq<FileStep>): (r: seq<PlacedStep>)
  {
    seq(|steps|, j requires 0 <= j < |steps| => Place(processName, steps[j]))
  }

  /** The default step is a task in lane "Team" of the process's own pool, whenever the
      process name has no '/'. */
  lemma DefaultStepPlacement(processName: string)
    requires '/' !in processName
    ensures Place(processName, DefaultStep(processName)) ==
            PlacedStep("S1", "Default Task", "task", LaneRef(processName, "Team"))
  {
    assert processName + "/Team" == processName + ['/'] + "Team";
    SplitOnceOf(processName, '/', "Team");
  }

  /** Resolving the tokens keeps the number of steps and their ids. */
  lemma PlaceAllIds(processName: string, steps: seq<FileStep>)
    ensures |PlaceAll(processName, steps)| == |steps|
    ensures forall j :: 0 <= j < |steps| ==> PlaceAll(processName, steps)[j].id == steps[j].id
  {
  }

  /** Resolving the tokens keeps the ids, so step numbers that ascend still ascend. */
  lemma PlaceAllAscending(processName: string, steps: seq<FileStep>)
    requires StrictlyAscending(steps, FileStepNumber)
    ensures StrictlyAscending(PlaceAll(processName, steps), StepNumber)
  {
    var placed := PlaceAll(processName, steps);
    forall i, j | 0 <= i < j < |placed| ensures StepNumber(placed[i]) < StepNumber(placed[j]) {
      assert placed[i].id == steps[i].id && placed[j].id == steps[j].id;
    }
  }

  /** The footer text set on the map. */
  function Footer(filename: string, why: string): string {
    "File: " + filename + " | " + Take(why, 50) + "..."
  }

  /** The first '|'-separated field of a header line, stripped. */
  function HeaderField(line: string): string {
    Strip(Split(line, "|")[0])
  }

  /** A header line that starts with a stripped, '|'-free field yields that field. */
  lemma HeaderFieldOf(field: string, rest: string)
    requires '|' !in field && Trimmed(field)
    ensures HeaderField(field + "|" + rest) == field
  {
    SplitAt(field, '|', rest);
  }

  /** A header line without '|' yields the whole line, stripped. */
  lemma HeaderFieldWhole(line: string)
    requires '|' !in line
    ensures HeaderField(line) == Strip(line)
  {
    SplitAbsent(line, '|');
  }

  /** The three fields of one step line, as create_example_file writes them. */
  datatype StepFields = StepFields(name: string, kind: string, poolLane: string)

  /** Fields that survive a write and a re-read: no '|' inside, no surrounding
      whitespace, and a non-empty name and pool/lane. */
  predicate Writable(f: StepFields) {
    '|' !in f.name && '|' !in f.kind && '|' !in f.poolLane &&
    f.name != [] && Trimmed(f.name) && Trimmed(f.kind) &&
    f.poolLane != [] && Trimmed(f.poolLane)
  }

  /** A step line as written, with its terminator. */
  function FormatLine(f: StepFields, newline: string): string {
    f.name + "|" + f.kind + "|" + f.poolLane + newline
  }

  /** The step section of a file written from `fs`, line j ending in `ends[j]`. */
  function FormatBody(fs: seq<StepFields>, ends: seq<string>): seq<string>
    requires |ends| == |fs|
  {
    seq(|fs|, j requires 0 <= j < |fs| => FormatLine(fs[j], ends[j]))
  }

  /** Writing step lines and loading them back gives the steps S1..Sn with the written
      fields, whatever whitespace ends each line (a newline, or nothing on the last line):
      the round trip between create_example_file's format and load_from_file. */
  lemma ParseFormattedBody(fs: seq<StepFields>, ends: seq<string>)
    requires |ends| == |fs|
    requires forall j :: 0 <= j < |fs| ==> Writable(fs[j]) && Blank(ends[j])
    ensures var steps := ParseSteps(FormatBody(fs, ends));
            |steps| == |fs| &&
            forall j :: 0 <= j < |fs| ==>
              steps[j] == FileStep(StepId(j + 1), fs[j].name, fs[j].kind, fs[j].poolLane)
  {
    var body := FormatBody(fs, ends);
    var xs := ParsedLines(body);
    forall j | 0 <= j < |fs|
      ensures xs[j] == Some(FileStep(StepId(j + 1), fs[j].name, fs[j].kind, fs[j].poolLane))
    {
      ParseFormattedLine(fs[j].name, fs[j].kind, fs[j].poolLane, ends[j], j + 1);
    }
    SomesAllSome(xs);
  }

  // ----- the example file -----

  /** A file in create_example_file's layout, as readlines returns it: the header line,
      the purpose line and five step lines, each ending in a newline except the last. */
  function FiveStepFile(name: string, rest: string, purpose: string, fs: seq<StepFields>): seq<string>
    requires |fs| == 5
  {
    [name + "|" + rest + "\n", purpose + "\n"] + FormatBody(fs, ["\n", "\n", "\n", "\n", ""])
  }

  /** The header lines yield the name before the first '|' and the purpose line whole. */
  lemma LoadHeaderLines(name: string, rest: string, purpose: string)
    requires '|' !in name && Trimmed(name)
    requires '|' !in purpose && purpose != [] && Trimmed(purpose)
    ensures HeaderField(name + "|" + rest + "\n") == name
    ensures HeaderField(purpose + "\n") == purpose
  {
    HeaderFieldOf(name, rest + "\n");
    assert name + "|" + rest + "\n" == name + "|" + (rest + "\n");
    assert '|' !in purpose + "\n";
    HeaderFieldWhole(purpose + "\n");
    StripTrailing(purpose, "\n");
  }

  /** Five written step lines, the last without a newline, load as S1..S5. */
  lemma LoadFiveSteps(fs: seq<StepFields>)
    requires |fs| == 5 && forall j :: 0 <= j < 5 ==> Writable(fs[j])
    ensures ParseSteps(FormatBody(fs, ["\n", "\n", "\n", "\n", ""])) ==
              [FileStep(StepId(1), fs[0].name, fs[0].kind, fs[0].poolLane),
               FileStep(StepId(2), fs[1].name, fs[1].kind, fs[1].poolLane),
               FileStep(StepId(3), fs[2].name, fs[2].kind, fs[2].poolLane),
               FileStep(StepId(4), fs[3].name, fs[3].kind, fs[3].poolLane),
               FileStep(StepId(5), fs[4].name, fs[4].kind, fs[4].poolLane)]
  {
    var ends := ["\n", "\n", "\n", "\n", ""];
    assert forall j :: 0 <= j < 5 ==> Blank(ends[j]);
    ParseFormattedBody(fs, ends);
  }

  /** Loading such a file yields the name before the header's first '|', the purpose
      line whole, and the steps S1..S5 with the written fields. */
  lemma LoadFiveStepFile(name: string, rest: string, purpose: string, fs: seq<StepFields>)
    requires |fs| == 5 && forall j :: 0 <= j < 5 ==> Writable(fs[j])
    requires '|' !in name && Trimmed(name)
    requires '|' !in purpose && purpose != [] && Trimmed(purpose)
    ensures var lines := FiveStepFile(name, rest, purpose, fs);
            |lines| == 7 && HeaderField(lines[0]) == name && HeaderField(lines[1]) == purpose &&
            ParseSteps(lines[2..]) ==
              [FileStep(StepId(1), fs[0].name, fs[0].kind, fs[0].poolLane),
               FileStep(StepId(2), fs[1].name, fs[1].kind, fs[1].poolLane),
               FileStep(StepId(3), fs[2].name, fs[2].kind, fs[2].poolLane),
               FileStep(StepId(4), fs[3].name, fs[3].kind, fs[3].poolLane),
               FileStep(StepId(5), fs[4].name, fs[4].kind, fs[4].poolLane)]
  {
    var lines := FiveStepFile(name, rest, purpose, fs);
    LoadHeaderLines(name, rest, purpose);
    LoadFiveSteps(fs);
    assert lines[2..] == FormatBody(fs, ["\n", "\n", "\n", "\n", ""]);
  }

  lemma ExampleStep1(name: string, kind: string, poolLane: string)
    requires name == "Job Req Received" && kind == "start" && poolLane == "HR/HR"
    ensures Writable(StepFields(name, kind, poolLane))
  {
  }

  lemma ExampleStep2(name: string, kind: string, poolLane: string)
    requires name == "Post Job Ad" && kind == "task" && poolLane == "HR/Recruiter"
    ensures Writable(StepFields(name, kind, poolLane))
  {
  }

  lemma ExampleStep3(name: string, kind: string, poolLane: string)
    requires name == "Screen Resumes?" && kind == "decision" && poolLane == "HR/Recruiter"
    ensures Writable(StepFields(name, kind, poolLane))
  {
  }

  lemma ExampleStep4(name: string, kind: string, poolLane: string)
    requires name == "Conduct Interview" && kind == "task" && poolLane == "HR/Manager"
    ensures Writable(StepFields(name, kind, poolLane))
  {
  }

  lemma ExampleStep5(name: string, kind: string, poolLane: string)
    requires name == "Send Offer & Onboard" && kind == "end" && poolLane == "HR/HR"
    ensures Writable(StepFields(name, kind, poolLane))
  {
  }

  /** The file create_example_file writes loads as process "HR Onboarding" with the
      purpose line whole and the five steps S1..S5 as written. */
  lemma ExampleFileLoads(f1: StepFields, f2: StepFields, f3: StepFields, f4: StepFields, f5: StepFields)
    requires f1 == StepFields("Job Req Received", "start", "HR/HR")
    requires f2 == StepFields("Post Job Ad", "task", "HR/Recruiter")
    requires f3 == StepFields("Screen Resumes?", "decision", "HR/Recruiter")
    requires f4 == StepFields("Conduct Interview", "task", "HR/Manager")
    requires f5 == StepFields("Send Offer & Onboard", "end", "HR/HR")
    ensures var lines := FiveStepFile("HR Onboarding", "Streamline new hire process|HR,Recruiter,Manager",
                                      "Purpose: Reduce time-to-hire by 30%", [f1, f2, f3, f4, f5]);
            |lines| == 7 && HeaderField(lines[0]) == "HR Onboarding" &&
            HeaderField(lines[1]) == "Purpose: Reduce time-to-hire by 30%" &&
            ParseSteps(lines[2..]) ==
              [FileStep(StepId(1), "Job Req Received", "start", "HR/HR"),
               FileStep(StepId(2), "Post Job Ad", "task", "HR/Recruiter"),
               FileStep(StepId(3), "Screen Resumes?", "decision", "HR/Recruiter"),
               FileStep(StepId(4), "Conduct Interview", "task", "HR/Manager"),
               FileStep(StepId(5), "Send Offer & Onboard", "end", "HR/HR")]
  {
    ExampleStep1(f1.name, f1.kind, f1.poolLane);
    ExampleStep2(f2.name, f2.kind, f2.poolLane);
    ExampleStep3(f3.name, f3.kind, f3.poolLane);
    ExampleStep4(f4.name, f4.kind, f4.poolLane);
    ExampleStep5(f5.name, f5.kind, f5.poolLane);
    var fs := [f1, f2, f3, f4, f5];
    LoadFiveStepFile("HR Onboarding", "Streamline new hire process|HR,Recruiter,Manager",
                     "Purpose: Reduce time-to-hire by 30%", fs);
  }

  /** One more placed step: what the pool and lane registries hold afterwards. */
  lemma PlacedGrow(placed: seq<PlacedStep>, n: nat)
    requires n < |placed|
    ensures PoolsCreated(placed[..n + 1]) ==
            if placed[n].lane.pool in Keys(placed[..n], PoolOf) then PoolsCreated(placed[..n])
            else PoolsCreated(placed[..n]) + [placed[n].lane.pool]
    ensures Keys(placed[..n + 1], PoolOf) == Keys(placed[..n], PoolOf) + {placed[n].lane.pool}
    ensures LanesCreated(placed[..n + 1]) ==
            if LaneKey(placed[n].lane) in Keys(placed[..n], LaneKeyOf) then LanesCreated(placed[..n])
            else LanesCreated(placed[..n]) + [placed[n].lane]
    ensures Keys(placed[..n + 1], LaneKeyOf) == Keys(placed[..n], LaneKeyOf) + {LaneKey(placed[n].lane)}
  {
    TakeSnoc(placed, n);
    PoolsCreatedSnoc(placed[..n], placed[n]);
    LanesCreatedSnoc(placed[..n], placed[n]);
    KeysSnoc(placed[..n], placed[n], PoolOf);
    KeysSnoc(placed[..n], placed[n], LaneKeyOf);
  }

  /** Two lanes of one pool with different names have different registry keys. */
  lemma LaneKeysDiffer(pool: string, a: string, b: string)
    requires a != b
    ensures LaneKey(LaneRef(pool, a)) != LaneKey(LaneRef(pool, b))
  {
    assert LaneKey(LaneRef(pool, a))[|pool| + 1..] == a;
    assert LaneKey(LaneRef(pool, b))[|pool| + 1..] == b;
  }

  /** Steps whose lanes run la, lb, lb, lc, la, under three distinct keys, create the
      lanes la, lb and lc, in that order. */
  lemma ThreeLanes(placed: seq<PlacedStep>, la: LaneRef, lb: LaneRef, lc: LaneRef)
    requires |placed| == 5
    requires LaneKey(la) != LaneKey(lb) && LaneKey(lb) != LaneKey(lc) && LaneKey(la) != LaneKey(lc)
    requires placed[0].lane == la && placed[1].lane == lb && placed[2].lane == lb
    requires placed[3].lane == lc && placed[4].lane == la
    ensures LanesCreated(placed) == [la, lb, lc]
  {
    DedupFive(placed, LaneKeyOf);
  }

  /** Five items keyed k0, k1, k1, k3, k0 with k0, k1 and k3 distinct keep the items at
      0, 1 and 3 once duplicate keys are dropped. */
  lemma DedupFive<T, K>(xs: seq<T>, key: T -> K)
    requires |xs| == 5 && key(xs[2]) == key(xs[1]) && key(xs[4]) == key(xs[0])
    requires key(xs[0]) != key(xs[1]) && key(xs[1]) != key(xs[3]) && key(xs[0]) != key(xs[3])
    ensures DedupBy(xs, key) == [xs[0], xs[1], xs[3]]
  {
    var k0, k1, k3 := key(xs[0]), key(xs[1]), key(xs[3]);
    assert xs[..0] == [];
    DedupGrow(xs, 0, key);
    assert Keys(xs[..1], key) == {k0};
    DedupGrow(xs, 1, key);
    assert k1 in Keys(xs[..2], key) && k3 !in Keys(xs[..2], key);
    DedupGrow(xs, 2, key);
    assert k3 !in Keys(xs[..3], key);
    DedupGrow(xs, 3, key);
    assert k0 in Keys(xs[..4], key);
    DedupGrow(xs, 4, key);
    assert xs[..5] == xs;
  }

  /** One more item: dropping duplicate keys keeps it exactly when its key is new. */
  lemma DedupGrow<T, K>(xs: seq<T>, n: nat, key: T -> K)
    requires n < |xs|
    ensures DedupBy(xs[..n + 1], key) ==
            if key(xs[n]) in Keys(xs[..n], key) then DedupBy(xs[..n], key) else DedupBy(xs[..n], key) + [xs[n]]
    ensures Keys(xs[..n + 1], key) == Keys(xs[..n], key) + {key(xs[n])}
  {
    TakeSnoc(xs, n);
    DedupBySnoc(xs[..n], xs[n], key);
    KeysSnoc(xs[..n], xs[n], key);
  }

  /** Steps that all sit in one pool create that pool once. */
  lemma {:induction false} OnePool(placed: seq<PlacedStep>, n: nat, pool: string)
    requires 1 <= n <= |placed|
    requires forall i :: 0 <= i < |placed| ==> placed[i].lane.pool == pool
    ensures PoolsCreated(placed[..n]) == [pool]
    ensures Keys(placed[..n], PoolOf) == {pool}
  {
    if n == 1 {
      assert placed[..0] == [];
    } else {
      OnePool(placed, n - 1, pool);
    }
    PlacedGrow(placed, n - 1);
  }

  /** Steps in one pool whose lanes run a, b, b, c, a create that pool once and the
      lanes a, b and c, in that order. */
  lemma OnePoolThreeLanes(placed: seq<PlacedStep>, pool: string, a: string, b: string, c: string)
    requires |placed| == 5 && a != b && b != c && a != c
    requires placed[0].lane == LaneRef(pool, a) && placed[1].lane == LaneRef(pool, b)
    requires placed[2].lane == LaneRef(pool, b) && placed[3].lane == LaneRef(pool, c)
    requires placed[4].lane == LaneRef(pool, a)
    ensures PoolsCreated(placed) == [pool]
    ensures LanesCreated(placed) == [LaneRef(pool, a), LaneRef(pool, b), LaneRef(pool, c)]
  {
    OnePool(placed, 5, pool);
    assert placed[..5] == placed;
    LaneKeysDiffer(pool, a, b);
    LaneKeysDiffer(pool, b, c);
    LaneKeysDiffer(pool, a, c);
    ThreeLanes(placed, LaneRef(pool, a), LaneRef(pool, b), LaneRef(pool, c));
  }

  /** A "pool/lane" token whose pool has no '/' resolves to that pool and lane. */
  lemma PoolLaneToken(processName: string, token: string, pool: string, lane: string)
    requires token == pool + "/" + lane && '/' !in pool
    ensures SplitPoolLane(processName, token) == LaneRef(pool, lane)
  {
    assert token == pool + ['/'] + lane;
    SplitOnceOf(pool, '/', lane);
  }

  /** The example's tokens HR/HR, HR/Recruiter, HR/Recruiter, HR/Manager, HR/HR create
      the pool HR once and its lanes HR, Recruiter and Manager, in that order. */
  lemma ExampleLanes(steps: seq<FileStep>)
    requires |steps| == 5 && steps[0].poolLane == "HR/HR" && steps[1].poolLane == "HR/Recruiter"
    requires steps[2].poolLane == "HR/Recruiter" && steps[3].poolLane == "HR/Manager"
    requires steps[4].poolLane == "HR/HR"
    ensures PoolsCreated(PlaceAll("HR Onboarding", steps)) == ["HR"]
    ensures LanesCreated(PlaceAll("HR Onboarding", steps)) ==
            [LaneRef("HR", "HR"), LaneRef("HR", "Recruiter"), LaneRef("HR", "Manager")]
  {
    var placed := PlaceAll("HR Onboarding", steps);
    assert "HR/HR" == "HR" + "/" + "HR" && "HR/Recruiter" == "HR" + "/" + "Recruiter";
    assert "HR/Manager" == "HR" + "/" + "Manager" && '/' !in "HR";
    PoolLaneToken("HR Onboarding", steps[0].poolLane, "HR", "HR");
    PoolLaneToken("HR Onboarding", steps[1].poolLane, "HR", "Recruiter");
    PoolLaneToken("HR Onboarding", steps[3].poolLane, "HR", "Manager");
    assert "HR" != "Recruiter" && "Recruiter" != "Manager" && "HR" != "Manager";
    OnePoolThreeLanes(placed, "HR", "HR", "Recruiter", "Manager");
  }

  /** Loading the example file and placing its steps creates the pool HR once and the
      lanes HR/HR, HR/Recruiter and HR/Manager, in that order. */
  lemma ExampleFileLanes(f1: StepFields, f2: StepFields, f3: StepFields, f4: StepFields, f5: StepFields)
    requires f1 == StepFields("Job Req Received", "start", "HR/HR")
    requires f2 == StepFields("Post Job Ad", "task", "HR/Recruiter")
    requires f3 == StepFields("Screen Resumes?", "decision", "HR/Recruiter")
    requires f4 == StepFields("Conduct Interview", "task", "HR/Manager")
    requires f5 == StepFields("Send Offer & Onboard", "end", "HR/HR")
    ensures var lines := FiveStepFile("HR Onboarding", "Streamline new hire process|HR,Recruiter,Manager",
                                      "Purpose: Reduce time-to-hire by 30%", [f1, f2, f3, f4, f5]);
            var placed := PlaceAll(HeaderField(lines[0]), ParseSteps(lines[2..]));
            PoolsCreated(placed) == ["HR"] &&
            LanesCreated(placed) == [LaneRef("HR", "HR"), LaneRef("HR", "Recruiter"), LaneRef("HR", "Manager")]
  {
    ExampleFileLoads(f1, f2, f3, f4, f5);
    var lines := FiveStepFile("HR Onboarding", "Streamline new hire process|HR,Recruiter,Manager",
                              "Purpose: Reduce time-to-hire by 30%", [f1, f2, f3, f4, f5]);
    ExampleLanes(ParseSteps(lines[2..]));
  }

  /** The mapper object: the file name, the parsed core fields, the step list, the
      element registry and what was drawn. */
  class FileProcessMapper {
    var filename: string
    var core: map<string, string>
    var steps: seq<FileStep>
    var elements: map<string, nat>
    var drawing: Option<Drawing>
    var footer: string
    var exampleWritten: bool

    /** The step numbers of the loaded steps strictly ascend. */
    predicate Valid()
      reads this
    {
      StrictlyAscending(steps, FileStepNumber)
    }

    constructor (filename: string)
      ensures this.filename == filename && core == map[] && steps == [] && elements == map[]
      ensures drawing == None && footer == "" && !exampleWritten
      ensures Valid()
    {
      this.filename := filename;
      core := map[];
      steps := [];
      elements := map[];
      drawing := None;
      footer := "";
      exampleWritten := false;
    }

    /** load_from_file, with the file's lines (None when the file does not exist). A
        missing file makes the example file and answers false; a file with fewer than two
        lines fails on the missing header line. */
    method LoadFromFile(contents: Option<seq<string>>) returns (r: Result<bool>)
      requires steps == []
      modifies this
      ensures contents.None? ==> r == Ok(false) && exampleWritten && core == old(core) && steps == old(steps)
      ensures contents.Some? && |contents.value| == 0 ==> r == Err(IndexOutOfRange) && core == old(core)
      ensures contents.Some? && |contents.value| == 1 ==>
                r == Err(IndexOutOfRange) && core == old(core)["name" := HeaderField(contents.value[0])]
      ensures contents.Some? && |contents.value| >= 2 ==>
                var lines := contents.value;
                r == Ok(true) &&
                core == old(core)["name" := HeaderField(lines[0])]["why" := HeaderField(lines[1])] &&
                steps == ParseSteps(lines[2..])
      ensures contents.Some? ==> exampleWritten == old(exampleWritten)
      ensures filename == old(filename) && elements == old(elements) && drawing == old(drawing) && footer == old(footer)
      ensures Valid()
    {
      if contents.None? {
        exampleWritten := true;
        return Ok(false);
      }
      var lines := contents.value;
      if |lines| == 0 {
        return Err(IndexOutOfRange);
      }
      core := core["name" := HeaderField(lines[0])];
      if |lines| == 1 {
        return Err(IndexOutOfRange);
      }
      core := core["why" := HeaderField(lines[1])];
      var loaded := LoadSteps(lines[2..]);
      ParseStepsAscending(lines[2..]);
      steps := steps + loaded;
      assert steps == loaded;
      r := Ok(true);
    }

    /** build_process_map: the default step when none were loaded, then the registry and
        the chain in step-number order. */
    method BuildProcessMap()
      requires "name" in core && "why" in core
      requires Valid() && elements == map[]
      modifies this
      ensures core == old(core) && filename == old(filename) && exampleWritten == old(exampleWritten)
      ensures steps == EffectiveSteps(core["name"], old(steps))
      ensures drawing.Some?
      ensures var placed := PlaceAll(core["name"], steps);
              drawing.value.pools == PoolsCreated(placed) &&
              drawing.value.lanes == LanesCreated(placed) &&
              drawing.value.elements == PlacedElements(placed) &&
              drawing.value.links == LinearLinks(|steps|)
      ensures forall j :: 0 <= j < |steps| ==> steps[j].id in elements && elements[steps[j].id] == j
      ensures footer == Footer(filename, core["why"])
      ensures Valid()
    {
      var processName := core["name"];
      if steps == [] {
        steps := [DefaultStep(processName)];
      }
      var placed := PlaceAll(processName, steps);
      PlaceAllIds(processName, steps);
      PlaceAllAscending(processName, steps);
      var d, e := DrawSteps(placed);
      drawing := Some(d);
      elements := e;
      footer := Footer(filename, core["why"]);
    }
  }
}
