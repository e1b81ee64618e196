# Process mappers, task triage, budget report and Blender mesh helpers — a Dafny model

This project models the decision-making core of a small collection of
automation scripts:

- seven generations of a **process mapper**
  (`process_mapper/process_map01.py` … `process_map07.py`). Each asks for a
  process's core facts, collects its steps and lays them out as a diagram:
  - map05, map06 and map07 produce a processpiper BPMN map of pools, lanes,
    elements and links;
  - map01 builds a processpiper pool of lanes, elements and links but never adds
    it to the map it draws, which receives only its title and footer;
  - map02 produces a graphviz graph whose lane clusters carry only a name and a
    caption, with every node in the root graph, and parsed connections;
  - map03 produces a `diagrams` picture with role clusters;
  - map04 produces a matplotlib swimlane flowchart;
- the **automation task triage** app (`processo/automation_task_triage_explorer.py`).
  It scores a task on five yes/no questions, decides whether to automate it and
  keeps a backlog;
- the **budget tracker** (`excel_automation/1_budget_tracker_automation.py`).
  It computes variance and status per department, then builds a per-status
  summary, the red rows of the report and the over-budget alerts;
- the **Blender tools** add-on (`blender_addons/blender_tools.py`). The model
  covers the parametric surface's vertex and face grids and the
  `register`/`unregister` order.

How the model is laid out:

- Interactive `input()` becomes a sequence of answers. Running out of answers
  (Python's `EOFError`) is `Err(EndOfInput)`.
- Rendering libraries become recorded values: pools, lanes, elements and links
  for processpiper; clusters, nodes and edges for graphviz and `diagrams`;
  rectangles, patches and arrows for matplotlib.
- Each mapper class is a Dafny `class` whose fields are the script's
  `self.data` entries. Its methods change those fields. Every loop of the
  source is a standalone `method` proved against a specification function, and
  the class methods call these methods.

Shared modules:

| file | contents |
|---|---|
| `wrappers.dfy` | `Option` and `Result` |
| `text.dfy` | Python's `str.strip`, `split`, `join`, `lower`, `str(int)` and `int(s[1:])` |
| `collections.dfy` | first-seen dict order, `defaultdict(list)` grouping, stable `sorted`, list filters |
| `bpmn.dfy` | the pool/lane/element registry that map05, map06 and map07 share |

Unicode whitespace follows Python's `str.isspace`. `lower()` folds ASCII
letters only.

## Model

| member | source | states |
|---|---|---|
| Text.StripTrimmed | process_mapper/process_map03.py:31 | `strip()` leaves no whitespace at either end |
| Text.StripIdempotent | process_mapper/process_map03.py:31-38 | stripping twice is the same as stripping once (the role answer is stripped, the name is stripped before the done test) |
| Text.StripKeeps | process_mapper/process_map03.py:31 | a non-space character occurs in the stripped answer exactly when it occurs in the raw answer |
| Text.StripBlank | processo/automation_task_triage_explorer.py:140 | the stripped text is empty exactly when the text is all whitespace (the "task name is required" test) |
| Text.StripTrailing | process_mapper/process_map07.py:31 | a trimmed line followed by its line terminator strips back to the line |
| Text.ContainsChar | process_mapper/process_map07.py:30 | a one-character substring test is membership of that character |
| Text.Split | process_mapper/process_map02.py:100-101 | `split` always yields at least one piece |
| Text.SplitJoin | process_mapper/process_map02.py:100-101 | joining the pieces of a split with the separator restores the text |
| Text.SplitPiecesFree | process_mapper/process_map02.py:100-101 | no piece of a split contains the separator |
| Text.SplitSingle | process_mapper/process_map02.py:101 | a split gives one piece exactly when the separator does not occur, and that piece is the whole text |
| Text.SplitAtSep | process_mapper/process_map02.py:101 | text before the first separator is the first piece and the rest is split again |
| Text.SplitJoinInverse | processo/automation_task_triage_explorer.py:44 | splitting a `",".join` of separator-free names gives the names back |
| Text.SplitOnce | process_mapper/process_map05.py:52 | `split("/", 1)` gives a head without the separator and a tail that rebuild the token |
| Text.SplitOnceOf | process_mapper/process_map05.py:52 | the head of `split("/", 1)` is exactly the text before the first slash |
| Text.FileStem | process_mapper/process_map01.py:106 | `lower().replace(" ", "_")` keeps the length, turns spaces into underscores and upper-case ASCII into lower case and leaves other characters alone |
| Text.Take | process_mapper/process_map02.py:108 | the slice `[:n]` is a prefix of length `min(n, len)` |
| Text.NatToString | process_mapper/process_map02.py:48 | `str(k)` is a non-empty string of decimal digits |
| Text.DigitsValueOfNatToString | process_mapper/process_map06.py:97-98 | `int(str(k))` is `k`, so `int(id[1:])` recovers the step number |
| Text.NatToStringInjective | process_mapper/process_map02.py:48 | different step numbers give different id strings |
| Collections.FirstIndex | process_mapper/process_map01.py:77-80 | the first position whose key is the given key |
| Collections.IndexOf | process_mapper/process_map04.py:84 | `list.index` returns the first position holding the value |
| Collections.DedupByKeys | process_mapper/process_map01.py:77-80 | the dict built by "add if not in" has exactly the keys that occur |
| Collections.DedupByFirstSeen | process_mapper/process_map01.py:77-80 | each kept item is the first with its key, and kept items are in first-occurrence order |
| Collections.FirstSeenKeysProperties | process_mapper/process_map02.py:81-83 | dict key order is first-insertion order: no key twice, every key that occurs is present and nothing else is |
| Collections.FilterMembers | process_mapper/process_map03.py:50-52 | a key's list holds exactly the items with that key |
| Collections.FilterAbsent | excel_automation/1_budget_tracker_automation.py:46 | the filter for a key that never occurs is empty |
| Collections.GroupedKeys | process_mapper/process_map03.py:50-52 | the `defaultdict(list)` groups come in first-seen key order with no key twice |
| Collections.GroupedCovers | process_mapper/process_map03.py:50-52 | every key that occurs has a group, and every group's key occurs |
| Collections.GroupedMembers | process_mapper/process_map03.py:50-52 | every group is non-empty and holds exactly the items with its key |
| Collections.GroupedCount | process_mapper/process_map02.py:81-83 | the groups together hold every item exactly once by count |
| Collections.GroupedPermutes | process_mapper/process_map02.py:81-83 | the groups read one after the other are a permutation of the items |
| Collections.GroupBy | process_mapper/process_map03.py:50-52 | the append loop builds the grouping specification |
| Collections.InsertSorted | process_mapper/process_map06.py:97-98 | inserting into a sorted list keeps it sorted |
| Collections.SortByIsSortedPermutation | process_mapper/process_map06.py:97-98 | `sorted(key=…)` yields an ascending permutation of its input |
| Collections.SortByAscendingIdentity | process_mapper/process_map07.py:107 | sorting a list whose keys strictly ascend changes nothing |
| Collections.SomesOrigin | process_mapper/process_map07.py:29-39 | each kept parse comes from a parsed line, in line order |
| Collections.SomesComplete | process_mapper/process_map07.py:29-39 | every line that parses is kept |
| Collections.SomesAllSome | process_mapper/process_map07.py:29-39 | when every line parses the result lists them all in order |
| Collections.AssignedLookup | process_mapper/process_map01.py:23-24 | after n stores under distinct keys, exactly the old keys and the first n keys are present, each stored key holds its value and every other key keeps its old value |
| Collections.AssignEach | process_mapper/process_map01.py:23-24 | the store-as-read loop stores every key when there are enough values, and otherwise stores the keys it has values for and fails with the out-of-answers error |
| ProcessMap01.AnswerGroupsContent | process_mapper/process_map01.py:42-54 | each collected step is one block of five answers in order, and its name is not "done" |
| ProcessMap01.CollectedShape | process_mapper/process_map01.py:36-60 | collected steps are numbered 1, 2, … in order and the connections answer is stripped |
| ProcessMap01.ReadSteps | process_mapper/process_map01.py:39-54 | the read loop takes all five answers before the done test and equals the group specification, including the out-of-answers error |
| ProcessMap01.ElementTypeOf | process_mapper/process_map01.py:86-91 | a step is an exclusive gateway exactly when its type is "decision" and a task otherwise |
| ProcessMap01.LanesOncePerName | process_mapper/process_map01.py:77-80 | no lane name is created twice and every step's lane is created |
| ProcessMap01.ElementsKeys | process_mapper/process_map01.py:83-92 | the element dict has exactly the keys 1..n, and key k holds step k's element |
| ProcessMap01.ChainWithinElements | process_mapper/process_map01.py:95-99 | every chain endpoint is a key of the element dict, so no lookup fails |
| ProcessMap01.CreateLanes | process_mapper/process_map01.py:77-80 | the loop creates the specified lanes and its dict maps every step's lane name |
| ProcessMap01.AddElements | process_mapper/process_map01.py:83-92 | the loop builds the element dict of the specification |
| ProcessMap01.ConnectChain | process_mapper/process_map01.py:95-99 | the loop connects exactly the chain |
| ProcessMap01.ProcessMapper.constructor | process_mapper/process_map01.py:5-10 | a new mapper has empty data and no map |
| ProcessMap01.ProcessMapper.AskCoreQuestions | process_mapper/process_map01.py:12-24 | stores each stripped answer under its key as it is read, in the order why, what, who, when, how, where; when answers run out it fails and keeps the answers already stored |
| ProcessMap01.ProcessMapper.CollectSteps | process_mapper/process_map01.py:36-60 | on success stores the collected steps and connections; when only the connections answer is missing it fails with the steps already stored; when the step reading fails nothing changes |
| ProcessMap01.PoolNotDrawn | process_mapper/process_map01.py:73-101 | the pool holds an element for every collected step, but the drawn map contains no pool and so none of those elements |
| ProcessMap01.ProcessMapper.GenerateMap | process_mapper/process_map01.py:70-102 | records a map with the process name as title, no pool and the footer; returns the separately built pool of lanes, elements and chain for the stored steps |
| ProcessMap01.ProcessMapper.SaveAndExport | process_mapper/process_map01.py:104-106 | the export name is the file stem of the process name |
| ProcessMap02.AnswerGroupsContent | process_mapper/process_map02.py:42-56 | each collected step is one block of five answers, and its name is not "done" |
| ProcessMap02.CollectedShape | process_mapper/process_map02.py:36-62 | collected ids are S1, S2, … in order and the connections answer is stripped |
| ProcessMap02.ReadSteps | process_mapper/process_map02.py:42-56 | the read loop, for any stop test, equals the group specification, including the out-of-answers error |
| ProcessMap02.ShapeFor | process_mapper/process_map02.py:78-91 | diamond exactly for "decision", folder exactly for "subprocess", box for everything else |
| ProcessMap02.ClustersByLane | process_mapper/process_map02.py:81-89 | one cluster per distinct lane in first-seen order; each carries only its `cluster_` name (spaces replaced) and the lane as caption |
| ProcessMap02.StepCluster | process_mapper/process_map02.py:81-83 | every step can be found in its lane's group |
| ProcessMap02.NodesAtTop | process_mapper/process_map02.py:81-93 | the nodes added to the root graph are the steps regrouped by lane: a permutation of the steps; every step has its node and every node is a step's |
| ProcessMap02.LayoutClusters | process_mapper/process_map02.py:85-93 | the nested loops give the lane clusters and the nodes added to the root graph in lane-group order |
| ProcessMap02.EdgeOf | process_mapper/process_map02.py:100-101 | a token's parts joined by `->` give the stripped token back; a token without `->` is an error |
| ProcessMap02.EdgesByAll | process_mapper/process_map02.py:100-101 | when every token parses, the edges are the parsed tokens in order |
| ProcessMap02.EdgesByFails | process_mapper/process_map02.py:100-101 | one bad token makes the whole connection list fail |
| ProcessMap02.EdgesBeforeOk | process_mapper/process_map02.py:100-101 | when the connection list parses, the edges drawn before any failure are all of its edges |
| ProcessMap02.EdgesBeforeFail | process_mapper/process_map02.py:100-101 | when it fails, the first bad token gives the error and the edges already drawn are exactly the parses of the tokens before it |
| ProcessMap02.LinearGraph | process_mapper/process_map02.py:96-106 | with no connections the graph fails exactly when there are no steps (the `[0]` lookup); otherwise it is start → chain → end |
| ProcessMap02.BadTokenFails | process_mapper/process_map02.py:100-101 | a connection token without `->` makes the whole graph fail |
| ProcessMap02.EdgeOfArrow | process_mapper/process_map02.py:101 | the token `a->b` parses to the unlabelled edge a→b |
| ProcessMap02.ParseFormatted | process_mapper/process_map02.py:100-106 | writing edges as `a->b,c->d` and parsing them gives the same edges back |
| ProcessMap02.BranchEdge | process_mapper/process_map02.py:61 | a documented branch is an unlabelled `tail->head` pair |
| ProcessMap02.DocumentedFormatted | process_mapper/process_map02.py:61 | on inputs without a pipe character the documented syntax and the implemented parser agree |
| ProcessMap02.BranchAsWritten | process_mapper/process_map02.py:100-101 | as written, the branch pair `c->d`, pipe, `c->e` becomes one edge from c to the node made of d, a pipe and c, labelled e |
| ProcessMap02.BranchDocumented | process_mapper/process_map02.py:61 | with the pipe read as a branch separator, the pair `c->d`, pipe, `c->e` becomes the two edges c→d and c→e |
| ProcessMap02.PromptExampleAsWritten | process_mapper/process_map02.py:61-101 | the prompt's own example (S1→S2, then S2→S3 and S2→S4 joined by a pipe) yields S1→S2 and an edge from S2 to the node "S3, pipe, S2" labelled S4 |
| ProcessMap02.PromptExampleDocumented | process_mapper/process_map02.py:61 | under the documented syntax the same example yields S1→S2, S2→S3 and S2→S4 |
| ProcessMap02.ConnectSteps | process_mapper/process_map02.py:95-101 | the edge loops equal the connection specification, errors included, and return the edges added before a bad token |
| ProcessMap02.ChainSteps | process_mapper/process_map02.py:96-98 | the linear loop draws the chain of consecutive steps |
| ProcessMap02.ParseTokens | process_mapper/process_map02.py:99-101 | the token loop returns the connection result and the edges drawn before it stops |
| ProcessMap02.ProcessMapper.constructor | process_mapper/process_map02.py:6-11 | a new mapper has empty data and no graph |
| ProcessMap02.ProcessMapper.AskCoreQuestions | process_mapper/process_map02.py:13-25 | stores each stripped answer under its key as it is read; when answers run out it fails and keeps the answers already stored |
| ProcessMap02.ProcessMapper.CollectSteps | process_mapper/process_map02.py:36-62 | on success stores the collected steps and connections; when only the connections answer is missing it fails with the steps already stored; when the step reading fails nothing changes |
| ProcessMap02.GeneratedGraph | process_mapper/process_map02.py:71-108 | the graph always has the lane clusters and root nodes; it has a caption exactly when generation succeeds, and then its edges are the connections plus the two sentinel edges and it has the START and END nodes; with no steps it has the terminals and the connection edges but no sentinel edges |
| ProcessMap02.GeneratedGraphFails | process_mapper/process_map02.py:99-104 | when a connection token is bad, the graph holds the edges of the tokens before it, no terminals and no caption |
| ProcessMap02.ProcessMapper.GenerateMap | process_mapper/process_map02.py:71-108 | always records a graph with the lane clusters and root nodes; on success adds the edges, terminals and caption; on a bad token or no steps it fails with the graph as drawn up to that point |
| ProcessMap02.ProcessMapper.SaveAndExport | process_mapper/process_map02.py:110-112 | the export name is the file stem of the process name |
| ProcessMap03.AnswerRoundsContent | process_mapper/process_map03.py:29-41 | each collected step is one round of three answers whose stripped name is not "done" |
| ProcessMap03.CollectedShape | process_mapper/process_map03.py:25-42 | collected ids are S1, S2, … in order |
| ProcessMap03.StepsFromDistinct | process_mapper/process_map03.py:35 | no two collected steps share an id |
| ProcessMap03.ReadSteps | process_mapper/process_map03.py:29-41 | the read loop equals the round specification, including the out-of-answers error |
| ProcessMap03.GatherSteps | process_mapper/process_map03.py:25-42 | collection stops at a stripped "done" and otherwise equals the specification |
| ProcessMap03.ShapeOf | process_mapper/process_map03.py:67-72 | diamond exactly for "decision" |
| ProcessMap03.NodeOf | process_mapper/process_map03.py:66-73 | a node carries its step's name as label and the shape of its type |
| ProcessMap03.DiagramOfValue | process_mapper/process_map03.py:44-91 | for steps, the diagram is the role clusters, within-role chains, first-step chain and start/end edges |
| ProcessMap03.DiagramOfFails | process_mapper/process_map03.py:87 | the diagram fails exactly when there are no steps (`first_steps[0]`) |
| ProcessMap03.ClusterContents | process_mapper/process_map03.py:50-73 | a cluster's nodes are exactly the nodes of the steps with its role |
| ProcessMap03.DiagramClusters | process_mapper/process_map03.py:50-73 | one cluster per distinct role in first-seen order, each holding exactly that role's nodes |
| ProcessMap03.WithinEdgesCount | process_mapper/process_map03.py:76-77 | the within-role chains have one edge fewer per role than there are steps |
| ProcessMap03.WithinEdgesHas | process_mapper/process_map03.py:76-77 | consecutive steps of one role are joined by an edge |
| ProcessMap03.DiagramEdgeCount | process_mapper/process_map03.py:76-88 | a diagram of n steps has n + 1 edges |
| ProcessMap03.DiagramEnds | process_mapper/process_map03.py:87-88 | START leads to the first step, and the only edge into END comes from the last role's first step |
| ProcessMap03.StepEntered | process_mapper/process_map03.py:76-88 | every step has an incoming edge |
| ProcessMap03.DiagramEntersEveryStep | process_mapper/process_map03.py:76-88 | in the diagram every step node is the head of some edge |
| ProcessMap03.DrawCluster | process_mapper/process_map03.py:63-80 | the inner loops build a role's cluster and its chain |
| ProcessMap03.DrawClusters | process_mapper/process_map03.py:63-80 | the outer loop builds every cluster and chain and records each role's first and last node |
| ProcessMap03.ChainFirsts | process_mapper/process_map03.py:83-85 | the loop collects the first steps and chains them |
| ProcessMap03.ProcessMapper.constructor | process_mapper/process_map03.py:8-10 | a new mapper has empty data |
| ProcessMap03.ProcessMapper.AskCoreQuestions | process_mapper/process_map03.py:12-23 | stores each stripped answer under its key as it is read; when answers run out it fails and keeps the answers already stored |
| ProcessMap03.ProcessMapper.CollectSteps | process_mapper/process_map03.py:25-42 | stores the collected steps, or fails as the collection does |
| ProcessMap03.ProcessMapper.GenerateDiagram | process_mapper/process_map03.py:44-91 | returns the diagram of the stored steps, named by the file stem of the process name |
| ProcessMap04.AnswerGroupsContent | process_mapper/process_map04.py:28-41 | each collected step is one block of four answers whose stripped name is not "done" |
| ProcessMap04.CollectedIds | process_mapper/process_map04.py:24-42 | collected ids are S1, S2, … in order |
| ProcessMap04.StepsFromDistinct | process_mapper/process_map04.py:34 | no two collected steps share an id |
| ProcessMap04.GatherSteps | process_mapper/process_map04.py:24-42 | the collection loop equals the specification, including the out-of-answers error |
| ProcessMap04.LaneRect | process_mapper/process_map04.py:60-72 | lane i's band spans x 0.5..11.5 and is 1.5 high, starting 1.8·i below y = 10 |
| ProcessMap04.LanesDisjoint | process_mapper/process_map04.py:65 | lower lanes lie strictly below earlier ones with a gap of 0.3 between neighbours |
| ProcessMap04.StepXRange | process_mapper/process_map04.py:84 | a step's x lies in [2, 10), is a multiple of 0.5 and repeats every 16 steps |
| ProcessMap04.Footprint | process_mapper/process_map04.py:88-103 | the box passed for a step is centred on its point, 1.2 high, 1.2 wide for a decision and 1.6 wide otherwise |
| ProcessMap04.FootprintInLane | process_mapper/process_map04.py:66-103 | a step's outline, padded by 0.1, stays within its lane's x range and below its top, but reaches 0.5 below its bottom and 0.2 into the next lane |
| ProcessMap04.RoleYsAt | process_mapper/process_map04.py:64-66 | each role's y is its lane's start plus 0.2, and only roles that occur are keyed |
| ProcessMap04.StepYs | process_mapper/process_map04.py:83 | every step's role has a y, so the lookup cannot fail |
| ProcessMap04.PositionsUpTo | process_mapper/process_map04.py:105 | every drawn step's id has a position |
| ProcessMap04.PositionsAt | process_mapper/process_map04.py:105 | the position keys are exactly the drawn ids, and with distinct ids each holds its own step's point |
| ProcessMap04.ArrowsOf | process_mapper/process_map04.py:108-112 | one arrow per consecutive pair of steps |
| ProcessMap04.IndexOfDistinct | process_mapper/process_map04.py:84 | with distinct ids, `steps.index(step)` is the step's own position |
| ProcessMap04.FlowchartLanes | process_mapper/process_map04.py:60-72 | the figure has one lane per role in first-seen order |
| ProcessMap04.StepPointAt | process_mapper/process_map04.py:82-84 | a step is drawn at its position's x and its role's y |
| ProcessMap04.FlowchartSteps | process_mapper/process_map04.py:82-105 | each step gets its shape, its label `name\nduration` and a patch centred on its point |
| ProcessMap04.FlowchartKeys | process_mapper/process_map04.py:105 | the positions dict has exactly the step ids as keys |
| ProcessMap04.FlowchartArrows | process_mapper/process_map04.py:108-112 | arrow i runs from 0.8 right of step i's point to 0.8 left of step i+1's point |
| ProcessMap04.DrawLanes | process_mapper/process_map04.py:64-72 | the lane loop builds the specified lanes and role heights |
| ProcessMap04.DrawPatches | process_mapper/process_map04.py:82-105 | the step loop builds the specified patches and positions |
| ProcessMap04.DrawArrows | process_mapper/process_map04.py:108-112 | the arrow loop builds the specified arrows |
| ProcessMap04.ProcessMapper.constructor | process_mapper/process_map04.py:7-9 | a new mapper has empty data and no figure |
| ProcessMap04.ProcessMapper.AskCoreQuestions | process_mapper/process_map04.py:11-22 | stores each stripped answer under its key as it is read; when answers run out it fails and keeps the answers already stored |
| ProcessMap04.ProcessMapper.CollectSteps | process_mapper/process_map04.py:24-42 | stores the collected steps, or fails as the collection does |
| ProcessMap04.ProcessMapper.GenerateFlowchart | process_mapper/process_map04.py:44-131 | records the flowchart of the stored steps and returns the file stem of the process name |
| ProcessMap05.AnswerGroupsContent | process_mapper/process_map05.py:24-36 | each collected step is one block of three answers whose stripped name is not "done" |
| ProcessMap05.CollectedIds | process_mapper/process_map05.py:18-38 | collected ids are S1, S2, … in order |
| ProcessMap05.GatherSteps | process_mapper/process_map05.py:18-38 | the collection loop equals the specification, including the out-of-answers error |
| ProcessMap05.LaneOwnersKeys | process_mapper/process_map05.py:59-61 | the lane-owner dict has exactly the lane names that occur |
| ProcessMap05.LaneCallsBounds | process_mapper/process_map05.py:59-64 | `add_lane` runs once or twice per step, and always on a step's own lane |
| ProcessMap05.LaneOwnersOnePool | process_mapper/process_map05.py:59-61 | when every step is in one pool, every lane's owner is that pool |
| ProcessMap05.LaneCallsOnePool | process_mapper/process_map05.py:59-64 | in one pool, `add_lane` runs once per step plus once per distinct lane |
| ProcessMap05.AddLanes | process_mapper/process_map05.py:59-64 | one step's lane bookkeeping matches the specification |
| ProcessMap05.ElementLanes | process_mapper/process_map05.py:58-72 | each element is added to the lane returned by an `add_lane` call for its own step's pool and lane; elements use strictly later calls in step order |
| ProcessMap05.FirstLaneUnused | process_mapper/process_map05.py:58-64 | when a step's lane is new the first `add_lane` call for it is followed by a second one; no element is ever put in the first |
| ProcessMap05.TagStep | process_mapper/process_map05.py:74 | tagging step i with element i extends the tagging by one |
| ProcessMap05.PlaceSteps | process_mapper/process_map05.py:51-74 | the step loop creates the specified pools and `add_lane` calls; each element records the index of the lane call it was added to; each step is tagged |
| ProcessMap05.ConnectSequential | process_mapper/process_map05.py:77-81 | the connect loop builds the labelled chain |
| ProcessMap05.ProcessMapper.constructor | process_mapper/process_map05.py:5-7 | a new mapper has empty data |
| ProcessMap05.ProcessMapper.AskCoreQuestions | process_mapper/process_map05.py:9-16 | stores the three core answers, or fails without change |
| ProcessMap05.ProcessMapper.CollectSteps | process_mapper/process_map05.py:18-38 | stores the collected steps, or fails as the collection does |
| ProcessMap05.ProcessMapper.BuildProcessMap | process_mapper/process_map05.py:40-84 | records pools, lane calls, elements, links and the footer, and tags each step |
| ProcessMap05.ProcessMapper.SaveAll | process_mapper/process_map05.py:86-88 | the file name is the file stem of the process name |
| ProcessMap06.CoreFrom | process_mapper/process_map06.py:10-15 | name and purpose are the stripped answers or their defaults, and never empty |
| ProcessMap06.StepDefaults | process_mapper/process_map06.py:31-42 | every defaulted field is filled: an empty name becomes "Main Task" for S2 or "Step k" after, type "task", the process pool, lane "Team" |
| ProcessMap06.AnswerGroupsLength | process_mapper/process_map06.py:29-44 | at most four interactive steps are read, and fewer only when a name answer stops the loop |
| ProcessMap06.AnswerGroupsContent | process_mapper/process_map06.py:29-44 | each interactive step is one block of four answers that did not stop the loop |
| ProcessMap06.WithEnd | process_mapper/process_map06.py:46-51 | S99 "Process End" is appended exactly when no step has type "end", so the result always has one |
| ProcessMap06.FrontNumbers | process_mapper/process_map06.py:22-44 | the start step and the interactive steps are numbered 1, 2, … |
| ProcessMap06.CollectedAscending | process_mapper/process_map06.py:17-53 | collected step numbers strictly ascend, S99 included |
| ProcessMap06.CollectedEnd | process_mapper/process_map06.py:17-53 | the collected steps always contain an end step; S99 is appended exactly when no earlier step is an end step |
| ProcessMap06.ReadSteps | process_mapper/process_map06.py:29-44 | the capped read loop equals the group specification, including the out-of-answers error |
| ProcessMap06.EnsureEnd | process_mapper/process_map06.py:46-51 | the `any` scan and conditional append match the end rule |
| ProcessMap06.GatherSteps | process_mapper/process_map06.py:17-53 | the whole collection equals the specification |
| ProcessMap06.ProcessMapper.constructor | process_mapper/process_map06.py:5-8 | a new mapper has empty data and elements |
| ProcessMap06.ProcessMapper.AskCoreQuestions | process_mapper/process_map06.py:10-15 | stores the defaulted core, or fails without change |
| ProcessMap06.ProcessMapper.CollectSteps | process_mapper/process_map06.py:17-53 | stores the collected steps, or fails as the collection does |
| ProcessMap06.ProcessMapper.BuildProcessMap | process_mapper/process_map06.py:56-106 | records pools, lanes, elements and links in id order, maps each id to its element and sets the footer |
| ProcessMap06.ProcessMapper.SaveAll | process_mapper/process_map06.py:109-110 | the file name is the file stem of the process name |
| ProcessMap07.ParseStepLine | process_mapper/process_map07.py:30-38 | only a line containing a pipe character can give a step, and line k gets id `"S" + str(k)` |
| ProcessMap07.ParsedFieldsClean | process_mapper/process_map07.py:31-37 | a parsed step's three fields are already stripped and contain no pipe character |
| ProcessMap07.ParseThreeFields | process_mapper/process_map07.py:31-37 | a three-part line gives its three stripped parts |
| ProcessMap07.ParseFormattedLine | process_mapper/process_map07.py:29-39 | a line written as name, type and pool/lane joined by pipes, plus a newline, parses back to those fields |
| ProcessMap07.ParseStepsOrigin | process_mapper/process_map07.py:29-39 | every kept step comes from a parsing line, and every parsing line is kept |
| ProcessMap07.ParseStepsAscending | process_mapper/process_map07.py:29-39 | loaded step numbers strictly ascend (lines that do not parse leave gaps) |
| ProcessMap07.LoadSteps | process_mapper/process_map07.py:29-39 | the load loop appends exactly the parsed steps |
| ProcessMap07.DefaultStepPlacement | process_mapper/process_map07.py:66-81 | the default step is placed in the process's own pool, lane "Team" |
| ProcessMap07.PlaceAllAscending | process_mapper/process_map07.py:75-107 | placing steps keeps their ids ascending |
| ProcessMap07.HeaderFieldOf | process_mapper/process_map07.py:25-26 | a header's first pipe-separated field is read back exactly |
| ProcessMap07.HeaderFieldWhole | process_mapper/process_map07.py:26 | a header line without a pipe character is read whole, stripped |
| ProcessMap07.ParseFormattedBody | process_mapper/process_map07.py:29-39 | writing steps in the example file's format (each line ended by its own terminator) and loading them gives the steps S1 S2 … back |
| ProcessMap07.LoadFiveStepFile | process_mapper/process_map07.py:11-42 | a two-line header and five written steps load as seven lines: the header fields and the five steps numbered S1 to S5 |
| ProcessMap07.ExampleFileLoads | process_mapper/process_map07.py:44-52 | the example file loads as seven lines with the name HR Onboarding and the purpose line and the five HR steps S1 to S5 |
| ProcessMap07.ExampleFileLanes | process_mapper/process_map07.py:74-90 | placing the example file's steps creates the pool HR once and the lanes HR/HR then HR/Recruiter then HR/Manager |
| ProcessMap07.OnePoolThreeLanes | process_mapper/process_map07.py:74-90 | steps of one pool whose lanes run a b b c a create that pool once and the lanes a b c in that order |
| ProcessMap07.FileProcessMapper.constructor | process_mapper/process_map07.py:6-9 | a new mapper remembers its file name and has empty data |
| ProcessMap07.FileProcessMapper.LoadFromFile | process_mapper/process_map07.py:11-42 | a missing file writes the example and returns false; otherwise it reads both headers and the parsed steps, failing on too few lines |
| ProcessMap07.FileProcessMapper.BuildProcessMap | process_mapper/process_map07.py:58-112 | applies the default step, then records pools, lanes, elements, id-ordered links and the footer |
| Bpmn.ElementTypeFor | process_mapper/process_map06.py:85-92 | start and end events for "start" and "end", a gateway for "decision", a task for anything else |
| Bpmn.SplitPoolLane | process_mapper/process_map07.py:77-81 | with a `/` the pool is the text before the first one and the lane the rest; otherwise the process pool and the whole token |
| Bpmn.IdNumberOfStepId | process_mapper/process_map07.py:107 | `int("S" + str(k)[1:])` recovers k |
| Bpmn.StepIdsDiffer | process_mapper/process_map07.py:34 | different numbers give different step ids |
| Bpmn.PlaceElement | process_mapper/process_map07.py:103 | one `add_element` call appends the step's element in its resolved lane |
| Bpmn.AscendingIdsDistinct | process_mapper/process_map07.py:104 | ascending step numbers mean distinct element keys |
| Bpmn.Remember | process_mapper/process_map07.py:104 | `elements[id] = elem` keeps every earlier step's entry |
| Bpmn.AddPool | process_mapper/process_map07.py:84-86 | a pool is created only on its first appearance |
| Bpmn.AddLane | process_mapper/process_map07.py:89-94 | a lane is created on its key's first appearance, and the step lands in the lane registered for its key |
| Bpmn.RegisterSteps | process_mapper/process_map07.py:75-104 | the registry loop creates the specified pools, lanes and elements and maps each id to its element |
| Bpmn.SortedIdsInStepOrder | process_mapper/process_map07.py:107 | sorting ascending ids by number leaves them in step order |
| Bpmn.ConnectInIdOrder | process_mapper/process_map07.py:107-109 | the sorted connect loop links element i to element i+1 |
| Bpmn.ConnectConsecutive | process_mapper/process_map06.py:100-103 | the connect loop links consecutive elements |
| Bpmn.DrawSteps | process_mapper/process_map06.py:67-103 | the whole drawing pass records the specified pools, lanes, elements and chain |
| Bpmn.PoolsCreatedOnce | process_mapper/process_map06.py:72-74 | no pool is created twice, and every step's pool is created |
| Bpmn.PoolsCreatedInOrder | process_mapper/process_map06.py:72-74 | pools are created in order of first appearance |
| Bpmn.LanesCreatedOnce | process_mapper/process_map06.py:77-80 | no lane key is created twice, every step's key is covered, and every lane comes from a step |
| Bpmn.LanesCreatedInOrder | process_mapper/process_map06.py:77-80 | lanes are created in order of first appearance of their key |
| Bpmn.LaneKeyInjective | process_mapper/process_map06.py:77 | when pools contain no `/`, the lane key identifies pool and lane |
| Bpmn.ElementsInOwnLane | process_mapper/process_map06.py:82-94 | when pools contain no `/`, each element lands in its step's own lane |
| Bpmn.SharedLaneKey | process_mapper/process_map07.py:89-94 | two steps with the same key but different pools share the first step's lane, though both pools are created |
| Bpmn.LaneKeyCollision | process_mapper/process_map07.py:77-94 | pool `a/b` with lane `c` and pool `a` with lane `b/c` give the same key, so the second step's element goes into the first step's lane |
| Triage.ComputeDecision | processo/automation_task_triage_explorer.py:55-60 | "Automate Now" exactly for score ≥ 4, "Semi-Automate" exactly for 2 ≤ score < 4, "Defer" exactly below 2 |
| Triage.Count | processo/automation_task_triage_explorer.py:144 | the score is at most the number of questions |
| Triage.CountExtremes | processo/automation_task_triage_explorer.py:144 | the score is full exactly when every box is ticked and zero exactly when none is |
| Triage.SelectedInFormOrder | processo/automation_task_triage_explorer.py:127-146 | an interface is selected exactly when its box is ticked, in form order |
| Triage.StoredInterfacesRoundTrip | processo/automation_task_triage_explorer.py:44 | the stored comma-joined interfaces split back into the selection |
| Triage.NewestFirstByIdDescending | processo/automation_task_triage_explorer.py:81 | the listing is ordered by strictly descending id and is a permutation of the rows |
| Triage.ListingAfterSave | processo/automation_task_triage_explorer.py:31-81 | after a save the new row heads the listing and the rest is unchanged |
| Triage.EntryRowFields | processo/automation_task_triage_explorer.py:144-156 | a new entry has the unstripped task, the frequency as chosen, the count of ticked questions, the decision for that count in each of the three bands, the ticked interfaces joined by commas, the timestamp and status "new" |
| Triage.Backlog.constructor | processo/automation_task_triage_explorer.py:10-28 | a fresh table is empty and the next id is 1 |
| Triage.Backlog.Save | processo/automation_task_triage_explorer.py:31-50 | appends the row with the next id and the comma-joined interfaces |
| Triage.Backlog.LoadData | processo/automation_task_triage_explorer.py:78-84 | returns the listed columns of every row, newest first |
| Triage.SumScores | processo/automation_task_triage_explorer.py:144 | the loop sum is the ticked-box count |
| Triage.TickedInterfaces | processo/automation_task_triage_explorer.py:146 | the loop collects the ticked interfaces in form order |
| Triage.TriageApp.constructor | processo/automation_task_triage_explorer.py:89-131 | five unticked questions, five unticked interfaces, an empty name and "Daily" |
| Triage.TriageApp.Reset | processo/automation_task_triage_explorer.py:164-170 | clears the name, sets "Daily" and unticks every box |
| Triage.TriageApp.Evaluate | processo/automation_task_triage_explorer.py:139-162 | a blank name is an error with nothing saved; otherwise the entry row is saved and the form reset |
| Budget.StatusOf | excel_automation/1_budget_tracker_automation.py:22 | over budget exactly when the variance is negative |
| Budget.Details | excel_automation/1_budget_tracker_automation.py:21-22 | each row keeps department, budget and actual, with variance = budget − actual and its status |
| Budget.StatusSumsAddUp | excel_automation/1_budget_tracker_automation.py:31 | the two status sums add up to the total variance |
| Budget.SummaryAddsUp | excel_automation/1_budget_tracker_automation.py:31 | the summary's rows add up to the total variance |
| Budget.SummaryKeys | excel_automation/1_budget_tracker_automation.py:31 | the summary has one row per status that occurs and no other |
| Budget.StatusTextOverBudget | excel_automation/1_budget_tracker_automation.py:22 | a Status cell reads "Over Budget" exactly when the row is over budget |
| Budget.SummaryInTextOrder | excel_automation/1_budget_tracker_automation.py:31 | the summary lists its statuses in the order of their texts, as `groupby` sorts them |
| Budget.Abs | excel_automation/1_budget_tracker_automation.py:48 | the magnitude of the variance |
| Budget.AlertsExact | excel_automation/1_budget_tracker_automation.py:46-48 | exactly the rows with negative variance alert, each for the amount overspent |
| Budget.AlertsSnoc | excel_automation/1_budget_tracker_automation.py:46-48 | adding a row adds an alert exactly when it is over budget |
| Budget.SampleDetails | excel_automation/1_budget_tracker_automation.py:12-22 | the five sample departments get variances 500, −200, −1500, 1000 and 200 |
| Budget.SampleReport | excel_automation/1_budget_tracker_automation.py:12-48 | the sample alerts are HR 200 and Sales 1500, and the summary is −1700 over and 1700 within |
| Budget.FillOverBudget | excel_automation/1_budget_tracker_automation.py:38-42 | every cell of each data row whose status text is "Over Budget" is filled red; every other cell, the header row included, keeps its fill |
| BlenderTools.GridSize | blender_addons/blender_tools.py:54-62 | the nested loops yield rows × columns items |
| BlenderTools.GridCell | blender_addons/blender_tools.py:54-62 | item `x·columns + y` is the one made for cell (x, y) |
| BlenderTools.SurfaceVertices | blender_addons/blender_tools.py:54-57 | the vertex loops build the size × size grid |
| BlenderTools.SurfaceFaces | blender_addons/blender_tools.py:59-62 | the face loops build the (size−1) × (size−1) grid, and every face index names a vertex |
| BlenderTools.VertexAt | blender_addons/blender_tools.py:54-57 | vertex `x·size + y` is (x, y, height(x, y)) |
| BlenderTools.FaceAtCell | blender_addons/blender_tools.py:59-62 | face `x·(size−1) + y` is the quad of cell (x, y) |
| BlenderTools.FaceCorners | blender_addons/blender_tools.py:59-62 | a face's corners are the vertices (x,y), (x,y+1), (x+1,y+1) and (x+1,y) |
| BlenderTools.FirstFace | blender_addons/blender_tools.py:61-62 | with size ≥ 2 the first face is [0, 1, size+1, size] |
| BlenderTools.ParametricSurface | blender_addons/blender_tools.py:50-65 | size² vertices, (size−1)² faces, every face index in range for `from_pydata` |
| BlenderTools.Without | blender_addons/blender_tools.py:187-189 | removing a class keeps exactly the other classes |
| BlenderTools.WithoutLast | blender_addons/blender_tools.py:187-189 | removing the last-registered class pops it |
| BlenderTools.Registry.constructor | blender_addons/blender_tools.py:175-181 | nothing is registered yet |
| BlenderTools.Registry.Register | blender_addons/blender_tools.py:183-185 | the five classes are registered in list order |
| BlenderTools.Registry.Unregister | blender_addons/blender_tools.py:187-189 | the classes are unregistered in reverse order and none remains |

## Left out

- Terminal, GUI and file I/O are left out: `input()` prompts and `print`, tkinter widgets and message boxes, the `ExplorerWindow`, sqlite3 connections, JSON and text file writes, `os.path.exists`, and the Excel writer and cell styling. Answers, file contents and the existence of a file are parameters. A table is a sequence of rows.
- Rendering is left out: processpiper `draw`/`save`/`set_footer`/colour themes, graphviz `render`, `diagrams` `Diagram`/`Cluster`/`Blank`, matplotlib figures and `savefig`, and every `bpy` call. The model records what would be drawn.
- The clock is a parameter (`now`, a timestamp string); `datetime.now()` and `strftime` are left out.
- Floating point is not modelled. map04 coordinates are integers in tenths of a unit. The surface height `sin(0.3x)·cos(0.3y)` is a `real`-valued function parameter. The `:,.0f` currency formatting of the alerts is left out.
- The JavaScript viewers, `hello_blender.py`, `send_to_blender.py` (socket I/O), `SpiralGenerator`, `BouncingBall`, `Graph3D`, `BlenderHelper` and the UI panel are not part of this model.
- `ask_selection_questions` and `ask_layers` (map01, map02) only store answers that nothing reads; they are left out. The map01 connections answer is stored but never used to draw.
- `save_data` in map03 and map04 and the JSON half of `save_and_export`/`save_all` are left out; only the file stem is modelled.
- map04's START and END circles (lines 115-119) are fixed decorations; they are left out.
- Graph reachability or terminal checks are not modelled, because no script performs them.
- The `|` branch syntax that the map02 connections prompt (process_mapper/process_map02.py:61) shows is not implemented by the script. The model follows the code. The documented reading is modelled beside it, only for comparison (ProcessMap02.BranchDocumented, ProcessMap02.PromptExampleDocumented).
- The commented-out SMTP email of the budget tracker is not modelled.
- ProcessMap02.EdgeOf: a token with four or more `->` parts passes extra positional arguments to graphviz; the model treats it as an error (`TooManyParts`) instead of modelling graphviz's attribute handling.
- ProcessMap04.Footprint: states the box passed to `FancyBboxPatch`, not the drawn outline. `ProcessMap04.FootprintInLane` adds the `pad=0.1` of both box styles. The style name "rounddiamond" used for decisions is not checked against matplotlib's box styles, so the error matplotlib raises for an unknown style is not modelled.
- ProcessMap02.ProcessMapper.GenerateMap: the graph's name and its `format`, `rankdir` and `size` attributes are not recorded.
- ProcessMap03.NodeOf: `diagrams` nodes are Python objects; the model names each node by its step id, which is unique.
- ProcessMap05.PlaceSteps: processpiper pools and lanes are objects; the model identifies a pool by its name, so the `lanes[lane_name] != pools[pool_name]` test compares pool names, and it identifies a lane object by the index of the `add_lane` call that returned it.
- Triage.TriageApp.Evaluate: the question check boxes are `IntVar`s holding 0 or 1; the model holds them as booleans and counts the ticked ones.
- Text.FileStem: `lower()` is modelled for ASCII letters only.
- ProcessMap02.ReadSteps: the stop test is a parameter of the loop method; CollectSteps instantiates it with the script's `name.lower() == 'done'` test.
- ProcessMap06.ReadSteps: the stop test is a parameter of the loop method; GatherSteps instantiates it with the script's test, including the "Main Task" default for an empty S2 name.
- BlenderTools.Registry.Unregister: requires that exactly the add-on's classes are registered, as after `register()`; Blender's error for unregistering a class twice is not modelled.
- ProcessMap07.FileProcessMapper.LoadFromFile: requires the mapper to hold no steps yet, as when `load_from_file` runs once after construction; a second load, which appends to the earlier steps, is not modelled.
- ProcessMap07.FileProcessMapper.BuildProcessMap: requires an empty element dict, as on the first build; a rebuild that keeps stale entries is not modelled.
- ProcessMap06.ProcessMapper.BuildProcessMap: requires the mapper's registry invariant `Valid()`, which construction and collection establish; it is not proved for a second build.
