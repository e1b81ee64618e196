/** The automation triage form: five yes/no feasibility questions give a score, the
    score a decision, and an evaluated task is appended to the backlog table, which
    the explorer lists newest first. */
module Triage {
  import opened Wrappers
  import opened Text
  import opened Collections

  // ----- decision logic -----

  /** compute_decision: four or more points automate now, two or three
      semi-automate, fewer defer. */
  function ComputeDecision(score: int): (d: string)
    ensures d == "Automate Now" <==> score >= 4
    ensures d == "Semi-Automate" <==> 2 <= score < 4
    ensures d == "Defer" <==> score < 2
  {
    if score >= 4 then "Automate Now"
    else if score >= 2 then "Semi-Automate"
    else "Defer"
  }

  /** The number of feasibility questions on the form. */
  const QuestionCount: nat := 5

  /** The interface check boxes, in the order they are created. */
  const Interfaces: seq<string> := ["File", "API", "Email", "Database", "Web UI"]

  /** The score: the number of ticked questions. */
  function Count(checks: seq<bool>): (n: nat)
    ensures n <= |checks|
  {
    if checks == [] then 0 else Count(checks[..|checks| - 1]) + (if checks[|checks| - 1] then 1 else 0)
  }

  /** The score is the full count exactly when every box is ticked, and zero exactly
      when none is. */
  lemma {:induction false} CountExtremes(checks: seq<bool>)
    ensures Count(checks) == |checks| <==> forall k :: 0 <= k < |checks| ==> checks[k]
    ensures Count(checks) == 0 <==> forall k :: 0 <= k < |checks| ==> !checks[k]
    decreases |checks|
  {
    if checks != [] {
      var init, last := checks[..|checks| - 1], checks[|checks| - 1];
      CountExtremes(init);
      assert forall k :: 0 <= k < |init| ==> init[k] == checks[k];
      if Count(checks) == 0 {
        assert !last && Count(init) == 0;
      }
      if forall k :: 0 <= k < |checks| ==> !checks[k] {
        assert !last;
        assert Count(init) == 0;
      }
    }
  }

  /** The interfaces whose box is ticked among the first n, in form order. */
  function SelectedUpTo(flags: seq<bool>, n: nat): seq<string>
    requires n <= |flags| && n <= |Interfaces|
  {
    if n == 0 then []
    else SelectedUpTo(flags, n - 1) + (if flags[n - 1] then [Interfaces[n - 1]] else [])
  }

  function Selected(flags: seq<bool>): seq<string>
    requires |flags| == |Interfaces|
  {
    SelectedUpTo(flags, |Interfaces|)
  }

  lemma InterfacesDistinct()
    ensures forall i, j :: 0 <= i < j < |Interfaces| ==> Interfaces[i] != Interfaces[j]
    ensures forall i :: 0 <= i < |Interfaces| ==> ',' !in Interfaces[i]
  {
    assert Interfaces[0][0] == 'F' && Interfaces[1][0] == 'A' && Interfaces[2][0] == 'E' &&
           Interfaces[3][0] == 'D' && Interfaces[4][0] == 'W';
  }

  lemma IndexOfInterfaces(i: nat)
    requires i < |Interfaces|
    ensures IndexOf(Interfaces, Interfaces[i]) == i
  {
    InterfacesDistinct();
  }

  /** Among the first n boxes an interface is selected exactly when its box is ticked. */
  lemma {:induction false} SelectedUpToMembers(flags: seq<bool>, n: nat)
    requires n <= |flags| && n <= |Interfaces|
    ensures forall i :: 0 <= i < |Interfaces| ==> (Interfaces[i] in SelectedUpTo(flags, n) <==> i < n && flags[i])
    decreases n
  {
    InterfacesDistinct();
    if n > 0 {
      SelectedUpToMembers(flags, n - 1);
    }
  }

  /** The names selected among the first n boxes come from those boxes, in form order. */
  lemma {:induction false} SelectedUpToOrder(flags: seq<bool>, n: nat)
    requires n <= |flags| && n <= |Interfaces|
    ensures forall a :: 0 <= a < |SelectedUpTo(flags, n)| ==>
              SelectedUpTo(flags, n)[a] in Interfaces && IndexOf(Interfaces, SelectedUpTo(flags, n)[a]) < n
    ensures forall a, b :: 0 <= a < b < |SelectedUpTo(flags, n)| ==>
              SelectedUpTo(flags, n)[a] in Interfaces && SelectedUpTo(flags, n)[b] in Interfaces &&
              IndexOf(Interfaces, SelectedUpTo(flags, n)[a]) < IndexOf(Interfaces, SelectedUpTo(flags, n)[b])
    decreases n
  {
    if n > 0 {
      SelectedUpToOrder(flags, n - 1);
      IndexOfInterfaces(n - 1);
    }
  }

  /** The interfaces saved with an entry are the ticked ones, each once, in the order
      File, API, Email, Database, Web UI. */
  lemma SelectedInFormOrder(flags: seq<bool>)
    requires |flags| == |Interfaces|
    ensures forall i :: 0 <= i < |Interfaces| ==> (Interfaces[i] in Selected(flags) <==> flags[i])
    ensures forall a, b :: 0 <= a < b < |Selected(flags)| ==>
              Selected(flags)[a] in Interfaces && Selected(flags)[b] in Interfaces &&
              IndexOf(Interfaces, Selected(flags)[a]) < IndexOf(Interfaces, Selected(flags)[b])
  {
    var r := Selected(flags);
    assert r == SelectedUpTo(flags, |Interfaces|);
    SelectedUpToMembers(flags, |Interfaces|);
    SelectedUpToOrder(flags, |Interfaces|);
    forall i | 0 <= i < |Interfaces| ensures Interfaces[i] in r <==> flags[i] {
    }
  }

  /** The interfaces column is the comma-join of the selection; splitting it at commas
      gives the selection back, except that no selection is stored as "". */
  lemma StoredInterfacesRoundTrip(flags: seq<bool>)
    requires |flags| == |Interfaces|
    ensures Selected(flags) == [] ==> Join(Selected(flags), ",") == ""
    ensures Selected(flags) != [] ==> Split(Join(Selected(flags), ","), ",") == Selected(flags)
  {
    var r := Selected(flags);
    SelectedUpToOrder(flags, |Interfaces|);
    InterfacesDistinct();
    if r != [] {
      forall j | 0 <= j < |r| ensures ',' !in r[j] {
        var i := IndexOf(Interfaces, r[j]);
      }
      SplitJoinInverse(r, ',');
    }
  }

  // ----- the backlog table -----

  /** A backlog row; the id is the table's autoincrement key. */
  datatype Row = Row(id: nat, task: string, frequency: string, score: int, decision: string,
                     interfaces: string, timestamp: string, status: string)

  /** The columns the explorer shows. */
  datatype Listed = Listed(task: string, decision: string, score: int, frequency: string, timestamp: string)

  function ListedOf(r: Row): Listed {
    Listed(r.task, r.decision, r.score, r.frequency, r.timestamp)
  }

  /** `ORDER BY id DESC`: the rows from the highest id down. */
  function NewestFirst(rows: seq<Row>): (r: seq<Row>)
  {
    seq(|rows|, k requires 0 <= k < |rows| => rows[|rows| - 1 - k])
  }

  function Listing(rows: seq<Row>): seq<Listed> {
    var n := NewestFirst(rows);
    seq(|n|, k requires 0 <= k < |n| => ListedOf(n[k]))
  }

  /** Ids below `next`, increasing in insertion order. */
  predicate IdsAscendBelow(rows: seq<Row>, next: nat) {
    (forall i, j :: 0 <= i < j < |rows| ==> rows[i].id < rows[j].id) &&
    (forall i :: 0 <= i < |rows| ==> 1 <= rows[i].id < next)
  }

  /** With ids increasing in insertion order, the explorer's order is by id, strictly
      descending, and lists every row once. */
  lemma {:induction false} NewestFirstByIdDescending(rows: seq<Row>, next: nat)
    requires IdsAscendBelow(rows, next)
    ensures forall a, b :: 0 <= a < b < |NewestFirst(rows)| ==> NewestFirst(rows)[a].id > NewestFirst(rows)[b].id
    ensures multiset(NewestFirst(rows)) == multiset(rows)
  {
    var n := NewestFirst(rows);
    if rows != [] {
      var init := rows[..|rows| - 1];
      NewestFirstByIdDescending(init, next);
      assert rows == init + [rows[|rows| - 1]];
      assert n == [rows[|rows| - 1]] + NewestFirst(init);
    }
  }

  /** A saved row heads the listing, ahead of everything listed before it. */
  lemma ListingAfterSave(rows: seq<Row>, row: Row)
    ensures Listing(rows + [row]) == [ListedOf(row)] + Listing(rows)
  {
    var l, l' := Listing(rows + [row]), Listing(rows);
    assert |l| == |l'| + 1;
    forall k | 0 <= k < |l| ensures l[k] == ([ListedOf(row)] + l')[k] {
      if k > 0 {
        assert NewestFirst(rows + [row])[k] == NewestFirst(rows)[k - 1];
      }
    }
  }

  /** The row an evaluated entry becomes. */
  function EntryRow(id: nat, task: string, frequency: string, checks: seq<bool>, flags: seq<bool>, now: string): (r: Row)
    requires |flags| == |Interfaces|
  {
    var score := Count(checks);
    Row(id, task, frequency, score, ComputeDecision(score), Join(Selected(flags), ","), now, "new")
  }

  /** A saved entry carries the task and frequency as given, the count of ticked
      questions (between 0 and the number of questions), the decision for that score,
      the ticked interfaces joined by commas, the timestamp and the status "new". */
  lemma EntryRowFields(id: nat, task: string, frequency: string, checks: seq<bool>, flags: seq<bool>, now: string)
    requires |flags| == |Interfaces| && |checks| == QuestionCount
    ensures var r := EntryRow(id, task, frequency, checks, flags, now);
            0 <= r.score <= QuestionCount && r.score == Count(checks) &&
            r.id == id && r.task == task && r.frequency == frequency &&
            (r.decision == "Automate Now" <==> r.score >= 4) &&
            (r.decision == "Semi-Automate" <==> 2 <= r.score < 4) &&
            (r.decision == "Defer" <==> r.score < 2) &&
            r.interfaces == Join(Selected(flags), ",") &&
            r.status == "new" && r.timestamp == now
  {
  }

  /** The SQLite table `backlog`: its rows in insertion order and the next
      autoincrement value. */
  class Backlog {
    var rows: seq<Row>
    var nextId: nat

    predicate Valid()
      reads this
    {
      nextId >= 1 && IdsAscendBelow(rows, nextId)
    }

    /** init_db on a new file: an empty table. */
    constructor ()
      ensures Valid() && rows == [] && nextId == 1
    {
      rows := [];
      nextId := 1;
    }

    /** save_to_backlog: one INSERT, which takes the next id. */
    method Save(task: string, frequency: string, score: int, decision: string, interfaces: seq<string>, timestamp: string, status: string)
      returns (id: nat)
      requires Valid()
      modifies this
      ensures Valid()
      ensures id == old(nextId) && nextId == old(nextId) + 1
      ensures rows == old(rows) + [Row(id, task, frequency, score, decision, Join(interfaces, ","), timestamp, status)]
    {
      id := nextId;
      rows := rows + [Row(id, task, frequency, score, decision, Join(interfaces, ","), timestamp, status)];
      nextId := nextId + 1;
    }

    /** load_data: fetch the rows newest first and insert each at the end of the tree. */
    method LoadData() returns (tree: seq<Listed>)
      requires Valid()
      ensures tree == Listing(rows)
    {
      var fetched := [];
      var i := |rows|;
      while i > 0
        invariant 0 <= i <= |rows|
        invariant |fetched| == |rows| - i && forall k :: 0 <= k < |fetched| ==> fetched[k] == rows[|rows| - 1 - k]
      {
        i := i - 1;
        fetched := fetched + [rows[i]];
      }
      tree := [];
      for k := 0 to |fetched|
        invariant |tree| == k && forall t :: 0 <= t < k ==> tree[t] == ListedOf(fetched[t])
      {
        tree := tree + [ListedOf(fetched[k])];
      }
    }
  }

  /** The sum over the question variables. */
  method SumScores(checks: array<bool>) returns (score: nat)
    ensures score == Count(checks[..])
  {
    score := 0;
    for k := 0 to checks.Length
      invariant score == Count(checks[..k])
    {
      assert checks[..k + 1][..k] == checks[..k];
      if checks[k] {
        score := score + 1;
      }
    }
    assert checks[..checks.Length] == checks[..];
  }

  /** `[k for k, v in interface_vars.items() if v.get()]`. */
  method TickedInterfaces(flags: array<bool>) returns (names: seq<string>)
    requires flags.Length == |Interfaces|
    ensures names == Selected(flags[..])
  {
    names := [];
    for k := 0 to flags.Length
      invariant names == SelectedUpTo(flags[..], k)
    {
      if flags[k] {
        names := names + [Interfaces[k]];
      }
    }
  }

  /** The triage form: its entry, combobox and check boxes, and the backlog it saves
      to. */
  class TriageApp {
    var taskName: string
    var frequency: string
    const scoreVars: array<bool>
    const interfaceVars: array<bool>
    const backlog: Backlog

    predicate Valid()
      reads this, backlog
    {
      scoreVars.Length == QuestionCount && interfaceVars.Length == |Interfaces| &&
      scoreVars != interfaceVars && backlog.Valid()
    }

    /** The form is in its initial state. */
    predicate Cleared()
      reads this, scoreVars, interfaceVars
    {
      taskName == "" && frequency == "Daily" &&
      (forall k :: 0 <= k < scoreVars.Length ==> !scoreVars[k]) &&
      (forall k :: 0 <= k < interfaceVars.Length ==> !interfaceVars[k])
    }

    constructor (db: Backlog)
      requires db.Valid()
      ensures Valid() && Cleared() && backlog == db
      ensures fresh(scoreVars) && fresh(interfaceVars)
    {
      taskName := "";
      frequency := "Daily";
      scoreVars := new bool[QuestionCount](_ => false);
      interfaceVars := new bool[|Interfaces|](_ => false);
      backlog := db;
    }

    /** reset: empty name, "Daily", every box cleared. */
    method Reset()
      requires Valid()
      modifies this, scoreVars, interfaceVars
      ensures Valid() && Cleared()
    {
      taskName := "";
      frequency := "Daily";
      for k := 0 to scoreVars.Length
        invariant taskName == "" && frequency == "Daily"
        invariant forall t :: 0 <= t < k ==> !scoreVars[t]
      {
        scoreVars[k] := false;
      }
      for k := 0 to interfaceVars.Length
        invariant taskName == "" && frequency == "Daily"
        invariant forall t :: 0 <= t < k ==> !interfaceVars[t]
        invariant forall t :: 0 <= t < scoreVars.Length ==> !scoreVars[t]
      {
        interfaceVars[k] := false;
      }
    }

    /** evaluate, with `now` for the clock. A blank name is refused and nothing
        changes; otherwise one row is appended with the next id and the form is
        reset. */
    method Evaluate(now: string) returns (r: Result<Row>)
      requires Valid()
      modifies this, scoreVars, interfaceVars, backlog
      ensures Valid()
      ensures Blank(old(taskName)) ==>
                r == Err(Rejected("Task name is required")) &&
                taskName == old(taskName) && frequency == old(frequency) &&
                scoreVars[..] == old(scoreVars[..]) && interfaceVars[..] == old(interfaceVars[..]) &&
                backlog.rows == old(backlog.rows) && backlog.nextId == old(backlog.nextId)
      ensures !Blank(old(taskName)) ==>
                r == Ok(EntryRow(old(backlog.nextId), old(taskName), old(frequency), old(scoreVars[..]), old(interfaceVars[..]), now)) &&
                backlog.rows == old(backlog.rows) + [r.value] && backlog.nextId == old(backlog.nextId) + 1 &&
                Cleared()
    {
      StripBlank(taskName);
      if Strip(taskName) == [] {
        return Err(Rejected("Task name is required"));
      }
      var score := SumScores(scoreVars);
      var decision := ComputeDecision(score);
      var interfaces := TickedInterfaces(interfaceVars);
      var id := backlog.Save(taskName, frequency, score, decision, interfaces, now, "new");
      r := Ok(Row(id, taskName, frequency, score, decision, Join(interfaces, ","), now, "new"));
      Reset();
    }
  }
}
