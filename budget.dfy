/** The budget tracker: a variance and a status column over the department budgets, a
    per-status summary, an over-budget alert and a red fill on the over-budget rows of
    the Details sheet. */
module Budget {
  import opened Collections

  /** One department's line of the input table. */
  datatype BudgetLine = BudgetLine(department: string, budget: int, actual: int)

  /** A line of the Details sheet: the input columns, Variance and Status. */
  datatype DetailRow = DetailRow(department: string, budget: int, actual: int, variance: int, status: Status)

  /** The Status column's two values. */
  datatype Status = OverBudget | WithinBudget

  /** The text the Status cells hold. */
  function StatusText(s: Status): string {
    if s == OverBudget then "Over Budget" else "Within Budget"
  }

  /** The fill's test `value == 'Over Budget'` picks out exactly the over-budget status. */
  lemma StatusTextOverBudget(s: Status)
    ensures StatusText(s) == "Over Budget" <==> s == OverBudget
  {
    if s == WithinBudget {
      assert StatusText(s)[0] == 'W';
    }
  }

  /** A negative variance is over budget; zero and above are within. */
  function StatusOf(variance: int): (s: Status)
    ensures s == OverBudget <==> variance < 0
    ensures s == WithinBudget <==> variance >= 0
  {
    if variance < 0 then OverBudget else WithinBudget
  }

  function DetailOf(b: BudgetLine): DetailRow {
    var v := b.budget - b.actual;
    DetailRow(b.department, b.budget, b.actual, v, StatusOf(v))
  }

  /** The Details sheet: each line with its variance (budget minus actual) and status. */
  function Details(lines: seq<BudgetLine>): (r: seq<DetailRow>)
    ensures |r| == |lines|
    ensures forall i :: 0 <= i < |lines| ==>
              r[i].department == lines[i].department && r[i].budget == lines[i].budget && r[i].actual == lines[i].actual &&
              r[i].variance == lines[i].budget - lines[i].actual &&
              (r[i].status == OverBudget <==> lines[i].actual > lines[i].budget) &&
              (r[i].status == WithinBudget <==> lines[i].actual <= lines[i].budget)
  {
    seq(|lines|, i requires 0 <= i < |lines| => DetailOf(lines[i]))
  }

  function StatusKey(r: DetailRow): Status { r.status }

  function TotalVariance(rows: seq<DetailRow>): int {
    if rows == [] then 0 else TotalVariance(rows[..|rows| - 1]) + rows[|rows| - 1].variance
  }

  lemma TotalVarianceSnoc(rows: seq<DetailRow>, r: DetailRow)
    ensures TotalVariance(rows + [r]) == TotalVariance(rows) + r.variance
  {
    assert (rows + [r])[..|rows|] == rows;
  }

  /** The variance summed over the rows with one status. */
  function StatusSum(rows: seq<DetailRow>, status: Status): int {
    TotalVariance(Filter(rows, StatusKey, status))
  }

  /** Rows whose status agrees with their variance, as every Details row's does. */
  predicate Classified(rows: seq<DetailRow>) {
    forall i :: 0 <= i < |rows| ==> rows[i].status == StatusOf(rows[i].variance)
  }

  /** The two status sums add up to the total variance. */
  lemma {:induction false} StatusSumsAddUp(rows: seq<DetailRow>)
    requires Classified(rows)
    ensures StatusSum(rows, OverBudget) + StatusSum(rows, WithinBudget) == TotalVariance(rows)
    decreases |rows|
  {
    if rows != [] {
      var init, last := rows[..|rows| - 1], rows[|rows| - 1];
      assert rows == init + [last];
      StatusSumsAddUp(init);
      FilterSnoc(init, last, StatusKey, OverBudget);
      FilterSnoc(init, last, StatusKey, WithinBudget);
      TotalVarianceSnoc(init, last);
      TotalVarianceSnoc(Filter(init, StatusKey, OverBudget), last);
      TotalVarianceSnoc(Filter(init, StatusKey, WithinBudget), last);
    }
  }

  /** A row of the Summary sheet. */
  datatype SummaryRow = SummaryRow(status: Status, variance: int)

  /** `groupby('Status')['Variance'].sum()`: one row per status that occurs, in sorted
      key order ("Over Budget" before "Within Budget"). */
  function Summary(rows: seq<DetailRow>): seq<SummaryRow> {
    (if Filter(rows, StatusKey, OverBudget) != [] then [SummaryRow(OverBudget, StatusSum(rows, OverBudget))] else []) +
    (if Filter(rows, StatusKey, WithinBudget) != [] then [SummaryRow(WithinBudget, StatusSum(rows, WithinBudget))] else [])
  }

  function SummaryTotal(s: seq<SummaryRow>): int {
    if s == [] then 0 else SummaryTotal(s[..|s| - 1]) + s[|s| - 1].variance
  }

  /** The summary's sums add up to the total variance. */
  lemma SummaryAddsUp(rows: seq<DetailRow>)
    requires Classified(rows)
    ensures SummaryTotal(Summary(rows)) == TotalVariance(rows)
  {
    StatusSumsAddUp(rows);
    var over, within := Filter(rows, StatusKey, OverBudget), Filter(rows, StatusKey, WithinBudget);
    var a := if over != [] then [SummaryRow(OverBudget, TotalVariance(over))] else [];
    var b := if within != [] then [SummaryRow(WithinBudget, TotalVariance(within))] else [];
    assert Summary(rows) == a + b;
    assert SummaryTotal(a) == TotalVariance(over) by {
      if a != [] { assert a[..0] == []; }
    }
    assert SummaryTotal(a + b) == SummaryTotal(a) + TotalVariance(within) by {
      if b != [] { assert (a + b)[..|a|] == a; }
      else { assert a + b == a; }
    }
  }

  /** The summary has a row for exactly the statuses that occur, each once. */
  lemma SummaryKeys(rows: seq<DetailRow>)
    requires Classified(rows)
    ensures forall x :: x in Summary(rows) ==> x.status in Keys(rows, StatusKey)
    ensures forall k :: k in Keys(rows, StatusKey) ==> exists x :: x in Summary(rows) && x.status == k
    ensures forall i, j :: 0 <= i < j < |Summary(rows)| ==> Summary(rows)[i].status != Summary(rows)[j].status
  {
    FilterMembers(rows, StatusKey, OverBudget);
    FilterMembers(rows, StatusKey, WithinBudget);
    var s := Summary(rows);
    forall x | x in s ensures x.status in Keys(rows, StatusKey) {
      var r := Filter(rows, StatusKey, x.status)[0];
      assert r in Filter(rows, StatusKey, x.status);
      var i :| 0 <= i < |rows| && rows[i] == r;
    }
    forall k | k in Keys(rows, StatusKey) ensures exists x :: x in s && x.status == k {
      var i :| 0 <= i < |rows| && rows[i].status == k;
      assert rows[i] in rows;
    }
  }

  /** `groupby` orders the summary by the status text, and the Summary lists the
      statuses in that order: a row before another has the smaller text, told apart by
      the first character, 'O' before 'W'. */
  lemma SummaryInTextOrder(rows: seq<DetailRow>)
    ensures forall i, j :: 0 <= i < j < |Summary(rows)| ==>
              StatusText(Summary(rows)[i].status)[0] < StatusText(Summary(rows)[j].status)[0]
  {
    var s := Summary(rows);
    forall i, j | 0 <= i < j < |s| ensures StatusText(s[i].status)[0] < StatusText(s[j].status)[0] {
      assert s[i].status == OverBudget && s[j].status == WithinBudget;
    }
  }

  /** The rows of `df[df['Variance'] < 0]`, in their original order. */
  function OverRows(rows: seq<DetailRow>): seq<DetailRow> {
    Filter(rows, StatusKey, OverBudget)
  }

  /** An alert line: the department and the amount over budget. */
  datatype Alert = Alert(department: string, amount: int)

  function Abs(x: int): (a: nat)
    ensures a == x || a == -x
  {
    if x < 0 then -x else x
  }

  function Alerts(rows: seq<DetailRow>): seq<Alert> {
    var o := OverRows(rows);
    seq(|o|, i requires 0 <= i < |o| => Alert(o[i].department, Abs(o[i].variance)))
  }

  /** The alert names exactly the rows with a negative variance, each with a positive
      amount equal to its overspend. */
  lemma AlertsExact(rows: seq<DetailRow>)
    requires Classified(rows)
    ensures forall r :: r in OverRows(rows) <==> r in rows && r.variance < 0
    ensures forall i :: 0 <= i < |Alerts(rows)| ==>
              Alerts(rows)[i].department == OverRows(rows)[i].department &&
              Alerts(rows)[i].amount == -OverRows(rows)[i].variance > 0
  {
    FilterMembers(rows, StatusKey, OverBudget);
    forall r | r in rows && r.variance < 0 ensures r in OverRows(rows) {
      var i :| 0 <= i < |rows| && rows[i] == r;
    }
    forall r | r in OverRows(rows) ensures r.variance < 0 {
      var i :| 0 <= i < |rows| && rows[i] == r;
    }
  }

  /** The alert keeps the rows' order: a new last row adds its alert at the end, or
      nothing. */
  lemma AlertsSnoc(rows: seq<DetailRow>, r: DetailRow)
    requires r.status == StatusOf(r.variance)
    ensures Alerts(rows + [r]) ==
            if r.variance < 0 then Alerts(rows) + [Alert(r.department, -r.variance)] else Alerts(rows)
  {
    FilterSnoc(rows, r, StatusKey, OverBudget);
  }

  /** The sample table's Details rows. */
  lemma SampleDetails(lines: seq<BudgetLine>, fin: string, hr: string, sales: string, ops: string, mkt: string)
    requires lines == [BudgetLine(fin, 10000, 9500), BudgetLine(hr, 8000, 8200), BudgetLine(sales, 15000, 16500),
                       BudgetLine(ops, 12000, 11000), BudgetLine(mkt, 7000, 6800)]
    ensures Details(lines) ==
            [DetailRow(fin, 10000, 9500, 500, WithinBudget), DetailRow(hr, 8000, 8200, -200, OverBudget),
             DetailRow(sales, 15000, 16500, -1500, OverBudget), DetailRow(ops, 12000, 11000, 1000, WithinBudget),
             DetailRow(mkt, 7000, 6800, 200, WithinBudget)]
  {
  }

  /** The prefixes of a five-row table, as displays. */
  lemma FiveRowPrefixes(a: DetailRow, b: DetailRow, c: DetailRow, e: DetailRow, f: DetailRow)
    ensures [] + [a] == [a] && [a] + [b] == [a, b] && [a, b] + [c] == [a, b, c]
    ensures [a, b, c] + [e] == [a, b, c, e] && [a, b, c, e] + [f] == [a, b, c, e, f]
  {
  }

  /** The over-budget rows of the sample, built up row by row. */
  lemma SampleOver(a: DetailRow, b: DetailRow, c: DetailRow, e: DetailRow, f: DetailRow)
    requires a.status == WithinBudget && b.status == OverBudget && c.status == OverBudget
    requires e.status == WithinBudget && f.status == WithinBudget
    ensures Filter([a, b, c, e, f], StatusKey, OverBudget) == [b, c]
  {
    var k := OverBudget;
    FiveRowPrefixes(a, b, c, e, f);
    FilterSnoc([], a, StatusKey, k);
    FilterSnoc([a], b, StatusKey, k);
    FilterSnoc([a, b], c, StatusKey, k);
    FilterSnoc([a, b, c], e, StatusKey, k);
    FilterSnoc([a, b, c, e], f, StatusKey, k);
  }

  /** The within-budget rows of the sample, built up row by row. */
  lemma SampleWithin(a: DetailRow, b: DetailRow, c: DetailRow, e: DetailRow, f: DetailRow)
    requires a.status == WithinBudget && b.status == OverBudget && c.status == OverBudget
    requires e.status == WithinBudget && f.status == WithinBudget
    ensures Filter([a, b, c, e, f], StatusKey, WithinBudget) == [a, e, f]
  {
    var k := WithinBudget;
    FiveRowPrefixes(a, b, c, e, f);
    FilterSnoc([], a, StatusKey, k);
    FilterSnoc([a], b, StatusKey, k);
    FilterSnoc([a, b], c, StatusKey, k);
    FilterSnoc([a, b, c], e, StatusKey, k);
    FilterSnoc([a, b, c, e], f, StatusKey, k);
  }

  /** The sample departments: HR (200) and Sales (1500) are over budget, and the
      summary is -1700 over and +1700 within. */
  lemma SampleReport(lines: seq<BudgetLine>, fin: string, hr: string, sales: string, ops: string, mkt: string)
    requires lines == [BudgetLine(fin, 10000, 9500), BudgetLine(hr, 8000, 8200), BudgetLine(sales, 15000, 16500),
                       BudgetLine(ops, 12000, 11000), BudgetLine(mkt, 7000, 6800)]
    ensures Alerts(Details(lines)) == [Alert(hr, 200), Alert(sales, 1500)]
    ensures Summary(Details(lines)) == [SummaryRow(OverBudget, -1700), SummaryRow(WithinBudget, 1700)]
  {
    SampleDetails(lines, fin, hr, sales, ops, mkt);
    var d := Details(lines);
    var a, b, c, e, f := d[0], d[1], d[2], d[3], d[4];
    assert d == [a, b, c, e, f];
    SampleOver(a, b, c, e, f);
    SampleWithin(a, b, c, e, f);
    SampleSums(a, b, c, e, f);
  }

  /** The variance sums of the over-budget pair and the within-budget triple. */
  lemma SampleSums(a: DetailRow, b: DetailRow, c: DetailRow, e: DetailRow, f: DetailRow)
    ensures TotalVariance([b, c]) == b.variance + c.variance
    ensures TotalVariance([a, e, f]) == a.variance + e.variance + f.variance
  {
    assert [] + [b] == [b] && [b] + [c] == [b, c];
    TotalVarianceSnoc([], b);
    TotalVarianceSnoc([b], c);
    assert [] + [a] == [a] && [a] + [e] == [a, e] && [a, e] + [f] == [a, e, f];
    TotalVarianceSnoc([], a);
    TotalVarianceSnoc([a], e);
    TotalVarianceSnoc([a, e], f);
  }

  /** The Details sheet's fill state: row 0 is the header, row i+1 holds detail row i,
      and the five columns are Department, Budget Amount, Actual Spend, Variance and
      Status. */
  const Columns: nat := 5

  /** The formatting loop: from the second sheet row on, every cell of a row whose
      Status cell reads "Over Budget" is filled red; nothing else changes. */
  method FillOverBudget(rows: seq<DetailRow>, red: array2<bool>)
    requires red.Length0 == |rows| + 1 && red.Length1 == Columns
    modifies red
    ensures forall i, c :: 0 <= i < red.Length0 && 0 <= c < red.Length1 ==>
              red[i, c] == if 1 <= i && rows[i - 1].status == OverBudget then true else old(red[i, c])
    ensures Classified(rows) ==>
              forall i, c :: 0 <= i < red.Length0 && 0 <= c < red.Length1 ==>
                red[i, c] == ((1 <= i && rows[i - 1].variance < 0) || old(red[i, c]))
  {
    for i := 1 to red.Length0
      invariant forall r, c :: 0 <= r < red.Length0 && 0 <= c < red.Length1 ==>
                  red[r, c] == if 1 <= r < i && rows[r - 1].status == OverBudget then true else old(red[r, c])
    {
      StatusTextOverBudget(rows[i - 1].status);
      if StatusText(rows[i - 1].status) == "Over Budget" {
        for c := 0 to red.Length1
          invariant forall r, c' :: 0 <= r < red.Length0 && 0 <= c' < red.Length1 ==>
                      red[r, c'] == if (1 <= r < i && rows[r - 1].status == OverBudget) || (r == i && c' < c) then true else old(red[r, c'])
        {
          red[i, c] := true;
        }
      }
    }
  }
}
