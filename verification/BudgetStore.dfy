/** The amendments as they are done: statements in a transaction that is rolled back on any error. */
module BudgetStore {
  import opened RunLog
  import opened BudgetAmendments

  class BudgetDatabase {
    var policy: Policy
    var budgetTable: Option<seq<Receipt>>
    var demoTable: Option<seq<DemoRow>>
    var history: History

    ghost function View(): Database
      reads this
    {
      Database(policy, budgetTable, demoTable, history)
    }

    constructor (policy: Policy, history: History)
      ensures View() == Database(policy, None, None, history)
    {
      this.policy, this.history := policy, history;
      budgetTable, demoTable := None, None;
    }

    method ReadDemoRows() returns (r: Result<seq<Receipt>, Rejection>)
      ensures var rows := DemoRows(View());
              r == if RowsFault(rows, |rows|).Some? then Err(RowsFault(rows, |rows|).value) else Ok(Receipts(rows))
    {
      var rows := if demoTable.Some? then demoTable.value else [];
      var receipts := [];
      for i := 0 to |rows|
        invariant RowsFault(rows, i).None?
        invariant |receipts| == i && forall j :: 0 <= j < i ==> receipts[j] == rows[j].receipt
      {
        if rows[i].sequence != i + 1 {
          FaultStays(rows, i + 1, |rows|);
          return Err(ChainRejected);
        }
        if !DemoParses(rows[i].receipt) {
          FaultStays(rows, i + 1, |rows|);
          return Err(SchemaRejected);
        }
        receipts := receipts + [rows[i].receipt];
      }
      assert receipts == Receipts(rows);
      r := Ok(receipts);
    }

    method ReadPolicy() returns (r: Result<Chain, Rejection>)
      ensures r == Read(View())
    {
      if budgetTable.None? {
        return if demoTable.Some? then Err(ChainRejected) else Ok(Chain(None, [], None));
      }
      if |budgetTable.value| != 1 { return Err(AmendmentRejected); }
      var receipt := budgetTable.value[0];
      if !BudgetParses(receipt) { return Err(SchemaRejected); }
      var read := ReadDemoRows();
      if read.Err? { return Err(read.error); }
      var demos := read.value;
      var current := receipt.amendedPolicy;
      for i := 0 to |demos|
        invariant current == LastPolicy(demos[..i], receipt.amendedPolicy)
        invariant forall j :: 0 <= j < i ==> FollowsAt(demos, j, receipt.amendedPolicy)
      {
        if demos[i].previousPolicy != current {
          assert !FollowsAt(demos, i, receipt.amendedPolicy);
          return Err(ChainRejected);
        }
        current := demos[i].amendedPolicy;
      }
      assert demos[..|demos|] == demos;
      if policy != current { return Err(PolicyMismatch); }
      r := Ok(Chain(Some(receipt), demos, Some(current)));
    }

    method ApplyBudgetAmendment(receipt: Receipt) returns (r: Result<Receipt, Rejection>)
      modifies this
      ensures View() == AmendBudget(old(View()), receipt)
      ensures r == if BudgetVerdict(old(View()), receipt).Some? then Err(BudgetVerdict(old(View()), receipt).value) else Ok(receipt)
    {
      if !BudgetParses(receipt) { return Err(SchemaRejected); }
      var begin := (policy, budgetTable);
      var failure: Option<Rejection> := None;
      var chain := ReadPolicy();
      if chain.Err? {
        failure := Some(chain.error);
      } else if chain.value.budget.Some? {
        failure := Some(AlreadyAmended);
      } else {
        var binds := AssertBinding(receipt);
        if !binds {
          failure := Some(BindingMismatch);
        } else {
          budgetTable := Some([receipt]);
          policy := receipt.amendedPolicy;
          if history != receipt.unchangedHistory { failure := Some(HistoryChanged); }
        }
      }
      if failure.Some? {
        policy, budgetTable := begin.0, begin.1;
        return Err(failure.value);
      }
      r := Ok(receipt);
    }

    method ApplyDemoAmendment(receipt: Receipt) returns (r: Result<Receipt, Rejection>)
      modifies this
      ensures View() == AmendDemo(old(View()), receipt)
      ensures r == if DemoVerdict(old(View()), receipt).Some? then Err(DemoVerdict(old(View()), receipt).value) else Ok(receipt)
    {
      if !DemoParses(receipt) { return Err(SchemaRejected); }
      var begin := (policy, demoTable);
      var failure: Option<Rejection> := None;
      var chain := ReadPolicy();
      if chain.Err? {
        failure := Some(chain.error);
      } else if chain.value.budget.None? || chain.value.policy != Some(receipt.previousPolicy) {
        failure := Some(ChainRejected);
      } else {
        var binds := AssertBinding(receipt);
        if !binds {
          failure := Some(BindingMismatch);
        } else {
          if demoTable.None? { demoTable := Some([]); }
          demoTable := Some(demoTable.value + [DemoRow(|chain.value.demos| + 1, receipt)]);
          policy := receipt.amendedPolicy;
          if history != receipt.unchangedHistory { failure := Some(HistoryChanged); }
        }
      }
      if failure.Some? {
        policy, demoTable := begin.0, begin.1;
        return Err(failure.value);
      }
      r := Ok(receipt);
    }

    method AssertBinding(receipt: Receipt) returns (binds: bool)
      ensures binds == Binds(View(), receipt)
    {
      var reserved := Reserved(history);
      binds := policy == receipt.previousPolicy && reserved == receipt.reservedAtAmendment
        && history == receipt.unchangedHistory && !history.jobsPending
        && forall a :: a in history.attempts ==> a.settled && a.closed;
    }
  }
}
