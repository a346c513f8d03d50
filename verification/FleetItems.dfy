/** Rows of `fleet_operation_items` and the status of their operation. */
module FleetItems {
  import opened Common

  datatype ItemStatus = Scheduled | ItemQueued | ItemRunning | Done | Broken | Dropped {
    /** completed, failed or cancelled */
    predicate Terminal() { Done? || Broken? || Dropped? }
  }

  datatype OpStatus = OpScheduled | OpRunning | OpCompleted | OpFailed | OpCancelled

  datatype Item = Item(op: nat, node: nat, job: Option<nat>, status: ItemStatus)

  predicate HasItems(items: seq<Item>, op: nat) {
    exists i :: 0 <= i < |items| && items[i].op == op
  }

  predicate AllTerminal(items: seq<Item>, op: nat) {
    forall i :: 0 <= i < |items| && items[i].op == op ==> items[i].status.Terminal()
  }

  predicate AnyItem(items: seq<Item>, op: nat, status: ItemStatus) {
    exists i :: 0 <= i < |items| && items[i].op == op && items[i].status == status
  }

  /** Failed if any item failed, else cancelled if any was cancelled, else completed. */
  function Summary(items: seq<Item>, op: nat): OpStatus {
    if AnyItem(items, op, Broken) then OpFailed
    else if AnyItem(items, op, Dropped) then OpCancelled
    else OpCompleted
  }

  /** finalize_fleet_operation: the status column after the UPDATE, if there is one. */
  function Finalized(items: seq<Item>, op: nat, current: OpStatus): OpStatus {
    if HasItems(items, op) && AllTerminal(items, op) then Summary(items, op) else current
  }

  /** What is left of an operation's scheduled items when it is cancelled. */
  function DropScheduled(items: seq<Item>, op: nat): (r: seq<Item>)
    ensures |r| == |items|
  {
    seq(|items|, i requires 0 <= i < |items| =>
      if items[i].op == op && items[i].status.Scheduled? then items[i].(status := Dropped) else items[i])
  }

  /** What one more row adds to the counts. */
  lemma PrefixCounts(items: seq<Item>, op: nat, i: nat)
    requires i < |items|
    ensures HasItems(items[..i + 1], op) <==> HasItems(items[..i], op) || items[i].op == op
    ensures AllTerminal(items[..i + 1], op) <==>
      AllTerminal(items[..i], op) && (items[i].op == op ==> items[i].status.Terminal())
    ensures forall s :: AnyItem(items[..i + 1], op, s) <==>
      AnyItem(items[..i], op, s) || (items[i].op == op && items[i].status == s)
  {
    var before, after := items[..i], items[..i + 1];
    assert after == before + [items[i]];
    if HasItems(before, op) {
      var k :| 0 <= k < |before| && before[k].op == op;
      assert after[k].op == op;
    }
    if items[i].op == op { assert after[i].op == op; }
    forall s ensures AnyItem(after, op, s) <==> AnyItem(before, op, s) || (items[i].op == op && items[i].status == s) {
      if AnyItem(before, op, s) {
        var k :| 0 <= k < |before| && before[k].op == op && before[k].status == s;
        assert after[k].op == op && after[k].status == s;
      }
      if items[i].op == op && items[i].status == s { assert after[i].op == op && after[i].status == s; }
    }
  }

  /** finalize_fleet_operation, with its four counts. */
  method Finalize(items: seq<Item>, op: nat, current: OpStatus) returns (status: OpStatus)
    ensures status == Finalized(items, op, current)
  {
    var total: nat, terminal: nat, failed: nat, cancelled: nat := 0, 0, 0, 0;
    for i := 0 to |items|
      invariant total > 0 <==> HasItems(items[..i], op)
      invariant terminal <= total && (terminal == total <==> AllTerminal(items[..i], op))
      invariant failed > 0 <==> AnyItem(items[..i], op, Broken)
      invariant cancelled > 0 <==> AnyItem(items[..i], op, Dropped)
    {
      PrefixCounts(items, op, i);
      if items[i].op == op {
        total := total + 1;
        if items[i].status.Terminal() { terminal := terminal + 1; }
        if items[i].status.Broken? { failed := failed + 1; }
        if items[i].status.Dropped? { cancelled := cancelled + 1; }
      }
    }
    assert items[..|items|] == items;
    if total > 0 && terminal == total {
      return if failed > 0 then OpFailed else if cancelled > 0 then OpCancelled else OpCompleted;
    }
    return current;
  }
}
