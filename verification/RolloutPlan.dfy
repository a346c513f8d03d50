/** The order of an Agent upgrade: canary first, then bounded batches. */
module RolloutPlan {

  /** An entry of created_items; `item` is its position there, in the order they were created. */
  datatype Entry = Entry(item: nat, canary: bool)

  /** One item per node, the canary node's marked. */
  function CreatedItems(nodes: nat, canary: nat): (r: seq<Entry>)
    ensures |r| == nodes
  {
    seq(nodes, i requires 0 <= i < nodes => Entry(i, i == canary))
  }

  predicate Ascending(s: seq<Entry>) { forall i, j :: 0 <= i < j < |s| ==> s[i].item < s[j].item }

  /** The entries with or without the mark, in order. */
  function Marked(s: seq<Entry>, canary: bool): (r: seq<Entry>)
    ensures forall e :: e in r <==> e in s && e.canary == canary
    ensures Ascending(s) ==> Ascending(r)
  {
    if s == [] then []
    else
      var rest, last := Marked(s[..|s| - 1], canary), s[|s| - 1];
      assert s == s[..|s| - 1] + [last];
      assert Ascending(s) ==> forall e :: e in rest ==> e.item < last.item;
      if last.canary == canary then rest + [last] else rest
  }

  /** The canary first, the others in their order: the sort is stable. */
  function CanaryFirst(s: seq<Entry>): seq<Entry> { Marked(s, true) + Marked(s, false) }

  /** Consecutive slices of a size, the last one perhaps shorter. */
  function Chunks(s: seq<Entry>, size: nat): (r: seq<seq<Entry>>)
    requires size >= 1
    ensures forall b :: 0 <= b < |r| ==> 1 <= |r[b]| <= size
  {
    if s == [] then []
    else
      var end := if |s| < size then |s| else size;
      [s[..end]] + Chunks(s[end..], size)
  }

  function Batches(rollout: seq<Entry>, size: nat): seq<seq<Entry>>
    requires size >= 1
  {
    if rollout != [] && rollout[0].canary then [[rollout[0]]] + Chunks(rollout[1..], size) else Chunks(rollout, size)
  }

  function Concat(batches: seq<seq<Entry>>): seq<Entry> {
    if batches == [] then [] else batches[0] + Concat(batches[1..])
  }

  /** The slicing loop of orchestrate_agent_upgrade. */
  method Slices(remaining: seq<Entry>, batchSize: nat) returns (batches: seq<seq<Entry>>)
    requires batchSize >= 1
    ensures batches == Chunks(remaining, batchSize)
  {
    batches := [];
    var offset := 0;
    while offset < |remaining|
      invariant offset <= |remaining| &&
        Chunks(remaining, batchSize) == batches + Chunks(remaining[offset..], batchSize)
    {
      var end := if offset + batchSize < |remaining| then offset + batchSize else |remaining|;
      NextChunk(remaining, offset, end, batchSize);
      batches := batches + [remaining[offset..end]];
      offset := end;
    }
  }

  method MakeBatches(rollout: seq<Entry>, batchSize: nat) returns (batches: seq<seq<Entry>>)
    requires batchSize >= 1
    ensures batches == Batches(rollout, batchSize)
  {
    batches := [];
    var remaining := rollout;
    if remaining != [] && remaining[0].canary {
      batches, remaining := [[remaining[0]]], remaining[1..];
    }
    var slices := Slices(remaining, batchSize);
    batches := batches + slices;
  }

  lemma NextChunk(s: seq<Entry>, offset: nat, end: nat, size: nat)
    requires size >= 1 && offset < |s| && end == if offset + size < |s| then offset + size else |s|
    ensures Chunks(s[offset..], size) == [s[offset..end]] + Chunks(s[end..], size)
  {
    assert s[offset..][..end - offset] == s[offset..end] && s[offset..][end - offset..] == s[end..];
  }

  lemma {:induction false} ChunksConcat(s: seq<Entry>, size: nat)
    requires size >= 1
    ensures Concat(Chunks(s, size)) == s
  {
    if s != [] {
      var end := if |s| < size then |s| else size;
      ChunksConcat(s[end..], size);
      assert Chunks(s, size)[1..] == Chunks(s[end..], size);
      assert s == s[..end] + s[end..];
    }
  }

  /** The batches are the rollout cut in order; after the canary's every batch has one to `size` entries. */
  lemma BatchesConcat(rollout: seq<Entry>, size: nat)
    requires size >= 1
    ensures var batches := Batches(rollout, size);
      Concat(batches) == rollout && forall b :: 0 <= b < |batches| ==> 1 <= |batches[b]| <= size
  {
    if rollout != [] && rollout[0].canary {
      ChunksConcat(rollout[1..], size);
      assert Batches(rollout, size)[1..] == Chunks(rollout[1..], size);
      assert rollout == [rollout[0]] + rollout[1..];
    } else {
      ChunksConcat(rollout, size);
    }
  }

  lemma TwoAscend(s: seq<Entry>)
    requires Ascending(s) && |s| > 1
    ensures s[0] in s && s[1] in s && s[0].item != s[1].item
  {
    assert s[0].item < s[1].item;
  }

  lemma RolloutOrder(nodes: nat, canary: nat)
    requires canary < nodes
    ensures var rollout := CanaryFirst(CreatedItems(nodes, canary));
      && rollout != [] && rollout[0] == Entry(canary, true)
      && Marked(CreatedItems(nodes, canary), true) == [Entry(canary, true)]
      && rollout[1..] == Marked(CreatedItems(nodes, canary), false) && Ascending(rollout[1..])
  {
    var created := CreatedItems(nodes, canary);
    var marked := Marked(created, true);
    assert created[canary] == Entry(canary, true);
    assert forall e :: e in marked ==> e == Entry(canary, true);
    assert Entry(canary, true) in marked && Ascending(marked);
    if |marked| > 1 { TwoAscend(marked); }
    assert marked[0] in marked;
    assert CanaryFirst(created)[1..] == Marked(created, false);
  }

  // ---- the batch of each item --------------------------------------------------------

  predicate InBatch(batches: seq<seq<Entry>>, b: nat, item: nat) {
    b < |batches| && exists k :: 0 <= k < |batches[b]| && batches[b][k].item == item
  }

  predicate DistinctItems(s: seq<Entry>) { forall i, j :: 0 <= i < j < |s| ==> s[i].item != s[j].item }

  ghost predicate Placed(batches: seq<seq<Entry>>, item: nat) { exists b: nat :: InBatch(batches, b, item) }

  /** The batch that holds the k-th entry. */
  function BatchAt(batches: seq<seq<Entry>>, k: nat): (b: nat)
    requires k < |Concat(batches)|
    ensures b < |batches|
  {
    if k < |batches[0]| then 0 else 1 + BatchAt(batches[1..], k - |batches[0]|)
  }

  lemma {:induction false} EntryInItsBatch(batches: seq<seq<Entry>>, k: nat)
    requires k < |Concat(batches)|
    ensures InBatch(batches, BatchAt(batches, k), Concat(batches)[k].item)
  {
    if k >= |batches[0]| {
      EntryInItsBatch(batches[1..], k - |batches[0]|);
      assert batches[1..][BatchAt(batches, k) - 1] == batches[BatchAt(batches, k)];
    }
  }

  lemma {:induction false} PositionOf(batches: seq<seq<Entry>>, b: nat, item: nat) returns (k: nat)
    requires InBatch(batches, b, item)
    ensures k < |Concat(batches)| && Concat(batches)[k].item == item && BatchAt(batches, k) == b
  {
    if b == 0 {
      k :| 0 <= k < |batches[0]| && batches[0][k].item == item;
    } else {
      assert batches[1..][b - 1] == batches[b];
      k := PositionOf(batches[1..], b - 1, item);
      k := k + |batches[0]|;
    }
  }

  lemma OneBatch(batches: seq<seq<Entry>>, b: nat, c: nat, item: nat)
    requires DistinctItems(Concat(batches)) && InBatch(batches, b, item) && InBatch(batches, c, item)
    ensures b == c
  {
    var k := PositionOf(batches, b, item);
    var l := PositionOf(batches, c, item);
    assert k == l;
  }

  function UpgradeBatches(nodes: nat, canary: nat, size: nat): seq<seq<Entry>>
    requires size >= 1
  {
    Batches(CanaryFirst(CreatedItems(nodes, canary)), size)
  }

  predicate Planned(rollout: seq<Entry>, canary: nat, item: nat) { Entry(item, item == canary) in rollout }

  lemma RolloutIsPermutation(nodes: nat, canary: nat)
    requires canary < nodes
    ensures var rollout := CanaryFirst(CreatedItems(nodes, canary));
      && DistinctItems(rollout) && (forall i: nat :: i < nodes ==> Planned(rollout, canary, i))
      && (forall k :: 0 <= k < |rollout| ==> rollout[k].item < nodes)
  {
    var created := CreatedItems(nodes, canary);
    var rollout := CanaryFirst(created);
    RolloutOrder(nodes, canary);
    forall i: nat | i < nodes ensures Planned(rollout, canary, i) {
      assert created[i] in created;
      assert Entry(i, i == canary) in Marked(created, i == canary);
    }
    forall k | 0 <= k < |rollout| ensures rollout[k].item < nodes {
      assert rollout[k] in Marked(created, true) || rollout[k] in Marked(created, false);
      assert rollout[k] in created;
    }
    forall i, j | 0 <= i < j < |rollout| ensures rollout[i].item != rollout[j].item {
      assert rollout[j] == rollout[1..][j - 1] && rollout[j] in Marked(created, false);
      if i > 0 { assert rollout[i] == rollout[1..][i - 1]; }
    }
  }

  /** Every item of the operation is in exactly one batch; the canary is alone in the first, and the later batches
      respect the size. */
  lemma UpgradeBatchesPartition(nodes: nat, canary: nat, size: nat)
    requires canary < nodes && size >= 1
    ensures var batches := UpgradeBatches(nodes, canary, size);
      && batches != [] && batches[0] == [Entry(canary, true)]
      && (forall b :: 0 <= b < |batches| ==> 1 <= |batches[b]| <= size)
      && (forall i: nat :: i < nodes ==> Placed(batches, i))
      && (forall i: nat, b: nat, c: nat :: InBatch(batches, b, i) && InBatch(batches, c, i) ==> b == c)
      && (forall i: nat, b: nat :: InBatch(batches, b, i) ==> i < nodes)
  {
    var rollout, batches := CanaryFirst(CreatedItems(nodes, canary)), UpgradeBatches(nodes, canary, size);
    RolloutOrder(nodes, canary);
    RolloutIsPermutation(nodes, canary);
    BatchesConcat(rollout, size);
    forall i: nat | i < nodes ensures Placed(batches, i) {
      assert Planned(rollout, canary, i);
      var k :| 0 <= k < |rollout| && rollout[k] == Entry(i, i == canary);
      EntryInItsBatch(batches, k);
    }
    forall i: nat, b: nat, c: nat | InBatch(batches, b, i) && InBatch(batches, c, i) ensures b == c {
      OneBatch(batches, b, c, i);
    }
    forall i: nat, b: nat | InBatch(batches, b, i) ensures i < nodes {
      var k := PositionOf(batches, b, i);
    }
  }
}
