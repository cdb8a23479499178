/**
 The batch loops of src/handlers/export.rs: rows in ascending id, a thousand at a time, each batch a
 query of its own against a table that may have changed since the last one.

 A row's key is its negated id, so that ascending ids are descending keys.
 */
module ExportStream {
  import opened Machine
  import opened Keyset

  const BATCH_SIZE: nat := 1000

  /** What one batch query meets: the keys that match, and where its row stream breaks off with an error, if it does. */
  datatype Batch = Batch(keys: set<Key>, failAfter: Option<nat>)

  datatype Status = Completed | Failed | Open

  /** The stream over the batches it gets to see; `Open` if they run out before the loop ends. */
  function Emit(batches: seq<Batch>, last: Option<Key>): (seq<Key>, Status) {
    if batches == [] then ([], Open)
    else
      var rows := Page(batches[0].keys, last, BATCH_SIZE);
      if batches[0].failAfter.Some? then (Take(rows, batches[0].failAfter.value), Failed)
      else if rows == [] then ([], Completed)
      else
        var (more, status) := Emit(batches[1..], After(last, rows));
        (rows + more, status)
  }

  /** The row loop of one batch: every row delivered moves `lastId`. */
  method Deliver(rows: seq<Key>, failAfter: Option<nat>, last: Option<Key>)
    returns (delivered: seq<Key>, lastId: Option<Key>, batchHasRows: bool, failed: bool)
    ensures failed <==> failAfter.Some?
    ensures delivered == if failed then Take(rows, failAfter.value) else rows
    ensures lastId == After(last, delivered)
    ensures !failed ==> (batchHasRows <==> rows != [])
  {
    delivered, lastId, batchHasRows, failed := [], last, false, false;
    for i := 0 to |rows|
      invariant delivered == rows[..i] && lastId == After(last, rows[..i])
      invariant batchHasRows <==> i > 0
      invariant failAfter.Some? ==> i <= failAfter.value
    {
      if failAfter == Some(i) {
        failed := true;
        return;
      }
      batchHasRows := true;
      lastId := Some(rows[i]);
      delivered := delivered + [rows[i]];
    }
    failed := failAfter.Some?;
  }

  /** The loop of `create_csv_stream` and `create_json_stream`. */
  method Stream(batches: seq<Batch>) returns (emitted: seq<Key>, status: Status)
    ensures emitted == Emit(batches, None).0 && status == Emit(batches, None).1
  {
    emitted := [];
    var lastId: Option<Key> := None;
    var b := 0;
    assert batches[0..] == batches;
    while b < |batches|
      invariant 0 <= b <= |batches|
      invariant Emit(batches, None).0 == emitted + Emit(batches[b..], lastId).0
      invariant Emit(batches, None).1 == Emit(batches[b..], lastId).1
    {
      ghost var rest := batches[b..];
      assert rest[0] == batches[b] && rest[1..] == batches[b + 1..];
      var rows := Page(batches[b].keys, lastId, BATCH_SIZE);
      var delivered, next, batchHasRows, failed := Deliver(rows, batches[b].failAfter, lastId);
      ghost var before := emitted;
      emitted := emitted + delivered;
      if failed {
        return emitted, Failed;
      }
      if !batchHasRows {
        return emitted, Completed;
      }
      assert before + (rows + Emit(batches[b + 1..], next).0) == emitted + Emit(batches[b + 1..], next).0;
      lastId := next;
      b := b + 1;
    }
    status := Open;
  }

  function Snapshots(batches: seq<Batch>): seq<set<Key>> {
    seq(|batches|, i requires 0 <= i < |batches| => batches[i].keys)
  }

  /** How many batches the stream queries. */
  function Queried(batches: seq<Batch>, last: Option<Key>): (n: nat)
    ensures n <= |batches|
  {
    if batches == [] then 0
    else
      var rows := Page(batches[0].keys, last, BATCH_SIZE);
      if batches[0].failAfter.Some? || rows == [] then 1 else 1 + Queried(batches[1..], After(last, rows))
  }

  /** Whatever the stream emits is the beginning of a walk; a completed stream is a walk that left nothing. */
  lemma {:induction false} EmitIsWalk(batches: seq<Batch>, last: Option<Key>)
    ensures var n := Queried(batches, last);
            var snaps := Snapshots(batches)[..n];
            && Emit(batches, last).0 <= Walk(snaps, last, BATCH_SIZE)
            && (Emit(batches, last).1.Completed? ==>
                  Emit(batches, last).0 == Walk(snaps, last, BATCH_SIZE) && Exhausted(snaps, last, BATCH_SIZE))
  {
    if batches != [] {
      var n := Queried(batches, last);
      var snaps := Snapshots(batches)[..n];
      var rows := Page(batches[0].keys, last, BATCH_SIZE);
      if batches[0].failAfter.Some? || rows == [] {
        assert snaps == [batches[0].keys];
        assert Walk(snaps[1..], After(last, rows), BATCH_SIZE) == [];
        NoRowsLeft(batches[0].keys, last);
      } else {
        EmitIsWalk(batches[1..], After(last, rows));
        assert snaps[0] == batches[0].keys;
        assert snaps[1..] == Snapshots(batches[1..])[..n - 1];
        assert n == 1 || |snaps| > 1;
      }
    }
  }

  lemma NoRowsLeft(keys: set<Key>, last: Option<Key>)
    ensures Page(keys, last, BATCH_SIZE) == [] ==> |Below(keys, last)| <= BATCH_SIZE
  {
    SortedFacts(Below(keys, last));
  }

  /**
   For every table that may change between batches: emitted ids strictly ascend, so none comes twice,
   and each matched in some batch, even when the stream fails; and a completed stream has emitted every
   row that matched throughout.
   */
  lemma ExportComplete(batches: seq<Batch>)
    ensures var (emitted, status) := Emit(batches, None);
            var snaps := Snapshots(batches)[..Queried(batches, None)];
            && Descending(emitted)
            && (forall k | k in emitted :: exists i | 0 <= i < |snaps| :: k in snaps[i])
            && (status.Completed? ==>
                  forall k | k in batches[0].keys && (forall i | 0 <= i < |snaps| :: k in snaps[i]) :: k in emitted)
  {
    EmitIsWalk(batches, None);
    var snaps := Snapshots(batches)[..Queried(batches, None)];
    WalkDescends(snaps, None, BATCH_SIZE);
    forall k | k in Emit(batches, None).0
      ensures exists i | 0 <= i < |snaps| :: k in snaps[i]
    {
      WalkSound(snaps, None, BATCH_SIZE, k);
    }
    if Emit(batches, None).1.Completed? {
      forall k | k in batches[0].keys && forall i | 0 <= i < |snaps| :: k in snaps[i]
        ensures k in Emit(batches, None).0
      {
        WalkComplete(snaps, None, BATCH_SIZE, k);
      }
    }
  }

  /** On a table that does not change the loop ends, with the rows still to come as its measure. */
  method StreamStill(keys: set<Key>) returns (emitted: seq<Key>)
    ensures emitted == Sorted(keys)
  {
    emitted := [];
    var lastId: Option<Key> := None;
    assert Below(keys, None) == keys;
    while true
      invariant Sorted(keys) == emitted + Sorted(Below(keys, lastId))
      decreases |Below(keys, lastId)|
    {
      var rows := Page(keys, lastId, BATCH_SIZE);
      if rows == [] {
        LastPage(keys, lastId, BATCH_SIZE) by { NoRowsLeft(keys, lastId); }
        return;
      }
      FewerLeft(keys, lastId);
      emitted := emitted + rows;
      lastId := Some(rows[|rows| - 1]);
    }
  }

  lemma FewerLeft(keys: set<Key>, last: Option<Key>)
    requires Page(keys, last, BATCH_SIZE) != []
    ensures var rows := Page(keys, last, BATCH_SIZE);
            var next := Some(rows[|rows| - 1]);
            && Sorted(Below(keys, last)) == rows + Sorted(Below(keys, next))
            && |Below(keys, next)| < |Below(keys, last)|
  {
    PageSplits(keys, last, BATCH_SIZE);
    SortedFacts(Below(keys, last));
    SortedFacts(Below(keys, After(last, Page(keys, last, BATCH_SIZE))));
  }
}
