/** The batch writer's goroutine (database/batch_writer.go): its receive and flush loops, proved for any
    statements that other goroutines queue, and any close, between its steps. */
module BatchWriter {
  import opened Log
  import opened Pipeline

  function Flatten(batches: seq<seq<Op>>): seq<Op> {
    if batches == [] then [] else Flatten(batches[..|batches| - 1]) + batches[|batches| - 1]
  }

  lemma FlattenSnoc(batches: seq<seq<Op>>, batch: seq<Op>)
    ensures Flatten(batches + [batch]) == Flatten(batches) + batch
  {
    assert (batches + [batch])[..|batches|] == batches;
  }

  lemma EmptyRun(db: Db)
    ensures ApplyAll(db, []) == db
  {}

  lemma Moved(committed: seq<Op>, batch: seq<Op>, queue: seq<Op>)
    requires queue != []
    ensures committed + (batch + [queue[0]]) + queue[1..] == committed + batch + queue
  {
    assert batch + [queue[0]] + queue[1..] == batch + queue;
  }

  predicate BatchesOk(batches: seq<seq<Op>>) {
    forall i :: 0 <= i < |batches| ==> 1 <= |batches[i]| <= 2000
  }

  /** Nothing is queued while the writer runs. */
  ghost predicate Silent(schedule: nat -> seq<(seq<Op>, bool)>) {
    forall k: nat :: schedule(k) == []
  }

  class Writer {
    const start: Db
    var db: Db
    var writes: seq<Op>
    var done: bool
    var finished: bool
    /** Every statement ever put on the channel, in order, and how many there were when done was closed. */
    ghost var accepted: seq<Op>
    ghost var atClose: nat
    /** Every batch handed to commit, in order. */
    ghost var batches: seq<seq<Op>>

    constructor (db: Db)
      ensures Holding([]) && start == db && accepted == [] && !done && !finished && batches == []
    {
      start, this.db := db, db;
      writes, done, finished := [], false, false;
      accepted, atClose, batches := [], 0, [];
    }

    /** With `batch` in hand: committed batches, batch and channel make up what was accepted, in order, each
        statement once; the tables are the committed statements applied one at a time. */
    ghost predicate Holding(batch: seq<Op>)
      reads this
    {
      && BatchesOk(batches)
      && accepted == Flatten(batches) + batch + writes
      && db == ApplyAll(start, Flatten(batches))
      && (done ==> atClose <= |accepted|)
      && (finished ==> done && atClose <= |Flatten(batches)|)
    }

    /** enqueue, up to its wait for room: refused once done is closed, otherwise last on the channel. A send
        already under way when done closes may still succeed; Others allows it. */
    method Enqueue(op: Op) returns (ok: bool)
      requires Holding([]) && |writes| < QUEUE_SIZE
      modifies this`writes, this`accepted
      ensures Holding([]) && ok == !done
      ensures writes == if ok then old(writes) + [op] else old(writes)
      ensures accepted == if ok then old(accepted) + [op] else old(accepted)
    {
      if done {
        return false;
      }
      writes := writes + [op];
      accepted := accepted + [op];
      return true;
    }

    /** Whatever the rest of the program does between two steps of this goroutine. */
    method Others(batch: seq<Op>, more: seq<Op>, close: bool)
      requires Holding(batch) && !finished
      modifies this`writes, this`accepted, this`done, this`atClose
      ensures Holding(batch) && (old(done) ==> done && atClose == old(atClose))
      ensures writes == old(writes) + more && accepted == old(accepted) + more
      ensures done == (old(done) || close)
      ensures close && !old(done) ==> atClose == |old(accepted)|
    {
      if close && !done {
        done := true;
        atClose := |accepted|;
      }
      assert Flatten(batches) + batch + (writes + more) == Flatten(batches) + batch + writes + more;
      writes := writes + more;
      accepted := accepted + more;
    }

    /** Moves queued statements into the batch until it is full or the channel is seen empty. The schedule
        says what arrives meanwhile, and whether done is closed. */
    method Fill(batch: seq<Op>, schedule: seq<(seq<Op>, bool)>) returns (full: seq<Op>)
      requires Holding(batch) && |batch| <= MAX_BATCH_SIZE && !finished
      modifies this`writes, this`accepted, this`done, this`atClose
      ensures Holding(full) && batch <= full && |full| <= 2000
      ensures |full| == 2000 || writes == []
      ensures schedule == [] ==> |full| + |writes| == |batch| + |old(writes)| && done == old(done)
      ensures old(done) ==> done && atClose == old(atClose)
    {
      hide Flatten;
      hide ApplyAll;
      hide BatchesOk;
      full := batch;
      var tick := 0;
      while |full| < MAX_BATCH_SIZE && |writes| > 0
        invariant Holding(full) && batch <= full && |full| <= MAX_BATCH_SIZE
        invariant schedule == [] ==> |full| + |writes| == |batch| + |old(writes)| && done == old(done)
        invariant old(done) ==> done && atClose == old(atClose)
        decreases MAX_BATCH_SIZE - |full|
      {
        Moved(Flatten(batches), full, writes);
        full := full + [writes[0]];
        writes := writes[1..];
        if tick < |schedule| {
          Others(full, schedule[tick].0, schedule[tick].1);
        }
        tick := tick + 1;
      }
    }

    /** One transaction: every statement of the batch, in order. */
    method Commit(batch: seq<Op>)
      requires Holding(batch) && 1 <= |batch| <= MAX_BATCH_SIZE && !finished
      modifies this`db, this`batches
      ensures Holding([]) && batches == old(batches) + [batch]
      ensures db == ApplyAll(old(db), batch)
    {
      hide Flatten;
      hide Apply;
      hide ApplyAll;
      ghost var before := db;
      EmptyRun(db);
      for i := 0 to |batch|
        invariant db == ApplyAll(before, batch[..i])
        invariant batches == old(batches)
      {
        ApplyAllSnoc(before, batch[..i], batch[i]);
        assert batch[..i + 1] == batch[..i] + [batch[i]];
        db := Apply(db, batch[i]);
      }
      assert batch[..|batch|] == batch;
      FlattenSnoc(batches, batch);
      ApplyAllConcat(start, Flatten(batches), batch);
      assert Flatten(batches) + batch + [] + writes == Flatten(batches) + batch + writes;
      batches := batches + [batch];
    }

    /** One received statement starts a batch. */
    lemma Receive(op: Op, rest: seq<Op>)
      requires Holding([]) && writes == [op] + rest
      ensures accepted == Flatten(batches) + [op] + rest
    {
      hide Flatten;
      assert Flatten(batches) + [op] + rest == Flatten(batches) + [] + writes;
    }

    /** The goroutine, for as many rounds as it gets; schedule(k) is what happens around its k-th round. With
        done closed and statements queued, either branch of the select may be taken. It only ever stops with
        everything that was queued when done was closed handed to commit. */
    method Run(rounds: nat, schedule: nat -> seq<(seq<Op>, bool)>)
      requires Holding([]) && !finished
      modifies this
      ensures Holding([])
      ensures finished ==> done && atClose <= |Flatten(batches)| && Flatten(batches) <= accepted
      ensures old(batches) <= batches
      ensures Silent(schedule) && |old(writes)| < rounds ==> writes == [] && finished == old(done)
    {
      hide Flatten;
      hide ApplyAll;
      hide BatchesOk;
      for k := 0 to rounds
        invariant Holding([]) && !finished && old(batches) <= batches
        invariant Silent(schedule) ==>
                    done == old(done) && (|writes| + k <= |old(writes)| || (!done && writes == []))
      {
        if schedule(k) != [] {
          Others([], schedule(k)[0].0, schedule(k)[0].1);
        }
        var stop: bool := *;
        if done && (stop || writes == []) {
          Flush(rounds, schedule);
          return;
        }
        if |writes| > 0 {
          var op := writes[0];
          assert writes == [op] + writes[1..];
          Receive(op, writes[1..]);
          writes := writes[1..];
          var batch := Fill([op], schedule(k));
          Commit(batch);
        }
      }
    }

    /** The done branch: batch after batch until one comes up empty, then finished is closed. */
    method Flush(rounds: nat, schedule: nat -> seq<(seq<Op>, bool)>)
      requires Holding([]) && done && !finished
      modifies this
      ensures Holding([]) && done && atClose == old(atClose)
      ensures finished ==> atClose <= |Flatten(batches)| && Flatten(batches) <= accepted
      ensures old(batches) <= batches
      ensures Silent(schedule) && |old(writes)| < rounds ==> finished && writes == []
    {
      hide Flatten;
      hide ApplyAll;
      hide BatchesOk;
      for k := 0 to rounds
        invariant Holding([]) && done && !finished && atClose == old(atClose) && old(batches) <= batches
        invariant Silent(schedule) ==> |writes| + k <= |old(writes)|
      {
        var batch := Fill([], schedule(k));
        if batch == [] {
          finished := true;
          assert accepted == Flatten(batches) + [] + [];
          return;
        }
        Commit(batch);
      }
    }

    /** The tables with the batch and the channel folded in are every accepted statement applied in order. */
    lemma HoldingLogical(batch: seq<Op>)
      requires Holding(batch)
      ensures Logical(Pipeline.Writer(db, batch, writes)) == ApplyAll(start, accepted)
    {
      ApplyAllConcat(start, Flatten(batches), batch + writes);
      assert Flatten(batches) + (batch + writes) == Flatten(batches) + batch + writes;
    }
  }
}
