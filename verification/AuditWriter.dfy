/** The asynchronous audit writer: a bounded channel, a batch, retried inserts and a final drain. */
module AuditWriter {

  const BUFFER_SIZE: nat := 1024
  const BATCH_SIZE: nat := 100

  /** What an insert call comes to; a failed one may still have been committed. */
  datatype Outcome = Inserted | Failed(committed: bool)

  /** The answers to the inserts of one flush, by attempt and position in the batch. */
  type Answers = (nat, nat) -> Outcome

  // ----- one flush as a function of the database's answers -----

  /** The rows one attempt leaves behind from position i on, and whether it went through. */
  function AttemptFrom<E>(batch: seq<E>, answers: Answers, attempt: nat, i: nat): (seq<E>, bool)
    requires i <= |batch|
    decreases |batch| - i
  {
    if i == |batch| then ([], true)
    else match answers(attempt, i)
      case Failed(committed) => (if committed then [batch[i]] else [], false)
      case Inserted => var (rows, ok) := AttemptFrom(batch, answers, attempt, i + 1); ([batch[i]] + rows, ok)
  }

  /** The rows of a whole flush and whether the batch was given up. */
  function Flushed<E>(batch: seq<E>, answers: Answers): (seq<E>, bool) {
    var (rows, ok) := AttemptFrom(batch, answers, 0, 0);
    if ok then (rows, false)
    else var (again, ok') := AttemptFrom(batch, answers, 1, 0); (rows + again, !ok')
  }

  /** A batch that was kept: all of it, after at most one broken-off prefix. A lost one: two prefixes. */
  ghost predicate FlushShape<E>(batch: seq<E>, rows: seq<E>, lost: bool) {
    if lost then exists j, k :: 0 <= j <= |batch| && 0 <= k <= |batch| && rows == batch[..j] + batch[..k]
    else exists j :: 0 <= j <= |batch| && rows == batch[..j] + batch
  }

  lemma {:induction false} AttemptIsPrefix<E>(batch: seq<E>, answers: Answers, attempt: nat, i: nat)
    requires i <= |batch|
    ensures var (rows, ok) := AttemptFrom(batch, answers, attempt, i);
      && i + |rows| <= |batch| && rows == batch[i..i + |rows|]
      && (ok ==> i + |rows| == |batch|)
    decreases |batch| - i
  {
    if i < |batch| && answers(attempt, i).Inserted? {
      AttemptIsPrefix(batch, answers, attempt, i + 1);
    }
  }

  lemma FlushedHasShape<E>(batch: seq<E>, answers: Answers)
    ensures var (rows, lost) := Flushed(batch, answers); FlushShape(batch, rows, lost)
  {
    var (rows, ok) := AttemptFrom(batch, answers, 0, 0);
    var (again, ok') := AttemptFrom(batch, answers, 1, 0);
    AttemptIsPrefix(batch, answers, 0, 0);
    AttemptIsPrefix(batch, answers, 1, 0);
    if ok {
      assert rows == batch[..0] + batch;
    } else if ok' {
      assert rows + again == batch[..|rows|] + batch;
    } else {
      assert rows + again == batch[..|rows|] + batch[..|again|];
    }
  }

  /** The first failing insert of an attempt. */
  ghost predicate FailsAt<E>(batch: seq<E>, answers: Answers, attempt: nat, i: nat, k: nat) {
    i <= k < |batch| && answers(attempt, k).Failed? && forall j :: i <= j < k ==> answers(attempt, j).Inserted?
  }

  lemma SliceFrom<E>(s: seq<E>, i: nat, j: nat)
    requires i < j <= |s|
    ensures [s[i]] + s[i + 1..j] == s[i..j]
  {
  }

  /** An attempt goes through exactly if no insert fails, and then inserts everything. */
  lemma {:induction false} AttemptGoesThrough<E>(batch: seq<E>, answers: Answers, attempt: nat, i: nat)
    requires i <= |batch|
    ensures AttemptFrom(batch, answers, attempt, i).1
      <==> forall k :: i <= k < |batch| ==> answers(attempt, k).Inserted?
    ensures AttemptFrom(batch, answers, attempt, i).1 ==> AttemptFrom(batch, answers, attempt, i).0 == batch[i..|batch|]
    decreases |batch| - i
  {
    if i < |batch| && answers(attempt, i).Inserted? {
      AttemptGoesThrough(batch, answers, attempt, i + 1);
      SliceFrom(batch, i, |batch|);
    }
  }

  /** Else it stops behind its first failing insert, which may have been committed. */
  lemma {:induction false} AttemptStops<E>(batch: seq<E>, answers: Answers, attempt: nat, i: nat, k: nat)
    requires FailsAt(batch, answers, attempt, i, k)
    ensures !AttemptFrom(batch, answers, attempt, i).1
    ensures AttemptFrom(batch, answers, attempt, i).0
      == batch[i..if answers(attempt, k).committed then k + 1 else k]
    decreases |batch| - i
  {
    if i < k {
      AttemptStops(batch, answers, attempt, i + 1, k);
      SliceFrom(batch, i, if answers(attempt, k).committed then k + 1 else k);
    }
  }

  ghost predicate FailsSomewhere<E>(batch: seq<E>, answers: Answers, attempt: nat) {
    exists i :: 0 <= i < |batch| && answers(attempt, i).Failed?
  }

  /** A batch is given up exactly when an insert fails in both attempts; one attempt that goes through is enough. */
  lemma LostIff<E>(batch: seq<E>, answers: Answers)
    ensures Flushed(batch, answers).1
      <==> FailsSomewhere(batch, answers, 0) && FailsSomewhere(batch, answers, 1)
    ensures (forall i :: 0 <= i < |batch| ==> answers(0, i).Inserted?) ==> Flushed(batch, answers).0 == batch
  {
    AttemptGoesThrough(batch, answers, 0, 0);
    AttemptGoesThrough(batch, answers, 1, 0);
  }

  lemma PrefixAtMost<E>(s: seq<E>, k: nat)
    requires k <= |s|
    ensures multiset(s[..k]) <= multiset(s)
  {
    assert s == s[..k] + s[k..];
    assert multiset(s) == multiset(s[..k]) + multiset(s[k..]);
  }

  /** Every entry of a kept batch is inserted once or twice, every entry of a lost one at most twice. */
  lemma InsertedOnceOrTwice<E>(batch: seq<E>, answers: Answers)
    ensures var (rows, lost) := Flushed(batch, answers);
      && multiset(rows) <= multiset(batch) + multiset(batch)
      && (!lost ==> multiset(batch) <= multiset(rows))
  {
    FlushedHasShape(batch, answers);
    var (rows, lost) := Flushed(batch, answers);
    if lost {
      var j, k :| 0 <= j <= |batch| && 0 <= k <= |batch| && rows == batch[..j] + batch[..k];
      PrefixAtMost(batch, j);
      PrefixAtMost(batch, k);
    } else {
      var j :| 0 <= j <= |batch| && rows == batch[..j] + batch;
      PrefixAtMost(batch, j);
    }
  }

  // ----- the history of flushes -----

  /** A finished flush: the batch and what the database answered. */
  datatype Flush<E> = Flush(batch: seq<E>, answers: Answers)

  function Batches<E>(fs: seq<Flush<E>>): seq<E> {
    if fs == [] then [] else Batches(fs[..|fs| - 1]) + fs[|fs| - 1].batch
  }

  function Rows<E>(fs: seq<Flush<E>>): seq<E> {
    if fs == [] then [] else Rows(fs[..|fs| - 1]) + Flushed(fs[|fs| - 1].batch, fs[|fs| - 1].answers).0
  }

  function Lost<E>(fs: seq<Flush<E>>): nat {
    if fs == [] then 0
    else Lost(fs[..|fs| - 1]) + (if Flushed(fs[|fs| - 1].batch, fs[|fs| - 1].answers).1 then 1 else 0)
  }

  /** The entries of the batches that were not given up. */
  function Kept<E>(fs: seq<Flush<E>>): seq<E> {
    if fs == [] then []
    else
      var f := fs[|fs| - 1];
      Kept(fs[..|fs| - 1]) + (if Flushed(f.batch, f.answers).1 then [] else f.batch)
  }

  lemma AppendFlush<E>(fs: seq<Flush<E>>, batch: seq<E>, answers: Answers)
    ensures var fs' := fs + [Flush(batch, answers)];
      && Batches(fs') == Batches(fs) + batch && Rows(fs') == Rows(fs) + Flushed(batch, answers).0
      && Lost(fs') == Lost(fs) + (if Flushed(batch, answers).1 then 1 else 0)
  {
    assert (fs + [Flush(batch, answers)])[..|fs|] == fs;
  }

  /**
    No entry is in the table more than twice and none of a kept batch is missing, whatever became
    of the other batches; without a lost batch every entry is there.
   */
  lemma {:induction false} RowsCoverBatches<E>(fs: seq<Flush<E>>)
    ensures multiset(Rows(fs)) <= multiset(Batches(fs)) + multiset(Batches(fs))
    ensures multiset(Kept(fs)) <= multiset(Rows(fs))
    ensures multiset(Kept(fs)) <= multiset(Batches(fs))
    ensures Lost(fs) == 0 ==> Kept(fs) == Batches(fs)
    decreases |fs|
  {
    if fs != [] {
      RowsCoverBatches(fs[..|fs| - 1]);
      InsertedOnceOrTwice(fs[|fs| - 1].batch, fs[|fs| - 1].answers);
    }
  }

  lemma {:induction false} Drained<E>(fs: seq<Flush<E>>, enqueued: seq<E>, rows: seq<E>, lost: nat)
    requires Balanced(fs, [], [], enqueued, rows, lost)
    ensures Batches(fs) == enqueued
    ensures multiset(rows) <= multiset(enqueued) + multiset(enqueued)
    ensures multiset(Kept(fs)) <= multiset(rows)
    ensures lost == 0 ==> multiset(enqueued) <= multiset(rows)
  {
    RowsCoverBatches(fs);
    assert enqueued == Batches(fs);
  }

  /** Every accepted entry is flushed, among the pending ones or in the channel, in order. */
  ghost predicate Balanced<E>(fs: seq<Flush<E>>, pending: seq<E>, ch: seq<E>, enqueued: seq<E>, rows: seq<E>,
                              lost: nat) {
    && enqueued == Batches(fs) + pending + ch
    && rows == Rows(fs) && lost == Lost(fs)
    && (forall i :: 0 <= i < |fs| ==> 1 <= |fs[i].batch| <= BATCH_SIZE)
  }

  lemma {:induction false} FlushKeepsBalance<E>(fs: seq<Flush<E>>, batch: seq<E>, answers: Answers, ch: seq<E>,
    enqueued: seq<E>, rows: seq<E>, lost: nat, fs': seq<Flush<E>>, rows': seq<E>, lost': nat)
    requires Balanced(fs, batch, ch, enqueued, rows, lost) && 1 <= |batch| <= BATCH_SIZE
    requires fs' == fs + [Flush(batch, answers)] && rows' == rows + Flushed(batch, answers).0
    requires lost' == lost + (if Flushed(batch, answers).1 then 1 else 0)
    ensures Balanced(fs', [], ch, enqueued, rows', lost') && Batches(fs') == Batches(fs) + batch
  {
    AppendFlush(fs, batch, answers);
    assert Batches(fs) + batch + [] + ch == Batches(fs) + batch + ch;
  }

  lemma MovedOn<E>(flushed: seq<E>, batch: seq<E>, ch: seq<E>)
    requires ch != []
    ensures flushed + (batch + [ch[0]]) + ch[1..] == flushed + batch + ch
    ensures flushed + (batch + [ch[0]]) == flushed + batch + [ch[0]]
  {
  }

  // ----- the writer -----

  class Writer<E> {
    /** The channel, the consumer's batch, the table and the two drop counters. */
    var ch: seq<E>
    var closed: bool
    var done: bool
    var batch: seq<E>
    var rows: seq<E>
    var dropped: nat
    var batchesDropped: nat
    /** All entries offered to Record, the accepted ones in order, and the flushes so far. */
    ghost var offered: nat
    ghost var enqueued: seq<E>
    ghost var flushes: seq<Flush<E>>

    ghost predicate Accounted(pending: seq<E>)
      reads this
    {
      Balanced(flushes, pending, ch, enqueued, rows, batchesDropped) && offered == |enqueued| + dropped
    }

    ghost predicate Valid()
      reads this
    {
      && |ch| <= BUFFER_SIZE && |batch| < BATCH_SIZE
      && Accounted(batch)
      && (done ==> closed && batch == [] && ch == [])
    }

    constructor ()
      ensures Valid() && !closed && !done && enqueued == [] && offered == 0
    {
      ch, closed, done, batch, rows, dropped, batchesDropped := [], false, false, [], [], 0, 0;
      offered, enqueued, flushes := 0, [], [];
    }

    /** A non-blocking send: into the channel if there is room, else dropped and counted. */
    method Record(e: E)
      requires Valid() && !closed
      modifies this
      ensures Valid() && closed == old(closed) && done == old(done)
      ensures batch == old(batch) && rows == old(rows) && flushes == old(flushes)
      ensures offered == old(offered) + 1
      ensures if |old(ch)| < BUFFER_SIZE
        then ch == old(ch) + [e] && enqueued == old(enqueued) + [e] && dropped == old(dropped)
        else ch == old(ch) && enqueued == old(enqueued) && dropped == old(dropped) + 1
    {
      if |ch| < BUFFER_SIZE {
        ch := ch + [e];
        enqueued := enqueued + [e];
      } else {
        dropped := dropped + 1;
      }
      offered := offered + 1;
    }

    /** Inserts a batch, once more from its start if an insert fails, then gives it up. */
    method InsertBatch(entries: seq<E>, answers: Answers) returns (lost: bool)
      modifies this`rows
      ensures rows == old(rows) + Flushed(entries, answers).0 && lost == Flushed(entries, answers).1
    {
      var attempt := 0;
      while attempt < 2
        invariant 0 <= attempt <= 2
        invariant attempt == 0 ==> rows == old(rows)
        invariant attempt == 1
          ==> !AttemptFrom(entries, answers, 0, 0).1 && rows == old(rows) + AttemptFrom(entries, answers, 0, 0).0
        invariant attempt == 2 ==> rows == old(rows) + Flushed(entries, answers).0 && Flushed(entries, answers).1
      {
        var failed := InsertAll(entries, answers, attempt);
        if !failed {
          return false;
        }
        attempt := attempt + 1;
      }
      lost := true;
    }

    /** One attempt: the inserts in order up to the first failing one. */
    method InsertAll(entries: seq<E>, answers: Answers, attempt: nat) returns (failed: bool)
      modifies this`rows
      ensures (rows, failed)
        == (old(rows) + AttemptFrom(entries, answers, attempt, 0).0, !AttemptFrom(entries, answers, attempt, 0).1)
    {
      var i := 0;
      while i < |entries|
        invariant 0 <= i <= |entries|
        invariant rows + AttemptFrom(entries, answers, attempt, i).0
          == old(rows) + AttemptFrom(entries, answers, attempt, 0).0
        invariant AttemptFrom(entries, answers, attempt, i).1 == AttemptFrom(entries, answers, attempt, 0).1
      {
        match answers(attempt, i) {
          case Inserted =>
            assert rows + [entries[i]] + AttemptFrom(entries, answers, attempt, i + 1).0
              == rows + AttemptFrom(entries, answers, attempt, i).0;
            rows := rows + [entries[i]];
          case Failed(committed) =>
            if committed {
              rows := rows + [entries[i]];
            } else {
              assert rows + [] == rows;
            }
            return true;
        }
        i := i + 1;
      }
      assert rows + [] == rows;
      failed := false;
    }

    /** Hands the batch to the database; what the channel holds is not touched. */
    method FlushBatch(entries: seq<E>, answers: Answers)
      requires |entries| <= BATCH_SIZE && |ch| <= BUFFER_SIZE && !done
      requires Accounted(entries)
      modifies this`rows, this`batch, this`batchesDropped, this`flushes
      ensures Valid() && batch == []
      ensures Batches(flushes) == old(Batches(flushes)) + entries
    {
      batch := [];
      if entries != [] {
        ghost var after := flushes + [Flush(entries, answers)];
        FlushKeepsBalance(flushes, entries, answers, ch, enqueued, rows, batchesDropped, after,
                          rows + Flushed(entries, answers).0,
          batchesDropped + (if Flushed(entries, answers).1 then 1 else 0));
        flushes := after;
        var lost := InsertBatch(entries, answers);
        if lost {
          batchesDropped := batchesDropped + 1;
        }
      } else {
        assert Batches(flushes) + entries == Batches(flushes);
      }
    }

    /** The consumer takes the oldest entry and flushes when the batch is full. */
    method Receive(answers: Answers)
      requires Valid() && ch != []
      modifies this
      ensures Valid() && enqueued == old(enqueued) && offered == old(offered) && closed == old(closed)
        && done == old(done)
      ensures ch == old(ch)[1..] && dropped == old(dropped)
      ensures Batches(flushes) + batch == old(Batches(flushes) + batch) + [old(ch)[0]]
      ensures batch == if |old(batch)| + 1 < BATCH_SIZE then old(batch) + [old(ch)[0]] else []
    {
      var e := ch[0];
      MovedOn(Batches(flushes), batch, ch);
      ch := ch[1..];
      if |batch| + 1 >= BATCH_SIZE {
        FlushBatch(batch + [e], answers);
      } else {
        batch := batch + [e];
      }
    }

    /** The ticker flushes a batch that is not empty. */
    method Tick(answers: Answers)
      requires Valid() && !done
      modifies this
      ensures Valid() && enqueued == old(enqueued) && offered == old(offered) && closed == old(closed)
        && done == old(done)
      ensures ch == old(ch) && dropped == old(dropped) && batch == []
      ensures Batches(flushes) == old(Batches(flushes) + batch)
    {
      if |batch| > 0 {
        FlushBatch(batch, answers);
      }
    }

    /** The consumer works off a closed channel, ticks or not. */
    method Drain(tick: nat -> bool, answers: nat -> Answers) returns (n: nat)
      requires Valid() && closed && !done
      modifies this
      ensures Valid() && closed && !done && ch == []
      ensures enqueued == old(enqueued) && dropped == old(dropped)
    {
      n := 0;
      while |ch| > 0
        invariant Valid() && closed && !done
        invariant enqueued == old(enqueued) && dropped == old(dropped)
        decreases |ch|
      {
        if tick(n) {
          Tick(answers(n));
        }
        Receive(answers(n + 1));
        n := n + 2;
      }
    }

    /** Close: no more sends; the consumer drains the channel and flushes the rest. */
    method Close(tick: nat -> bool, answers: nat -> Answers)
      requires Valid() && !closed && !done
      modifies this
      ensures Valid() && closed && done
      ensures enqueued == old(enqueued) && dropped == old(dropped)
      ensures Batches(flushes) == enqueued
      ensures multiset(rows) <= multiset(enqueued) + multiset(enqueued)
      ensures multiset(Kept(flushes)) <= multiset(rows)
      ensures batchesDropped == 0 ==> multiset(enqueued) <= multiset(rows)
    {
      closed := true;
      var n := Drain(tick, answers);
      FlushBatch(batch, answers(n));
      Drained(flushes, enqueued, rows, batchesDropped);
      done := true;
    }
  }
}
