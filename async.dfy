/**
 * The asynchronous operation processor the coordinator hands every tier
 * write to. Only admission is modelled: each enqueue attempt is either
 * scheduled or rejected because the buffer is full; scheduled writes are
 * recorded in a log and never executed here.
 */
module Async {
  import opened Tiers
  import opened Config

  /** A scheduled tier write: `caches[tier].Store(items, ttl)`. */
  datatype Write = Write(tier: nat, items: map<Key, Value>, ttl: Duration)

  /** The result of `EnqueueAsync`: nil, or `ErrAsyncBufferFull`. */
  datatype EnqueueResult = Enqueued | ErrAsyncBufferFull

  /** The writes among `ws` whose attempt was admitted, attempts numbered from `start`. */
  function Accepted(admit: nat -> bool, start: nat, ws: seq<Write>): seq<Write>
    decreases |ws|
  {
    if ws == [] then []
    else
      var n := |ws| - 1;
      Accepted(admit, start, ws[..n]) + (if admit(start + n) then [ws[n]] else [])
  }

  /** How many of the `n` attempts numbered from `start` find the buffer full. */
  function Rejected(admit: nat -> bool, start: nat, n: nat): nat
  {
    if n == 0 then 0
    else Rejected(admit, start, n - 1) + (if admit(start + n - 1) then 0 else 1)
  }

  /** One more attempt: its write is appended exactly when it is admitted, and counted as a drop otherwise. */
  lemma AcceptedSnoc(admit: nat -> bool, start: nat, ws: seq<Write>, w: Write)
    ensures Accepted(admit, start, ws + [w]) ==
      Accepted(admit, start, ws) + (if admit(start + |ws|) then [w] else [])
    ensures Rejected(admit, start, |ws| + 1) ==
      Rejected(admit, start, |ws|) + (if admit(start + |ws|) then 0 else 1)
  {
    assert (ws + [w])[..|ws|] == ws;
  }

  /** Every attempt is either scheduled or counted as a drop, never both. */
  lemma {:induction false} AcceptedPlusRejected(admit: nat -> bool, start: nat, ws: seq<Write>)
    ensures |Accepted(admit, start, ws)| + Rejected(admit, start, |ws|) == |ws|
    decreases |ws|
  {
    if ws != [] {
      AcceptedPlusRejected(admit, start, ws[..|ws| - 1]);
    }
  }

  /** A write is scheduled exactly when it is one of the attempts and its attempt was admitted. */
  lemma {:induction false} AcceptedMembers(admit: nat -> bool, start: nat, ws: seq<Write>, w: Write)
    ensures w in Accepted(admit, start, ws) <==>
      exists j :: 0 <= j < |ws| && ws[j] == w && admit(start + j)
    decreases |ws|
  {
    if ws != [] {
      var n := |ws| - 1;
      AcceptedMembers(admit, start, ws[..n], w);
      if w in Accepted(admit, start, ws[..n]) {
        var j :| 0 <= j < n && ws[..n][j] == w && admit(start + j);
        assert ws[j] == w;
      }
      if exists j :: 0 <= j < |ws| && ws[j] == w && admit(start + j) {
        var j :| 0 <= j < |ws| && ws[j] == w && admit(start + j);
        if j < n {
          assert ws[..n][j] == w;
        }
      }
    }
  }

  /** Tier indices strictly increase along `ws`. */
  predicate InTierOrder(ws: seq<Write>)
  {
    forall i, j :: 0 <= i < j < |ws| ==> ws[i].tier < ws[j].tier
  }

  /** Admission keeps the order of the attempts. */
  lemma {:induction false} AcceptedInOrder(admit: nat -> bool, start: nat, ws: seq<Write>)
    requires InTierOrder(ws)
    ensures InTierOrder(Accepted(admit, start, ws))
    decreases |ws|
  {
    if ws != [] {
      var n := |ws| - 1;
      var prev := Accepted(admit, start, ws[..n]);
      AcceptedInOrder(admit, start, ws[..n]);
      forall w | w in prev ensures w.tier < ws[n].tier {
        AcceptedMembers(admit, start, ws[..n], w);
        var j :| 0 <= j < n && ws[..n][j] == w && admit(start + j);
      }
    }
  }

  /** With every attempt admitted, everything is scheduled and nothing dropped. */
  lemma {:induction false} AllAdmitted(admit: nat -> bool, start: nat, ws: seq<Write>)
    requires forall j :: start <= j < start + |ws| ==> admit(j)
    ensures Accepted(admit, start, ws) == ws
    ensures Rejected(admit, start, |ws|) == 0
    decreases |ws|
  {
    if ws != [] {
      var n := |ws| - 1;
      AllAdmitted(admit, start, ws[..n]);
      assert ws[..n] + [ws[n]] == ws;
    }
  }

  /** With the buffer full for every attempt, nothing is scheduled and every attempt is a drop. */
  lemma {:induction false} NoneAdmitted(admit: nat -> bool, start: nat, ws: seq<Write>)
    requires forall j :: start <= j < start + |ws| ==> !admit(j)
    ensures Accepted(admit, start, ws) == []
    ensures Rejected(admit, start, |ws|) == |ws|
    decreases |ws|
  {
    if ws != [] {
      NoneAdmitted(admit, start, ws[..|ws| - 1]);
    }
  }

  class AsyncOperationProcessor {
    /** Queue depth and worker count it was built with; admission is abstracted by `admit`. */
    const bufferSize: int
    const concurrency: int
    /**
     * Admission oracle: whether the attempt with this sequence number finds
     * room in the buffer. It stands for the progress of the background
     * workers, which is not modelled.
     */
    const admit: nat -> bool
    /** Number of enqueue attempts so far. */
    var attempts: nat
    /** Every admitted write, in admission order. */
    var scheduled: seq<Write>

    constructor (bufferSize: int, concurrency: int, admit: nat -> bool)
      ensures this.bufferSize == bufferSize && this.concurrency == concurrency
      ensures this.admit == admit
      ensures attempts == 0 && scheduled == []
    {
      this.bufferSize := bufferSize;
      this.concurrency := concurrency;
      this.admit := admit;
      attempts := 0;
      scheduled := [];
    }

    /** One non-blocking enqueue attempt. */
    method EnqueueAsync(w: Write) returns (r: EnqueueResult)
      modifies this
      ensures attempts == old(attempts) + 1
      ensures r == (if admit(old(attempts)) then Enqueued else ErrAsyncBufferFull)
      ensures scheduled == old(scheduled) + (if admit(old(attempts)) then [w] else [])
    {
      r := if admit(attempts) then Enqueued else ErrAsyncBufferFull;
      if r == Enqueued {
        scheduled := scheduled + [w];
      }
      attempts := attempts + 1;
    }
  }
}
