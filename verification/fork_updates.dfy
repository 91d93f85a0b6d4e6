/** `update` as an interleaved transaction: begin, lock, read, insert the new head, conditional write and commit. Deletes
    take the same lock; creates and all other writers commit at any time.

    On PostgreSQL reads and the conditional write see the latest committed rows and the advisory lock of a fork is held
    to the end. On SQLite the lock does nothing, a transaction sees its snapshot, and a write commits only if nothing was
    committed since. */
module ForkUpdates {
  import opened Common

  /** How far an update has come: `previous` is the head it read, `head` the one it inserted. */
  datatype Stage = Begun | Locked | HasRead(previous: Id) | HasHead(previous: Id, head: Id)

  /** `expected` is the head the caller expects; a delete has no further stages after its lock. */
  datatype Txn = Txn(fork: Id, deletes: bool, expected: Option<Id>, stage: Stage, snapshot: map<Id, Id>, began: nat)

  /** A committed update. */
  datatype Change = Change(fork: Id, expected: Option<Id>, previous: Id, head: Id)

  /** `heads` is the current head of every fork, `minted` every id handed out, `log` the committed updates in order. */
  datatype World = World(backend: Backend, heads: map<Id, Id>, commits: nat, locks: map<Id, Id>, txns: map<Id, Txn>,
                         minted: set<Id>, log: seq<Change>)

  datatype Event =
    | Begin(x: Id, fork: Id, deletes: bool, expected: Option<Id>)
    | Lock(x: Id)
    | Read(x: Id)
    | InsertHead(x: Id, head: Id)
    | Write(x: Id)
    | Drop(x: Id)
    | Abort(x: Id)
    | Create(fork: Id, head: Id)
    | Other

  function Sees(w: World, x: Id): map<Id, Id>
    requires x in w.txns
  {
    if w.backend.Postgres? then w.heads else w.txns[x].snapshot
  }

  predicate MayCommit(w: World, x: Id)
    requires x in w.txns
  {
    w.backend.Sqlite? ==> w.commits == w.txns[x].began
  }

  predicate Enabled(w: World, e: Event)
  {
    match e
    case Begin(x, _, _, _) => x !in w.txns
    case Lock(x) => x in w.txns && w.txns[x].stage.Begun? && (w.backend.Postgres? ==> w.txns[x].fork !in w.locks)
    case Read(x) => x in w.txns && w.txns[x].stage.Locked? && !w.txns[x].deletes
    case InsertHead(x, head) => x in w.txns && w.txns[x].stage.HasRead? && head !in w.minted
    case Write(x) => x in w.txns && w.txns[x].stage.HasHead? && MayCommit(w, x)
    case Drop(x) => x in w.txns && w.txns[x].stage.Locked? && w.txns[x].deletes && MayCommit(w, x)
    case Abort(x) => x in w.txns
    case Create(fork, head) => fork !in w.minted && head !in w.minted && fork != head
    case Other => true
  }

  /** Ending a transaction releases its lock. */
  function Ended(w: World, x: Id): World
  {
    w.(txns := w.txns - {x}, locks := map f | f in w.locks && w.locks[f] != x :: w.locks[f])
  }

  /** The conditional write finds the fork with the head that was read. */
  predicate Matches(w: World, x: Id)
    requires x in w.txns && w.txns[x].stage.HasHead?
  {
    w.txns[x].fork in Sees(w, x) && Sees(w, x)[w.txns[x].fork] == w.txns[x].stage.previous
  }

  function Step(w: World, e: Event): World
    requires Enabled(w, e)
  {
    match e
    case Begin(x, fork, deletes, expected) =>
      w.(txns := w.txns[x := Txn(fork, deletes, expected, Begun, w.heads, w.commits)])
    case Lock(x) =>
      w.(txns := w.txns[x := w.txns[x].(stage := Locked)],
         locks := if w.backend.Postgres? then w.locks[w.txns[x].fork := x] else w.locks)
    case Read(x) =>
      var t, rows := w.txns[x], Sees(w, x);
      if t.fork !in rows || (t.expected.Some? && t.expected.value != rows[t.fork]) then Ended(w, x)
      else w.(txns := w.txns[x := t.(stage := HasRead(rows[t.fork]))])
    case InsertHead(x, head) =>
      w.(txns := w.txns[x := w.txns[x].(stage := HasHead(w.txns[x].stage.previous, head))], minted := w.minted + {head})
    case Write(x) =>
      var t := w.txns[x];
      if !Matches(w, x) then Ended(w, x)
      else Ended(w.(heads := w.heads[t.fork := t.stage.head], commits := w.commits + 1,
                    log := w.log + [Change(t.fork, t.expected, t.stage.previous, t.stage.head)]), x)
    case Drop(x) => Ended(w.(heads := w.heads - {w.txns[x].fork}, commits := w.commits + 1), x)
    case Abort(x) => Ended(w, x)
    case Create(fork, head) =>
      w.(heads := w.heads[fork := head], commits := w.commits + 1, minted := w.minted + {fork, head})
    case Other => w.(commits := w.commits + 1)
  }

  // ---------------------------------------------------------------- ids

  function PreviousOf(s: Stage): set<Id>
  {
    match s
    case HasRead(previous) => {previous}
    case HasHead(previous, _) => {previous}
    case _ => {}
  }

  /** The heads a transaction has seen. */
  function Seen(t: Txn): set<Id>
  {
    PreviousOf(t.stage) + t.snapshot.Values
  }

  ghost predicate TxnIds(minted: set<Id>, t: Txn)
  {
    Seen(t) <= minted && t.snapshot.Keys <= minted && (t.stage.HasHead? ==> t.stage.head in minted)
  }

  /** Every id that is in use was handed out. */
  ghost predicate IdsMinted(w: World)
  {
    && w.heads.Keys <= w.minted && w.heads.Values <= w.minted
    && (forall k :: 0 <= k < |w.log| ==> w.log[k].fork in w.minted && w.log[k].previous in w.minted)
    && (forall x :: x in w.txns ==> TxnIds(w.minted, w.txns[x]))
  }

  /** A head that was inserted and is not yet installed is nowhere else. */
  ghost predicate PendingIsNew(w: World, x: Id)
    requires x in w.txns && w.txns[x].stage.HasHead?
  {
    var h := w.txns[x].stage.head;
    && h !in w.heads.Values && (forall k :: 0 <= k < |w.log| ==> w.log[k].previous != h)
    && (forall y :: y in w.txns ==> h !in Seen(w.txns[y]))
    && (forall y :: y in w.txns && y != x && w.txns[y].stage.HasHead? ==> w.txns[y].stage.head != h)
  }

  ghost predicate PendingAreNew(w: World)
  {
    forall x :: x in w.txns && w.txns[x].stage.HasHead? ==> PendingIsNew(w, x)
  }

  // ---------------------------------------------------------------- consumed heads

  /** A head that an update has replaced is not the head of that fork any more. */
  ghost predicate ConsumedAreGone(w: World)
  {
    forall k :: 0 <= k < |w.log| && w.log[k].fork in w.heads ==> w.heads[w.log[k].fork] != w.log[k].previous
  }

  /** No head of a fork was replaced by two updates, and every update replaced the head its caller expected. */
  ghost predicate ConsumedOnce(w: World)
  {
    && (forall j, k :: 0 <= j < k < |w.log| && w.log[j].fork == w.log[k].fork ==> w.log[j].previous != w.log[k].previous)
    && (forall k :: 0 <= k < |w.log| && w.log[k].expected.Some? ==> w.log[k].expected.value == w.log[k].previous)
  }

  // ---------------------------------------------------------------- transactions

  /** What a transaction knows: under its lock, or while its snapshot is the newest, the head it read is current. */
  ghost predicate TxnInv(w: World, x: Id)
    requires x in w.txns
  {
    var t := w.txns[x];
    && t.began <= w.commits && (t.began == w.commits ==> t.snapshot == w.heads)
    && (w.backend.Postgres? && !t.stage.Begun? ==> t.fork in w.locks && w.locks[t.fork] == x)
    && forall p :: p in PreviousOf(t.stage) ==>
         && t.fork in Sees(w, x) && Sees(w, x)[t.fork] == p
         && (t.expected.Some? ==> t.expected.value == p)
  }

  ghost predicate TxnsInv(w: World)
  {
    && (forall x :: x in w.txns ==> TxnInv(w, x))
    && (forall f :: f in w.locks ==> w.locks[f] in w.txns && w.txns[w.locks[f]].fork == f)
  }

  ghost predicate WorldInv(w: World)
  {
    IdsMinted(w) && PendingAreNew(w) && ConsumedAreGone(w) && ConsumedOnce(w) && TxnsInv(w)
  }

  /** Steps that commit; the others change transactions and locks only. */
  predicate Commits(e: Event)
  {
    e.Write? || e.Drop? || e.Create? || e.Other?
  }

  lemma {:induction false} LocalStepKeepsIds(w: World, e: Event)
    requires IdsMinted(w) && Enabled(w, e) && !Commits(e)
    ensures IdsMinted(Step(w, e))
  {
  }

  lemma {:induction false} CommitKeepsIds(w: World, e: Event)
    requires IdsMinted(w) && Enabled(w, e) && Commits(e)
    ensures IdsMinted(Step(w, e))
  {
  }

  lemma {:induction false} LocalStepKeepsPending(w: World, e: Event)
    requires IdsMinted(w) && PendingAreNew(w) && Enabled(w, e) && !Commits(e)
    ensures PendingAreNew(Step(w, e))
  {
    var w' := Step(w, e);
    forall x | x in w'.txns && w'.txns[x].stage.HasHead? ensures PendingIsNew(w', x) {
      if !e.InsertHead? || e.x != x { assert PendingIsNew(w, x); }
    }
  }

  lemma {:induction false} CommitKeepsPending(w: World, e: Event)
    requires IdsMinted(w) && PendingAreNew(w) && Enabled(w, e) && Commits(e)
    ensures PendingAreNew(Step(w, e))
  {
    var w' := Step(w, e);
    forall x | x in w'.txns && w'.txns[x].stage.HasHead? ensures PendingIsNew(w', x) { assert PendingIsNew(w, x); }
  }

  /** The conditional write never misses: whoever may write still sees the head it read as the committed one. */
  lemma {:induction false} WriteNeverMisses(w: World, x: Id)
    requires TxnsInv(w) && Enabled(w, Write(x))
    ensures Matches(w, x) && Sees(w, x) == w.heads
  {
    assert TxnInv(w, x);
    assert w.txns[x].stage.previous in PreviousOf(w.txns[x].stage);
  }

  lemma {:induction false} StepKeepsConsumed(w: World, e: Event)
    requires WorldInv(w) && Enabled(w, e)
    ensures ConsumedAreGone(Step(w, e)) && ConsumedOnce(Step(w, e))
  {
    if e.Write? {
      WriteNeverMisses(w, e.x);
      assert PendingIsNew(w, e.x) && TxnInv(w, e.x);
      assert w.txns[e.x].stage.previous in PreviousOf(w.txns[e.x].stage);
    }
  }

  /** A transaction that takes no step itself keeps what it knows while the committed rows stay. */
  lemma {:induction false} BystanderKeepsTxn(w: World, w': World, x: Id)
    requires x in w.txns && TxnInv(w, x) && x in w'.txns && w'.txns[x] == w.txns[x]
    requires w'.backend == w.backend && w'.heads == w.heads && w'.commits == w.commits
    requires forall f :: f in w.locks && w.locks[f] == x ==> f in w'.locks && w'.locks[f] == x
    ensures TxnInv(w', x)
  {
    assert Sees(w', x) == Sees(w, x);
  }

  lemma {:induction false} OwnStepKeepsTxn(w: World, e: Event)
    requires TxnsInv(w) && Enabled(w, e) && (e.Begin? || e.Lock? || e.Read? || e.InsertHead?) && e.x in Step(w, e).txns
    ensures TxnInv(Step(w, e), e.x)
  {
    if e.x in w.txns {
      assert TxnInv(w, e.x);
      assert Sees(Step(w, e), e.x) == Sees(w, e.x);
      if e.InsertHead? {
        assert PreviousOf(Step(w, e).txns[e.x].stage) == PreviousOf(w.txns[e.x].stage);
      }
    }
  }

  lemma {:induction false} LocalStepKeepsTxn(w: World, e: Event, x: Id)
    requires TxnsInv(w) && Enabled(w, e) && !Commits(e) && x in Step(w, e).txns
    ensures TxnInv(Step(w, e), x)
  {
    if e.x == x { OwnStepKeepsTxn(w, e); } else {
      assert TxnInv(w, x);
      BystanderKeepsTxn(w, Step(w, e), x);
    }
  }

  /** The commit of another transaction changes nothing a transaction knows about its fork. */
  lemma {:induction false} RowsKeepTxn(w: World, w': World, x: Id)
    requires x in w.txns && TxnInv(w, x) && x in w'.txns && w'.txns[x] == w.txns[x]
    requires w'.backend == w.backend && w'.commits > w.commits
    requires forall f :: f in w.locks && w.locks[f] == x ==> f in w'.locks && w'.locks[f] == x
    requires w.backend.Postgres? && PreviousOf(w.txns[x].stage) != {} && w.txns[x].fork in w.heads ==>
               w.txns[x].fork in w'.heads && w'.heads[w.txns[x].fork] == w.heads[w.txns[x].fork]
    ensures TxnInv(w', x)
  {
    forall p | p in PreviousOf(w.txns[x].stage)
      ensures w.txns[x].fork in Sees(w', x) && Sees(w', x)[w.txns[x].fork] == p
    { assert w.txns[x].fork in Sees(w, x); }
  }

  /** Two transactions that hold the lock of one fork are one. */
  lemma {:induction false} LocksSeparate(w: World, x: Id, y: Id)
    requires w.backend.Postgres? && x in w.txns && y in w.txns && TxnInv(w, x) && TxnInv(w, y)
    requires !w.txns[x].stage.Begun? && !w.txns[y].stage.Begun? && x != y
    ensures w.txns[x].fork != w.txns[y].fork
  {
  }

  lemma {:induction false} CommitKeepsTxn(w: World, e: Event, x: Id)
    requires w.heads.Keys <= w.minted && TxnsInv(w) && Enabled(w, e) && Commits(e) && x in Step(w, e).txns
    ensures TxnInv(Step(w, e), x)
  {
    assert TxnInv(w, x);
    if (e.Write? || e.Drop?) && w.backend.Postgres? && PreviousOf(w.txns[x].stage) != {} {
      assert TxnInv(w, e.x);
      LocksSeparate(w, x, e.x);
    }
    if e.Write? && !Matches(w, e.x) { BystanderKeepsTxn(w, Step(w, e), x); } else { RowsKeepTxn(w, Step(w, e), x); }
  }

  lemma {:induction false} StepKeepsLocks(w: World, e: Event)
    requires TxnsInv(w) && Enabled(w, e)
    ensures var w' := Step(w, e); forall f :: f in w'.locks ==> w'.locks[f] in w'.txns && w'.txns[w'.locks[f]].fork == f
  {
  }

  lemma {:induction false} StepKeepsTxns(w: World, e: Event)
    requires w.heads.Keys <= w.minted && TxnsInv(w) && Enabled(w, e)
    ensures TxnsInv(Step(w, e))
  {
    var w' := Step(w, e);
    forall x | x in w'.txns ensures TxnInv(w', x) {
      if Commits(e) { CommitKeepsTxn(w, e, x); } else { LocalStepKeepsTxn(w, e, x); }
    }
    StepKeepsLocks(w, e);
  }

  lemma {:induction false} StepKeepsInv(w: World, e: Event)
    requires WorldInv(w) && Enabled(w, e)
    ensures WorldInv(Step(w, e))
  {
    if Commits(e) {
      CommitKeepsIds(w, e);
      CommitKeepsPending(w, e);
    } else {
      LocalStepKeepsIds(w, e);
      LocalStepKeepsPending(w, e);
    }
    StepKeepsConsumed(w, e);
    StepKeepsTxns(w, e);
  }

  // ---------------------------------------------------------------- whole runs

  ghost predicate RunsFrom(w: World, es: seq<Event>)
    decreases |es|
  {
    es == [] || (Enabled(w, es[0]) && RunsFrom(Step(w, es[0]), es[1..]))
  }

  ghost function After(w: World, es: seq<Event>): World
    requires RunsFrom(w, es)
    decreases |es|
  {
    if es == [] then w else After(Step(w, es[0]), es[1..])
  }

  /** In every interleaving of updates, deletes, creates and other writers, on either backend, no head of a fork is
      replaced twice, so of two updates that expect one head at most one commits. */
  lemma {:induction false} EachHeadIsConsumedOnce(w: World, es: seq<Event>)
    requires WorldInv(w) && RunsFrom(w, es)
    ensures WorldInv(After(w, es)) && ConsumedOnce(After(w, es))
    ensures var log := After(w, es).log;
            forall j, k | 0 <= j < k < |log| && log[j].fork == log[k].fork && log[j].expected.Some? ::
              log[j].expected != log[k].expected
    decreases |es|
  {
    if es != [] {
      StepKeepsInv(w, es[0]);
      EachHeadIsConsumedOnce(Step(w, es[0]), es[1..]);
    }
  }

  lemma {:induction false} EmptyWorldIsFine(backend: Backend)
    ensures WorldInv(World(backend, map[], 0, map[], map[], {}, []))
  {
  }
}
