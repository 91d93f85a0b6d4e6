/** The compute-credit ledger of ee/models/compute_credit_ledger.rs: append-only rows, a guarded debit, and the balance. */
module CreditLedger {
  import opened Common

  type Workspace = Id

  datatype Kind = Earn | Spend

  datatype Row = Row(workspace: Workspace, amount: int, kind: Kind)

  /** `SUM(amount)` over the rows of the workspace. */
  function Balance(rows: seq<Row>, ws: Workspace): int
    decreases |rows|
  {
    if rows == [] then 0
    else Balance(rows[..|rows| - 1], ws) + if rows[|rows| - 1].workspace == ws then rows[|rows| - 1].amount else 0
  }

  /** The sum of the sizes of the rows of one kind. */
  function Volume(rows: seq<Row>, ws: Workspace, kind: Kind): int
    decreases |rows|
  {
    if rows == [] then 0
    else
      var last := rows[|rows| - 1];
      Volume(rows[..|rows| - 1], ws, kind)
      + if last.workspace == ws && last.kind == kind then (if last.amount < 0 then -last.amount else last.amount) else 0
  }

  /** The sign of every row matches its kind. */
  ghost predicate Signed(rows: seq<Row>)
  {
    forall r :: r in rows ==> if r.kind == Earn then r.amount > 0 else r.amount < 0
  }

  lemma {:induction false} BalanceOfJoin(a: seq<Row>, b: seq<Row>, ws: Workspace)
    ensures Balance(a + b, ws) == Balance(a, ws) + Balance(b, ws)
    decreases |b|
  {
    if b == [] {
      assert a + b == a;
    } else {
      BalanceOfJoin(a, b[..|b| - 1], ws);
      assert (a + b)[..|a + b| - 1] == a + b[..|b| - 1];
    }
  }

  /** The balance is what was earned minus what was debited. */
  lemma {:induction false} BalanceIsEarnedMinusSpent(rows: seq<Row>, ws: Workspace)
    requires Signed(rows)
    ensures Balance(rows, ws) == Volume(rows, ws, Earn) - Volume(rows, ws, Spend)
    decreases |rows|
  {
    if rows != [] {
      var init := rows[..|rows| - 1];
      assert rows[|rows| - 1] in rows && forall r :: r in init ==> r in rows;
      BalanceIsEarnedMinusSpent(init, ws);
    }
  }

  lemma {:induction false} BalanceWithout(rows: seq<Row>, k: nat, ws: Workspace)
    requires k < |rows|
    ensures Balance(rows, ws) == Balance(rows[..k] + rows[k + 1..], ws) + if rows[k].workspace == ws then rows[k].amount else 0
  {
    BalanceOfJoin(rows[..k], rows[k + 1..], ws);
    BalanceOfJoin(rows[..k + 1], rows[k + 1..], ws);
    assert rows == rows[..k + 1] + rows[k + 1..] && rows[..k + 1][..k] == rows[..k];
  }

  /** The balance does not depend on the order of the rows. */
  lemma {:induction false} BalanceIgnoresOrder(a: seq<Row>, b: seq<Row>, ws: Workspace)
    requires multiset(a) == multiset(b)
    ensures Balance(a, ws) == Balance(b, ws)
    decreases |a|
  {
    if a == [] {
      assert |b| == |multiset(b)|;
    } else {
      var last := |a| - 1;
      assert a[last] in multiset(a);
      var k := FindIn(b, a[last]);
      WithoutOne(a, last);
      WithoutOne(b, k);
      BalanceWithout(a, last, ws);
      BalanceWithout(b, k, ws);
      BalanceIgnoresOrder(a[..last] + a[last + 1..], b[..k] + b[k + 1..], ws);
    }
  }

  /** The ledger as one transaction sees it. */
  class Ledger {
    var rows: seq<Row>

    constructor (initial: seq<Row>)
      ensures rows == initial
    {
      rows := initial;
    }

    method InsertRow(ws: Workspace, amount: int, kind: Kind)
      modifies this
      ensures rows == old(rows) + [Row(ws, amount, kind)]
    {
      rows := rows + [Row(ws, amount, kind)];
    }

    /** A refused amount leaves the ledger alone; an accepted one raises the balance by exactly that amount. */
    method EarnCredits(ws: Workspace, amount: int) returns (r: Result<()>)
      modifies this
      ensures r == if amount > 0 then Ok(()) else Err(Validation)
      ensures r.Ok? ==> rows == old(rows) + [Row(ws, amount, Earn)]
      ensures r.Err? ==> rows == old(rows)
      ensures Signed(old(rows)) ==> Signed(rows)
      ensures r.Ok? ==> forall x :: Balance(rows, x) == Balance(old(rows), x) + if x == ws then amount else 0
    {
      if amount <= 0 { return Err(Validation); }
      InsertRow(ws, amount, Earn);
      return Ok(());
    }

    /** A debit succeeds exactly if it is positive and covered, and then costs exactly that amount. */
    method DebitActual(ws: Workspace, amount: int) returns (r: Result<()>)
      modifies this
      ensures r == if 0 < amount <= Balance(old(rows), ws) then Ok(()) else Err(Validation)
      ensures r.Ok? ==> rows == old(rows) + [Row(ws, -amount, Spend)] && Balance(rows, ws) >= 0
      ensures r.Err? ==> rows == old(rows)
      ensures Signed(old(rows)) ==> Signed(rows)
      ensures r.Ok? ==> forall x :: Balance(rows, x) == Balance(old(rows), x) - if x == ws then amount else 0
    {
      if amount <= 0 { return Err(Validation); }
      if Balance(rows, ws) < amount { return Err(Validation); }
      InsertRow(ws, -amount, Spend);
      return Ok(());
    }
  }

  // ---------------------------------------------------------------- interleaved transactions

  /** An open transaction: its uncommitted rows, the debit whose balance check it has passed, and on SQLite the rows of
      its snapshot with the number of commits before it. */
  datatype Txn = Txn(pending: seq<Row>, cleared: Option<(Workspace, int)>, snapshot: seq<Row>, began: nat)

  /** `locks` names the transaction that holds the credit lock of a workspace. */
  datatype World = World(backend: Backend, rows: seq<Row>, commits: nat, locks: map<Workspace, Id>, txns: map<Id, Txn>)

  datatype Event =
    | Begin(x: Id)
    | Earned(x: Id, ws: Workspace, amount: int)
    | Locked(x: Id, ws: Workspace)
    | Checked(x: Id, ws: Workspace, amount: int)
    | Debited(x: Id)
    | Commit(x: Id)
    | Abort(x: Id)

  /** The rows a transaction reads: the committed ones, or those of its snapshot, and its own. */
  function Sees(w: World, x: Id): seq<Row>
    requires x in w.txns
  {
    (if w.backend.Postgres? then w.rows else w.txns[x].snapshot) + w.txns[x].pending
  }

  /** On PostgreSQL the advisory lock waits for its holder; on SQLite it excludes nobody, but a write transaction commits
      only if nothing was committed since its snapshot. */
  predicate Enabled(w: World, e: Event)
  {
    match e
    case Begin(x) => x !in w.txns
    case Earned(x, _, amount) => x in w.txns && w.txns[x].cleared.None? && amount > 0
    case Locked(x, ws) =>
      x in w.txns && w.txns[x].cleared.None? && (w.backend.Postgres? ==> ws !in w.locks || w.locks[ws] == x)
    case Checked(x, ws, amount) =>
      && x in w.txns && w.txns[x].cleared.None? && amount > 0
      && (w.backend.Postgres? ==> ws in w.locks && w.locks[ws] == x)
      && Balance(Sees(w, x), ws) >= amount
    case Debited(x) => x in w.txns && w.txns[x].cleared.Some?
    case Commit(x) =>
      && x in w.txns && w.txns[x].cleared.None?
      && (w.backend.Sqlite? && w.txns[x].pending != [] ==> w.commits == w.txns[x].began)
    case Abort(x) => x in w.txns
  }

  /** Ending a transaction releases its locks. */
  function Ended(w: World, x: Id): World
  {
    w.(txns := w.txns - {x}, locks := map ws | ws in w.locks && w.locks[ws] != x :: w.locks[ws])
  }

  function Step(w: World, e: Event): World
    requires Enabled(w, e)
  {
    match e
    case Begin(x) => w.(txns := w.txns[x := Txn([], None, w.rows, w.commits)])
    case Earned(x, ws, amount) =>
      w.(txns := w.txns[x := w.txns[x].(pending := w.txns[x].pending + [Row(ws, amount, Earn)])])
    case Locked(x, ws) => if w.backend.Postgres? then w.(locks := w.locks[ws := x]) else w
    case Checked(x, ws, amount) => w.(txns := w.txns[x := w.txns[x].(cleared := Some((ws, amount)))])
    case Debited(x) =>
      var t := w.txns[x];
      w.(txns := w.txns[x := t.(pending := t.pending + [Row(t.cleared.value.0, -t.cleared.value.1, Spend)], cleared := None)])
    case Commit(x) =>
      var t := w.txns[x];
      Ended(w.(rows := w.rows + t.pending, commits := w.commits + if t.pending == [] then 0 else 1), x)
    case Abort(x) => Ended(w, x)
  }

  // ---------------------------------------------------------------- the invariant

  /** The debit a transaction may still make against a workspace. */
  function Claim(t: Txn, ws: Workspace): int
  {
    if t.cleared.Some? && t.cleared.value.0 == ws then t.cleared.value.1 else 0
  }

  ghost predicate TxnInv(w: World, x: Id)
    requires x in w.txns
  {
    var t := w.txns[x];
    && Signed(t.pending) && (t.cleared.Some? ==> t.cleared.value.1 > 0)
    && t.began <= w.commits && (t.began == w.commits ==> t.snapshot == w.rows)
    && (forall ws :: Balance(Sees(w, x), ws) >= Claim(t, ws))
    && (w.backend.Postgres? ==> forall ws ::
          (ws in w.locks && w.locks[ws] == x) || (Balance(t.pending, ws) >= 0 && Claim(t, ws) == 0))
  }

  ghost predicate WorldInv(w: World)
  {
    && Signed(w.rows) && (forall ws :: Balance(w.rows, ws) >= 0)
    && (forall ws :: ws in w.locks ==> w.locks[ws] in w.txns)
    && (forall x :: x in w.txns ==> TxnInv(w, x))
  }

  lemma {:induction false} BalanceSeen(w: World, x: Id)
    requires x in w.txns
    ensures forall ws :: Balance(Sees(w, x), ws)
                      == Balance(if w.backend.Postgres? then w.rows else w.txns[x].snapshot, ws) + Balance(w.txns[x].pending, ws)
  {
    forall ws ensures Balance(Sees(w, x), ws)
                   == Balance(if w.backend.Postgres? then w.rows else w.txns[x].snapshot, ws) + Balance(w.txns[x].pending, ws) {
      BalanceOfJoin(if w.backend.Postgres? then w.rows else w.txns[x].snapshot, w.txns[x].pending, ws);
    }
  }

  lemma {:induction false} BalanceOfOneMore(rows: seq<Row>, r: Row)
    ensures forall ws :: Balance(rows + [r], ws) == Balance(rows, ws) + if r.workspace == ws then r.amount else 0
  {
    assert (rows + [r])[..|rows|] == rows;
  }

  /** Writing a row of its own keeps what a transaction promises, as long as the row is covered. */
  lemma {:induction false} AppendKeepsTxn(w: World, x: Id, r: Row, cleared: Option<(Workspace, int)>)
    requires x in w.txns && TxnInv(w, x) && (if r.kind == Earn then r.amount > 0 else r.amount < 0)
    requires cleared.None? && (r.amount < 0 ==> w.txns[x].cleared == Some((r.workspace, -r.amount)))
    ensures var w' := w.(txns := w.txns[x := w.txns[x].(pending := w.txns[x].pending + [r], cleared := cleared)]);
            TxnInv(w', x)
  {
    var t := w.txns[x];
    var w' := w.(txns := w.txns[x := t.(pending := t.pending + [r], cleared := cleared)]);
    BalanceSeen(w, x);
    BalanceSeen(w', x);
    BalanceOfOneMore(t.pending, r);
    forall ws ensures Balance(Sees(w', x), ws) >= Claim(w'.txns[x], ws) {
      assert Balance(Sees(w, x), ws) >= Claim(t, ws);
    }
  }

  /** A transaction keeps its promises when nothing it depends on changes. */
  lemma {:induction false} SameViewKeepsTxn(w: World, w': World, x: Id)
    requires x in w.txns && x in w'.txns && w'.txns[x] == w.txns[x] && TxnInv(w, x)
    requires w'.backend == w.backend && w'.rows == w.rows && w'.commits == w.commits
    requires forall ws :: ws in w.locks && w.locks[ws] == x ==> ws in w'.locks && w'.locks[ws] == x
    ensures TxnInv(w', x)
  {
    assert Sees(w', x) == Sees(w, x);
  }

  /** The commit of another transaction takes nothing away that this one counts on. */
  lemma {:induction false} OtherCommitKeepsTxn(w: World, x: Id, y: Id)
    requires WorldInv(w) && Enabled(w, Commit(y)) && x in w.txns && x != y
    requires forall ws :: Balance(Step(w, Commit(y)).rows, ws) >= 0
    ensures TxnInv(Step(w, Commit(y)), x)
  {
    var w' := Step(w, Commit(y));
    var t, p := w.txns[x], w.txns[y].pending;
    BalanceSeen(w, x);
    BalanceSeen(w', x);
    if p == [] { assert w.rows + p == w.rows; }
    assert TxnInv(w, x) && TxnInv(w, y);
    if w.backend.Postgres? {
      forall ws ensures Balance(Sees(w', x), ws) >= Claim(t, ws) {
        BalanceOfJoin(w.rows, p, ws);
        if !(ws in w.locks && w.locks[ws] == y) { assert Balance(p, ws) >= 0; }
      }
    }
  }

  lemma {:induction false} CommitKeepsBalances(w: World, y: Id)
    requires WorldInv(w) && Enabled(w, Commit(y))
    ensures Signed(Step(w, Commit(y)).rows) && forall ws :: Balance(Step(w, Commit(y)).rows, ws) >= 0
  {
    var t := w.txns[y];
    BalanceSeen(w, y);
    forall ws ensures Balance(w.rows + t.pending, ws) >= 0 {
      BalanceOfJoin(w.rows, t.pending, ws);
      assert TxnInv(w, y) && Balance(Sees(w, y), ws) >= Claim(t, ws);
    }
  }

  lemma {:induction false} CommitKeepsInv(w: World, y: Id)
    requires WorldInv(w) && Enabled(w, Commit(y))
    ensures WorldInv(Step(w, Commit(y)))
  {
    var w' := Step(w, Commit(y));
    CommitKeepsBalances(w, y);
    forall x | x in w'.txns ensures TxnInv(w', x) { OtherCommitKeepsTxn(w, x, y); }
  }

  lemma {:induction false} AppendKeepsInv(w: World, e: Event)
    requires WorldInv(w) && Enabled(w, e) && (e.Earned? || e.Debited?)
    ensures WorldInv(Step(w, e))
  {
    var w', t := Step(w, e), w.txns[e.x];
    assert TxnInv(w, e.x);
    if e.Earned? {
      AppendKeepsTxn(w, e.x, Row(e.ws, e.amount, Earn), None);
    } else {
      AppendKeepsTxn(w, e.x, Row(t.cleared.value.0, -t.cleared.value.1, Spend), None);
    }
    forall x | x in w'.txns && x != e.x ensures TxnInv(w', x) { SameViewKeepsTxn(w, w', x); }
  }

  lemma {:induction false} CheckKeepsInv(w: World, e: Event)
    requires WorldInv(w) && Enabled(w, e) && e.Checked?
    ensures WorldInv(Step(w, e))
  {
    var w' := Step(w, e);
    assert TxnInv(w, e.x) && Sees(w', e.x) == Sees(w, e.x);
    forall x | x in w'.txns && x != e.x ensures TxnInv(w', x) { SameViewKeepsTxn(w, w', x); }
  }

  lemma {:induction false} ControlKeepsInv(w: World, e: Event)
    requires WorldInv(w) && Enabled(w, e) && (e.Begin? || e.Locked? || e.Abort?)
    ensures WorldInv(Step(w, e))
  {
    var w' := Step(w, e);
    forall x | x in w'.txns ensures TxnInv(w', x) {
      if x in w.txns {
        SameViewKeepsTxn(w, w', x);
      } else {
        BalanceSeen(w', x);
      }
    }
  }

  lemma {:induction false} StepKeepsInv(w: World, e: Event)
    requires WorldInv(w) && Enabled(w, e)
    ensures WorldInv(Step(w, e))
  {
    match e
    case Commit(y) => CommitKeepsInv(w, y);
    case Earned(_, _, _) => AppendKeepsInv(w, e);
    case Debited(_) => AppendKeepsInv(w, e);
    case Checked(_, _, _) => CheckKeepsInv(w, e);
    case _ => ControlKeepsInv(w, e);
  }

  ghost predicate RunsFrom(w: World, events: seq<Event>)
    decreases |events|
  {
    events == [] || (Enabled(w, events[0]) && RunsFrom(Step(w, events[0]), events[1..]))
  }

  ghost function After(w: World, events: seq<Event>): World
    requires RunsFrom(w, events)
    decreases |events|
  {
    if events == [] then w else After(Step(w, events[0]), events[1..])
  }

  /** In every interleaving on either backend, the committed balance of every workspace stays non-negative, and it is
      what was earned minus what was debited. */
  lemma {:induction false} NoOverdraftEver(w: World, events: seq<Event>)
    requires WorldInv(w) && RunsFrom(w, events)
    ensures WorldInv(After(w, events))
    ensures forall ws :: Balance(After(w, events).rows, ws) >= 0
    ensures forall ws :: Balance(After(w, events).rows, ws)
                      == Volume(After(w, events).rows, ws, Earn) - Volume(After(w, events).rows, ws, Spend)
    decreases |events|
  {
    if events == [] {
      forall ws ensures Balance(w.rows, ws) == Volume(w.rows, ws, Earn) - Volume(w.rows, ws, Spend) {
        BalanceIsEarnedMinusSpent(w.rows, ws);
      }
    } else {
      StepKeepsInv(w, events[0]);
      NoOverdraftEver(Step(w, events[0]), events[1..]);
    }
  }

  /** An empty ledger starts such a run. */
  lemma {:induction false} EmptyLedgerIsFine(backend: Backend)
    ensures WorldInv(World(backend, [], 0, map[], map[]))
  {
  }

  /** Rows are only ever appended. */
  lemma {:induction false} LedgerIsAppendOnly(w: World, events: seq<Event>)
    requires RunsFrom(w, events)
    ensures |w.rows| <= |After(w, events).rows| && After(w, events).rows[..|w.rows|] == w.rows
    decreases |events|
  {
    if events != [] {
      var w' := Step(w, events[0]);
      LedgerIsAppendOnly(w', events[1..]);
      assert w'.rows[..|w.rows|] == w.rows;
      assert After(w, events).rows[..|w.rows|] == After(w, events).rows[..|w'.rows|][..|w.rows|];
    }
  }

  // ---------------------------------------------------------------- what each event does to the balances

  /** What transaction `x` sees as the balance of a workspace. */
  function Visible(w: World, x: Id, ws: Workspace): int
    requires x in w.txns
  {
    Balance(Sees(w, x), ws)
  }

  /** A begun transaction sees the committed balances. */
  lemma {:induction false} BeginSeesCommitted(w: World, x: Id, ws: Workspace)
    requires Enabled(w, Begin(x))
    ensures Visible(Step(w, Begin(x)), x, ws) == Balance(w.rows, ws) && Step(w, Begin(x)).rows == w.rows
  {
    assert w.rows + [] == w.rows;
  }

  lemma {:induction false} SeesOneMore(w: World, x: Id, r: Row, cleared: Option<(Workspace, int)>, ws: Workspace)
    requires x in w.txns
    ensures var w' := w.(txns := w.txns[x := w.txns[x].(pending := w.txns[x].pending + [r], cleared := cleared)]);
            Balance(Sees(w', x), ws) == Balance(Sees(w, x), ws) + if r.workspace == ws then r.amount else 0
  {
    var seen := if w.backend.Postgres? then w.rows else w.txns[x].snapshot;
    BalanceOfJoin(seen, w.txns[x].pending, ws);
    BalanceOfJoin(seen, w.txns[x].pending + [r], ws);
    BalanceOfOneMore(w.txns[x].pending, r);
  }

  /** Earning raises what the transaction sees of that workspace by the amount; nothing is committed yet. */
  lemma {:induction false} EarningRaises(w: World, x: Id, at: Workspace, amount: int, ws: Workspace)
    requires Enabled(w, Earned(x, at, amount))
    ensures var w' := Step(w, Earned(x, at, amount));
            && x in w'.txns && Visible(w', x, ws) == Visible(w, x, ws) + (if ws == at then amount else 0)
            && w'.rows == w.rows && amount > 0
  {
    SeesOneMore(w, x, Row(at, amount, Earn), w.txns[x].cleared, ws);
  }

  /** A debit that passed its check costs exactly the amount that was checked, and was covered then. */
  lemma {:induction false} DebitingCosts(w: World, x: Id, at: Workspace, amount: int, ws: Workspace)
    requires Enabled(w, Checked(x, at, amount))
    ensures Visible(w, x, at) >= amount > 0
    ensures var checked := Step(w, Checked(x, at, amount));
            && Enabled(checked, Debited(x))
            && var w' := Step(checked, Debited(x));
               x in w'.txns && Visible(w', x, ws) == Visible(w, x, ws) - (if ws == at then amount else 0) && w'.rows == w.rows
  {
    var checked := Step(w, Checked(x, at, amount));
    assert Sees(checked, x) == Sees(w, x);
    SeesOneMore(checked, x, Row(at, -amount, Spend), None, ws);
  }

  /** A commit makes what the transaction sees the committed balance; an abort leaves the committed rows alone. */
  lemma {:induction false} CommitPublishes(w: World, x: Id, ws: Workspace)
    requires WorldInv(w) && Enabled(w, Commit(x)) && w.txns[x].pending != []
    ensures Balance(Step(w, Commit(x)).rows, ws) == Visible(w, x, ws)
    ensures Step(w, Abort(x)).rows == w.rows && x !in Step(w, Commit(x)).txns
  {
    assert TxnInv(w, x);
    assert Sees(w, x) == w.rows + w.txns[x].pending;
  }
}
