/**
 RevokeChainFrom beside other session transactions (internal/repo/repo.go): its query sees
 the table as it was when the statement began, and its update then passes over the rows as
 they are, so what commits in between is missed by the query.
 */
module SessionRaces {
  import opened Base
  import opened Sessions

  /** The update of a chain collected on an earlier state of the table. */
  function RevokedAsOf(snap: Rows, rows: Rows, start: string, now: int): Rows {
    var chain := Chain(snap, start, {});
    map id | id in rows ::
      if id in chain && start in snap && rows[id].user == snap[start].user && !rows[id].revoked
      then RevokedRow(rows[id], now) else rows[id]
  }

  /** With nothing in between this is the single step. */
  lemma UndisturbedRevocation(rows: Rows, start: string, now: int)
    ensures RevokedAsOf(rows, rows, start, now) == ChainRevoked(rows, start, now)
  {
  }

  function ExecFrom(t: Table, ops: seq<(Op, int)>): Table {
    if ops == [] then t else Next(ExecFrom(t, Init(ops)), Last(ops).0, Last(ops).1)
  }

  /** Old rows are kept, and every link to an old row is an old link. */
  ghost predicate Grown(snap: Rows, rows: Rows) {
    && (forall id :: id in snap ==> id in rows && Keeps(snap[id], rows[id]))
    && (forall a :: a in rows && rows[a].rotatedTo.Some? && rows[a].rotatedTo.value in snap ==>
          a in snap && snap[a].rotatedTo == rows[a].rotatedTo)
  }

  lemma RotationGrows(snap: Rows, t: Table, from: string, s: NewSession, now: int)
    requires Grown(snap, t.rows) && TimesAreRevocations(t.rows) && Linked(t)
    ensures Grown(snap, Rotated(t, from, s, now).rows)
  {
  }

  lemma OthersGrow(snap: Rows, t: Table, op: Op, now: int)
    requires Grown(snap, t.rows) && TimesAreRevocations(t.rows) && Linked(t) && !op.Rotate?
    ensures Grown(snap, Next(t, op, now).rows)
  {
    NextKeepsRevocations(t, op, now);
    OnlyRotationLinks(t, op, now);
  }

  lemma OnlyRotationLinks(t: Table, op: Op, now: int)
    requires !op.Rotate?
    ensures var rows := Next(t, op, now).rows;
            forall a :: a in rows && rows[a].rotatedTo.Some? ==> a in t.rows && t.rows[a].rotatedTo == rows[a].rotatedTo
  {
  }

  lemma {:induction false} EveryRunGrows(snap: Table, ops: seq<(Op, int)>)
    requires Linked(snap) && TimesAreRevocations(snap.rows) && FreshIds(ops)
    ensures var t := ExecFrom(snap, ops);
            Linked(t) && TimesAreRevocations(t.rows) && Grown(snap.rows, t.rows)
  {
    if ops != [] {
      EveryRunGrows(snap, Init(ops));
      assert Last(ops) == ops[|ops| - 1];
      var t, op, now := ExecFrom(snap, Init(ops)), Last(ops).0, Last(ops).1;
      NextKeepsLinks(t, op, now);
      NextKeepsRevocations(t, op, now);
      if op.Rotate? {
        RotationGrows(snap.rows, t, op.from, op.session, now);
      } else {
        OthersGrow(snap.rows, t, op, now);
      }
    }
  }

  /** An old row reached now was reached then. */
  lemma {:induction false} OldReach(snap: Rows, rows: Rows, a: string, b: string, n: nat)
    requires Grown(snap, rows) && ReachesIn(rows, a, b, n) && b in snap
    ensures ReachesIn(snap, a, b, n)
    decreases n
  {
    if n > 0 {
      OldReach(snap, rows, rows[a].rotatedTo.value, b, n - 1);
    }
  }

  /**
   With other transactions committing between the query and the update, a session on the
   chain that is live before the update stays live exactly when it was inserted since the
   query began; every older one is revoked.
   */
  lemma LateRowsEscapeExactly(snap: Table, ops: seq<(Op, int)>, start: string, now: int, x: string)
    requires Linked(snap) && TimesAreRevocations(snap.rows) && FreshIds(ops) && start in snap.rows
    requires var rows := ExecFrom(snap, ops).rows;
             Reaches(rows, start, x) && Live(rows, x) && rows[x].user == snap.rows[start].user
    ensures Live(RevokedAsOf(snap.rows, ExecFrom(snap, ops).rows, start, now), x) <==> x !in snap.rows
  {
    var rows := ExecFrom(snap, ops).rows;
    EveryRunGrows(snap, ops);
    ChainIsReach(snap.rows, start, x);
    if x in snap.rows {
      var n: nat :| ReachesIn(rows, start, x, n);
      OldReach(snap.rows, rows, start, x, n);
    } else {
      ReachedIsStored(snap.rows, start, x);
    }
  }

  lemma {:induction false} ReachedIsStored(rows: Rows, a: string, b: string)
    ensures Reaches(rows, a, b) ==> b in rows
  {
    if Reaches(rows, a, b) {
      var n: nat :| ReachesIn(rows, a, b, n);
      EndIsStored(rows, a, b, n);
    }
  }

  lemma {:induction false} EndIsStored(rows: Rows, a: string, b: string, n: nat)
    requires ReachesIn(rows, a, b, n)
    ensures b in rows
    decreases n
  {
    if n > 0 {
      EndIsStored(rows, rows[a].rotatedTo.value, b, n - 1);
    }
  }

  /** Such a row exists: rotate the live start of the chain between the query and the update. */
  lemma RotationEscapes(snap: Table, start: string, s: NewSession, t: int, now: int)
    requires Linked(snap) && Live(snap.rows, start)
    requires s.id !in snap.rows && s.user == snap.rows[start].user && !s.revoked
    ensures var rows := Next(snap, Rotate(start, s), t).rows;
            && Reaches(rows, start, s.id)
            && Live(RevokedAsOf(snap.rows, rows, start, now), s.id)
  {
    var rows := Next(snap, Rotate(start, s), t).rows;
    assert ReachesIn(rows, s.id, s.id, 0);
    assert ReachesIn(rows, start, s.id, 1);
    ChainIsReach(snap.rows, start, s.id);
    ReachedIsStored(snap.rows, start, s.id);
  }
}
