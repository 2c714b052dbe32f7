/**
 Refresh sessions and their rotation chains (the session methods of
 internal/repo/repo.go). A transaction is one step; `now` is its timestamp.

 `born` numbers rows in insertion order. Columns that no session method inspects or
 changes (app, type, token, scope, expiry) are left out.
 */
module Sessions {
  import opened Base

  datatype Session = Session(user: string, revoked: bool, revokedAt: Option<int>, rotatedTo: Option<string>, born: nat)

  /** A session about to be inserted. */
  datatype NewSession = NewSession(id: string, user: string, revoked: bool)

  type Rows = map<string, Session>

  datatype Table = Table(rows: Rows, count: nat)

  predicate Live(rows: Rows, id: string) {
    id in rows && !rows[id].revoked
  }

  // ------------------------------------------------------------------
  // Links
  // ------------------------------------------------------------------

  /** `b` is `n` rotations after `a`. */
  ghost predicate ReachesIn(rows: Rows, a: string, b: string, n: nat)
    decreases n
  {
    && a in rows
    && if n == 0 then a == b else rows[a].rotatedTo.Some? && ReachesIn(rows, rows[a].rotatedTo.value, b, n - 1)
  }

  ghost predicate Reaches(rows: Rows, a: string, b: string) {
    exists n: nat :: ReachesIn(rows, a, b, n)
  }

  /** The rows met by following links from `id`, on top of those already `seen`. */
  function Chain(rows: Rows, id: string, seen: set<string>): set<string>
    decreases |rows.Keys - seen|
  {
    if id !in rows || id in seen then seen
    else
      assert rows.Keys - (seen + {id}) < rows.Keys - seen by {
        assert id in rows.Keys - seen;
      }
      ShrinksStrictly(rows.Keys - (seen + {id}), rows.Keys - seen);
      if rows[id].rotatedTo.None? then seen + {id} else Chain(rows, rows[id].rotatedTo.value, seen + {id})
  }

  lemma ShrinksStrictly(a: set<string>, b: set<string>)
    requires a < b
    ensures |a| < |b|
  {
    var x :| x in b && x !in a;
    assert |b| == |b - {x}| + 1;
    SubsetSize(a, b - {x});
  }

  lemma {:induction false} SubsetSize(a: set<string>, b: set<string>)
    requires a <= b
    ensures |a| <= |b|
  {
    if a != {} {
      var x :| x in a;
      SubsetSize(a - {x}, b - {x});
    }
  }

  ghost predicate ClosedExcept(rows: Rows, seen: set<string>, id: string) {
    forall x :: x in seen ==>
      x in rows && (rows[x].rotatedTo.Some? && rows[x].rotatedTo.value in rows ==>
        rows[x].rotatedTo.value in seen || rows[x].rotatedTo.value == id)
  }

  ghost predicate Closed(rows: Rows, seen: set<string>) {
    forall x :: x in seen ==>
      x in rows && (rows[x].rotatedTo.Some? && rows[x].rotatedTo.value in rows ==> rows[x].rotatedTo.value in seen)
  }

  lemma {:induction false} ChainIsClosed(rows: Rows, id: string, seen: set<string>)
    requires ClosedExcept(rows, seen, id)
    ensures Closed(rows, Chain(rows, id, seen)) && seen <= Chain(rows, id, seen)
    ensures id in rows ==> id in Chain(rows, id, seen)
    decreases |rows.Keys - seen|
  {
    if id in rows && id !in seen {
      ShrinksStrictly(rows.Keys - (seen + {id}), rows.Keys - seen);
      if rows[id].rotatedTo.Some? {
        ChainIsClosed(rows, rows[id].rotatedTo.value, seen + {id});
      }
    }
  }

  lemma {:induction false} ChainIsReached(rows: Rows, id: string, seen: set<string>, x: string)
    requires x in Chain(rows, id, seen) && x !in seen
    ensures Reaches(rows, id, x)
    decreases |rows.Keys - seen|
  {
    if x == id {
      assert ReachesIn(rows, id, x, 0);
    } else {
      ShrinksStrictly(rows.Keys - (seen + {id}), rows.Keys - seen);
      var t := rows[id].rotatedTo.value;
      ChainIsReached(rows, t, seen + {id}, x);
      var n: nat :| ReachesIn(rows, t, x, n);
      assert ReachesIn(rows, id, x, n + 1);
    }
  }

  lemma {:induction false} ClosedKeepsReach(rows: Rows, seen: set<string>, a: string, b: string, n: nat)
    requires Closed(rows, seen) && a in seen && ReachesIn(rows, a, b, n)
    ensures b in seen
    decreases n
  {
    if n > 0 {
      assert rows[a].rotatedTo.value in rows;
      ClosedKeepsReach(rows, seen, rows[a].rotatedTo.value, b, n - 1);
    }
  }

  /** The chain is exactly what the links reach, cyclic or not. */
  lemma ChainIsReach(rows: Rows, id: string, x: string)
    ensures x in Chain(rows, id, {}) <==> Reaches(rows, id, x)
  {
    ChainIsClosed(rows, id, {});
    if x in Chain(rows, id, {}) {
      ChainIsReached(rows, id, {}, x);
    }
    if Reaches(rows, id, x) {
      var n: nat :| ReachesIn(rows, id, x, n);
      ClosedKeepsReach(rows, Chain(rows, id, {}), id, x, n);
    }
  }

  // ------------------------------------------------------------------
  // Steps
  // ------------------------------------------------------------------

  function Inserted(t: Table, s: NewSession): Table {
    Table(t.rows[s.id := Session(s.user, s.revoked, None, None, t.count)], t.count + 1)
  }

  function RevokedRow(s: Session, now: int): Session {
    s.(revoked := true, revokedAt := Some(now))
  }

  /** Revoke keeps the first revocation time. */
  function RevokedOnce(s: Session, now: int): Session {
    s.(revoked := true, revokedAt := if s.revokedAt.Some? then s.revokedAt else Some(now))
  }

  function ChainRevoked(rows: Rows, start: string, now: int): Rows {
    var chain := Chain(rows, start, {});
    map id | id in rows ::
      if id in chain && start in rows && rows[id].user == rows[start].user && !rows[id].revoked
      then RevokedRow(rows[id], now) else rows[id]
  }

  datatype Op =
    | Create(session: NewSession)
    | Revoke(id: string)
    | RevokeIfLive(id: string)
    | Rotate(from: string, session: NewSession)
    | Exchange(from: string, session: NewSession)
    | RevokeChain(id: string)

  function Rotated(t: Table, from: string, s: NewSession, now: int): Table {
    if s.id in t.rows then t
    else
      var u := Inserted(t, s);
      if Live(u.rows, from) then u.(rows := u.rows[from := RevokedRow(u.rows[from], now).(rotatedTo := Some(s.id))])
      else t
  }

  function Exchanged(t: Table, from: string, s: NewSession, now: int): Table {
    if Live(t.rows, from) && s.id !in t.rows then Inserted(t.(rows := t.rows[from := RevokedRow(t.rows[from], now)]), s)
    else t
  }

  function Next(t: Table, op: Op, now: int): Table {
    match op
    case Create(s) => if s.id in t.rows then t else Inserted(t, s)
    case Revoke(id) => if id in t.rows then t.(rows := t.rows[id := RevokedOnce(t.rows[id], now)]) else t
    case RevokeIfLive(id) => if Live(t.rows, id) then t.(rows := t.rows[id := RevokedRow(t.rows[id], now)]) else t
    case Rotate(from, s) => Rotated(t, from, s, now)
    case Exchange(from, s) => Exchanged(t, from, s, now)
    case RevokeChain(id) => t.(rows := ChainRevoked(t.rows, id, now))
  }

  // ------------------------------------------------------------------
  // What every run keeps
  // ------------------------------------------------------------------

  /** Links go from revoked rows to later rows, and no two links meet. */
  ghost predicate Linked(t: Table) {
    && (forall id :: id in t.rows ==> t.rows[id].born < t.count)
    && (forall id :: id in t.rows && t.rows[id].rotatedTo.Some? ==>
          && t.rows[id].revoked
          && t.rows[id].rotatedTo.value in t.rows
          && t.rows[id].born < t.rows[t.rows[id].rotatedTo.value].born)
    && (forall a, b :: a in t.rows && b in t.rows && a != b && t.rows[a].rotatedTo.Some? ==>
          t.rows[a].rotatedTo != t.rows[b].rotatedTo)
  }

  /** The one call that would link a row to itself: rotating an unknown session into that same id. */
  predicate SelfRotation(t: Table, op: Op) {
    op.Rotate? && op.from == op.session.id && op.from !in t.rows && !op.session.revoked
  }

  lemma RotatedKeepsLinks(t: Table, from: string, s: NewSession, now: int)
    requires Linked(t) && from != s.id
    ensures Linked(Rotated(t, from, s, now))
  {
    if s.id !in t.rows {
      InsertKeepsLinks(t, s);
      if Live(t.rows, from) {
        LinkKeepsLinks(Inserted(t, s), from, s.id, now);
      }
    }
  }

  lemma InsertKeepsLinks(t: Table, s: NewSession)
    requires Linked(t) && s.id !in t.rows
    ensures Linked(Inserted(t, s))
    ensures forall id :: id in Inserted(t, s).rows ==> Inserted(t, s).rows[id].rotatedTo != Some(s.id)
  {
  }

  /** Linking a live row to a younger one that no row is linked to. */
  lemma LinkKeepsLinks(t: Table, from: string, to: string, now: int)
    requires Linked(t) && Live(t.rows, from) && to in t.rows && t.rows[from].born < t.rows[to].born
    requires forall id :: id in t.rows ==> t.rows[id].rotatedTo != Some(to)
    ensures Linked(t.(rows := t.rows[from := RevokedRow(t.rows[from], now).(rotatedTo := Some(to))]))
  {
  }

  /** Revoking rows leaves the links alone. */
  lemma RevokingKeepsLinks(t: Table, op: Op, now: int)
    requires Linked(t) && (op.Revoke? || op.RevokeIfLive? || op.RevokeChain?)
    ensures Linked(Next(t, op, now))
  {
    SameLinksKept(t, Next(t, op, now));
  }

  lemma SameLinksKept(t: Table, u: Table)
    requires Linked(t) && u.count == t.count && u.rows.Keys == t.rows.Keys
    requires forall id :: id in t.rows ==>
               && u.rows[id].born == t.rows[id].born && u.rows[id].rotatedTo == t.rows[id].rotatedTo
               && (t.rows[id].revoked ==> u.rows[id].revoked)
    ensures Linked(u)
  {
  }

  lemma ExchangedKeepsLinks(t: Table, from: string, s: NewSession, now: int)
    requires Linked(t)
    ensures Linked(Exchanged(t, from, s, now))
  {
    if Live(t.rows, from) && s.id !in t.rows {
      var u := t.(rows := t.rows[from := RevokedRow(t.rows[from], now)]);
      SameLinksKept(t, u);
      InsertKeepsLinks(u, s);
    }
  }

  lemma {:induction false} NextKeepsLinks(t: Table, op: Op, now: int)
    requires Linked(t) && !SelfRotation(t, op)
    ensures Linked(Next(t, op, now))
  {
    match op
    case Create(_) =>
    case Rotate(from, s) =>
      if from != s.id {
        RotatedKeepsLinks(t, from, s, now);
      }
    case Exchange(from, s) => ExchangedKeepsLinks(t, from, s, now);
    case _ => RevokingKeepsLinks(t, op, now);
  }

  /** The excluded call does link a row to itself, from any table. */
  lemma SelfRotationLoops(t: Table, op: Op, now: int)
    requires SelfRotation(t, op)
    ensures ReachesIn(Next(t, op, now).rows, op.from, op.from, 1) && !Linked(Next(t, op, now))
  {
  }

  /** Links are kept by exactly the calls that are not self-rotations. */
  lemma LinksKeptExactly(t: Table, op: Op, now: int)
    requires Linked(t)
    ensures Linked(Next(t, op, now)) <==> !SelfRotation(t, op)
  {
    if SelfRotation(t, op) {
      SelfRotationLoops(t, op, now);
    } else {
      NextKeepsLinks(t, op, now);
    }
  }

  function Exec(ops: seq<(Op, int)>): Table {
    if ops == [] then Table(map[], 0) else Next(Exec(Init(ops)), Last(ops).0, Last(ops).1)
  }

  /** Callers give a rotation a new id. */
  ghost predicate FreshIds(ops: seq<(Op, int)>) {
    forall i :: 0 <= i < |ops| && ops[i].0.Rotate? ==> ops[i].0.from != ops[i].0.session.id
  }

  lemma {:induction false} EveryRunIsLinked(ops: seq<(Op, int)>)
    requires FreshIds(ops)
    ensures Linked(Exec(ops))
  {
    if ops != [] {
      EveryRunIsLinked(Init(ops));
      assert Last(ops) == ops[|ops| - 1];
      NextKeepsLinks(Exec(Init(ops)), Last(ops).0, Last(ops).1);
    }
  }

  lemma {:induction false} ReachGoesForward(t: Table, a: string, b: string, n: nat)
    requires Linked(t) && ReachesIn(t.rows, a, b, n)
    ensures b in t.rows && t.rows[a].born + n <= t.rows[b].born
    decreases n
  {
    if n > 0 {
      ReachGoesForward(t, t.rows[a].rotatedTo.value, b, n - 1);
    }
  }

  /** No session is reached from itself by one or more rotations. */
  lemma EveryRunIsAcyclic(ops: seq<(Op, int)>, a: string, n: nat)
    requires FreshIds(ops) && n > 0
    ensures !ReachesIn(Exec(ops).rows, a, a, n)
  {
    EveryRunIsLinked(ops);
    if ReachesIn(Exec(ops).rows, a, a, n) {
      ReachGoesForward(Exec(ops), a, a, n);
    }
  }

  lemma {:induction false} LiveEndsChain(t: Table, a: string, b: string, c: string, m: nat, n: nat)
    requires Linked(t) && ReachesIn(t.rows, a, b, m) && ReachesIn(t.rows, a, c, n)
    requires Live(t.rows, b) && Live(t.rows, c)
    ensures b == c
    decreases m + n
  {
    if m > 0 && n > 0 {
      LiveEndsChain(t, t.rows[a].rotatedTo.value, b, c, m - 1, n - 1);
    }
  }

  /** At most one live session is reachable from any session, and nothing was rotated from it. */
  lemma OneLiveSessionPerChain(ops: seq<(Op, int)>, a: string, b: string, c: string)
    requires FreshIds(ops)
    requires Reaches(Exec(ops).rows, a, b) && Reaches(Exec(ops).rows, a, c)
    requires Live(Exec(ops).rows, b) && Live(Exec(ops).rows, c)
    ensures b == c && Exec(ops).rows[b].rotatedTo.None?
  {
    EveryRunIsLinked(ops);
    var m: nat :| ReachesIn(Exec(ops).rows, a, b, m);
    var n: nat :| ReachesIn(Exec(ops).rows, a, c, n);
    LiveEndsChain(Exec(ops), a, b, c, m, n);
  }

  // ------------------------------------------------------------------
  // Revocation is final
  // ------------------------------------------------------------------

  /** A recorded revocation time belongs to a revoked row. */
  ghost predicate TimesAreRevocations(rows: Rows) {
    forall id :: id in rows && rows[id].revokedAt.Some? ==> rows[id].revoked
  }

  /** What no later step may undo about a row. */
  predicate Keeps(a: Session, b: Session) {
    && a.user == b.user && a.born == b.born
    && (a.revoked ==> b.revoked)
    && (a.revokedAt.Some? ==> b.revokedAt == a.revokedAt)
    && (a.rotatedTo.Some? ==> b.rotatedTo == a.rotatedTo)
  }

  lemma NextKeepsRevocations(t: Table, op: Op, now: int)
    requires TimesAreRevocations(t.rows) && Linked(t)
    ensures TimesAreRevocations(Next(t, op, now).rows)
    ensures forall id :: id in t.rows ==> id in Next(t, op, now).rows && Keeps(t.rows[id], Next(t, op, now).rows[id])
  {
    if op.Create? || op.Rotate? || op.Exchange? {
      InsertingKeepsRevocations(t, op, now);
    }
  }

  lemma InsertingKeepsRevocations(t: Table, op: Op, now: int)
    requires TimesAreRevocations(t.rows) && Linked(t) && (op.Create? || op.Rotate? || op.Exchange?)
    ensures TimesAreRevocations(Next(t, op, now).rows)
    ensures forall id :: id in t.rows ==> id in Next(t, op, now).rows && Keeps(t.rows[id], Next(t, op, now).rows[id])
  {
  }

  lemma {:induction false} RevocationsStay(ops: seq<(Op, int)>, k: nat, id: string)
    requires FreshIds(ops) && k <= |ops| && id in Exec(ops[..k]).rows
    ensures TimesAreRevocations(Exec(ops).rows)
    ensures id in Exec(ops).rows && Keeps(Exec(ops[..k]).rows[id], Exec(ops).rows[id])
    decreases |ops|
  {
    TimesAlwaysRevocations(ops);
    if k == |ops| {
      assert ops[..k] == ops;
    } else {
      assert Init(ops)[..k] == ops[..k];
      RevocationsStay(Init(ops), k, id);
      EveryRunIsLinked(Init(ops));
      NextKeepsRevocations(Exec(Init(ops)), Last(ops).0, Last(ops).1);
    }
  }

  lemma {:induction false} TimesAlwaysRevocations(ops: seq<(Op, int)>)
    requires FreshIds(ops)
    ensures TimesAreRevocations(Exec(ops).rows)
  {
    if ops != [] {
      TimesAlwaysRevocations(Init(ops));
      EveryRunIsLinked(Init(ops));
      NextKeepsRevocations(Exec(Init(ops)), Last(ops).0, Last(ops).1);
    }
  }

  /** `id` is a session of the same user, reached from `start`. */
  ghost predicate OnChain(rows: Rows, start: string, id: string) {
    start in rows && id in rows && Reaches(rows, start, id) && rows[id].user == rows[start].user
  }

  /** Revoking a chain, on any table: no live session of that user is left on it, and nothing else changes. */
  lemma RevokeChainIsExact(rows: Rows, start: string, now: int)
    ensures var after := ChainRevoked(rows, start, now);
            && after.Keys == rows.Keys
            && (forall id :: id in rows && OnChain(rows, start, id) ==>
                  after[id] == if rows[id].revoked then rows[id] else RevokedRow(rows[id], now))
            && (forall id :: id in rows && !OnChain(rows, start, id) ==>
                  after[id] == rows[id])
  {
    forall id ensures id in Chain(rows, start, {}) <==> Reaches(rows, start, id) {
      ChainIsReach(rows, start, id);
    }
  }

  // ------------------------------------------------------------------
  // The repository
  // ------------------------------------------------------------------

  class SessionRepo {
    var table: Table

    constructor ()
      ensures table == Table(map[], 0)
    {
      table := Table(map[], 0);
    }

    method Create(s: NewSession) returns (ok: bool)
      modifies this
      ensures ok <==> s.id !in old(table.rows)
      ensures table == Next(old(table), Op.Create(s), 0)
    {
      if s.id in table.rows {
        return false;
      }
      table := Inserted(table, s);
      return true;
    }

    /** The recursive query: links are followed until they end or meet a row already found. */
    method CollectChain(start: string) returns (chain: set<string>)
      ensures chain == Chain(table.rows, start, {})
    {
      var rows := table.rows;
      chain := {};
      var next := Some(start);
      while next.Some? && next.value in rows && next.value !in chain
        invariant Chain(rows, start, {}) == if next.Some? then Chain(rows, next.value, chain) else chain
        decreases |rows.Keys - chain|
      {
        var id := next.value;
        ShrinksStrictly(rows.Keys - (chain + {id}), rows.Keys - chain);
        chain := chain + {id};
        next := rows[id].rotatedTo;
      }
    }

    method RevokeChainFrom(start: string, now: int)
      modifies this
      ensures table == Next(old(table), RevokeChain(start), now)
    {
      var chain := CollectChain(start);
      if start !in table.rows {
        assert ChainRevoked(table.rows, start, now) == table.rows;
        return;
      }
      var rows, user := table.rows, table.rows[start].user;
      table := table.(rows := map id | id in rows ::
        if id in chain && rows[id].user == user && !rows[id].revoked then RevokedRow(rows[id], now) else rows[id]);
      assert table.rows == ChainRevoked(rows, start, now);
    }

    method Revoke(id: string, now: int)
      modifies this
      ensures table == Next(old(table), Op.Revoke(id), now)
    {
      if id in table.rows {
        var s := table.rows[id];
        s := s.(revoked := true, revokedAt := if s.revokedAt.None? then Some(now) else s.revokedAt);
        table := table.(rows := table.rows[id := s]);
      }
    }

    method RevokeIfNotRevoked(id: string, now: int) returns (done: bool)
      modifies this
      ensures done <==> Live(old(table.rows), id)
      ensures table == Next(old(table), RevokeIfLive(id), now)
    {
      done := id in table.rows && !table.rows[id].revoked;
      if done {
        table := table.(rows := table.rows[id := table.rows[id].(revoked := true, revokedAt := Some(now))]);
      }
    }

    /** The successor is inserted first; if the old row is not live the transaction rolls back. */
    method RotateRefresh(from: string, s: NewSession, now: int) returns (ok: bool)
      modifies this
      ensures table == Next(old(table), Rotate(from, s), now)
      ensures from != s.id ==> (ok <==> s.id !in old(table.rows) && Live(old(table.rows), from))
      ensures !ok ==> table == old(table)
    {
      var before := table;
      if s.id in table.rows {
        return false;
      }
      table := Inserted(table, s);
      if !Live(table.rows, from) {
        table := before;
        return false;
      }
      var row := table.rows[from];
      row := row.(revoked := true, revokedAt := Some(now), rotatedTo := Some(s.id));
      table := table.(rows := table.rows[from := row]);
      return true;
    }

    method ExchangeAuthCode(from: string, s: NewSession, now: int) returns (ok: bool)
      modifies this
      ensures table == Next(old(table), Exchange(from, s), now)
      ensures ok <==> Live(old(table.rows), from) && s.id !in old(table.rows)
      ensures !ok ==> table == old(table)
    {
      var before := table;
      if !Live(table.rows, from) {
        return false;
      }
      table := table.(rows := table.rows[from := RevokedRow(table.rows[from], now)]);
      if s.id in table.rows {
        table := before;
        return false;
      }
      table := Inserted(table, s);
      return true;
    }
  }
}
