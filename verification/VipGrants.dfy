/**
 Granting and extending VIP days (internal/service/admin_users.go,
 internal/repo/admin_users_repo.go) as interleaved transactions.

 One step is one statement of the transaction. A transaction's writes stay its own
 until it commits; the row lock of FOR UPDATE or of a fresh insert, and the unique
 (app, key) entry, block other transactions until it ends. What other code does to a
 subscription row, whether a user exists and whether a plan is active are inputs.
 */
module VipGrants {
  import opened Base

  const Day := 86_400_000_000_000

  /** The one active membership row a user can have; no expiry means lifetime. */
  datatype Sub = Sub(plan: string, expires: Option<int>)

  type Key = (string, string)

  /** `digest` is the hash of user and days; `key` is empty when the caller sends none. */
  datatype Request = Request(app: string, user: string, days: int, key: string, digest: string)

  datatype Reply = Reply(before: Option<Sub>, after: Sub)

  datatype Stored = Stored(digest: Option<string>, reply: Reply)

  datatype Kind = Grant | Extend | Reject

  datatype Audit = Audit(tx: nat, kind: Kind, user: string, before: Option<Sub>, after: Option<Sub>)

  datatype Change = Change(tx: nat, key: Option<Key>, user: string, reply: Reply)

  /** Committed state; `audits` and `changes` list what the modelled run has committed. */
  datatype Db = Db(subs: map<string, Sub>, idem: map<Key, Stored>, audits: seq<Audit>, changes: seq<Change>)

  datatype Outcome =
    | Fresh(reply: Reply)
    | Replayed(reply: Reply)
    | Rejected
    | Mismatch
    | NotFound
    | NoStoredReply
    | Errored

  datatype Stage =
    | Ready
    | Checked
    | Locked(cur: Option<Sub>)
    | Wrote(reply: Reply)
    | Sealed(reply: Reply)
    | Rejecting(cur: Option<Sub>)
    | Racing
    | Finished(outcome: Outcome)

  datatype Tx = Tx(req: Request, now: int, stage: Stage)

  datatype System = System(db: Db, txs: map<nat, Tx>, userLocks: map<string, nat>, keyLocks: map<Key, nat>)

  function KeyOf(r: Request): Option<Key> {
    if r.key == "" then None else Some((r.app, r.key))
  }

  function Extended(s: Sub, now: int, days: int): Sub {
    match s.expires
    case None => s
    case Some(e) => s.(expires := Some((if e < now then now else e) + days * Day))
  }

  function Granted(now: int, days: int): Sub {
    Sub("monthly", Some(now + days * Day))
  }

  predicate Retired(plan: string, active: Option<bool>) {
    active != Some(true) || plan == "free" || plan == "quarterly"
  }

  // ------------------------------------------------------------------
  // Steps
  // ------------------------------------------------------------------

  datatype Event =
    | Begin(id: nat, req: Request, now: int)
    | ReadKey(id: nat)
    | LockRow(id: nat, userExists: bool)
    | Write(id: nat, planActive: Option<bool>)
    | InsertKey(id: nat)
    | Commit(id: nat)
    | Replay(id: nat)
    | Fail(id: nat)
    | Elsewhere(user: string, sub: Option<Sub>)

  predicate UserFree(s: System, id: nat, user: string) {
    user in s.userLocks ==> s.userLocks[user] == id
  }

  predicate KeyFree(s: System, id: nat, key: Option<Key>) {
    key.Some? && key.value in s.keyLocks ==> s.keyLocks[key.value] == id
  }

  predicate Enabled(s: System, e: Event) {
    match e
    case Begin(id, _, _) => id !in s.txs
    case Elsewhere(user, _) => user !in s.userLocks
    case ReadKey(id) => id in s.txs && s.txs[id].stage.Ready?
    case LockRow(id, userExists) =>
      && id in s.txs && s.txs[id].stage.Checked?
      && (userExists && s.txs[id].req.user in s.db.subs ==> UserFree(s, id, s.txs[id].req.user))
    case Write(id, _) =>
      && id in s.txs && s.txs[id].stage.Locked?
      && (s.txs[id].stage.cur.None? ==> UserFree(s, id, s.txs[id].req.user))
    case InsertKey(id) =>
      && id in s.txs && s.txs[id].stage.Wrote? && KeyFree(s, id, KeyOf(s.txs[id].req))
    case Commit(id) => id in s.txs && (s.txs[id].stage.Sealed? || s.txs[id].stage.Rejecting?)
    case Replay(id) => id in s.txs && s.txs[id].stage.Racing?
    case Fail(id) => id in s.txs && !s.txs[id].stage.Finished?
  }

  function At(s: System, id: nat, stage: Stage): System
    requires id in s.txs
  {
    s.(txs := s.txs[id := s.txs[id].(stage := stage)])
  }

  function Unlocked<K(==)>(locks: map<K, nat>, id: nat): map<K, nat> {
    map k | k in locks && locks[k] != id :: locks[k]
  }

  /** Commit or rollback: the transaction's locks go away. */
  function Ended(s: System, id: nat, stage: Stage): System
    requires id in s.txs
  {
    At(s, id, stage).(userLocks := Unlocked(s.userLocks, id), keyLocks := Unlocked(s.keyLocks, id))
  }

  /** What a stored reply tells a request with this digest. */
  function Answer(stored: Stored, digest: string): Outcome {
    if stored.digest.Some? && stored.digest.value != digest then Mismatch else Replayed(stored.reply)
  }

  function AfterReadKey(s: System, id: nat): System
    requires id in s.txs
  {
    var req := s.txs[id].req;
    var key := KeyOf(req);
    if key.Some? && key.value in s.db.idem then Ended(s, id, Finished(Answer(s.db.idem[key.value], req.digest)))
    else At(s, id, Checked)
  }

  function AfterLockRow(s: System, id: nat, userExists: bool): System
    requires id in s.txs
  {
    var user := s.txs[id].req.user;
    if !userExists then Ended(s, id, Finished(NotFound))
    else if user in s.db.subs then At(s, id, Locked(Some(s.db.subs[user]))).(userLocks := s.userLocks[user := id])
    else At(s, id, Locked(None))
  }

  function AfterInsert(s: System, id: nat): System
    requires id in s.txs
  {
    var req := s.txs[id].req;
    if req.user in s.db.subs then
      if KeyOf(req).Some? then Ended(s, id, Racing) else At(s, id, Rejecting(None))
    else
      At(s, id, Wrote(Reply(None, Granted(s.txs[id].now, req.days)))).(userLocks := s.userLocks[req.user := id])
  }

  function AfterExtend(s: System, id: nat, cur: Sub, planActive: Option<bool>): System
    requires id in s.txs
  {
    var req := s.txs[id].req;
    if cur.expires.None? || Retired(cur.plan, planActive) || req.user !in s.db.subs then At(s, id, Rejecting(Some(cur)))
    else At(s, id, Wrote(Reply(Some(cur), Extended(s.db.subs[req.user], s.txs[id].now, req.days))))
  }

  function AfterInsertKey(s: System, id: nat): System
    requires id in s.txs && s.txs[id].stage.Wrote?
  {
    var key := KeyOf(s.txs[id].req);
    var sealed := At(s, id, Sealed(s.txs[id].stage.reply));
    if key.None? then sealed
    else if key.value in s.db.idem then Ended(s, id, Racing)
    else sealed.(keyLocks := s.keyLocks[key.value := id])
  }

  /** A change with its audit row and its idempotency row, all at once. */
  function Applied(db: Db, id: nat, req: Request, reply: Reply): Db {
    Db(db.subs[req.user := reply.after],
       if KeyOf(req).Some? then db.idem[KeyOf(req).value := Stored(Some(req.digest), reply)] else db.idem,
       db.audits + [Audit(id, if reply.before.None? then Grant else Extend, req.user, reply.before, Some(reply.after))],
       db.changes + [Change(id, KeyOf(req), req.user, reply)])
  }

  function RejectionLogged(db: Db, id: nat, req: Request, cur: Option<Sub>): Db {
    db.(audits := db.audits + [Audit(id, Reject, req.user, cur, None)])
  }

  function AfterCommit(s: System, id: nat): System
    requires id in s.txs && (s.txs[id].stage.Sealed? || s.txs[id].stage.Rejecting?)
  {
    var tx := s.txs[id];
    if tx.stage.Sealed? then
      Ended(s, id, Finished(Fresh(tx.stage.reply))).(db := Applied(s.db, id, tx.req, tx.stage.reply))
    else
      Ended(s, id, Finished(Rejected)).(db := RejectionLogged(s.db, id, tx.req, tx.stage.cur))
  }

  function AfterReplay(s: System, id: nat): System
    requires id in s.txs
  {
    var req := s.txs[id].req;
    var key := KeyOf(req);
    if key.Some? && key.value in s.db.idem then At(s, id, Finished(Answer(s.db.idem[key.value], req.digest)))
    else At(s, id, Finished(NoStoredReply))
  }

  function Next(s: System, e: Event): System
    requires Enabled(s, e)
  {
    match e
    case Begin(id, req, now) => s.(txs := s.txs[id := Tx(req, now, Ready)])
    case ReadKey(id) => AfterReadKey(s, id)
    case LockRow(id, userExists) => AfterLockRow(s, id, userExists)
    case Write(id, planActive) =>
      if s.txs[id].stage.cur.None? then AfterInsert(s, id)
      else AfterExtend(s, id, s.txs[id].stage.cur.value, planActive)
    case InsertKey(id) => AfterInsertKey(s, id)
    case Commit(id) => AfterCommit(s, id)
    case Replay(id) => AfterReplay(s, id)
    case Fail(id) => Ended(s, id, Finished(Errored))
    case Elsewhere(user, sub) =>
      s.(db := s.db.(subs := if sub.Some? then s.db.subs[user := sub.value] else s.db.subs - {user}))
  }

  // ------------------------------------------------------------------
  // Invariants
  // ------------------------------------------------------------------

  predicate HoldsUser(tx: Tx) {
    match tx.stage
    case Locked(cur) => cur.Some?
    case Wrote(_) => true
    case Sealed(_) => true
    case Rejecting(cur) => cur.Some?
    case _ => false
  }

  predicate HoldsKey(tx: Tx) {
    tx.stage.Sealed? && KeyOf(tx.req).Some?
  }

  /** A lock is held exactly by the transaction whose stage says so. */
  ghost predicate UserLocksAgree(s: System) {
    && (forall u :: u in s.userLocks ==>
          s.userLocks[u] in s.txs && HoldsUser(s.txs[s.userLocks[u]]) && s.txs[s.userLocks[u]].req.user == u)
    && (forall id :: id in s.txs && HoldsUser(s.txs[id]) ==>
          s.txs[id].req.user in s.userLocks && s.userLocks[s.txs[id].req.user] == id)
  }

  ghost predicate KeyLocksAgree(s: System) {
    && (forall k :: k in s.keyLocks ==>
          s.keyLocks[k] in s.txs && HoldsKey(s.txs[s.keyLocks[k]]) && KeyOf(s.txs[s.keyLocks[k]].req) == Some(k))
    && (forall id :: id in s.txs && HoldsKey(s.txs[id]) ==>
          KeyOf(s.txs[id].req).value in s.keyLocks && s.keyLocks[KeyOf(s.txs[id].req).value] == id)
  }

  /** The committed row is still the one a transaction based its work on. */
  predicate RowIs(db: Db, user: string, row: Option<Sub>) {
    if row.None? then user !in db.subs else user in db.subs && db.subs[user] == row.value
  }

  predicate ReplyIsRight(tx: Tx, reply: Reply) {
    if reply.before.None? then reply.after == Granted(tx.now, tx.req.days)
    else reply.before.value.expires.Some? && reply.after == Extended(reply.before.value, tx.now, tx.req.days)
  }

  ghost predicate TxAgrees(db: Db, tx: Tx) {
    match tx.stage
    case Locked(cur) => cur.Some? ==> RowIs(db, tx.req.user, cur)
    case Wrote(reply) => RowIs(db, tx.req.user, reply.before) && ReplyIsRight(tx, reply)
    case Sealed(reply) =>
      && RowIs(db, tx.req.user, reply.before) && ReplyIsRight(tx, reply)
      && (KeyOf(tx.req).Some? ==> KeyOf(tx.req).value !in db.idem)
    case Finished(Fresh(reply)) =>
      ReplyIsRight(tx, reply)
      && (KeyOf(tx.req).Some? ==> KeyOf(tx.req).value in db.idem && db.idem[KeyOf(tx.req).value].reply == reply)
    case Finished(Replayed(reply)) =>
      KeyOf(tx.req).Some? && KeyOf(tx.req).value in db.idem && db.idem[KeyOf(tx.req).value].reply == reply
    case _ => true
  }

  ghost predicate TxsAgree(s: System) {
    forall id :: id in s.txs ==> TxAgrees(s.db, s.txs[id])
  }

  /** One change per key, and every change with a key is the stored one. */
  ghost predicate ChangesKeyed(db: Db) {
    && (forall i :: 0 <= i < |db.changes| && db.changes[i].key.Some? ==>
          && db.changes[i].key.value in db.idem
          && db.idem[db.changes[i].key.value].reply == db.changes[i].reply)
    && (forall i, j :: 0 <= i < j < |db.changes| && db.changes[i].key.Some? ==> db.changes[i].key != db.changes[j].key)
  }

  function AuditsOf(audits: seq<Audit>, id: nat): seq<Audit> {
    if audits == [] then []
    else if Last(audits).tx == id then AuditsOf(Init(audits), id) + [Last(audits)]
    else AuditsOf(Init(audits), id)
  }

  function ChangesOf(changes: seq<Change>, id: nat): seq<Change> {
    if changes == [] then []
    else if Last(changes).tx == id then ChangesOf(Init(changes), id) + [Last(changes)]
    else ChangesOf(Init(changes), id)
  }

  /** The committed rows transaction `id` accounts for. */
  ghost predicate LoggedOnce(s: System, id: nat) {
    var audits, changes := AuditsOf(s.db.audits, id), ChangesOf(s.db.changes, id);
    if id in s.txs && s.txs[id].stage.Finished? && s.txs[id].stage.outcome.Fresh? then
      var req, reply := s.txs[id].req, s.txs[id].stage.outcome.reply;
      && audits == [Audit(id, if reply.before.None? then Grant else Extend, req.user, reply.before, Some(reply.after))]
      && changes == [Change(id, KeyOf(req), req.user, reply)]
    else if id in s.txs && s.txs[id].stage == Finished(Rejected) then
      && |audits| == 1 && audits[0].kind == Reject && audits[0].user == s.txs[id].req.user
      && changes == []
    else
      audits == [] && changes == []
  }

  ghost predicate LogsAgree(s: System) {
    forall id: nat :: LoggedOnce(s, id)
  }

  ghost predicate Inv(s: System) {
    UserLocksAgree(s) && KeyLocksAgree(s) && TxsAgree(s) && ChangesKeyed(s.db) && LogsAgree(s)
  }

  // ------------------------------------------------------------------
  // Every step keeps them
  // ------------------------------------------------------------------

  /** How a step of transaction `id` may change the user locks. */
  ghost predicate UserLockStep(s: System, t: System, id: nat) {
    && id in s.txs && id in t.txs && t.txs == s.txs[id := t.txs[id]] && t.txs[id].req == s.txs[id].req
    && var user, holds := s.txs[id].req.user, HoldsUser(t.txs[id]);
       || (t.userLocks == s.userLocks && holds == HoldsUser(s.txs[id]))
       || (t.userLocks == s.userLocks[user := id] && holds && UserFree(s, id, user))
       || (t.userLocks == Unlocked(s.userLocks, id) && !holds)
  }

  ghost predicate KeyLockStep(s: System, t: System, id: nat) {
    && id in s.txs && id in t.txs && t.txs == s.txs[id := t.txs[id]] && t.txs[id].req == s.txs[id].req
    && var key, holds := KeyOf(s.txs[id].req), HoldsKey(t.txs[id]);
       || (t.keyLocks == s.keyLocks && holds == HoldsKey(s.txs[id]))
       || (key.Some? && t.keyLocks == s.keyLocks[key.value := id] && holds && KeyFree(s, id, key))
       || (t.keyLocks == Unlocked(s.keyLocks, id) && !holds)
  }

  lemma UserLockStepKeeps(s: System, t: System, id: nat)
    requires UserLocksAgree(s) && UserLockStep(s, t, id)
    ensures UserLocksAgree(t)
  {
  }

  lemma KeyLockStepKeeps(s: System, t: System, id: nat)
    requires KeyLocksAgree(s) && KeyLockStep(s, t, id)
    ensures KeyLocksAgree(t)
  {
  }

  lemma WriteIsUserLockStep(s: System, e: Event)
    requires Enabled(s, e) && e.Write?
    ensures UserLockStep(s, Next(s, e), e.id)
  {
  }

  lemma StepsAreUserLockSteps(s: System, e: Event)
    requires Enabled(s, e) && !e.Begin? && !e.Elsewhere?
    ensures UserLockStep(s, Next(s, e), e.id)
  {
    if e.Write? {
      WriteIsUserLockStep(s, e);
    }
  }

  lemma StepsAreKeyLockSteps(s: System, e: Event)
    requires Enabled(s, e) && !e.Begin? && !e.Elsewhere?
    ensures KeyLockStep(s, Next(s, e), e.id)
  {
  }

  lemma {:induction false} NextKeepsLocks(s: System, e: Event)
    requires Enabled(s, e) && UserLocksAgree(s) && KeyLocksAgree(s)
    ensures UserLocksAgree(Next(s, e)) && KeyLocksAgree(Next(s, e))
  {
    if !e.Begin? && !e.Elsewhere? {
      StepsAreUserLockSteps(s, e);
      StepsAreKeyLockSteps(s, e);
      UserLockStepKeeps(s, Next(s, e), e.id);
      KeyLockStepKeeps(s, Next(s, e), e.id);
    }
  }

  /** A commit touches no row and no key another transaction relies on. */
  lemma CommitKeepsOthers(s: System, id: nat, other: nat)
    requires Inv(s) && id in s.txs && s.txs[id].stage.Sealed? && other in s.txs && other != id
    ensures TxAgrees(Applied(s.db, id, s.txs[id].req, s.txs[id].stage.reply), s.txs[other])
  {
  }

  /** Only a commit or an outside write changes the database. */
  lemma OtherStepsWriteNothing(s: System, e: Event)
    requires Enabled(s, e) && !e.Commit? && !e.Elsewhere?
    ensures Next(s, e).db == s.db
  {
  }

  lemma NextKeepsOthers(s: System, e: Event, id: nat)
    requires Enabled(s, e) && Inv(s) && id in s.txs && (e.Elsewhere? || e.id != id)
    ensures TxAgrees(Next(s, e).db, s.txs[id])
  {
    assert TxAgrees(s.db, s.txs[id]);
    if e.Elsewhere? {
    } else if e.Commit? {
      if s.txs[e.id].stage.Sealed? {
        CommitKeepsOthers(s, e.id, id);
      }
    } else {
      OtherStepsWriteNothing(s, e);
    }
  }

  lemma WriteKeepsSelf(s: System, e: Event)
    requires Enabled(s, e) && Inv(s) && e.Write?
    ensures e.id in Next(s, e).txs && TxAgrees(s.db, Next(s, e).txs[e.id])
  {
    assert TxAgrees(s.db, s.txs[e.id]);
  }

  lemma SealKeepsSelf(s: System, e: Event)
    requires Enabled(s, e) && Inv(s) && (e.InsertKey? || e.Commit?)
    ensures e.id in Next(s, e).txs && TxAgrees(Next(s, e).db, Next(s, e).txs[e.id])
  {
    assert TxAgrees(s.db, s.txs[e.id]);
  }

  lemma {:induction false} NextKeepsSelf(s: System, e: Event)
    requires Enabled(s, e) && Inv(s) && !e.Elsewhere?
    ensures e.id in Next(s, e).txs && TxAgrees(Next(s, e).db, Next(s, e).txs[e.id])
  {
    if e.Write? {
      WriteKeepsSelf(s, e);
      OtherStepsWriteNothing(s, e);
    } else if e.InsertKey? || e.Commit? {
      SealKeepsSelf(s, e);
    } else {
      OtherStepsWriteNothing(s, e);
    }
  }

  /** A step touches its own transaction only. */
  lemma OtherTxsStay(s: System, e: Event, id: nat)
    requires Enabled(s, e) && id in Next(s, e).txs && (e.Elsewhere? || e.id != id)
    ensures id in s.txs && Next(s, e).txs[id] == s.txs[id]
  {
  }

  lemma {:induction false} NextKeepsTxs(s: System, e: Event)
    requires Enabled(s, e) && Inv(s)
    ensures TxsAgree(Next(s, e))
  {
    var t := Next(s, e);
    forall id | id in t.txs ensures TxAgrees(t.db, t.txs[id]) {
      if !e.Elsewhere? && e.id == id {
        NextKeepsSelf(s, e);
      } else {
        OtherTxsStay(s, e, id);
        NextKeepsOthers(s, e, id);
      }
    }
  }

  lemma NextKeepsChanges(s: System, e: Event)
    requires Enabled(s, e) && Inv(s)
    ensures ChangesKeyed(Next(s, e).db)
  {
    if e.Commit? {
      assert TxAgrees(s.db, s.txs[e.id]);
    } else if !e.Elsewhere? {
      OtherStepsWriteNothing(s, e);
    }
  }

  lemma LogSnoc(audits: seq<Audit>, a: Audit, changes: seq<Change>, c: Change, id: nat)
    ensures AuditsOf(audits + [a], id) == if a.tx == id then AuditsOf(audits, id) + [a] else AuditsOf(audits, id)
    ensures ChangesOf(changes + [c], id) == if c.tx == id then ChangesOf(changes, id) + [c] else ChangesOf(changes, id)
  {
  }

  lemma ChangeIsLogged(s: System, e: Event)
    requires Enabled(s, e) && e.Commit? && s.txs[e.id].stage.Sealed? && LogsAgree(s)
    ensures LoggedOnce(Next(s, e), e.id)
  {
    assert LoggedOnce(s, e.id);
    var tx, reply := s.txs[e.id], s.txs[e.id].stage.reply;
    var kind := if reply.before.None? then Grant else Extend;
    FirstLogged(s.db.audits, Audit(e.id, kind, tx.req.user, reply.before, Some(reply.after)),
                s.db.changes, Change(e.id, KeyOf(tx.req), tx.req.user, reply), e.id);
    assert Next(s, e).txs[e.id] == tx.(stage := Finished(Fresh(reply)));
  }

  lemma FirstLogged(audits: seq<Audit>, a: Audit, changes: seq<Change>, c: Change, id: nat)
    requires AuditsOf(audits, id) == [] && ChangesOf(changes, id) == [] && a.tx == c.tx == id
    ensures AuditsOf(audits + [a], id) == [a] && ChangesOf(changes + [c], id) == [c]
  {
    LogSnoc(audits, a, changes, c, id);
  }

  lemma ChangeIsNoOneElses(s: System, e: Event, id: nat)
    requires Enabled(s, e) && e.Commit? && s.txs[e.id].stage.Sealed? && LogsAgree(s) && id != e.id
    ensures LoggedOnce(Next(s, e), id)
  {
    assert LoggedOnce(s, id);
    var t := Next(s, e);
    LogSnoc(s.db.audits, Last(t.db.audits), s.db.changes, Last(t.db.changes), id);
    assert (id in t.txs <==> id in s.txs) && (id in t.txs ==> t.txs[id] == s.txs[id]);
  }

  lemma RejectionIsLogged(s: System, e: Event, id: nat)
    requires Enabled(s, e) && e.Commit? && s.txs[e.id].stage.Rejecting? && LogsAgree(s)
    ensures LoggedOnce(Next(s, e), id)
  {
    assert LoggedOnce(s, id);
    var t, tx := Next(s, e), s.txs[e.id];
    var none := Change(0, None, "", Reply(None, Sub("", None)));
    LogSnoc(s.db.audits, Last(t.db.audits), s.db.changes, none, id);
    assert t.txs[e.id] == tx.(stage := Finished(Rejected));
    assert id != e.id ==> (id in t.txs <==> id in s.txs) && (id in t.txs ==> t.txs[id] == s.txs[id]);
  }

  /** A request's rows appear with its commit and not before. */
  lemma QuietStepsLogNothing(s: System, e: Event)
    requires Enabled(s, e) && !e.Commit?
    ensures Next(s, e).db.audits == s.db.audits && Next(s, e).db.changes == s.db.changes
    ensures !e.Elsewhere? ==>
              && e.id in Next(s, e).txs
              && var stage := Next(s, e).txs[e.id].stage;
                 stage.Finished? ==> !stage.outcome.Fresh? && !stage.outcome.Rejected?
    ensures !e.Elsewhere? && e.id in s.txs ==> !s.txs[e.id].stage.Finished?
  {
  }

  lemma QuietKeepsLogs(s: System, e: Event, id: nat)
    requires Enabled(s, e) && !e.Commit? && LogsAgree(s)
    ensures LoggedOnce(Next(s, e), id)
  {
    assert LoggedOnce(s, id);
    QuietStepsLogNothing(s, e);
    if id in Next(s, e).txs && (e.Elsewhere? || e.id != id) {
      OtherTxsStay(s, e, id);
    }
    if id !in Next(s, e).txs {
      TxsStay(s, e, id);
    }
  }

  lemma TxsStay(s: System, e: Event, id: nat)
    requires Enabled(s, e) && id !in Next(s, e).txs
    ensures id !in s.txs
  {
  }

  lemma NextKeepsLogs(s: System, e: Event)
    requires Enabled(s, e) && LogsAgree(s)
    ensures LogsAgree(Next(s, e))
  {
    forall id: nat ensures LoggedOnce(Next(s, e), id) {
      if e.Commit? && s.txs[e.id].stage.Sealed? {
        if id == e.id {
          ChangeIsLogged(s, e);
        } else {
          ChangeIsNoOneElses(s, e, id);
        }
      } else if e.Commit? {
        RejectionIsLogged(s, e, id);
      } else {
        QuietKeepsLogs(s, e, id);
      }
    }
  }

  lemma NextKeepsInv(s: System, e: Event)
    requires Enabled(s, e) && Inv(s)
    ensures Inv(Next(s, e))
  {
    NextKeepsLocks(s, e);
    NextKeepsTxs(s, e);
    NextKeepsChanges(s, e);
    NextKeepsLogs(s, e);
  }

  // ------------------------------------------------------------------
  // Every run
  // ------------------------------------------------------------------

  /** No transaction yet; subscriptions and stored replies are arbitrary. */
  function Initial(subs: map<string, Sub>, idem: map<Key, Stored>): System {
    System(Db(subs, idem, [], []), map[], map[], map[])
  }

  /** `s` is reached from `from` by the given interleaving. */
  ghost predicate Runs(from: System, events: seq<Event>, s: System)
    decreases |events|
  {
    if events == [] then s == from
    else exists mid :: Runs(from, Init(events), mid) && Enabled(mid, Last(events)) && s == Next(mid, Last(events))
  }

  lemma {:induction false} EveryRunKeepsInv(subs: map<string, Sub>, idem: map<Key, Stored>, events: seq<Event>,
                                            s: System)
    requires Runs(Initial(subs, idem), events, s)
    ensures Inv(s)
    decreases |events|
  {
    if events != [] {
      var from, e := Initial(subs, idem), Last(events);
      var mid :| Runs(from, Init(events), mid) && Enabled(mid, e) && s == Next(mid, e);
      EveryRunKeepsInv(subs, idem, Init(events), mid);
      NextKeepsInv(mid, Last(events));
    }
  }

  predicate Succeeded(tx: Tx) {
    tx.stage.Finished? && (tx.stage.outcome.Fresh? || tx.stage.outcome.Replayed?)
  }

  /**
   Exactly once per key: over every interleaving, a key has at most one committed
   change, and every successful answer given for it is the one stored reply.
   */
  lemma ExactlyOncePerKey(subs: map<string, Sub>, idem: map<Key, Stored>, events: seq<Event>, s: System, key: Key)
    requires Runs(Initial(subs, idem), events, s)
    ensures forall i, j :: 0 <= i < j < |s.db.changes| && s.db.changes[i].key == Some(key) ==>
              s.db.changes[j].key != Some(key)
    ensures forall id :: id in s.txs && Succeeded(s.txs[id]) && KeyOf(s.txs[id].req) == Some(key) ==>
              key in s.db.idem && s.txs[id].stage.outcome.reply == s.db.idem[key].reply
  {
    EveryRunKeepsInv(subs, idem, events, s);
    forall id | id in s.txs && Succeeded(s.txs[id]) && KeyOf(s.txs[id].req) == Some(key)
      ensures key in s.db.idem && s.txs[id].stage.outcome.reply == s.db.idem[key].reply
    {
      assert TxAgrees(s.db, s.txs[id]);
    }
  }

  lemma NextKeepsStored(s: System, e: Event, key: Key)
    requires Enabled(s, e) && Inv(s) && key in s.db.idem
    ensures key in Next(s, e).db.idem && Next(s, e).db.idem[key] == s.db.idem[key]
  {
    if e.Commit? {
      assert TxAgrees(s.db, s.txs[e.id]);
    } else if !e.Elsewhere? {
      OtherStepsWriteNothing(s, e);
    }
  }

  /** A stored reply is never replaced. */
  lemma {:induction false} StoredRepliesStay(from: System, events: seq<Event>, s: System, key: Key)
    requires Inv(from) && Runs(from, events, s) && key in from.db.idem
    ensures Inv(s) && key in s.db.idem && s.db.idem[key] == from.db.idem[key]
    decreases |events|
  {
    if events != [] {
      var mid :| Runs(from, Init(events), mid) && Enabled(mid, Last(events)) && s == Next(mid, Last(events));
      StoredRepliesStay(from, Init(events), mid, key);
      NextKeepsInv(mid, Last(events));
      NextKeepsStored(mid, Last(events), key);
    }
  }

  /**
   Every request is accounted for: a fresh success has one change and one audit row, a
   rejection one vip.reject row and no change, and any other request leaves nothing.
   */
  lemma {:induction false} EveryRequestIsAccounted(subs: map<string, Sub>, idem: map<Key, Stored>,
                                                   events: seq<Event>, s: System, id: nat)
    requires Runs(Initial(subs, idem), events, s)
    ensures LoggedOnce(s, id)
  {
    EveryRunKeepsInv(subs, idem, events, s);
  }

  // ------------------------------------------------------------------
  // No membership is ever shortened
  // ------------------------------------------------------------------

  /** `b` lasts at least as long as `a`, on the same plan. */
  predicate AtLeast(a: Sub, b: Sub) {
    && a.plan == b.plan
    && (if a.expires.None? then b.expires.None? else b.expires.None? || a.expires.value <= b.expires.value)
  }

  /** The handler admits positive day counts only. */
  ghost predicate PositiveDays(s: System) {
    forall id :: id in s.txs ==> s.txs[id].req.days > 0
  }

  lemma NextNeverShortens(s: System, e: Event, user: string)
    requires Enabled(s, e) && Inv(s) && PositiveDays(s) && !e.Elsewhere? && user in s.db.subs
    ensures user in Next(s, e).db.subs && AtLeast(s.db.subs[user], Next(s, e).db.subs[user])
  {
    if !e.Commit? {
      OtherStepsWriteNothing(s, e);
    } else if s.txs[e.id].stage.Sealed? {
    }
  }

  ghost predicate OnlyGrants(events: seq<Event>) {
    forall i :: 0 <= i < |events| ==> !events[i].Elsewhere? && (events[i].Begin? ==> events[i].req.days > 0)
  }

  lemma NextKeepsDays(s: System, e: Event)
    requires Enabled(s, e) && PositiveDays(s) && (e.Begin? ==> e.req.days > 0)
    ensures PositiveDays(Next(s, e))
  {
    if !e.Begin? && !e.Elsewhere? {
      StepsAreUserLockSteps(s, e);
    }
  }

  /** Over any run of grants and extensions a membership only ever grows; a lifetime one stays lifetime. */
  lemma {:induction false} NoRunShortens(from: System, events: seq<Event>, s: System, user: string)
    requires Inv(from) && PositiveDays(from) && Runs(from, events, s) && user in from.db.subs && OnlyGrants(events)
    ensures Inv(s) && PositiveDays(s) && user in s.db.subs && AtLeast(from.db.subs[user], s.db.subs[user])
    decreases |events|
  {
    if events != [] {
      var e := Last(events);
      var mid :| Runs(from, Init(events), mid) && Enabled(mid, e) && s == Next(mid, e);
      assert e == events[|events| - 1];
      NoRunShortens(from, Init(events), mid, user);
      NextKeepsInv(mid, e);
      NextKeepsDays(mid, e);
      NextNeverShortens(mid, e, user);
    }
  }

  // ------------------------------------------------------------------
  // The lock order cannot deadlock
  // ------------------------------------------------------------------

  /** Some transaction can move on without failing. */
  ghost predicate CanMove(s: System) {
    exists e: Event :: !e.Begin? && !e.Elsewhere? && !e.Fail? && Enabled(s, e)
  }

  lemma HolderCanMove(s: System, id: nat)
    requires Inv(s) && id in s.txs && HoldsUser(s.txs[id])
    ensures CanMove(s)
  {
    match s.txs[id].stage
    case Locked(_) => assert Enabled(s, Write(id, None));
    case Wrote(_) =>
      if KeyFree(s, id, KeyOf(s.txs[id].req)) {
        assert Enabled(s, InsertKey(id));
      } else {
        assert Enabled(s, Commit(s.keyLocks[KeyOf(s.txs[id].req).value]));
      }
    case Sealed(_) => assert Enabled(s, Commit(id));
    case Rejecting(_) => assert Enabled(s, Commit(id));
  }

  lemma NoDeadlock(s: System, id: nat)
    requires Inv(s) && id in s.txs && !s.txs[id].stage.Finished?
    ensures CanMove(s)
  {
    var tx := s.txs[id];
    if tx.req.user in s.userLocks {
      HolderCanMove(s, s.userLocks[tx.req.user]);
    } else {
      match tx.stage
      case Ready => assert Enabled(s, ReadKey(id));
      case Checked => assert Enabled(s, LockRow(id, true));
      case Locked(_) => assert Enabled(s, Write(id, None));
      case Rejecting(_) => assert Enabled(s, Commit(id));
      case Racing => assert Enabled(s, Replay(id));
      case _ => HolderCanMove(s, id);
    }
  }

  // ------------------------------------------------------------------
  // One request with no other transaction in between
  // ------------------------------------------------------------------

  class AdminUsersService {
    var db: Db

    constructor (db: Db)
      ensures this.db == db
    {
      this.db := db;
    }

    /** The row to insert or to extend to; none when the rules refuse. */
    method Decide(user: string, days: int, now: int, planActive: Option<bool>)
      returns (cur: Option<Sub>, after: Option<Sub>)
      ensures RowIs(db, user, cur)
      ensures after.None? <==>
              user in db.subs && (db.subs[user].expires.None? || Retired(db.subs[user].plan, planActive))
      ensures after.Some? && cur.None? ==> after.value == Granted(now, days)
      ensures after.Some? && cur.Some? ==> after.value == Extended(cur.value, now, days)
    {
      if user !in db.subs {
        return None, Some(Granted(now, days));
      }
      var row := db.subs[user];
      if row.expires.None? || Retired(row.plan, planActive) {
        return Some(row), None;
      }
      return Some(row), Some(Extended(row, now, days));
    }

    method AddVipDays(id: nat, req: Request, now: int, userExists: bool, planActive: Option<bool>) returns (r: Outcome)
      modifies this
      ensures var key := KeyOf(req);
              if key.Some? && key.value in old(db.idem) then
                r == Answer(old(db.idem[key.value]), req.digest) && db == old(db)
              else if !userExists then
                r == NotFound && db == old(db)
              else if req.user in old(db.subs)
                      && (old(db.subs[req.user]).expires.None? || Retired(old(db.subs[req.user]).plan, planActive)) then
                r == Rejected && db == RejectionLogged(old(db), id, req, Some(old(db.subs[req.user])))
              else
                && r.Fresh? && db == Applied(old(db), id, req, r.reply)
                && RowIs(old(db), req.user, r.reply.before)
                && ReplyIsRight(Tx(req, now, Ready), r.reply)
    {
      var key := KeyOf(req);
      if key.Some? && key.value in db.idem {
        return Answer(db.idem[key.value], req.digest);
      }
      if !userExists {
        return NotFound;
      }
      var cur, after := Decide(req.user, req.days, now, planActive);
      if after.None? {
        db := db.(audits := db.audits + [Audit(id, Reject, req.user, cur, None)]);
        return Rejected;
      }
      var reply := Reply(cur, after.value);
      db := db.(subs := db.subs[req.user := after.value]);
      db := db.(audits := db.audits + [Audit(id, if cur.None? then Grant else Extend, req.user, cur, after)]);
      if key.Some? {
        db := db.(idem := db.idem[key.value := Stored(Some(req.digest), reply)]);
      }
      db := db.(changes := db.changes + [Change(id, key, req.user, reply)]);
      return Fresh(reply);
    }
  }
}
