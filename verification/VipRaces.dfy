/**
 VIP grants that lose a race (AddVipDays and replayIdempotentResponse of
 internal/service/admin_users.go): how a keyed grant ends whose insert met another's row,
 and a run in which it finds no reply to replay.
 */
module VipRaces {
  import opened Base
  import opened VipGrants

  // ------------------------------------------------------------------
  // A keyed grant that loses the insert
  // ------------------------------------------------------------------

  /** No event of the run belongs to transaction `id`. */
  ghost predicate OthersOnly(events: seq<Event>, id: nat) {
    forall i :: 0 <= i < |events| ==> events[i].Elsewhere? || events[i].id != id
  }

  lemma {:induction false} OthersLeaveItAlone(from: System, events: seq<Event>, s: System, id: nat)
    requires Runs(from, events, s) && OthersOnly(events, id) && id in from.txs
    ensures id in s.txs && s.txs[id] == from.txs[id]
    decreases |events|
  {
    if events != [] {
      var mid :| Runs(from, Init(events), mid) && Enabled(mid, Last(events)) && s == Next(mid, Last(events));
      OthersLeaveItAlone(from, Init(events), mid, id);
      assert events[|events| - 1] == Last(events);
      OthersStay(mid, Last(events), id);
    }
  }

  lemma OthersStay(s: System, e: Event, id: nat)
    requires Enabled(s, e) && id in s.txs && (e.Elsewhere? || e.id != id)
    ensures id in Next(s, e).txs && Next(s, e).txs[id] == s.txs[id]
  {
  }

  /** Some committed change carries this key. */
  ghost predicate ChangedUnder(db: Db, key: Key) {
    exists c :: c in db.changes && c.key == Some(key)
  }

  /** The step commits a change under this key. */
  predicate CommitsUnder(s: System, e: Event, key: Key) {
    e.Commit? && e.id in s.txs && s.txs[e.id].stage.Sealed? && KeyOf(s.txs[e.id].req) == Some(key)
  }

  lemma CommitStoresKey(s: System, e: Event, key: Key)
    requires Enabled(s, e)
    ensures key in Next(s, e).db.idem <==> key in s.db.idem || CommitsUnder(s, e, key)
    ensures ChangedUnder(Next(s, e).db, key) <==> ChangedUnder(s.db, key) || CommitsUnder(s, e, key)
  {
    if e.Commit? && s.txs[e.id].stage.Sealed? {
      var tx := s.txs[e.id];
      var c := Change(e.id, KeyOf(tx.req), tx.req.user, tx.stage.reply);
      var changes := Next(s, e).db.changes;
      assert changes == s.db.changes + [c] && c in changes;
      assert forall x :: x in changes <==> x in s.db.changes || x == c;
    } else if e.Commit? || e.Elsewhere? {
      assert Next(s, e).db.changes == s.db.changes;
    } else {
      OtherStepsWriteNothing(s, e);
    }
  }

  /** In every run the stored keys are the initial ones and those of the committed changes. */
  lemma {:induction false} StoredKeysExactly(
      subs: map<string, Sub>, idem: map<Key, Stored>, events: seq<Event>, s: System, key: Key)
    requires Runs(Initial(subs, idem), events, s)
    ensures key in s.db.idem <==> key in idem || ChangedUnder(s.db, key)
    decreases |events|
  {
    if events != [] {
      var from, e := Initial(subs, idem), Last(events);
      var mid :| Runs(from, Init(events), mid) && Enabled(mid, e) && s == Next(mid, e);
      StoredKeysExactly(subs, idem, Init(events), mid, key);
      CommitStoresKey(mid, Last(events), key);
    }
  }

  lemma {:induction false} RunsOn(from: System, first: seq<Event>, mid: System, events: seq<Event>, s: System)
    requires Runs(from, first, mid) && Runs(mid, events, s)
    ensures Runs(from, first + events, s)
    decreases |events|
  {
    if events == [] {
      assert first + events == first;
    } else {
      var t :| Runs(mid, Init(events), t) && Enabled(t, Last(events)) && s == Next(t, Last(events));
      RunsOn(from, first, mid, Init(events), t);
      assert Init(first + events) == first + Init(events);
    }
  }

  /**
   A keyed grant that loses the insert rolls back and looks for the winner's reply under its
   own key. Whatever other transactions do in the meantime, it can always replay, writes
   nothing, and finds no reply, an internal error, exactly when nothing was stored under its
   key at the start and no change has been committed under it since.
   */
  lemma LostGrantEnds(subs: map<string, Sub>, idem: map<Key, Stored>, first: seq<Event>, mid: System,
                      others: seq<Event>, s: System, id: nat)
    requires Runs(Initial(subs, idem), first, mid) && id in mid.txs && mid.txs[id].stage == Racing
    requires KeyOf(mid.txs[id].req).Some?
    requires Runs(mid, others, s) && OthersOnly(others, id)
    ensures Enabled(s, Replay(id)) && Next(s, Replay(id)).db == s.db
    ensures var key := KeyOf(mid.txs[id].req).value;
            Next(s, Replay(id)).txs[id].stage == Finished(NoStoredReply) <==> key !in idem && !ChangedUnder(s.db, key)
  {
    OthersLeaveItAlone(mid, others, s, id);
    RunsOn(Initial(subs, idem), first, mid, others, s);
    StoredKeysExactly(subs, idem, first + others, s, KeyOf(mid.txs[id].req).value);
  }

  /**
   A transaction is sent to replay by exactly two statements, both its own and both under a
   key: an insert that meets another's row, and a key entry that meets a stored reply.
   */
  lemma RacesAreLostExactly(s: System, e: Event, id: nat)
    requires Enabled(s, e) && id in s.txs && s.txs[id].stage != Racing
    ensures var req := s.txs[id].req;
            id in Next(s, e).txs &&
            (Next(s, e).txs[id].stage == Racing <==>
             && KeyOf(req).Some?
             && (|| (e.Write? && e.id == id && s.txs[id].stage == Locked(None) && req.user in s.db.subs)
                 || (e == InsertKey(id) && KeyOf(req).value in s.db.idem)))
  {
    if e.Elsewhere? || e.id != id {
      OthersStay(s, e, id);
    } else if !e.Write? && !e.InsertKey? {
      OtherStatementsDoNotRace(s, e, id);
    }
  }

  lemma OtherStatementsDoNotRace(s: System, e: Event, id: nat)
    requires Enabled(s, e) && id in s.txs && !e.Elsewhere? && e.id == id && !e.Write? && !e.InsertKey?
    ensures id in Next(s, e).txs && Next(s, e).txs[id].stage != Racing
  {
  }

  // ------------------------------------------------------------------
  // Two grants under different keys
  // ------------------------------------------------------------------

  ghost predicate Leads(from: System, s: System) {
    exists events :: Runs(from, events, s)
  }

  lemma LeadsOn(from: System, s: System, e: Event)
    requires Leads(from, s) && Enabled(s, e)
    ensures Leads(from, Next(s, e))
  {
    var events :| Runs(from, events, s);
    assert Init(events + [e]) == events;
    assert Runs(from, events + [e], Next(s, e));
  }

  /** Two transactions and nothing locked. */
  function Pair(db: Db, a: Tx, b: Tx): System {
    System(db, map[0 := a, 1 := b], map[], map[])
  }

  const NoRows := Db(map[], map[], [], [])

  lemma PairBegins(a: Request, b: Request, now: int)
    ensures Leads(Initial(map[], map[]), Pair(NoRows, Tx(a, now, Ready), Tx(b, now, Ready)))
  {
    var s0 := Initial(map[], map[]);
    assert Runs(s0, [], s0);
    LeadsOn(s0, s0, Begin(0, a, now));
    var s1 := Next(s0, Begin(0, a, now));
    LeadsOn(s0, s1, Begin(1, b, now));
    assert Next(s1, Begin(1, b, now)) == Pair(NoRows, Tx(a, now, Ready), Tx(b, now, Ready));
  }

  lemma FirstMoves(db: Db, a: Tx, b: Tx, x: Stage)
    ensures At(Pair(db, a, b), 0, x) == Pair(db, a.(stage := x), b)
  {
  }

  lemma SecondMoves(db: Db, a: Tx, b: Tx, y: Stage)
    ensures At(Pair(db, a, b), 1, y) == Pair(db, a, b.(stage := y))
    ensures Ended(Pair(db, a, b), 1, y) == Pair(db, a, b.(stage := y))
  {
    var s := Pair(db, a, b);
    assert Unlocked(s.userLocks, 1) == map[] && Unlocked(s.keyLocks, 1) == map[];
  }

  /** Neither finds a stored key. */
  lemma PairReadsKeys(from: System, a: Request, b: Request, now: int)
    requires Leads(from, Pair(NoRows, Tx(a, now, Ready), Tx(b, now, Ready)))
    ensures Leads(from, Pair(NoRows, Tx(a, now, Checked), Tx(b, now, Checked)))
  {
    var s0 := Pair(NoRows, Tx(a, now, Ready), Tx(b, now, Ready));
    var s1 := Pair(NoRows, Tx(a, now, Checked), Tx(b, now, Ready));
    FirstMoves(NoRows, Tx(a, now, Ready), Tx(b, now, Ready), Checked);
    SecondMoves(NoRows, Tx(a, now, Checked), Tx(b, now, Ready), Checked);
    LeadsOn(from, s0, ReadKey(0));
    LeadsOn(from, s1, ReadKey(1));
  }

  /** Neither finds a row to lock. */
  lemma PairFindsNoRow(from: System, a: Request, b: Request, now: int)
    requires Leads(from, Pair(NoRows, Tx(a, now, Checked), Tx(b, now, Checked)))
    ensures Leads(from, Pair(NoRows, Tx(a, now, Locked(None)), Tx(b, now, Locked(None))))
  {
    var s0 := Pair(NoRows, Tx(a, now, Checked), Tx(b, now, Checked));
    var s1 := Pair(NoRows, Tx(a, now, Locked(None)), Tx(b, now, Checked));
    FirstMoves(NoRows, Tx(a, now, Checked), Tx(b, now, Checked), Locked(None));
    SecondMoves(NoRows, Tx(a, now, Locked(None)), Tx(b, now, Checked), Locked(None));
    LeadsOn(from, s0, LockRow(0, true));
    LeadsOn(from, s1, LockRow(1, true));
  }

  /** The first inserts its row and its key. */
  lemma FirstWrites(from: System, a: Request, b: Tx, now: int, key: Key)
    requires KeyOf(a) == Some(key) && Leads(from, Pair(NoRows, Tx(a, now, Locked(None)), b))
    ensures Leads(from, Pair(NoRows, Tx(a, now, Sealed(Reply(None, Granted(now, a.days)))), b)
                        .(userLocks := map[a.user := 0], keyLocks := map[key := 0]))
  {
    var reply := Reply(None, Granted(now, a.days));
    var s0 := Pair(NoRows, Tx(a, now, Locked(None)), b);
    var s1 := Pair(NoRows, Tx(a, now, Wrote(reply)), b).(userLocks := map[a.user := 0]);
    LeadsOn(from, s0, Write(0, None));
    FirstMoves(NoRows, Tx(a, now, Locked(None)), b, Wrote(reply));
    assert Next(s0, Write(0, None)) == s1;
    LeadsOn(from, s1, InsertKey(0));
    FirstMoves(NoRows, Tx(a, now, Wrote(reply)), b, Sealed(reply));
  }

  /** The first commits. */
  lemma FirstCommits(from: System, a: Request, b: Tx, now: int, key: Key, reply: Reply)
    requires Leads(from, Pair(NoRows, Tx(a, now, Sealed(reply)), b)
                         .(userLocks := map[a.user := 0], keyLocks := map[key := 0]))
    ensures Leads(from, Pair(Applied(NoRows, 0, a, reply), Tx(a, now, Finished(Fresh(reply))), b))
  {
    var s0 := Pair(NoRows, Tx(a, now, Sealed(reply)), b).(userLocks := map[a.user := 0], keyLocks := map[key := 0]);
    LeadsOn(from, s0, Commit(0));
    assert Unlocked(s0.userLocks, 0) == map[] && Unlocked(s0.keyLocks, 0) == map[];
    FirstMoves(NoRows, Tx(a, now, Sealed(reply)), b, Finished(Fresh(reply)));
  }

  /** The second meets the committed row, rolls back, and finds nothing under its own key. */
  lemma SecondLoses(from: System, won: Db, a: Tx, b: Request, now: int)
    requires KeyOf(b).Some? && b.user in won.subs && KeyOf(b).value !in won.idem
    requires Leads(from, Pair(won, a, Tx(b, now, Locked(None))))
    ensures Leads(from, Pair(won, a, Tx(b, now, Finished(NoStoredReply))))
  {
    var s0 := Pair(won, a, Tx(b, now, Locked(None)));
    var s1 := Pair(won, a, Tx(b, now, Racing));
    SecondMoves(won, a, Tx(b, now, Locked(None)), Racing);
    LeadsOn(from, s0, Write(1, None));
    SecondMoves(won, a, Tx(b, now, Racing), Finished(NoStoredReply));
    LeadsOn(from, s1, Replay(1));
  }

  /** From an empty database, two grants of one user under different keys can end so. */
  lemma LostGrantCanFail(a: Request, b: Request, now: int)
    requires a.user == b.user && KeyOf(a).Some? && KeyOf(b).Some? && KeyOf(a) != KeyOf(b)
    ensures exists s :: Leads(Initial(map[], map[]), s) && 1 in s.txs && s.txs[1] == Tx(b, now, Finished(NoStoredReply))
  {
    var from, reply := Initial(map[], map[]), Reply(None, Granted(now, a.days));
    var won, lost := Applied(NoRows, 0, a, reply), Tx(b, now, Locked(None));
    PairBegins(a, b, now);
    PairReadsKeys(from, a, b, now);
    PairFindsNoRow(from, a, b, now);
    FirstWrites(from, a, lost, now, KeyOf(a).value);
    FirstCommits(from, a, lost, now, KeyOf(a).value, reply);
    SecondLoses(from, won, Tx(a, now, Finished(Fresh(reply))), b, now);
  }
}
