/**
 The usage query cache (internal/middleware/usage_query_cache.go): a response
 cache with single flight, keyed by user, route, canonical query, time bucket and
 write generation, swept lazily when the bucket changes.

 A run is a sequence of critical sections, in the order the mutex grants them:
 reads, leaders finishing, and invalidations after successful writes.
 */
module UsageCache {
  import opened Base

  datatype Key = Key(user: string, path: string, params: string, bucket: int, generation: nat)

  datatype Response = Response(status: int, body: string, contentType: string)

  /** How a leader's downstream call ended. */
  datatype Outcome = Replied(response: Response) | Panicked(value: string)

  /** One downstream execution; `start` is the number of critical sections before it became leader. */
  datatype Flight = Flight(key: Key, start: nat, outcome: Option<Outcome>)

  datatype CacheState = CacheState(
    entries: map<Key, nat>,
    inflight: map<Key, nat>,
    generations: map<string, nat>,
    lastSweep: int,
    flights: seq<Flight>,
    clock: nat)

  const StatusOK := 200

  const InitialState := CacheState(map[], map[], map[], -1, [], 0)

  function Generation(s: CacheState, user: string): nat {
    if user in s.generations then s.generations[user] else 0
  }

  // ------------------------------------------------------------------
  // Critical sections
  // ------------------------------------------------------------------

  function Survivors(entries: map<Key, nat>, bucket: int): map<Key, nat> {
    map k | k in entries && k.bucket >= bucket :: entries[k]
  }

  function Swept(s: CacheState, bucket: int): CacheState {
    if s.lastSweep == bucket then s
    else
      var kept := Survivors(s.entries, bucket);
      s.(lastSweep := bucket, entries := kept,
         generations := map u | u in s.generations && (exists k :: k in kept && k.user == u) :: s.generations[u])
  }

  datatype Op =
    | Read(user: string, path: string, params: string, bucket: int)
    | Finish(flight: nat, outcome: Outcome)
    | Invalidate(user: string, bucket: int)

  datatype Answer = Hit(leader: nat) | Joined(leader: nat) | Lead(leader: nat)

  function KeyOf(s: CacheState, r: Op): Key
    requires r.Read?
  {
    Key(r.user, r.path, r.params, r.bucket, Generation(Swept(s, r.bucket), r.user))
  }

  /** What a read finds under the lock. */
  function AnswerTo(s: CacheState, r: Op): Answer
    requires r.Read?
  {
    var t, key := Swept(s, r.bucket), KeyOf(s, r);
    if key in t.entries then Hit(t.entries[key])
    else if key in t.inflight then Joined(t.inflight[key])
    else Lead(|t.flights|)
  }

  predicate Enabled(s: CacheState, op: Op) {
    op.Finish? ==> op.flight < |s.flights| && s.flights[op.flight].outcome.None?
  }

  function Cacheable(o: Outcome): bool {
    o.Replied? && o.response.status == StatusOK
  }

  function Finished(s: CacheState, flight: nat, outcome: Outcome): CacheState
    requires flight < |s.flights|
  {
    var f := s.flights[flight];
    s.(inflight := s.inflight - {f.key},
       entries := if Cacheable(outcome) && f.key.generation == Generation(s, f.key.user)
                  then s.entries[f.key := flight] else s.entries,
       flights := s.flights[flight := f.(outcome := Some(outcome))])
  }

  function After(s: CacheState, op: Op): CacheState
    requires Enabled(s, op)
  {
    match op
    case Read(_, _, _, b) =>
      var t := Swept(s, b);
      if AnswerTo(s, op).Lead?
      then t.(inflight := t.inflight[KeyOf(s, op) := |t.flights|],
              flights := t.flights + [Flight(KeyOf(s, op), s.clock, None)])
      else t
    case Finish(flight, outcome) => Finished(s, flight, outcome)
    case Invalidate(u, b) =>
      var t := Swept(s, b);
      t.(generations := t.generations[u := Generation(t, u) + 1])
  }

  function Next(s: CacheState, op: Op): CacheState {
    if Enabled(s, op) then After(s, op).(clock := s.clock + 1) else s.(clock := s.clock + 1)
  }

  function Exec(ops: seq<Op>): CacheState {
    if ops == [] then InitialState else Next(Exec(Init(ops)), Last(ops))
  }

  // ------------------------------------------------------------------
  // The reference: what the sequence of operations itself says
  // ------------------------------------------------------------------

  /** One more than the position of the user's last invalidation; 0 if there is none. */
  function LastWrite(ops: seq<Op>, user: string): nat {
    if ops == [] then 0
    else if Last(ops).Invalidate? && Last(ops).user == user then |ops|
    else LastWrite(Init(ops), user)
  }

  /** The buckets seen under the lock, in order, each run of equal ones once. */
  function Visits(ops: seq<Op>): seq<int> {
    if ops == [] then []
    else
      var before, op := Visits(Init(ops)), Last(ops);
      if op.Finish? || (before != [] && Last(before) == op.bucket) then before else before + [op.bucket]
  }

  /** No bucket is seen again after another one. */
  ghost predicate NoneReturns(visits: seq<int>) {
    forall i, j :: 0 <= i < j < |visits| ==> visits[i] != visits[j]
  }

  /** The buckets seen under the lock never decrease. */
  ghost predicate BucketsInOrder(ops: seq<Op>) {
    forall i, j :: 0 <= i < j < |ops| && !ops[i].Finish? && !ops[j].Finish? ==> ops[i].bucket <= ops[j].bucket
  }

  // ------------------------------------------------------------------
  // Invariants
  // ------------------------------------------------------------------

  /** Keys and flights agree; exactly the unfinished flights are in flight, each under its own key. */
  ghost predicate Coherent(s: CacheState) {
    && (forall k :: k in s.inflight ==>
          && s.inflight[k] < |s.flights|
          && s.flights[s.inflight[k]].key == k
          && s.flights[s.inflight[k]].outcome.None?)
    && (forall f :: 0 <= f < |s.flights| && s.flights[f].outcome.None? ==>
          s.flights[f].key in s.inflight && s.inflight[s.flights[f].key] == f)
    && (forall k :: k in s.entries ==>
          && s.entries[k] < |s.flights|
          && s.flights[s.entries[k]].key == k
          && s.flights[s.entries[k]].outcome.Some?
          && Cacheable(s.flights[s.entries[k]].outcome.value))
  }

  /** A flight that a read of the current bucket and generation could still find is fresh. */
  ghost predicate Fresh(s: CacheState, ops: seq<Op>) {
    && s.clock == |ops|
    && (forall f :: 0 <= f < |s.flights| ==> s.flights[f].key.bucket in Visits(ops))
    && FreshAt(s, s.lastSweep, ops)
    && (Visits(ops) != [] ==> s.lastSweep == Last(Visits(ops)))
  }

  /** No flight of `bucket` has a generation to come, and one of the current generation follows the last write. */
  ghost predicate FreshAt(s: CacheState, bucket: int, ops: seq<Op>) {
    forall f :: 0 <= f < |s.flights| && s.flights[f].key.bucket == bucket ==>
      var k := s.flights[f].key;
      && k.generation <= Generation(s, k.user)
      && (k.generation == Generation(s, k.user) ==> LastWrite(ops, k.user) <= s.flights[f].start)
  }

  lemma SweepKeepsCoherence(s: CacheState, bucket: int)
    requires Coherent(s)
    ensures Coherent(Swept(s, bucket))
  {
  }

  lemma ReadKeepsCoherence(s: CacheState, op: Op)
    requires Coherent(s) && op.Read?
    ensures Coherent(After(s, op))
  {
    SweepKeepsCoherence(s, op.bucket);
  }

  lemma FinishKeepsCoherence(s: CacheState, op: Op)
    requires Coherent(s) && op.Finish? && Enabled(s, op)
    ensures Coherent(After(s, op))
  {
  }

  lemma {:induction false} NextKeepsCoherence(s: CacheState, op: Op)
    requires Coherent(s)
    ensures Coherent(Next(s, op))
  {
    if Enabled(s, op) {
      match op
      case Read(_, _, _, _) => ReadKeepsCoherence(s, op);
      case Finish(_, _) => FinishKeepsCoherence(s, op);
      case Invalidate(_, b) => SweepKeepsCoherence(s, b);
    }
  }

  lemma {:induction false} EveryRunIsCoherent(ops: seq<Op>)
    ensures Coherent(Exec(ops))
  {
    if ops != [] {
      EveryRunIsCoherent(Init(ops));
      NextKeepsCoherence(Exec(Init(ops)), Last(ops));
    }
  }

  // ------------------------------------------------------------------
  // Freshness
  // ------------------------------------------------------------------

  lemma VisitsGrow(ops: seq<Op>, op: Op)
    ensures Visits(ops + [op]) ==
            if op.Finish? || (Visits(ops) != [] && Last(Visits(ops)) == op.bucket) then Visits(ops)
            else Visits(ops) + [op.bucket]
  {
    assert Init(ops + [op]) == ops;
  }

  /** Sweeping to the current or to a new bucket keeps every findable flight fresh. */
  lemma SweepKeepsFreshness(s: CacheState, ops: seq<Op>, op: Op)
    requires Fresh(s, ops) && NoneReturns(Visits(ops + [op])) && !op.Finish?
    ensures FreshAt(Swept(s, op.bucket), op.bucket, ops) && Swept(s, op.bucket).lastSweep == op.bucket
  {
    VisitsGrow(ops, op);
    if s.lastSweep != op.bucket && Visits(ops) != [] {
      var visits := Visits(ops + [op]);
      assert forall i :: 0 <= i < |Visits(ops)| ==> visits[i] == Visits(ops)[i];
      assert visits[|visits| - 1] == op.bucket;
      assert op.bucket !in Visits(ops);
    }
  }

  lemma LastWriteGrows(ops: seq<Op>, op: Op, user: string)
    ensures LastWrite(ops + [op], user) == if op.Invalidate? && op.user == user then |ops| + 1 else LastWrite(ops, user)
    ensures LastWrite(ops, user) <= |ops|
  {
    assert Init(ops + [op]) == ops;
    LastWriteBounded(ops, user);
  }

  lemma {:induction false} LastWriteBounded(ops: seq<Op>, user: string)
    ensures LastWrite(ops, user) <= |ops|
  {
    if ops != [] {
      LastWriteBounded(Init(ops), user);
    }
  }

  lemma FinishKeepsFreshness(s: CacheState, ops: seq<Op>, op: Op)
    requires Fresh(s, ops) && op.Finish?
    ensures Fresh(Next(s, op), ops + [op])
  {
    VisitsGrow(ops, op);
    forall user ensures LastWrite(ops + [op], user) == LastWrite(ops, user) {
      LastWriteGrows(ops, op, user);
    }
  }

  lemma ReadKeepsFreshness(s: CacheState, ops: seq<Op>, op: Op)
    requires Fresh(s, ops) && NoneReturns(Visits(ops + [op])) && op.Read?
    ensures Fresh(Next(s, op), ops + [op])
  {
    var ops', t := ops + [op], Swept(s, op.bucket);
    forall user ensures LastWrite(ops', user) == LastWrite(ops, user) <= |ops| {
      LastWriteGrows(ops, op, user);
    }
    SweepKeepsFreshness(s, ops, op);
    VisitsAfter(ops, op);
    if AnswerTo(s, op).Lead? {
      LeadKeepsFreshness(s, t, ops', op);
    }
  }

  /** The bucket of an operation is the last one visited, and none is forgotten. */
  lemma VisitsAfter(ops: seq<Op>, op: Op)
    requires !op.Finish?
    ensures var visits := Visits(ops + [op]);
            visits != [] && Last(visits) == op.bucket && forall b :: b in Visits(ops) ==> b in visits
  {
    VisitsGrow(ops, op);
  }

  lemma LeadKeepsFreshness(s: CacheState, t: CacheState, ops: seq<Op>, op: Op)
    requires op.Read? && t == Swept(s, op.bucket) && FreshAt(t, op.bucket, ops)
    requires LastWrite(ops, op.user) <= s.clock
    ensures FreshAt(t.(flights := t.flights + [Flight(KeyOf(s, op), s.clock, None)]), op.bucket, ops)
  {
  }

  lemma InvalidateKeepsFreshness(s: CacheState, ops: seq<Op>, op: Op)
    requires Fresh(s, ops) && NoneReturns(Visits(ops + [op])) && op.Invalidate?
    ensures Fresh(Next(s, op), ops + [op])
  {
    var ops' := ops + [op];
    forall user ensures user != op.user ==> LastWrite(ops', user) == LastWrite(ops, user) {
      LastWriteGrows(ops, op, user);
    }
    SweepKeepsFreshness(s, ops, op);
    VisitsGrow(ops, op);
  }

  lemma NextKeepsFreshness(s: CacheState, ops: seq<Op>, op: Op)
    requires Fresh(s, ops) && NoneReturns(Visits(ops + [op]))
    ensures Fresh(Next(s, op), ops + [op])
  {
    match op
    case Read(_, _, _, _) => ReadKeepsFreshness(s, ops, op);
    case Finish(_, _) => FinishKeepsFreshness(s, ops, op);
    case Invalidate(_, _) => InvalidateKeepsFreshness(s, ops, op);
  }

  lemma {:induction false} EveryOrderlyRunIsFresh(ops: seq<Op>)
    requires NoneReturns(Visits(ops))
    ensures Fresh(Exec(ops), ops)
  {
    if ops != [] {
      var before, op := Init(ops), Last(ops);
      assert ops == before + [op];
      VisitsGrow(before, op);
      assert forall i :: 0 <= i < |Visits(before)| ==> Visits(before)[i] == Visits(ops)[i];
      EveryOrderlyRunIsFresh(before);
      NextKeepsFreshness(Exec(before), before, op);
    }
  }

  lemma {:induction false} VisitedWasSeen(ops: seq<Op>, b: int)
    requires b in Visits(ops)
    ensures exists i :: 0 <= i < |ops| && !ops[i].Finish? && ops[i].bucket == b
  {
    if b in Visits(Init(ops)) {
      VisitedWasSeen(Init(ops), b);
      var i :| 0 <= i < |Init(ops)| && !Init(ops)[i].Finish? && Init(ops)[i].bucket == b;
      assert ops[i] == Init(ops)[i];
    } else {
      assert ops[|ops| - 1].bucket == b;
    }
  }

  ghost predicate Increasing(visits: seq<int>) {
    forall i, j :: 0 <= i < j < |visits| ==> visits[i] < visits[j]
  }

  lemma {:induction false} OrderedVisitsIncrease(ops: seq<Op>)
    requires BucketsInOrder(ops)
    ensures Increasing(Visits(ops))
  {
    if ops != [] {
      var before, op := Init(ops), Last(ops);
      assert forall i :: 0 <= i < |before| ==> before[i] == ops[i];
      OrderedVisitsIncrease(before);
      if !op.Finish? && Visits(before) != [] {
        VisitedWasSeen(before, Last(Visits(before)));
        var i :| 0 <= i < |before| && !before[i].Finish? && before[i].bucket == Last(Visits(before));
        assert ops[i].bucket <= ops[|ops| - 1].bucket;
      }
    }
  }

  /** A clock that never goes back never returns to a bucket. */
  lemma OrderedBucketsNeverReturn(ops: seq<Op>)
    requires BucketsInOrder(ops)
    ensures NoneReturns(Visits(ops))
  {
    OrderedVisitsIncrease(ops);
  }

  /**
   A read that does not execute downstream itself is answered by a leader of the same
   user, route and query, in the same time bucket, that became leader after the user's
   last successful write; a replayed answer is that leader's 200 response.
   */
  ghost predicate AnsweredFresh(ops: seq<Op>, r: Op)
    requires r.Read?
  {
    var s, a := Exec(ops), AnswerTo(Exec(ops), r);
    !a.Lead? ==>
      && a.leader < |s.flights|
      && var f := s.flights[a.leader];
      && f.key.user == r.user && f.key.path == r.path && f.key.params == r.params
      && f.key.bucket == r.bucket
      && LastWrite(ops, r.user) <= f.start
      && (a.Hit? ==> f.outcome.Some? && Cacheable(f.outcome.value))
      && (a.Joined? ==> f.outcome.None?)
  }

  /** Freshness, as long as no bucket is seen under the lock again after another one. */
  lemma OrderlyAnswerIsFresh(ops: seq<Op>, r: Op)
    requires r.Read? && NoneReturns(Visits(ops + [r]))
    ensures AnsweredFresh(ops, r)
  {
    VisitsGrow(ops, r);
    assert forall i :: 0 <= i < |Visits(ops)| ==> Visits(ops)[i] == Visits(ops + [r])[i];
    EveryOrderlyRunIsFresh(ops);
    EveryRunIsCoherent(ops);
    SweepKeepsCoherence(Exec(ops), r.bucket);
    SweepKeepsFreshness(Exec(ops), ops, r);
  }

  /** In particular when the buckets seen under the lock never decrease. */
  lemma EveryAnswerIsFresh(ops: seq<Op>, r: Op)
    requires r.Read? && BucketsInOrder(ops + [r])
    ensures AnsweredFresh(ops, r)
  {
    OrderedBucketsNeverReturn(ops + [r]);
    OrderlyAnswerIsFresh(ops, r);
  }

  // ------------------------------------------------------------------
  // Single flight
  // ------------------------------------------------------------------

  /** In every run, two flights that are both executing have different keys. */
  lemma OneLeaderPerKey(ops: seq<Op>, f: nat, g: nat)
    requires f < |Exec(ops).flights| && g < |Exec(ops).flights|
    requires Exec(ops).flights[f].outcome.None? && Exec(ops).flights[g].outcome.None?
    requires Exec(ops).flights[f].key == Exec(ops).flights[g].key
    ensures f == g
  {
    EveryRunIsCoherent(ops);
  }

  /** A read executes downstream exactly when no finished or running flight has its key. */
  lemma WaitersNeverExecute(ops: seq<Op>, r: Op)
    requires r.Read?
    ensures var s, t := Exec(ops), Exec(ops + [r]);
            && |t.flights| == |s.flights| + (if AnswerTo(s, r).Lead? then 1 else 0)
            && (AnswerTo(s, r).Lead? ==>
                  && (forall f :: 0 <= f < |s.flights| && s.flights[f].outcome.None? ==>
                        s.flights[f].key != KeyOf(s, r))
                  && t.flights == s.flights + [Flight(KeyOf(s, r), |ops|, None)])
            && (!AnswerTo(s, r).Lead? ==> t.flights == s.flights)
  {
    assert Init(ops + [r]) == ops;
    EveryRunIsCoherent(ops);
    SweepKeepsCoherence(Exec(ops), r.bucket);
    ClockCounts(ops);
  }

  lemma {:induction false} ClockCounts(ops: seq<Op>)
    ensures Exec(ops).clock == |ops|
  {
    if ops != [] {
      ClockCounts(Init(ops));
    }
  }

  /** A flight's outcome, once published, is what every waiter reads, however late. */
  lemma {:induction false} OutcomeIsFinal(ops: seq<Op>, later: seq<Op>, f: nat)
    requires f < |Exec(ops).flights| && Exec(ops).flights[f].outcome.Some?
    ensures f < |Exec(ops + later).flights| && Exec(ops + later).flights[f] == Exec(ops).flights[f]
    decreases |later|
  {
    if later == [] {
      assert ops + later == ops;
    } else {
      OutcomeIsFinal(ops, Init(later), f);
      assert Init(ops + later) == ops + Init(later);
    }
  }

  // ------------------------------------------------------------------
  // The cache object
  // ------------------------------------------------------------------

  class UsageQueryCache {
    const ttl: int
    var entries: map<Key, nat>
    var inflight: map<Key, nat>
    var generations: map<string, nat>
    var lastSweep: int
    var flights: seq<Flight>
    var clock: nat

    ghost function State(): CacheState
      reads this
    {
      CacheState(entries, inflight, generations, lastSweep, flights, clock)
    }

    constructor (ttl: int)
      ensures this.ttl == ttl && State() == InitialState
    {
      this.ttl := ttl;
      entries, inflight, generations, lastSweep, flights, clock := map[], map[], map[], -1, [], 0;
    }

    method SweepLocked(bucket: int)
      modifies this
      ensures State() == Swept(old(State()), bucket)
    {
      if lastSweep == bucket {
        return;
      }
      lastSweep := bucket;
      var live := DropOldEntries(bucket);
      DropGenerations(live);
    }

    /** Delete the entries of older buckets; return the users that still have one. */
    method DropOldEntries(bucket: int) returns (live: set<string>)
      modifies `entries
      ensures entries == Survivors(old(entries), bucket)
      ensures forall u :: u in live <==> exists k :: k in entries && k.user == u
    {
      live := {};
      var keys := entries.Keys;
      while keys != {}
        invariant keys <= old(entries.Keys)
        invariant forall k :: k in entries <==> k in old(entries) && (k in keys || k.bucket >= bucket)
        invariant forall k :: k in entries ==> entries[k] == old(entries)[k]
        invariant forall k :: k in entries && k !in keys ==> k.user in live
        invariant forall u :: u in live ==> exists k :: k in entries && k !in keys && k.user == u
        decreases |keys|
      {
        var key :| key in keys;
        keys := keys - {key};
        if key.bucket < bucket {
          entries := entries - {key};
        } else {
          live := live + {key.user};
        }
      }
    }

    /** Forget the generation of every user without a live entry. */
    method DropGenerations(live: set<string>)
      modifies `generations
      ensures generations == map u | u in old(generations) && u in live :: old(generations)[u]
    {
      var users := generations.Keys;
      while users != {}
        invariant users <= old(generations.Keys)
        invariant generations == map u | u in old(generations) && (u in users || u in live) :: old(generations)[u]
        decreases |users|
      {
        var user :| user in users;
        users := users - {user};
        if user !in live {
          generations := generations - {user};
        }
      }
    }

    /** The cached-read middleware up to the point where it replays, waits or runs downstream. */
    method Handle(isGet: bool, user: string, path: string, params: string, bucket: int) returns (a: Option<Answer>)
      modifies this
      ensures ttl <= 0 || !isGet || user == "" ==> a == None && State() == old(State())
      ensures ttl > 0 && isGet && user != "" ==>
                && a == Some(AnswerTo(old(State()), Read(user, path, params, bucket)))
                && State() == Next(old(State()), Read(user, path, params, bucket))
    {
      if ttl <= 0 || !isGet {
        return None;
      }
      if user == "" {
        return None;
      }
      SweepLocked(bucket);
      var key := Key(user, path, params, bucket, if user in generations then generations[user] else 0);
      if key in entries {
        a := Some(Hit(entries[key]));
      } else if key in inflight {
        a := Some(Joined(inflight[key]));
      } else {
        a := Some(Lead(|flights|));
        inflight := inflight[key := |flights|];
        flights := flights + [Flight(key, clock, None)];
      }
      clock := clock + 1;
    }

    /** What a leader does with its result, under the lock. */
    method FinishLeader(flight: nat, outcome: Outcome)
      requires flight < |flights| && flights[flight].outcome.None?
      modifies this
      ensures State() == Next(old(State()), Finish(flight, outcome))
    {
      var f := flights[flight];
      inflight := inflight - {f.key};
      var current := if f.key.user in generations then generations[f.key.user] else 0;
      if outcome.Replied? && outcome.response.status == StatusOK && f.key.generation == current {
        entries := entries[f.key := flight];
      }
      flights := flights[flight := f.(outcome := Some(outcome))];
      clock := clock + 1;
    }

    method InvalidateOnSuccess(status: int, user: string, bucket: int)
      modifies this
      ensures ttl <= 0 || !(200 <= status < 300) || user == "" ==> State() == old(State())
      ensures ttl > 0 && 200 <= status < 300 && user != "" ==>
                State() == Next(old(State()), Invalidate(user, bucket))
    {
      if ttl <= 0 || status < 200 || status >= 300 || user == "" {
        return;
      }
      SweepLocked(bucket);
      generations := generations[user := (if user in generations then generations[user] else 0) + 1];
      clock := clock + 1;
    }
  }
}
