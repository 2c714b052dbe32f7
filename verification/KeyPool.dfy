/**
 The round-robin API-key pool with per-key cooldown (internal/llm/keypool.go) and the
 retry that uses it (internal/service/chat.go). Times are nanoseconds.
 */
module KeyPools {
  import opened Base

  const Cooldown := 60_000_000_000

  /** A pool of `n` keys: where the next scan starts and which keys are cooled until when. */
  datatype Pool = Pool(n: nat, next: nat, cooled: map<nat, int>)

  ghost predicate Sound(p: Pool) {
    p.next <= p.n && forall k :: k in p.cooled ==> k < p.n
  }

  predicate Usable(p: Pool, k: nat, now: int) {
    k in p.cooled ==> p.cooled[k] <= now
  }

  /** The key a scan meets at step `i`. */
  function At(p: Pool, i: nat): (k: nat)
    requires p.next <= p.n && i < p.n
    ensures k < p.n
  {
    if p.next + i < p.n then p.next + i else p.next + i - p.n
  }

  lemma WrapIsModulo(x: nat, n: nat)
    requires 0 < n && x < 2 * n
    ensures x % n == if x < n then x else x - n
  {
  }

  /** Every key is met exactly once by a full scan. */
  lemma ScanMeets(p: Pool, k: nat)
    requires p.next <= p.n && k < p.n
    ensures exists i :: 0 <= i < p.n && At(p, i) == k
  {
    var i := if p.next <= k then k - p.next else k + p.n - p.next;
    if p.next == p.n {
      assert At(p, k) == k;
    } else {
      assert At(p, i) == k;
    }
  }

  /** `k` is met at step `i`, and no earlier key is usable. */
  ghost predicate FirstUsable(p: Pool, now: int, i: nat) {
    && p.next <= p.n && i < p.n
    && Usable(p, At(p, i), now)
    && forall j :: 0 <= j < i ==> !Usable(p, At(p, j), now)
  }

  /** No key is usable, and the one met at step `i` is the first of those that expire earliest. */
  ghost predicate FirstToExpire(p: Pool, now: int, i: nat) {
    && p.next <= p.n && i < p.n
    && (forall j :: 0 <= j < p.n ==> !Usable(p, At(p, j), now))
    && (forall j :: 0 <= j < p.n ==> p.cooled[At(p, i)] <= p.cooled[At(p, j)])
    && (forall j :: 0 <= j < i ==> p.cooled[At(p, i)] < p.cooled[At(p, j)])
  }

  /** What Acquire hands out. */
  ghost predicate Choice(p: Pool, now: int, k: nat) {
    && p.next <= p.n
    && exists i :: 0 <= i < p.n && At(p, i) == k && (FirstUsable(p, now, i) || FirstToExpire(p, now, i))
  }

  /** The choice is determined by the pool and the clock. */
  lemma ChoiceIsUnique(p: Pool, now: int, a: nat, b: nat)
    requires Choice(p, now, a) && Choice(p, now, b)
    ensures a == b
  {
  }

  /** A usable key is handed out whenever there is one. */
  lemma UsableWins(p: Pool, now: int, k: nat, other: nat)
    requires Choice(p, now, k) && other < p.n && Usable(p, other, now)
    ensures Usable(p, k, now)
  {
    ScanMeets(p, other);
  }

  function Taken(p: Pool, k: nat): Pool {
    p.(next := k + 1)
  }

  function CooledAt(p: Pool, k: nat, until: int): Pool {
    p.(cooled := p.cooled[k := until])
  }

  // ------------------------------------------------------------------
  // Fair rotation
  // ------------------------------------------------------------------

  /** Successive Acquire calls on a pool with no other call between them. */
  ghost predicate Picks(p: Pool, times: seq<int>, picks: seq<nat>)
    decreases |picks|
  {
    && |times| == |picks|
    && (picks != [] ==>
          && Picks(p, Init(times), Init(picks))
          && Choice(AfterPicks(p, Init(picks)), Last(times), Last(picks)))
  }

  ghost function AfterPicks(p: Pool, picks: seq<nat>): Pool {
    if picks == [] then p else Taken(p, Last(picks))
  }

  /** With no cooled key, call `i` hands out the key `i` places on. */
  lemma {:induction false} RotationIsCyclic(p: Pool, times: seq<int>, picks: seq<nat>, i: nat)
    requires Sound(p) && p.cooled == map[] && Picks(p, times, picks)
    requires i < |picks| <= p.n
    ensures picks[i] == At(p, i)
    decreases |picks|
  {
    if i < |picks| - 1 {
      RotationIsCyclic(p, Init(times), Init(picks), i);
    } else {
      var q := AfterPicks(p, Init(picks));
      var j :| 0 <= j < q.n && At(q, j) == Last(picks)
               && (FirstUsable(q, Last(times), j) || FirstToExpire(q, Last(times), j));
      assert Usable(q, At(q, 0), Last(times));
      assert j == 0;
      if i > 0 {
        RotationIsCyclic(p, Init(times), Init(picks), i - 1);
        assert Last(Init(picks)) == Init(picks)[i - 1];
      }
    }
  }

  /** With no cooled key, as many calls as there are keys visit them all. */
  lemma EveryKeyIsVisited(p: Pool, times: seq<int>, picks: seq<nat>, k: nat)
    requires Sound(p) && p.cooled == map[] && Picks(p, times, picks)
    requires |picks| == p.n && k < p.n
    ensures k in picks
  {
    ScanMeets(p, k);
    var i :| 0 <= i < p.n && At(p, i) == k;
    RotationIsCyclic(p, times, picks, i);
  }

  // ------------------------------------------------------------------
  // The retry never reuses the rejected key
  // ------------------------------------------------------------------

  /** No cooldown outlasts one granted now. */
  ghost predicate CooldownsBounded(p: Pool, now: int) {
    forall k :: k in p.cooled ==> p.cooled[k] <= now + Cooldown
  }

  datatype PoolOp = AcquireAt(now: int, k: nat) | CoolAt(now: int, k: nat)

  function Stepped(p: Pool, op: PoolOp): Pool {
    if op.AcquireAt? then Taken(p, op.k)
    else if op.k < p.n then CooledAt(p, op.k, op.now + Cooldown)
    else p
  }

  ghost function PoolRun(p: Pool, ops: seq<PoolOp>): Pool {
    if ops == [] then p else Stepped(PoolRun(p, Init(ops)), Last(ops))
  }

  ghost predicate ClockMonotone(ops: seq<PoolOp>, now: int) {
    && (forall i :: 0 <= i < |ops| ==> ops[i].now <= now)
    && (forall i, j :: 0 <= i < j < |ops| ==> ops[i].now <= ops[j].now)
  }

  /** Every run of the pool under a monotone clock and the fixed cooldown keeps cooldowns bounded. */
  lemma {:induction false} EveryRunIsBounded(n: nat, ops: seq<PoolOp>, now: int)
    requires ClockMonotone(ops, now)
    ensures CooldownsBounded(PoolRun(Pool(n, 0, map[]), ops), now)
    ensures forall k :: k in PoolRun(Pool(n, 0, map[]), ops).cooled ==> k < n
    ensures PoolRun(Pool(n, 0, map[]), ops).n == n
  {
    if ops != [] {
      EveryRunIsBounded(n, Init(ops), Last(ops).now);
    }
  }

  /**
   After a rejected key is cooled, the next Acquire hands out another one: whether some
   key is free, all are cooled, expiries tie, or the cooldown is already over.
   */
  lemma RetryTakesAnotherKey(p: Pool, k: nat, cooledAt: int, now: int, again: nat)
    requires p.n >= 2 && k < p.n && CooldownsBounded(p, cooledAt) && cooledAt <= now
    requires Choice(CooledAt(Taken(p, k), k, cooledAt + Cooldown), now, again)
    ensures again != k
  {
    var q := CooledAt(Taken(p, k), k, cooledAt + Cooldown);
    var i :| 0 <= i < q.n && At(q, i) == again && (FirstUsable(q, now, i) || FirstToExpire(q, now, i));
    var last := q.n - 1;
    assert At(q, last) == k;
    var first := At(q, 0);
    assert first != k;
    assert first in q.cooled ==> q.cooled[first] <= cooledAt + Cooldown;
    if Usable(q, k, now) {
      assert Usable(q, first, now);
    }
    assert i != last;
  }

  // ------------------------------------------------------------------
  // When a cooled key is handed out all the same
  // ------------------------------------------------------------------

  /** What Acquire and Cool calls can do: every key handed out is the pool's choice. */
  ghost predicate RealRun(n: nat, ops: seq<PoolOp>) {
    ops != [] ==>
      && RealRun(n, Init(ops))
      && (Last(ops).AcquireAt? ==> Choice(PoolRun(Pool(n, 0, map[]), Init(ops)), Last(ops).now, Last(ops).k))
  }

  lemma {:induction false} EveryRunIsSound(n: nat, ops: seq<PoolOp>)
    requires RealRun(n, ops)
    ensures PoolRun(Pool(n, 0, map[]), ops).n == n && Sound(PoolRun(Pool(n, 0, map[]), ops))
  {
    if ops != [] {
      EveryRunIsSound(n, Init(ops));
    }
  }

  /** How far from the start of the scan `k` stands. */
  function Distance(p: Pool, k: nat): nat
    requires p.next <= p.n && k < p.n
  {
    if p.next == p.n then k else if p.next <= k then k - p.next else k + p.n - p.next
  }

  /** `other` is no better than `k`: cooled past `now`, expiring no earlier, and on a tie scanned later. */
  predicate NoBetter(p: Pool, now: int, k: nat, other: nat)
    requires p.next <= p.n && k < p.n && other < p.n && k in p.cooled
  {
    && !Usable(p, other, now)
    && p.cooled[k] <= p.cooled[other]
    && (p.cooled[k] == p.cooled[other] ==> Distance(p, k) <= Distance(p, other))
  }

  lemma CooledChoice(p: Pool, now: int, k: nat)
    requires Sound(p) && k < p.n && !Usable(p, k, now)
    ensures Choice(p, now, k) <==> forall other :: 0 <= other < p.n ==> NoBetter(p, now, k, other)
  {
    var d := Distance(p, k);
    if Choice(p, now, k) {
      forall other | 0 <= other < p.n ensures NoBetter(p, now, k, other) {
        assert FirstToExpire(p, now, d);
        assert At(p, Distance(p, other)) == other;
      }
    }
    if forall other :: 0 <= other < p.n ==> NoBetter(p, now, k, other) {
      forall j | 0 <= j < p.n
        ensures !Usable(p, At(p, j), now) && p.cooled[k] <= p.cooled[At(p, j)]
        ensures j < d ==> p.cooled[k] < p.cooled[At(p, j)]
      {
        assert NoBetter(p, now, k, At(p, j));
      }
      assert FirstToExpire(p, now, d);
    }
  }

  /**
   After any run, a key still in its cooldown is handed out exactly when every other key is
   cooled too, none expires before it, and none with the same expiry is scanned before it.
   */
  lemma CooledKeyReturnsExactly(n: nat, ops: seq<PoolOp>, now: int, k: nat)
    requires RealRun(n, ops) && k < n && !Usable(PoolRun(Pool(n, 0, map[]), ops), k, now)
    ensures var p := PoolRun(Pool(n, 0, map[]), ops);
            && p.n == n && Sound(p)
            && (Choice(p, now, k) <==> forall other :: 0 <= other < n ==> NoBetter(p, now, k, other))
  {
    EveryRunIsSound(n, ops);
    CooledChoice(PoolRun(Pool(n, 0, map[]), ops), now, k);
  }

  lemma RunSnoc(p: Pool, ops: seq<PoolOp>, op: PoolOp)
    ensures PoolRun(p, ops + [op]) == Stepped(PoolRun(p, ops), op)
  {
    assert Init(ops + [op]) == ops;
  }

  lemma RealSnoc(n: nat, ops: seq<PoolOp>, op: PoolOp)
    requires RealRun(n, ops)
    requires op.AcquireAt? ==> Choice(PoolRun(Pool(n, 0, map[]), ops), op.now, op.k)
    ensures RealRun(n, ops + [op])
  {
    assert Init(ops + [op]) == ops;
  }

  /** Two requests take the two keys of a pool and both are rejected, the first `gap` earlier. */
  function TwoRejections(t: int, gap: nat): seq<PoolOp> {
    [AcquireAt(t, 0), AcquireAt(t, 1), CoolAt(t, 0), CoolAt(t + gap, 1)]
  }

  lemma TwoTaken(t: int)
    ensures RealRun(2, [AcquireAt(t, 0), AcquireAt(t, 1)])
    ensures PoolRun(Pool(2, 0, map[]), [AcquireAt(t, 0), AcquireAt(t, 1)]) == Pool(2, 2, map[])
  {
    var p, none := Pool(2, 0, map[]), [];
    assert PoolRun(p, none) == p && RealRun(2, none);
    assert At(p, 0) == 0 && FirstUsable(p, t, 0);
    RunSnoc(p, none, AcquireAt(t, 0));
    RealSnoc(2, none, AcquireAt(t, 0));
    var q, one := Pool(2, 1, map[]), none + [AcquireAt(t, 0)];
    assert At(q, 0) == 1 && FirstUsable(q, t, 0);
    RunSnoc(p, one, AcquireAt(t, 1));
    RealSnoc(2, one, AcquireAt(t, 1));
    assert one + [AcquireAt(t, 1)] == [AcquireAt(t, 0), AcquireAt(t, 1)];
  }

  /**
   Such a run exists with unequal expiries as well as with a tie: the retry of the first
   request gets its own rejected key back before its cooldown is over.
   */
  lemma RejectedKeyCanReturn(t: int, gap: nat)
    requires gap < Cooldown
    ensures RealRun(2, TwoRejections(t, gap)) && ClockMonotone(TwoRejections(t, gap), t + gap)
    ensures var p := PoolRun(Pool(2, 0, map[]), TwoRejections(t, gap));
            p.cooled == map[0 := t + Cooldown, 1 := t + gap + Cooldown] && Choice(p, t + gap, 0)
  {
    var taken := [AcquireAt(t, 0), AcquireAt(t, 1)];
    TwoTaken(t);
    RunSnoc(Pool(2, 0, map[]), taken, CoolAt(t, 0));
    RealSnoc(2, taken, CoolAt(t, 0));
    RunSnoc(Pool(2, 0, map[]), taken + [CoolAt(t, 0)], CoolAt(t + gap, 1));
    RealSnoc(2, taken + [CoolAt(t, 0)], CoolAt(t + gap, 1));
    assert TwoRejections(t, gap) == taken + [CoolAt(t, 0)] + [CoolAt(t + gap, 1)];
    var p := Pool(2, 2, map[0 := t + Cooldown, 1 := t + gap + Cooldown]);
    assert At(p, 0) == 0 && At(p, 1) == 1;
    assert FirstToExpire(p, t + gap, 0);
  }

  // ------------------------------------------------------------------
  // The pool object
  // ------------------------------------------------------------------

  class KeyPool {
    const keys: seq<string>
    var next: nat
    var cooledUntil: map<nat, int>

    ghost function State(): Pool
      reads this
    {
      Pool(|keys|, next, cooledUntil)
    }

    constructor (keys: seq<string>)
      ensures this.keys == keys && State() == Pool(|keys|, 0, map[])
    {
      this.keys := keys;
      next := 0;
      cooledUntil := map[];
    }

    /** Scans all keys; the best cooled one is remembered in case none is usable. */
    method Scan(now: int) returns (k: nat)
      requires Sound(State()) && |keys| > 0
      ensures Choice(State(), now, k)
    {
      ghost var p := State();
      ghost var at := 0;
      var best: Option<nat> := None;
      var i := 0;
      while i < |keys|
        invariant i <= |keys|
        invariant forall j :: 0 <= j < i ==> !Usable(p, At(p, j), now)
        invariant best.None? <==> i == 0
        invariant best.Some? ==>
                    && at < i && best.value == At(p, at)
                    && (forall j :: 0 <= j < i ==> p.cooled[best.value] <= p.cooled[At(p, j)])
                    && (forall j :: 0 <= j < at ==> p.cooled[best.value] < p.cooled[At(p, j)])
      {
        WrapIsModulo(next + i, |keys|);
        var idx := (next + i) % |keys|;
        assert idx == At(p, i);
        if idx !in cooledUntil || cooledUntil[idx] <= now {
          assert FirstUsable(p, now, i);
          return idx;
        }
        if best.None? || cooledUntil[idx] < cooledUntil[best.value] {
          best := Some(idx);
          at := i;
        }
        i := i + 1;
      }
      assert FirstToExpire(p, now, at);
      return best.value;
    }

    method Acquire(now: int) returns (idx: int, key: string)
      requires Sound(State())
      modifies `next
      ensures Sound(State())
      ensures |keys| == 0 ==> idx == -1 && key == "" && State() == old(State())
      ensures |keys| > 0 ==>
                && 0 <= idx < |keys| && key == keys[idx]
                && Choice(old(State()), now, idx)
                && State() == Taken(old(State()), idx)
    {
      if |keys| == 0 {
        return -1, "";
      }
      var k := Scan(now);
      next := k + 1;
      return k, keys[k];
    }

    method Cool(idx: int, until: int)
      requires Sound(State())
      modifies `cooledUntil
      ensures Sound(State())
      ensures State() == if 0 <= idx < |keys| then CooledAt(old(State()), idx, until) else old(State())
    {
      if idx < 0 || idx >= |keys| {
        return;
      }
      cooledUntil := cooledUntil[idx := until];
    }
  }

  // ------------------------------------------------------------------
  // The retry loop
  // ------------------------------------------------------------------

  predicate Rejection(status: int) {
    status == 429 || status >= 500
  }

  /**
   One chat request: `status` gives the upstream's answer to attempt 0 and 1, or none for
   a transport error, and `clock` the instants at which each attempt acquires and cools.
   */
  method Request(pool: KeyPool, status: int -> Option<int>, clock: int -> int)
    returns (used: seq<int>, last: Option<int>)
    requires Sound(pool.State())
    requires clock(0) <= clock(1) <= clock(2) <= clock(3) && CooldownsBounded(pool.State(), clock(0))
    modifies pool
    ensures Sound(pool.State()) && CooldownsBounded(pool.State(), clock(3))
    ensures |used| == if |pool.keys| > 1 && status(0).Some? && Rejection(status(0).value) then 2 else 1
    ensures forall i, j :: 0 <= i < j < |used| ==> used[i] != used[j]
    ensures last == status(|used| - 1)
  {
    var attempts := if |pool.keys| > 1 then 2 else 1;
    var attempt, retry := 0, true;
    used, last := [], None;
    ghost var p := pool.State();
    while retry
      invariant Sound(pool.State()) && 0 <= attempt < attempts && pool.State().n == |pool.keys|
      invariant CooldownsBounded(pool.State(), clock(3)) && CooldownsBounded(p, clock(0))
      invariant attempt == 1 ==> status(0).Some? && Rejection(status(0).value)
      invariant retry ==> |used| == attempt
      invariant retry && attempt == 0 ==> pool.State() == p
      invariant retry && attempt == 1 ==>
                  && 0 <= used[0] < p.n == |pool.keys|
                  && pool.State() == CooledAt(Taken(p, used[0]), used[0], clock(1) + Cooldown)
      invariant !retry ==> |used| == attempt + 1 && last == status(attempt)
      invariant !retry && attempt == 0 ==> attempts == 1 || status(0).None? || !Rejection(status(0).value)
      invariant !retry && attempt == 1 ==> used[0] != used[1]
      decreases attempts - attempt, retry
    {
      retry := false;
      var k, _ := pool.Acquire(clock(2 * attempt));
      if attempt == 1 {
        RetryTakesAnotherKey(p, used[0], clock(1), clock(2), k);
      }
      used, last := used + [k], status(attempt);
      if last.Some? && Rejection(last.value) {
        pool.Cool(k, clock(2 * attempt + 1) + Cooldown);
        if attempt + 1 < attempts {
          attempt, retry := attempt + 1, true;
        }
      }
    }
  }
}
