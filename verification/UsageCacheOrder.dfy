/**
 Exactly which orders of time buckets keep the usage query cache fresh
 (sweepLocked of internal/middleware/usage_query_cache.go): a bucket seen again after
 another one lets a generation be forgotten in between.
 */
module UsageCacheOrder {
  import opened Base
  import opened UsageCache

  /** Every read of every run that sees the buckets in this order, or a prefix of it, is answered fresh. */
  ghost predicate Safe(order: seq<int>) {
    forall ops: seq<Op>, r: Op :: r.Read? && Visits(ops + [r]) <= order ==> AnsweredFresh(ops, r)
  }

  /** Consecutive buckets differ. */
  ghost predicate Changing(order: seq<int>) {
    forall i :: 0 < i < |order| ==> order[i - 1] != order[i]
  }

  /** One read by another user in each bucket. */
  function Reads(user: string, buckets: seq<int>): seq<Op> {
    if buckets == [] then [] else Reads(user, Init(buckets)) + [Read(user, "", "", Last(buckets))]
  }

  lemma ExecSnoc(ops: seq<Op>, op: Op)
    ensures Exec(ops + [op]) == Next(Exec(ops), op)
  {
    assert Init(ops + [op]) == ops;
  }

  lemma ReadsSnoc(ops: seq<Op>, user: string, buckets: seq<int>)
    requires buckets != []
    ensures ops + Reads(user, buckets) == (ops + Reads(user, Init(buckets))) + [Read(user, "", "", Last(buckets))]
  {
  }

  // ------------------------------------------------------------------
  // Nothing stored and no generation: other users' reads change neither
  // ------------------------------------------------------------------

  ghost predicate Bare(s: CacheState) {
    s.entries == map[] && s.generations == map[]
  }

  lemma ReadKeepsBare(s: CacheState, user: string, bucket: int)
    requires s.entries == map[] && (s.generations == map[] || s.lastSweep != bucket)
    ensures var t := Next(s, Read(user, "", "", bucket));
            && Bare(t) && s.flights <= t.flights && t.lastSweep == bucket
            && (forall f :: |s.flights| <= f < |t.flights| ==> t.flights[f].key.user == user)
  {
  }

  /** Reads by one user, from the start: nobody else has a flight. */
  lemma {:induction false} OnlyOneUser(user: string, buckets: seq<int>)
    ensures var s := Exec(Reads(user, buckets));
            Bare(s) && forall f :: 0 <= f < |s.flights| ==> s.flights[f].key.user == user
  {
    if buckets != [] {
      OnlyOneUser(user, Init(buckets));
      ExecSnoc(Reads(user, Init(buckets)), Read(user, "", "", Last(buckets)));
      ReadKeepsBare(Exec(Reads(user, Init(buckets))), user, Last(buckets));
    }
  }

  /** Reads in other buckets forget the generations and leave the flights alone. */
  lemma {:induction false} ReadsForget(ops: seq<Op>, user: string, buckets: seq<int>)
    requires Exec(ops).entries == map[] && buckets != [] && Exec(ops).lastSweep != buckets[0]
    ensures var s := Exec(ops + Reads(user, buckets));
            Bare(s) && Exec(ops).flights <= s.flights && s.lastSweep == Last(buckets)
    decreases |buckets|
  {
    var before := Init(buckets);
    ReadsSnoc(ops, user, buckets);
    ExecSnoc(ops + Reads(user, before), Read(user, "", "", Last(buckets)));
    if before == [] {
      assert ops + Reads(user, before) == ops;
    } else {
      ReadsForget(ops, user, before);
    }
    ReadKeepsBare(Exec(ops + Reads(user, before)), user, Last(buckets));
  }

  // ------------------------------------------------------------------
  // The visiting order and the last write of such runs
  // ------------------------------------------------------------------

  lemma {:induction false} ReadsVisit(ops: seq<Op>, user: string, buckets: seq<int>)
    requires Changing(Visits(ops) + buckets)
    ensures Visits(ops + Reads(user, buckets)) == Visits(ops) + buckets
    decreases |buckets|
  {
    if buckets == [] {
      assert ops + Reads(user, buckets) == ops;
    } else {
      var seen, b := Visits(ops) + Init(buckets), Last(buckets);
      assert Visits(ops) + buckets == seen + [b];
      ChangingSnoc(seen, b);
      ReadsVisit(ops, user, Init(buckets));
      ReadsSnoc(ops, user, buckets);
      VisitsGrow(ops + Reads(user, Init(buckets)), Read(user, "", "", b));
    }
  }

  lemma ChangingSnoc(seen: seq<int>, b: int)
    requires Changing(seen + [b])
    ensures Changing(seen) && (seen != [] ==> Last(seen) != b)
  {
    var all := seen + [b];
    assert forall i :: 0 < i < |all| ==> all[i - 1] != all[i];
    assert forall i :: 0 <= i < |seen| ==> all[i] == seen[i];
    assert all[|seen|] == b;
  }

  lemma {:induction false} ReadsWriteNothing(ops: seq<Op>, user: string, buckets: seq<int>, who: string)
    ensures LastWrite(ops + Reads(user, buckets), who) == LastWrite(ops, who)
    decreases |buckets|
  {
    if buckets == [] {
      assert ops + Reads(user, buckets) == ops;
    } else {
      ReadsWriteNothing(ops, user, Init(buckets), who);
      ReadsSnoc(ops, user, buckets);
      LastWriteGrows(ops + Reads(user, Init(buckets)), Read(user, "", "", Last(buckets)), who);
    }
  }

  // ------------------------------------------------------------------
  // A bucket that returns serves a stale answer
  // ------------------------------------------------------------------

  /** The user's read becomes leader, and the write that follows it is counted. */
  lemma LeadThenWrite(before: seq<Op>, user: string, bucket: int)
    requires Bare(Exec(before)) && Exec(before).clock == |before|
    requires forall f :: 0 <= f < |Exec(before).flights| ==> Exec(before).flights[f].key.user != user
    ensures var ops := before + [Read(user, "", "", bucket)] + [Invalidate(user, bucket)];
            var s, f := Exec(ops), |Exec(before).flights|;
            && s.entries == map[] && s.lastSweep == bucket && |s.flights| == f + 1
            && s.flights[f] == Flight(Key(user, "", "", bucket, 0), |before|, None)
            && LastWrite(ops, user) == |before| + 2
  {
    var r := Read(user, "", "", bucket);
    LeadFirst(before, user, bucket);
    ExecSnoc(before + [r], Invalidate(user, bucket));
    LastWriteGrows(before + [r], Invalidate(user, bucket), user);
  }

  lemma LeadFirst(before: seq<Op>, user: string, bucket: int)
    requires Bare(Exec(before)) && Exec(before).clock == |before|
    requires forall f :: 0 <= f < |Exec(before).flights| ==> Exec(before).flights[f].key.user != user
    ensures var s, t := Exec(before), Exec(before + [Read(user, "", "", bucket)]);
            && t.entries == map[] && t.lastSweep == bucket
            && t.flights == s.flights + [Flight(Key(user, "", "", bucket, 0), |before|, None)]
  {
    var s, r := Exec(before), Read(user, "", "", bucket);
    ExecSnoc(before, r);
    EveryRunIsCoherent(before);
    assert KeyOf(s, r) == Key(user, "", "", bucket, 0);
    assert KeyOf(s, r) !in s.inflight;
  }

  /** Once its generation is forgotten, a finishing leader is stored and found again. */
  lemma ForgottenLeaderIsServed(ops: seq<Op>, f: nat, user: string, bucket: int, start: nat)
    requires Bare(Exec(ops)) && f < |Exec(ops).flights|
    requires Exec(ops).flights[f] == Flight(Key(user, "", "", bucket, 0), start, None)
    ensures var done := ops + [Finish(f, Replied(Response(StatusOK, "", "")))];
            && AnswerTo(Exec(done), Read(user, "", "", bucket)) == Hit(f)
            && f < |Exec(done).flights| && Exec(done).flights[f].start == start
            && LastWrite(done, user) == LastWrite(ops, user) && Visits(done) == Visits(ops)
  {
    var op, key := Finish(f, Replied(Response(StatusOK, "", ""))), Key(user, "", "", bucket, 0);
    ExecSnoc(ops, op);
    LastWriteGrows(ops, op, user);
    VisitsGrow(ops, op);
    var s := Exec(ops + [op]);
    assert s.entries == map[key := f] && s.generations == map[];
    assert Swept(s, bucket).entries == map[key := f] && Swept(s, bucket).generations == map[];
  }

  /** Other reads, then a leading read and a write by the user, then other reads in other buckets. */
  function WrittenRun(order: seq<int>, i: nat, user: string, other: string): seq<Op>
    requires i < |order|
  {
    Reads(other, order[..i]) + [Read(user, "", "", order[i])] + [Invalidate(user, order[i])]
  }

  function ForgottenRun(order: seq<int>, i: nat, k: nat, user: string, other: string): seq<Op>
    requires i < k < |order|
  {
    WrittenRun(order, i, user, other) + Reads(other, order[i + 1..k])
  }

  lemma ChangingPrefix(order: seq<int>, k: nat)
    requires Changing(order) && k <= |order|
    ensures Changing(order[..k])
  {
    forall i | 0 < i < k ensures order[..k][i - 1] != order[..k][i] {
      assert order[i - 1] != order[i];
    }
  }

  lemma NewVisit(ops: seq<Op>, order: seq<int>, i: nat, op: Op)
    requires Changing(order) && i < |order| && Visits(ops) == order[..i] && !op.Finish? && op.bucket == order[i]
    ensures Visits(ops + [op]) == order[..i + 1]
  {
    VisitsGrow(ops, op);
    assert order[..i] + [order[i]] == order[..i + 1];
    if i > 0 {
      assert order[i - 1] != order[i];
      assert Last(order[..i]) == order[i - 1];
    }
  }

  lemma WrittenVisits(order: seq<int>, i: nat, user: string, other: string)
    requires Changing(order) && i < |order|
    ensures Visits(WrittenRun(order, i, user, other)) == order[..i + 1]
  {
    var first := Reads(other, order[..i]);
    ChangingPrefix(order, i);
    assert Visits([]) + order[..i] == order[..i] && [] + first == first;
    ReadsVisit([], other, order[..i]);
    NewVisit(first, order, i, Read(user, "", "", order[i]));
    VisitsGrow(first + [Read(user, "", "", order[i])], Invalidate(user, order[i]));
    assert Last(order[..i + 1]) == order[i];
  }

  lemma ForgottenVisits(order: seq<int>, i: nat, k: nat, user: string, other: string)
    requires Changing(order) && i < k < |order|
    ensures Visits(ForgottenRun(order, i, k, user, other)) == order[..k]
  {
    WrittenVisits(order, i, user, other);
    ChangingPrefix(order, k);
    assert order[..i + 1] + order[i + 1..k] == order[..k];
    ReadsVisit(WrittenRun(order, i, user, other), other, order[i + 1..k]);
  }

  /** After such a run the leader from before the write is still running and the write is forgotten. */
  lemma WriteIsForgotten(order: seq<int>, i: nat, k: nat, user: string, other: string) returns (f: nat, start: nat)
    requires Changing(order) && i + 1 < k < |order| && user != other
    ensures var ops := ForgottenRun(order, i, k, user, other);
            && Bare(Exec(ops)) && f < |Exec(ops).flights|
            && Exec(ops).flights[f] == Flight(Key(user, "", "", order[i], 0), start, None)
            && start < LastWrite(ops, user)
  {
    var first := Reads(other, order[..i]);
    OnlyOneUser(other, order[..i]);
    ClockCounts(first);
    LeadThenWrite(first, user, order[i]);
    f, start := |Exec(first).flights|, |first|;
    var written := WrittenRun(order, i, user, other);
    assert order[i] != order[i + 1] == order[i + 1..k][0];
    ReadsForget(written, other, order[i + 1..k]);
    ReadsWriteNothing(written, other, order[i + 1..k], user);
  }

  /** In any order where a bucket returns, a read from after a write gets an answer from before it. */
  lemma ReturningBucketIsStale(order: seq<int>, i: nat, k: nat, user: string, other: string)
    requires Changing(order) && i < k < |order| && order[i] == order[k] && user != other
    ensures exists ops: seq<Op>, r: Op :: r.Read? && Visits(ops + [r]) == order[..k + 1] && !AnsweredFresh(ops, r)
  {
    assert i + 1 < k by {
      assert order[i] != order[i + 1];
    }
    var ops := ForgottenRun(order, i, k, user, other);
    var f, start := WriteIsForgotten(order, i, k, user, other);
    ForgottenLeaderIsServed(ops, f, user, order[i], start);
    ForgottenVisits(order, i, k, user, other);
    var done, r := ops + [Finish(f, Replied(Response(StatusOK, "", "")))], Read(user, "", "", order[k]);
    NewVisit(done, order, k, r);
    assert !AnsweredFresh(done, r);
  }

  /** An order of buckets keeps every answer fresh exactly when no bucket returns in it. */
  lemma OrderIsSafeExactly(order: seq<int>)
    requires Changing(order)
    ensures Safe(order) <==> NoneReturns(order)
  {
    if NoneReturns(order) {
      forall ops: seq<Op>, r: Op | r.Read? && Visits(ops + [r]) <= order ensures AnsweredFresh(ops, r) {
        assert forall i :: 0 <= i < |Visits(ops + [r])| ==> Visits(ops + [r])[i] == order[i];
        OrderlyAnswerIsFresh(ops, r);
      }
    } else {
      var i, k :| 0 <= i < k < |order| && order[i] == order[k];
      ReturningBucketIsStale(order, i, k, "a", "b");
      var ops: seq<Op>, r: Op :| r.Read? && Visits(ops + [r]) == order[..k + 1] && !AnsweredFresh(ops, r);
      assert Visits(ops + [r]) <= order;
    }
  }
}
