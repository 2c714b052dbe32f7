/**
 What was deleted never returns (internal/repo/usage_token_repo.go): which deletions the
 token-usage store remembers, and for how long.
 */
module TokenDeletion {
  import opened Base
  import opened TokenUsage

  /** op, run in s, removes the stored row k, and is not a retention sweep. */
  ghost predicate Deletes(s: Store, op: Op, k: BucketKey) {
    !op.SweepBuckets? && k in s.buckets && k !in Next(s, op).buckets
  }

  /** op, run in s, leaves a mark that refuses k, stored or not. */
  ghost predicate Marks(s: Store, op: Op, k: BucketKey) {
    match op
    case DeleteAll(u, t) => k.user == u && k.start < t
    case DeleteByDevice(u, d, t) => (u, d) in s.devices && k.user == u && k.device == d && k.start < t
    case DeleteWindow(u, d, from, upto) => InWindow(k, u, d, from, upto)
    case RevokeDevice(u, d, purge) => (u, d) in s.devices && purge && k.user == u && k.device == d
    case _ => false
  }

  /** Whether a deletion of k by op will be remembered: the row is under op's mark or its device is revoked. */
  ghost predicate Remembers(s: Store, op: Op, k: BucketKey) {
    Marks(s, op, k) || Revoked(s, k.user, k.device)
  }

  ghost predicate Refused(s: Store, k: BucketKey) {
    Cleared(s, k.user, k.device, k.start) || Revoked(s, k.user, k.device)
  }

  /** Some step marked k, or deleted it while its device was revoked. */
  ghost predicate EverMarked(ops: seq<Op>, k: BucketKey) {
    ops != [] &&
    (|| EverMarked(Init(ops), k)
     || Marks(Exec(Init(ops)), Last(ops), k)
     || (Deletes(Exec(Init(ops)), Last(ops), k) && Revoked(Exec(Init(ops)), k.user, k.device)))
  }

  /** Some tombstone sweep had a cutoff beyond x. */
  ghost predicate SweptPast(ops: seq<Op>, x: int) {
    exists i :: 0 <= i < |ops| && ops[i].SweepTombstones? && x < ops[i].cutoff
  }

  /**
   Uploads are validated against their too-old threshold, and no earlier tombstone
   sweep used a cutoff beyond that threshold.
   */
  ghost predicate RetentionRespected(ops: seq<Op>) {
    && (forall j :: 0 <= j < |ops| && ops[j].Ingest? ==>
          forall b :: b in ops[j].batch ==> ops[j].tooOldBefore <= b.start)
    && (forall i, j :: 0 <= i < j < |ops| && ops[i].SweepTombstones? && ops[j].Ingest? ==>
          ops[i].cutoff <= ops[j].tooOldBefore)
  }

  /** Whatever was marked is still refused, unless a sweep has gone past it. */
  ghost predicate Guarded(s: Store, ops: seq<Op>) {
    forall k :: EverMarked(ops, k) ==> Refused(s, k) || SweptPast(ops, k.start)
  }

  lemma SweptPastGrows(ops: seq<Op>, op: Op, x: int)
    ensures SweptPast(ops + [op], x) <==> SweptPast(ops, x) || (op.SweepTombstones? && x < op.cutoff)
  {
    var ops' := ops + [op];
    if SweptPast(ops, x) {
      var i :| 0 <= i < |ops| && ops[i].SweepTombstones? && x < ops[i].cutoff;
      assert ops'[i] == ops[i];
    }
    assert ops'[|ops|] == op;
  }

  /** One step's effect on what is refused for k: nothing is forgotten except by a sweep. */
  lemma StepKeepsRefusing(s: Store, op: Op, k: BucketKey)
    requires Tidy(s)
    requires Refused(s, k)
    ensures Refused(Next(s, op), k) || (op.SweepTombstones? && k.start < op.cutoff)
  {
    match op
    case Ingest(u, d, batch, _) => IngestClearsNothing(s, u, d, batch);
    case DeleteWindow(u, d, from, upto) => WindowClearsExactly(s, u, d, from, upto, k.user, k.device, k.start);
    case RegisterDevice(u, d) => DeviceRowClearsNothing(s, u, d);
    case SweepTombstones(t, ids) =>
      if t <= k.start && Cleared(s, k.user, k.device, k.start) {
        SweepForgetsOnlyExpired(s, t, ids, k);
      }
    case _ => MarksOnlyAdvance(s, op, k);
  }

  lemma MarksOnlyAdvance(s: Store, op: Op, k: BucketKey)
    requires op.DeleteAll? || op.DeleteByDevice? || op.RevokeDevice? || op.SweepBuckets?
    ensures Cleared(s, k.user, k.device, k.start) ==> Cleared(Next(s, op), k.user, k.device, k.start)
    ensures Revoked(s, k.user, k.device) ==> Revoked(Next(s, op), k.user, k.device)
  {
  }

  lemma SweepForgetsOnlyExpired(s: Store, cutoff: int, ids: set<nat>, k: BucketKey)
    requires Cleared(s, k.user, k.device, k.start) && cutoff <= k.start
    ensures Cleared(AfterSweepTombstones(s, cutoff, ids), k.user, k.device, k.start)
  {
    var s' := AfterSweepTombstones(s, cutoff, ids);
    if !Under(UserMark(s, k.user), k.start) && !Under(DeviceMark(s, k.user, k.device), k.start) {
      var id :| id in s.tombstones && Applies(s.tombstones[id], k.user, k.device) && Covers(s.tombstones[id], k.start);
      assert id in s'.tombstones;
    }
  }

  /** A mark refuses what it marks, and nothing marked is stored. */
  lemma MarkIsRefused(s: Store, op: Op, k: BucketKey)
    requires Tidy(s) && Marks(s, op, k)
    ensures Refused(Next(s, op), k) && k !in Next(s, op).buckets
  {
    if op.DeleteWindow? {
      WindowClearsExactly(s, op.user, op.scope, op.from, op.upto, k.user, k.device, k.start);
    }
  }

  /**
   A deleted row is refused from then on exactly when its start is below the new mark, it
   lies in the deleted window, or its device is revoked: a whole-user or whole-device
   deletion also removes rows at or above its mark, and those may be uploaded again.
   */
  lemma DeletionIsRememberedExactly(s: Store, op: Op, k: BucketKey)
    requires Tidy(s) && NothingClearedStored(s) && Deletes(s, op, k)
    ensures Refused(Next(s, op), k) <==> Remembers(s, op, k)
  {
    OnlyDeletionsDelete(s, op, k);
    if op.DeleteWindow? {
      MarkIsRefused(s, op, k);
    }
  }

  lemma OnlyDeletionsDelete(s: Store, op: Op, k: BucketKey)
    requires Deletes(s, op, k)
    ensures op.DeleteAll? || op.DeleteByDevice? || op.DeleteWindow? || op.RevokeDevice?
    ensures op.DeleteWindow? || op.RevokeDevice? ==> Marks(s, op, k)
    ensures k.user == op.user
  {
    if op.Ingest? {
      UpsertedKeys(s.buckets, op.user, op.device, Kept(s, op.user, op.device, op.batch));
    }
  }

  lemma StepKeepsGuarded(s: Store, ops: seq<Op>, op: Op)
    requires Tidy(s) && s == Exec(ops) && Guarded(s, ops)
    ensures Guarded(Next(s, op), ops + [op])
  {
    var s', ops' := Next(s, op), ops + [op];
    assert Init(ops') == ops;
    forall k | EverMarked(ops', k) ensures Refused(s', k) || SweptPast(ops', k.start) {
      SweptPastGrows(ops, op, k.start);
      if Marks(s, op, k) {
        MarkIsRefused(s, op, k);
      } else if Revoked(s, k.user, k.device) {
      } else if !SweptPast(ops, k.start) {
        StepKeepsRefusing(s, op, k);
      }
    }
  }

  lemma {:induction false} EveryRunIsGuarded(ops: seq<Op>)
    ensures Guarded(Exec(ops), ops)
  {
    if ops != [] {
      var before, op := Init(ops), Last(ops);
      assert ops == before + [op];
      EveryRunIsGuarded(before);
      EveryRunIsTidy(before);
      StepKeepsGuarded(Exec(before), before, op);
    }
  }

  /** If every upload respects the cutoffs of the sweeps before it, nothing ever marked is stored. */
  lemma {:induction false} RetainedMarksHold(ops: seq<Op>, k: BucketKey)
    requires RetentionRespected(ops) && k in Exec(ops).buckets
    ensures !EverMarked(ops, k)
  {
    if ops != [] {
      var before, op := Init(ops), Last(ops);
      var s := Exec(before);
      EveryRunIsTidy(before);
      if Marks(s, op, k) {
        MarkIsRefused(s, op, k);
      }
      if k in s.buckets {
        assert forall i :: 0 <= i < |before| ==> before[i] == ops[i];
        RetainedMarksHold(before, k);
      } else {
        IngestAdds(s, op.user, op.device, op.batch, k);
        EveryRunIsGuarded(before);
        assert !SweptPast(before, k.start) by {
          var b :| b in op.batch && KeyFor(op.user, op.device, b) == k;
          assert op == ops[|ops| - 1];
          assert forall i :: 0 <= i < |before| ==> before[i] == ops[i];
        }
      }
    }
  }

  lemma {:induction false} EverMarkedStays(ops: seq<Op>, i: nat, k: BucketKey)
    requires i < |ops|
    requires Deletes(Exec(ops[..i]), ops[i], k) && Remembers(Exec(ops[..i]), ops[i], k)
    ensures EverMarked(ops, k)
    ensures Seals(Exec(ops[..i]), ops[i], k) ==> EverSealed(ops, k)
    decreases |ops|
  {
    if i == |ops| - 1 {
      assert ops[..i] == Init(ops);
    } else {
      assert Init(ops)[..i] == ops[..i] && Init(ops)[i] == ops[i];
      EverMarkedStays(Init(ops), i, k);
    }
  }

  // ------------------------------------------------------------------
  // What no sweep can undo
  // ------------------------------------------------------------------

  /** k is below its user's or its device's mark, or its device is revoked. */
  ghost predicate Sealed(s: Store, k: BucketKey) {
    || Under(UserMark(s, k.user), k.start)
    || Under(DeviceMark(s, k.user, k.device), k.start)
    || Revoked(s, k.user, k.device)
  }

  /** op marks k other than by a window, or deletes it while its device is revoked. */
  ghost predicate Seals(s: Store, op: Op, k: BucketKey) {
    || (Marks(s, op, k) && !op.DeleteWindow?)
    || (Deletes(s, op, k) && Revoked(s, k.user, k.device))
  }

  ghost predicate EverSealed(ops: seq<Op>, k: BucketKey) {
    ops != [] && (EverSealed(Init(ops), k) || Seals(Exec(Init(ops)), Last(ops), k))
  }

  lemma StepKeepsSealed(s: Store, op: Op, k: BucketKey)
    requires Sealed(s, k)
    ensures Sealed(Next(s, op), k) && (k !in s.buckets ==> k !in Next(s, op).buckets)
  {
    if op.Ingest? && k !in s.buckets && k in Next(s, op).buckets {
      IngestAdds(s, op.user, op.device, op.batch, k);
    }
  }

  lemma SealsAndRemoves(s: Store, op: Op, k: BucketKey)
    requires Seals(s, op, k)
    ensures Sealed(Next(s, op), k) && k !in Next(s, op).buckets
  {
    if Revoked(s, k.user, k.device) {
      StepKeepsSealed(s, op, k);
    }
  }

  /**
   User marks, device marks and revocations are for good: whatever was ever sealed is not
   stored, in every run, however sweeps and uploads are timed.
   */
  lemma {:induction false} SealedUsageNeverReturns(ops: seq<Op>, k: BucketKey)
    requires EverSealed(ops, k)
    ensures Sealed(Exec(ops), k) && k !in Exec(ops).buckets
  {
    var before, op := Init(ops), Last(ops);
    if EverSealed(before, k) {
      SealedUsageNeverReturns(before, k);
      StepKeepsSealed(Exec(before), op, k);
    } else {
      SealsAndRemoves(Exec(before), op, k);
    }
  }

  lemma {:induction false} PurgeSeals(ops: seq<Op>, i: nat, k: BucketKey)
    requires i < |ops| && ops[i] == RevokeDevice(k.user, k.device, true)
    requires (k.user, k.device) in Exec(ops[..i]).devices
    ensures EverSealed(ops, k)
    decreases |ops|
  {
    if i == |ops| - 1 {
      assert ops[..i] == Init(ops);
    } else {
      assert Init(ops)[..i] == ops[..i] && Init(ops)[i] == ops[i];
      PurgeSeals(Init(ops), i, k);
    }
  }

  /** A device revoked with a purge never has a bucket again. */
  lemma PurgedDeviceStaysEmpty(ops: seq<Op>, i: nat, user: string, device: string)
    requires i < |ops| && ops[i] == RevokeDevice(user, device, true) && (user, device) in Exec(ops[..i]).devices
    ensures forall k :: k in Exec(ops).buckets ==> k.user != user || k.device != device
  {
    forall k | k in Exec(ops).buckets ensures k.user != user || k.device != device {
      if k.user == user && k.device == device {
        PurgeSeals(ops, i, k);
        SealedUsageNeverReturns(ops, k);
      }
    }
  }

  /**
   Nothing ever marked is stored: without further condition if it was sealed, and if uploads
   respect the cutoffs of the sweeps before them if a window alone marked it.
   */
  lemma MarkedUsageNeverReturns(ops: seq<Op>, k: BucketKey)
    requires EverMarked(ops, k) && (EverSealed(ops, k) || RetentionRespected(ops))
    ensures k !in Exec(ops).buckets
  {
    if EverSealed(ops, k) {
      SealedUsageNeverReturns(ops, k);
    } else if k in Exec(ops).buckets {
      RetainedMarksHold(ops, k);
    }
  }

  /**
   Deleted usage never returns: a row that some step deleted under its mark or with its
   device revoked is not stored at the end of any run. For a row deleted by a window alone,
   uploads must respect the cutoffs of the retention sweeps before them.
   */
  lemma DeletedUsageNeverReturns(ops: seq<Op>, i: nat, k: BucketKey)
    requires i < |ops| && Deletes(Exec(ops[..i]), ops[i], k)
    requires Remembers(Exec(ops[..i]), ops[i], k)
    requires !Seals(Exec(ops[..i]), ops[i], k) ==> RetentionRespected(ops)
    ensures k !in Exec(ops).buckets
  {
    EverMarkedStays(ops, i, k);
    MarkedUsageNeverReturns(ops, k);
  }

  /** An upload stores a bucket exactly when its key is neither cleared nor under a revoked device. */
  lemma UploadIsStoredExactly(s: Store, user: string, device: string, b: Bucket)
    requires KeyFor(user, device, b) !in s.buckets
    ensures var k := KeyFor(user, device, b);
            k in AfterIngest(s, user, device, [b]).buckets <==> !Refused(s, k)
  {
    assert Init([b]) == [] && Kept(s, user, device, []) == [];
    UpsertedKeys(s.buckets, user, device, Kept(s, user, device, [b]));
  }

  /**
   In every run, whether a key was ever deleted or not: an upload of it at that point is
   stored exactly when it is neither cleared nor revoked then.
   */
  lemma {:induction false} KeyReturnsExactly(ops: seq<Op>, k: BucketKey, b: Bucket)
    requires k !in Exec(ops).buckets && KeyFor(k.user, k.device, b) == k
    ensures k in Exec(ops + [Ingest(k.user, k.device, [b], b.start)]).buckets <==> !Refused(Exec(ops), k)
  {
    assert Init(ops + [Ingest(k.user, k.device, [b], b.start)]) == ops;
    UploadIsStoredExactly(Exec(ops), k.user, k.device, b);
  }

  /** A row just deleted can be uploaded again at once exactly when its deletion is not remembered. */
  lemma {:induction false} DeletedRowReturnsExactly(ops: seq<Op>, op: Op, k: BucketKey, b: Bucket)
    requires Deletes(Exec(ops), op, k) && KeyFor(k.user, k.device, b) == k
    ensures k in Exec(ops + [op] + [Ingest(k.user, k.device, [b], b.start)]).buckets <==> !Remembers(Exec(ops), op, k)
  {
    assert Init(ops + [op]) == ops;
    EveryRunIsTidy(ops);
    NothingClearedIsEverStored(ops);
    DeletionIsRememberedExactly(Exec(ops), op, k);
    KeyReturnsExactly(ops + [op], k, b);
  }

  lemma ExecSnoc(ops: seq<Op>, op: Op)
    ensures Exec(ops + [op]) == Next(Exec(ops), op)
  {
    assert Init(ops + [op]) == ops;
  }

  lemma FirstUpload(user: string, device: string, b: Bucket)
    ensures var s := Exec([Ingest(user, device, [b], b.start)]);
            && s.buckets == map[KeyFor(user, device, b) := b.counts]
            && s.watermarks == map[] && s.tombstones == map[] && s.nextId == 0
            && s.devices == map[(user, device) := DeviceRow(false, None)]
  {
    assert Init([Ingest(user, device, [b], b.start)]) == [];
    assert Init([b]) == [] && Kept(EmptyStore, user, device, []) == [];
    assert Kept(EmptyStore, user, device, [b]) == [b];
    assert Upserted(map[], user, device, []) == map[];
  }

  lemma DeleteAllDeletes(user: string, device: string, b: Bucket, before: int)
    ensures var up, k := Ingest(user, device, [b], b.start), KeyFor(user, device, b);
            && Deletes(Exec([up]), DeleteAll(user, before), k)
            && (Remembers(Exec([up]), DeleteAll(user, before), k) <==> b.start < before)
  {
    FirstUpload(user, device, b);
  }

  /** Deleting all of a user's usage removes a bucket that starts at the mark, and forgets it at once. */
  lemma DeletionAtTheMarkIsForgotten(user: string, device: string, b: Bucket)
    ensures var up := Ingest(user, device, [b], b.start);
            var k := KeyFor(user, device, b);
            && RetentionRespected([up] + [DeleteAll(user, b.start)] + [up])
            && Deletes(Exec([up]), DeleteAll(user, b.start), k)
            && k in Exec([up] + [DeleteAll(user, b.start)] + [up]).buckets
  {
    var up, k := Ingest(user, device, [b], b.start), KeyFor(user, device, b);
    DeleteAllDeletes(user, device, b, b.start);
    DeletedRowReturnsExactly([up], DeleteAll(user, b.start), k, b);
  }

  /**
   The retention hypothesis is needed: an upload validated before a sweep and written
   after it brings a deleted bucket back.
   */
  lemma LateUploadBringsDeletedUsageBack(user: string, device: string, b: Bucket)
    ensures var up, window := Ingest(user, device, [b], b.start), DeleteWindow(user, None, b.start, b.start);
            var k := KeyFor(user, device, b);
            && Deletes(Exec([up]), window, k) && Remembers(Exec([up]), window, k)
            && k in Exec([up] + [window] + [SweepTombstones(b.start + 1, {0})] + [up]).buckets
  {
    var up, window := Ingest(user, device, [b], b.start), DeleteWindow(user, None, b.start, b.start);
    var sweep, k := SweepTombstones(b.start + 1, {0}), KeyFor(user, device, b);
    FirstUpload(user, device, b);
    var s1 := Exec([up]);
    assert Overlapping(s1, user, None, b.start, b.start) == {};
    ExecSnoc([up], window);
    assert Exec([up] + [window]).tombstones == map[0 := Tombstone(user, None, b.start, b.start)];
    ExecSnoc([up] + [window], sweep);
    var s3 := Exec([up] + [window] + [sweep]);
    assert s3.tombstones == map[] && s3.watermarks == map[] && s3.devices == s1.devices;
    KeyReturnsExactly([up] + [window] + [sweep], k, b);
  }
}
