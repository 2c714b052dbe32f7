/**
 The token-usage store (internal/repo/usage_token_repo.go): usage buckets per user
 and device, cleared by user watermarks, device watermarks and window tombstones,
 expired by a retention sweep.

 Every operation that takes the per-user advisory lock is one step on the tables.
 The retention sweep takes no lock and deletes in batches, so each batch is a step
 of its own that may remove any part of the expired rows.
 */
module TokenUsage {
  import opened Base

  datatype BucketKey = BucketKey(
    user: string, device: string, start: int, size: string,
    source: string, agent: string, provider: string, model: string)

  datatype Counts = Counts(prompt: int, completion: int, total: int, requests: int)

  /** One bucket of an upload, already validated. */
  datatype Bucket = Bucket(
    index: int, start: int, size: string,
    source: string, agent: string, provider: string, model: string, counts: Counts)

  datatype DeviceRow = DeviceRow(revoked: bool, cleared: Option<int>)

  /** A closed interval of cleared bucket starts; no device means every device of the user. */
  datatype Tombstone = Tombstone(user: string, device: Option<string>, from: int, upto: int)

  datatype Store = Store(
    buckets: map<BucketKey, Counts>,
    devices: map<(string, string), DeviceRow>,
    watermarks: map<string, int>,
    tombstones: map<nat, Tombstone>,
    nextId: nat)

  const EmptyStore := Store(map[], map[], map[], map[], 0)

  function KeyFor(user: string, device: string, b: Bucket): BucketKey {
    BucketKey(user, device, b.start, b.size, b.source, b.agent, b.provider, b.model)
  }

  // ------------------------------------------------------------------
  // What counts as cleared
  // ------------------------------------------------------------------

  predicate Under(mark: Option<int>, start: int) {
    mark.Some? && start < mark.value
  }

  predicate Covers(t: Tombstone, start: int) {
    t.from <= start <= t.upto
  }

  predicate Applies(t: Tombstone, user: string, device: string) {
    t.user == user && (t.device.None? || t.device.value == device)
  }

  function UserMark(s: Store, user: string): Option<int> {
    if user in s.watermarks then Some(s.watermarks[user]) else None
  }

  function DeviceMark(s: Store, user: string, device: string): Option<int> {
    if (user, device) in s.devices then s.devices[(user, device)].cleared else None
  }

  predicate Revoked(s: Store, user: string, device: string) {
    (user, device) in s.devices && s.devices[(user, device)].revoked
  }

  predicate Buried(tombstones: map<nat, Tombstone>, user: string, device: string, start: int) {
    exists id :: id in tombstones && Applies(tombstones[id], user, device) && Covers(tombstones[id], start)
  }

  /** Under a watermark, or under any tombstone that applies. */
  predicate Cleared(s: Store, user: string, device: string, start: int) {
    || Under(UserMark(s, user), start)
    || Under(DeviceMark(s, user, device), start)
    || Buried(s.tombstones, user, device, start)
  }

  // ------------------------------------------------------------------
  // Ingest
  // ------------------------------------------------------------------

  datatype IngestResult =
    | DeviceRevoked
    | RowWrittenTwice
    | Ingested(accepted: nat, updated: nat, discarded: seq<int>)

  /** The device row is created on first sight, and otherwise left alone. */
  function WithDevice(s: Store, user: string, device: string): Store {
    if (user, device) in s.devices then s
    else s.(devices := s.devices[(user, device) := DeviceRow(false, None)])
  }

  function Kept(s: Store, user: string, device: string, batch: seq<Bucket>): seq<Bucket> {
    if batch == [] then []
    else Kept(s, user, device, Init(batch))
         + if Cleared(s, user, device, Last(batch).start) then [] else [Last(batch)]
  }

  function Discarded(s: Store, user: string, device: string, batch: seq<Bucket>): seq<int> {
    if batch == [] then []
    else Discarded(s, user, device, Init(batch))
         + if Cleared(s, user, device, Last(batch).start) then [Last(batch).index] else []
  }

  /** The later of two rows with one key wins; values are replaced, never added. */
  function Upserted(rows: map<BucketKey, Counts>, user: string, device: string,
                    batch: seq<Bucket>): map<BucketKey, Counts> {
    if batch == [] then rows
    else Upserted(rows, user, device, Init(batch))[KeyFor(user, device, Last(batch)) := Last(batch).counts]
  }

  predicate DistinctKeys(batch: seq<Bucket>) {
    forall i, j :: 0 <= i < j < |batch| ==> KeyFor("", "", batch[i]) != KeyFor("", "", batch[j])
  }

  function IngestOutcome(s: Store, user: string, device: string, batch: seq<Bucket>): IngestResult {
    if batch == [] then Ingested(0, 0, [])
    else if Revoked(s, user, device) then DeviceRevoked
    else
      var kept := Kept(s, user, device, batch);
      if !DistinctKeys(kept) then RowWrittenTwice
      else Ingested(|kept|, |kept|, Discarded(s, user, device, batch))
  }

  function AfterIngest(s: Store, user: string, device: string, batch: seq<Bucket>): Store {
    if batch == [] || !IngestOutcome(s, user, device, batch).Ingested? then s
    else
      WithDevice(s, user, device).(buckets := Upserted(s.buckets, user, device, Kept(s, user, device, batch)))
  }

  // ------------------------------------------------------------------
  // Deletion, revocation, retention
  // ------------------------------------------------------------------

  function Later(mark: Option<int>, t: int): int {
    if mark.Some? && mark.value > t then mark.value else t
  }

  function AfterDeleteAll(s: Store, user: string, before: int): Store {
    s.(buckets := map k | k in s.buckets && k.user != user :: s.buckets[k],
       watermarks := s.watermarks[user := Later(UserMark(s, user), before)])
  }

  function AfterDeleteByDevice(s: Store, user: string, device: string, before: int): Store {
    if (user, device) !in s.devices then s
    else
      var row := s.devices[(user, device)];
      s.(buckets := map k | k in s.buckets && !(k.user == user && k.device == device) :: s.buckets[k],
         devices := s.devices[(user, device) := row.(cleared := Some(Later(row.cleared, before)))])
  }

  /** The tombstones a new window is merged with: same user, same scope, overlapping. */
  function Overlapping(s: Store, user: string, device: Option<string>, from: int, upto: int): set<nat> {
    set id | id in s.tombstones
             && s.tombstones[id].user == user && s.tombstones[id].device == device
             && s.tombstones[id].from <= upto && s.tombstones[id].upto >= from
  }

  predicate InWindow(k: BucketKey, user: string, device: Option<string>, from: int, upto: int) {
    k.user == user && from <= k.start <= upto && (device.None? || k.device == device.value)
  }

  ghost function Least(s: Store, ids: set<nat>, from: int): (lo: int)
    requires forall id :: id in ids ==> id in s.tombstones
    ensures lo <= from && forall id :: id in ids ==> lo <= s.tombstones[id].from
    ensures lo == from || exists id :: id in ids && s.tombstones[id].from == lo
    decreases |ids|
  {
    if ids == {} then from
    else
      var id :| id in ids;
      var rest := Least(s, ids - {id}, from);
      if s.tombstones[id].from < rest then s.tombstones[id].from else rest
  }

  ghost function Greatest(s: Store, ids: set<nat>, upto: int): (hi: int)
    requires forall id :: id in ids ==> id in s.tombstones
    ensures upto <= hi && forall id :: id in ids ==> s.tombstones[id].upto <= hi
    ensures hi == upto || exists id :: id in ids && s.tombstones[id].upto == hi
    decreases |ids|
  {
    if ids == {} then upto
    else
      var id :| id in ids;
      var rest := Greatest(s, ids - {id}, upto);
      if s.tombstones[id].upto > rest then s.tombstones[id].upto else rest
  }

  ghost function AfterDeleteWindow(s: Store, user: string, device: Option<string>, from: int, upto: int): Store {
    if upto < from then s
    else
      var ids := Overlapping(s, user, device, from, upto);
      s.(buckets := map k | k in s.buckets && !InWindow(k, user, device, from, upto) :: s.buckets[k],
         tombstones := (s.tombstones - ids)[s.nextId := Merged(s, user, device, from, upto)],
         nextId := s.nextId + 1)
  }

  function AfterRevoke(s: Store, user: string, device: string, purge: bool): Store {
    if (user, device) !in s.devices then s
    else
      s.(devices := s.devices[(user, device) := s.devices[(user, device)].(revoked := true)],
         buckets := if purge then map k | k in s.buckets && !(k.user == user && k.device == device) :: s.buckets[k]
                    else s.buckets)
  }

  function AfterSweepBuckets(s: Store, cutoff: int, batch: set<BucketKey>): Store {
    s.(buckets := map k | k in s.buckets && !(k in batch && k.start < cutoff) :: s.buckets[k])
  }

  function AfterSweepTombstones(s: Store, cutoff: int, batch: set<nat>): Store {
    s.(tombstones :=
         map id | id in s.tombstones && !(id in batch && s.tombstones[id].upto < cutoff) :: s.tombstones[id])
  }

  // ------------------------------------------------------------------
  // Runs
  // ------------------------------------------------------------------

  datatype Op =
    | Ingest(user: string, device: string, batch: seq<Bucket>, tooOldBefore: int)
    | DeleteAll(user: string, before: int)
    | DeleteByDevice(user: string, device: string, before: int)
    | DeleteWindow(user: string, scope: Option<string>, from: int, upto: int)
    | RegisterDevice(user: string, device: string)
    | RevokeDevice(user: string, device: string, purge: bool)
    | SweepBuckets(cutoff: int, keys: set<BucketKey>)
    | SweepTombstones(cutoff: int, ids: set<nat>)

  ghost function Next(s: Store, op: Op): Store {
    match op
    case Ingest(u, d, batch, _) => AfterIngest(s, u, d, batch)
    case DeleteAll(u, t) => AfterDeleteAll(s, u, t)
    case DeleteByDevice(u, d, t) => AfterDeleteByDevice(s, u, d, t)
    case DeleteWindow(u, d, from, upto) => AfterDeleteWindow(s, u, d, from, upto)
    case RegisterDevice(u, d) => WithDevice(s, u, d)
    case RevokeDevice(u, d, purge) => AfterRevoke(s, u, d, purge)
    case SweepBuckets(t, keys) => AfterSweepBuckets(s, t, keys)
    case SweepTombstones(t, ids) => AfterSweepTombstones(s, t, ids)
  }

  ghost function Exec(ops: seq<Op>): Store {
    if ops == [] then EmptyStore else Next(Exec(Init(ops)), Last(ops))
  }

  // ------------------------------------------------------------------
  // Tombstones
  // ------------------------------------------------------------------

  /** Tombstones are intervals, numbered in order, disjoint within one user and scope. */
  ghost predicate Tidy(s: Store) {
    && (forall id :: id in s.tombstones ==> id < s.nextId && s.tombstones[id].from <= s.tombstones[id].upto)
    && (forall a, b :: a in s.tombstones && b in s.tombstones && a != b ==>
          SameScope(s.tombstones[a], s.tombstones[b]) ==> Apart(s.tombstones[a], s.tombstones[b]))
  }

  predicate SameScope(a: Tombstone, b: Tombstone) {
    a.user == b.user && a.device == b.device
  }

  /** The merged tombstone covers exactly the new window and the tombstones it replaces. */
  lemma MergeIsExact(s: Store, user: string, device: Option<string>, from: int, upto: int, x: int)
    requires Tidy(s) && from <= upto
    ensures var ids := Overlapping(s, user, device, from, upto);
            Least(s, ids, from) <= x <= Greatest(s, ids, upto)
            <==> from <= x <= upto || exists id :: id in ids && Covers(s.tombstones[id], x)
  {
  }

  ghost predicate Apart(a: Tombstone, b: Tombstone) {
    a.upto < b.from || b.upto < a.from
  }

  /** A tombstone the new window does not touch is not touched by the merged one either. */
  lemma MergeStaysApart(s: Store, user: string, device: Option<string>, from: int, upto: int, other: nat)
    requires Tidy(s) && from <= upto && other in s.tombstones && other !in Overlapping(s, user, device, from, upto)
    requires s.tombstones[other].user == user && s.tombstones[other].device == device
    ensures Apart(s.tombstones[other], Merged(s, user, device, from, upto))
  {
  }

  /** The tombstones after a window deletion: the merged one, and those it did not touch. */
  ghost function Remaining(s: Store, user: string, device: Option<string>, from: int, upto: int): map<nat, Tombstone> {
    s.tombstones - Overlapping(s, user, device, from, upto)
  }

  ghost function Merged(s: Store, user: string, device: Option<string>, from: int, upto: int): Tombstone {
    var ids := Overlapping(s, user, device, from, upto);
    Tombstone(user, device, Least(s, ids, from), Greatest(s, ids, upto))
  }

  lemma {:induction false} WindowKeepsTidy(s: Store, user: string, device: Option<string>, from: int, upto: int)
    requires Tidy(s) && from <= upto
    ensures Tidy(AfterDeleteWindow(s, user, device, from, upto))
  {
    var t := Merged(s, user, device, from, upto);
    var rest := Remaining(s, user, device, from, upto);
    forall a | a in rest && rest[a].user == user && rest[a].device == device
      ensures Apart(rest[a], t)
    {
      MergeStaysApart(s, user, device, from, upto, a);
    }
    TidyWith(s.(tombstones := rest), AfterDeleteWindow(s, user, device, from, upto), t);
  }

  /** A new tombstone apart from those of its scope. */
  lemma TidyWith(s: Store, s': Store, t: Tombstone)
    requires Tidy(s) && t.from <= t.upto
    requires forall a :: a in s.tombstones && SameScope(s.tombstones[a], t) ==> Apart(s.tombstones[a], t)
    requires s'.tombstones == s.tombstones[s.nextId := t] && s'.nextId == s.nextId + 1
    ensures Tidy(s')
  {
  }

  lemma {:induction false} NextKeepsTidy(s: Store, op: Op)
    requires Tidy(s)
    ensures Tidy(Next(s, op))
  {
    if op.DeleteWindow? && op.from <= op.upto {
      WindowKeepsTidy(s, op.user, op.scope, op.from, op.upto);
    }
  }

  lemma {:induction false} EveryRunIsTidy(ops: seq<Op>)
    ensures Tidy(Exec(ops))
  {
    if ops != [] {
      EveryRunIsTidy(Init(ops));
      NextKeepsTidy(Exec(Init(ops)), Last(ops));
    }
  }

  lemma BuriedBefore(s: Store, user: string, scope: Option<string>, from: int, upto: int, u: string, d: string, x: int)
    ensures var ids := Overlapping(s, user, scope, from, upto);
            Buried(s.tombstones, u, d, x)
            <==> Buried(Remaining(s, user, scope, from, upto), u, d, x)
                 || (&& u == user && (scope.None? || scope.value == d)
                     && exists id :: id in ids && Covers(s.tombstones[id], x))
  {
    var ids, rest := Overlapping(s, user, scope, from, upto), Remaining(s, user, scope, from, upto);
    if Buried(s.tombstones, u, d, x) {
      var id :| id in s.tombstones && Applies(s.tombstones[id], u, d) && Covers(s.tombstones[id], x);
      assert id in ids || id in rest;
    }
  }

  lemma BuriedAfter(rest: map<nat, Tombstone>, id: nat, t: Tombstone, u: string, d: string, x: int)
    requires id !in rest
    ensures Buried(rest[id := t], u, d, x) <==> Buried(rest, u, d, x) || (Applies(t, u, d) && Covers(t, x))
  {
    var all := rest[id := t];
    assert all[id] == t;
    if Buried(rest, u, d, x) {
      var i :| i in rest && Applies(rest[i], u, d) && Covers(rest[i], x);
      assert i in all && all[i] == rest[i];
    }
  }

  /** After a window deletion a start is cleared exactly when it was before or lies in the window. */
  lemma WindowClearsExactly(s: Store, user: string, scope: Option<string>, from: int, upto: int, u: string,
                            d: string, x: int)
    requires Tidy(s)
    ensures Cleared(AfterDeleteWindow(s, user, scope, from, upto), u, d, x)
            <==> Cleared(s, u, d, x) || (u == user && from <= x <= upto && (scope.None? || scope.value == d))
  {
    if from <= upto {
      var rest, t := Remaining(s, user, scope, from, upto), Merged(s, user, scope, from, upto);
      BuriedBefore(s, user, scope, from, upto, u, d, x);
      BuriedAfter(rest, s.nextId, t, u, d, x);
      assert AfterDeleteWindow(s, user, scope, from, upto).tombstones == rest[s.nextId := t];
    }
  }

  // ------------------------------------------------------------------
  // In every state, nothing stored is cleared
  // ------------------------------------------------------------------

  ghost predicate NothingClearedStored(s: Store) {
    forall k :: k in s.buckets ==> !Cleared(s, k.user, k.device, k.start)
  }

  lemma {:induction false} KeptIsNotCleared(s: Store, user: string, device: string, batch: seq<Bucket>)
    ensures forall b :: b in Kept(s, user, device, batch) ==> b in batch && !Cleared(s, user, device, b.start)
  {
    if batch != [] {
      KeptIsNotCleared(s, user, device, Init(batch));
    }
  }

  lemma {:induction false} UpsertedKeys(rows: map<BucketKey, Counts>, user: string, device: string, batch: seq<Bucket>)
    ensures forall k :: k in Upserted(rows, user, device, batch) <==>
              k in rows || exists b :: b in batch && KeyFor(user, device, b) == k
  {
    if batch != [] {
      UpsertedKeys(rows, user, device, Init(batch));
      assert batch == Init(batch) + [Last(batch)];
    }
  }

  /** A key that appears by ingest was neither cleared nor under a revoked device. */
  lemma IngestAdds(s: Store, user: string, device: string, batch: seq<Bucket>, k: BucketKey)
    requires k in AfterIngest(s, user, device, batch).buckets && k !in s.buckets
    ensures k.user == user && k.device == device
    ensures exists b :: b in batch && KeyFor(user, device, b) == k
    ensures !Cleared(s, user, device, k.start) && !Revoked(s, user, device)
  {
    var kept := Kept(s, user, device, batch);
    UpsertedKeys(s.buckets, user, device, kept);
    KeptIsNotCleared(s, user, device, batch);
    var b :| b in kept && KeyFor(user, device, b) == k;
    assert b in batch;
  }

  lemma DeviceRowClearsNothing(s: Store, user: string, device: string)
    ensures forall u, d, x :: Cleared(WithDevice(s, user, device), u, d, x) <==> Cleared(s, u, d, x)
  {
  }

  lemma IngestClearsNothing(s: Store, user: string, device: string, batch: seq<Bucket>)
    ensures forall u, d, x :: Cleared(AfterIngest(s, user, device, batch), u, d, x) <==> Cleared(s, u, d, x)
  {
  }

  lemma IngestKeepsNothingCleared(s: Store, user: string, device: string, batch: seq<Bucket>)
    requires NothingClearedStored(s)
    ensures NothingClearedStored(AfterIngest(s, user, device, batch))
  {
    var s' := AfterIngest(s, user, device, batch);
    IngestClearsNothing(s, user, device, batch);
    forall k | k in s'.buckets ensures !Cleared(s', k.user, k.device, k.start) {
      if k !in s.buckets {
        IngestAdds(s, user, device, batch, k);
      }
    }
  }

  lemma WindowKeepsNothingCleared(s: Store, user: string, scope: Option<string>, from: int, upto: int)
    requires Tidy(s) && NothingClearedStored(s)
    ensures NothingClearedStored(AfterDeleteWindow(s, user, scope, from, upto))
  {
    var s' := AfterDeleteWindow(s, user, scope, from, upto);
    forall k | k in s'.buckets ensures !Cleared(s', k.user, k.device, k.start) {
      WindowClearsExactly(s, user, scope, from, upto, k.user, k.device, k.start);
    }
  }

  lemma NextKeepsNothingCleared(s: Store, op: Op)
    requires Tidy(s) && NothingClearedStored(s)
    ensures NothingClearedStored(Next(s, op))
  {
    match op
    case Ingest(u, d, batch, _) => IngestKeepsNothingCleared(s, u, d, batch);
    case DeleteWindow(u, d, from, upto) => WindowKeepsNothingCleared(s, u, d, from, upto);
    case RegisterDevice(u, d) => DeviceRowClearsNothing(s, u, d);
    case _ =>
  }

  /** In every reachable state no stored bucket lies under a watermark or an applicable tombstone. */
  lemma {:induction false} NothingClearedIsEverStored(ops: seq<Op>)
    ensures NothingClearedStored(Exec(ops))
  {
    if ops != [] {
      NothingClearedIsEverStored(Init(ops));
      EveryRunIsTidy(Init(ops));
      NextKeepsNothingCleared(Exec(Init(ops)), Last(ops));
    }
  }

  // ------------------------------------------------------------------
  // Ingest accounting
  // ------------------------------------------------------------------

  lemma {:induction false} KeptAndDiscardedPartition(s: Store, user: string, device: string, batch: seq<Bucket>)
    ensures |Kept(s, user, device, batch)| + |Discarded(s, user, device, batch)| == |batch|
  {
    if batch != [] {
      KeptAndDiscardedPartition(s, user, device, Init(batch));
    }
  }

  lemma {:induction false} KeptIsSubsequence(s: Store, user: string, device: string, batch: seq<Bucket>)
    ensures Subsequence(Kept(s, user, device, batch), batch)
  {
    if batch != [] {
      KeptIsSubsequence(s, user, device, Init(batch));
      assert batch == Init(batch) + [Last(batch)];
      assert Kept(s, user, device, Init(batch)) + [] == Kept(s, user, device, Init(batch));
    }
  }

  lemma {:induction false} SubsequenceStaysDistinct(a: seq<Bucket>, b: seq<Bucket>)
    requires Subsequence(a, b) && DistinctKeys(b)
    ensures DistinctKeys(a) && (forall x :: x in a ==> x in b)
    decreases |b|
  {
    if a != [] {
      if Last(a) == Last(b) && Subsequence(Init(a), Init(b)) {
        SubsequenceStaysDistinct(Init(a), Init(b));
        assert a == Init(a) + [Last(a)];
        forall i | 0 <= i < |a| - 1 ensures KeyFor("", "", a[i]) != KeyFor("", "", Last(a)) {
          assert a[i] == Init(a)[i];
          assert a[i] in Init(b);
          var m :| 0 <= m < |Init(b)| && Init(b)[m] == a[i];
          assert b[m] == a[i];
        }
      } else {
        SubsequenceStaysDistinct(a, Init(b));
      }
    }
  }

  /**
   A batch without duplicate keys is fully accounted for: every bucket is either
   accepted or discarded, and every accepted one is one row written.
   */
  lemma IngestAccounts(s: Store, user: string, device: string, batch: seq<Bucket>)
    requires DistinctKeys(batch) && !Revoked(s, user, device)
    ensures var r := IngestOutcome(s, user, device, batch);
            r.Ingested? && r.accepted + |r.discarded| == |batch| && r.updated == r.accepted
  {
    KeptAndDiscardedPartition(s, user, device, batch);
    KeptIsSubsequence(s, user, device, batch);
    SubsequenceStaysDistinct(Kept(s, user, device, batch), batch);
  }

  /** Every kept bucket is stored with its own counts, and no other row changes. */
  lemma {:induction false} UpsertStoresEach(rows: map<BucketKey, Counts>, user: string, device: string,
                                            batch: seq<Bucket>)
    requires DistinctKeys(batch)
    ensures forall b :: b in batch ==>
              KeyFor(user, device, b) in Upserted(rows, user, device, batch)
              && Upserted(rows, user, device, batch)[KeyFor(user, device, b)] == b.counts
    ensures forall k :: k in rows && (forall b :: b in batch ==> KeyFor(user, device, b) != k) ==>
              k in Upserted(rows, user, device, batch) && Upserted(rows, user, device, batch)[k] == rows[k]
  {
    if batch != [] {
      UpsertStoresEach(rows, user, device, Init(batch));
      var last := Last(batch);
      assert batch == Init(batch) + [last];
      forall b | b in Init(batch) ensures KeyFor(user, device, b) != KeyFor(user, device, last) {
        var i :| 0 <= i < |Init(batch)| && Init(batch)[i] == b;
        assert KeyFor("", "", batch[i]) != KeyFor("", "", batch[|batch| - 1]);
      }
    }
  }

  lemma {:induction false} UpsertAgainChangesNothing(rows: map<BucketKey, Counts>, user: string, device: string,
                                                     batch: seq<Bucket>)
    requires forall b :: b in batch ==>
               KeyFor(user, device, b) in rows && rows[KeyFor(user, device, b)] == b.counts
    ensures Upserted(rows, user, device, batch) == rows
  {
    if batch != [] {
      UpsertAgainChangesNothing(rows, user, device, Init(batch));
      assert Last(batch) in batch;
    }
  }

  lemma {:induction false} KeptAgain(s: Store, t: Store, user: string, device: string, batch: seq<Bucket>)
    requires forall x :: Cleared(s, user, device, x) <==> Cleared(t, user, device, x)
    ensures Kept(s, user, device, batch) == Kept(t, user, device, batch)
  {
    if batch != [] {
      KeptAgain(s, t, user, device, Init(batch));
    }
  }

  /** Sending a batch again, with nothing in between, leaves the store as it is. */
  lemma ResendingChangesNothing(s: Store, user: string, device: string, batch: seq<Bucket>)
    requires DistinctKeys(batch)
    ensures var s' := AfterIngest(s, user, device, batch); AfterIngest(s', user, device, batch) == s'
  {
    var s' := AfterIngest(s, user, device, batch);
    var kept := Kept(s, user, device, batch);
    if batch != [] && !Revoked(s, user, device) {
      IngestAccounts(s, user, device, batch);
      IngestClearsNothing(s, user, device, batch);
      KeptAgain(s, s', user, device, batch);
      KeptIsSubsequence(s, user, device, batch);
      SubsequenceStaysDistinct(kept, batch);
      UpsertStoresEach(s.buckets, user, device, kept);
      UpsertAgainChangesNothing(s'.buckets, user, device, kept);
    }
  }
}
