/** The token-usage repository as an object over its tables, each transaction proved to be its step. */
module TokenUsageRepo {
  import opened Base
  import opened TokenUsage

  /** The tombstones a batch could hit: those that apply and overlap its span of starts. */
  function Selected(tombstones: map<nat, Tombstone>, user: string, device: string, minStart: int,
                    maxStart: int): map<nat, Tombstone> {
    map id | id in tombstones && Applies(tombstones[id], user, device)
             && tombstones[id].from <= maxStart && tombstones[id].upto >= minStart :: tombstones[id]
  }

  /** The span prefilter decides every start within the span as all the tombstones would. */
  lemma PrefilterDecides(tombstones: map<nat, Tombstone>, user: string, device: string, minStart: int,
                         maxStart: int, x: int)
    requires minStart <= x <= maxStart
    ensures Buried(Selected(tombstones, user, device, minStart, maxStart), user, device, x)
            <==> Buried(tombstones, user, device, x)
  {
    var selected := Selected(tombstones, user, device, minStart, maxStart);
    if Buried(tombstones, user, device, x) {
      var id :| id in tombstones && Applies(tombstones[id], user, device) && Covers(tombstones[id], x);
      assert id in selected && selected[id] == tombstones[id];
    }
  }

  /** usageBucketCleared: two half-open watermarks, then each closed tombstone. */
  method BucketCleared(start: int, userCleared: Option<int>, deviceCleared: Option<int>,
                       tombstones: map<nat, Tombstone>)
    returns (cleared: bool)
    ensures cleared <==>
            || Under(userCleared, start) || Under(deviceCleared, start)
            || exists id :: id in tombstones && Covers(tombstones[id], start)
  {
    if userCleared.Some? && start < userCleared.value {
      return true;
    }
    if deviceCleared.Some? && start < deviceCleared.value {
      return true;
    }
    var ids := tombstones.Keys;
    while ids != {}
      invariant ids <= tombstones.Keys
      invariant forall id :: id in tombstones && id !in ids ==> !Covers(tombstones[id], start)
    {
      var id :| id in ids;
      if tombstones[id].from <= start <= tombstones[id].upto {
        return true;
      }
      ids := ids - {id};
    }
    return false;
  }

  /** The earliest and the latest start of a non-empty batch. */
  method Span(batch: seq<Bucket>) returns (minStart: int, maxStart: int)
    requires batch != []
    ensures forall b :: b in batch ==> minStart <= b.start <= maxStart
    ensures exists b :: b in batch && b.start == minStart
    ensures exists b :: b in batch && b.start == maxStart
  {
    minStart, maxStart := batch[0].start, batch[0].start;
    ghost var lo, hi := batch[0], batch[0];
    var i := 1;
    while i < |batch|
      invariant 1 <= i <= |batch|
      invariant forall j :: 0 <= j < i ==> minStart <= batch[j].start <= maxStart
      invariant lo in batch && lo.start == minStart && hi in batch && hi.start == maxStart
    {
      var b := batch[i];
      if b.start < minStart {
        minStart, lo := b.start, b;
      }
      if b.start > maxStart {
        maxStart, hi := b.start, b;
      }
      i := i + 1;
    }
  }

  class UsageTokenRepo {
    var buckets: map<BucketKey, Counts>
    var devices: map<(string, string), DeviceRow>
    var watermarks: map<string, int>
    var tombstones: map<nat, Tombstone>
    var nextId: nat

    function State(): Store
      reads this
    {
      Store(buckets, devices, watermarks, tombstones, nextId)
    }

    constructor ()
      ensures State() == EmptyStore
    {
      buckets, devices, watermarks, tombstones, nextId := map[], map[], map[], map[], 0;
    }

    /** Split a batch into what is written and what is discarded as cleared. */
    method Filter(user: string, device: string, batch: seq<Bucket>) returns (kept: seq<Bucket>, discarded: seq<int>)
      requires batch != []
      ensures kept == Kept(State(), user, device, batch) && discarded == Discarded(State(), user, device, batch)
    {
      var minStart, maxStart := Span(batch);
      var hits := Selected(tombstones, user, device, minStart, maxStart);
      var userCleared, deviceCleared := UserMark(State(), user), DeviceMark(State(), user, device);
      kept, discarded := [], [];
      var i := 0;
      while i < |batch|
        invariant i <= |batch|
        invariant kept == Kept(State(), user, device, batch[..i])
        invariant discarded == Discarded(State(), user, device, batch[..i])
      {
        var b := batch[i];
        var cleared := BucketCleared(b.start, userCleared, deviceCleared, hits);
        PrefilterDecides(tombstones, user, device, minStart, maxStart, b.start);
        assert Init(batch[..i + 1]) == batch[..i];
        if cleared {
          discarded := discarded + [b.index];
        } else {
          kept := kept + [b];
        }
        i := i + 1;
      }
      assert batch[..|batch|] == batch;
    }

    /** The multi-row upsert; a statement that meets one key twice fails as a whole. */
    method Upsert(user: string, device: string, batch: seq<Bucket>) returns (ok: bool, n: nat)
      modifies `buckets
      ensures ok == DistinctKeys(batch)
      ensures ok ==> buckets == Upserted(old(buckets), user, device, batch) && n == |batch|
      ensures !ok ==> buckets == old(buckets)
    {
      var before := buckets;
      var i := 0;
      while i < |batch|
        invariant i <= |batch|
        invariant buckets == Upserted(before, user, device, batch[..i])
        invariant DistinctKeys(batch[..i])
      {
        var j := 0;
        while j < i
          invariant j <= i
          invariant forall m :: 0 <= m < j ==> KeyFor("", "", batch[m]) != KeyFor("", "", batch[i])
        {
          if KeyFor(user, device, batch[j]) == KeyFor(user, device, batch[i]) {
            assert KeyFor("", "", batch[j]) == KeyFor("", "", batch[i]);
            buckets := before;
            return false, 0;
          }
          j := j + 1;
        }
        assert Init(batch[..i + 1]) == batch[..i];
        buckets := buckets[KeyFor(user, device, batch[i]) := batch[i].counts];
        i := i + 1;
      }
      assert batch[..|batch|] == batch;
      return true, |batch|;
    }

    method IngestBuckets(user: string, device: string, batch: seq<Bucket>) returns (r: IngestResult)
      modifies this
      ensures r == IngestOutcome(old(State()), user, device, batch)
      ensures State() == AfterIngest(old(State()), user, device, batch)
    {
      if batch == [] {
        return Ingested(0, 0, []);
      }
      if (user, device) in devices && devices[(user, device)].revoked {
        return DeviceRevoked;
      }
      var kept, discarded := Filter(user, device, batch);
      var ok, n := Upsert(user, device, kept);
      if !ok {
        return RowWrittenTwice;
      }
      if (user, device) !in devices {
        devices := devices[(user, device) := DeviceRow(false, None)];
      }
      return Ingested(|kept|, n, discarded);
    }

    method DeleteAll(user: string, before: int)
      modifies this
      ensures State() == AfterDeleteAll(old(State()), user, before)
    {
      buckets := map k | k in buckets && k.user != user :: buckets[k];
      var mark := if user in watermarks && watermarks[user] > before then watermarks[user] else before;
      watermarks := watermarks[user := mark];
    }

    method DeleteByDevice(user: string, device: string, before: int) returns (found: bool)
      modifies this
      ensures found == ((user, device) in old(devices))
      ensures State() == AfterDeleteByDevice(old(State()), user, device, before)
    {
      if (user, device) !in devices {
        return false;
      }
      var row := devices[(user, device)];
      var mark := if row.cleared.Some? && row.cleared.value > before then row.cleared.value else before;
      devices := devices[(user, device) := row.(cleared := Some(mark))];
      buckets := map k | k in buckets && !(k.user == user && k.device == device) :: buckets[k];
      return true;
    }

    /** Delete a closed window and record it, merging the tombstones it overlaps into one. */
    method DeleteWindow(user: string, device: Option<string>, from: int, upto: int) returns (ok: bool)
      modifies this
      ensures ok == (from <= upto)
      ensures State() == AfterDeleteWindow(old(State()), user, device, from, upto)
    {
      if upto < from {
        return false;
      }
      var overlaps := Overlapping(State(), user, device, from, upto);
      var lo, hi := MergeOverlaps(overlaps, from, upto);
      buckets := map k | k in buckets && !InWindow(k, user, device, from, upto) :: buckets[k];
      tombstones := (tombstones - overlaps)[nextId := Tombstone(user, device, lo, hi)];
      nextId := nextId + 1;
      return true;
    }

    method MergeOverlaps(ids: set<nat>, from: int, upto: int) returns (lo: int, hi: int)
      requires forall id :: id in ids ==> id in tombstones
      ensures lo == Least(State(), ids, from) && hi == Greatest(State(), ids, upto)
    {
      lo, hi := from, upto;
      var rest := ids;
      while rest != {}
        invariant rest <= ids
        invariant lo <= from && forall id :: id in ids - rest ==> lo <= tombstones[id].from
        invariant lo == from || exists id :: id in ids && tombstones[id].from == lo
        invariant upto <= hi && forall id :: id in ids - rest ==> tombstones[id].upto <= hi
        invariant hi == upto || exists id :: id in ids && tombstones[id].upto == hi
      {
        var id :| id in rest;
        if tombstones[id].from < lo {
          lo := tombstones[id].from;
        }
        if tombstones[id].upto > hi {
          hi := tombstones[id].upto;
        }
        rest := rest - {id};
      }
    }

    method RevokeDevice(user: string, device: string, purge: bool) returns (found: bool)
      modifies this
      ensures found == ((user, device) in old(devices))
      ensures State() == AfterRevoke(old(State()), user, device, purge)
    {
      if (user, device) !in devices {
        return false;
      }
      devices := devices[(user, device) := devices[(user, device)].(revoked := true)];
      if purge {
        buckets := map k | k in buckets && !(k.user == user && k.device == device) :: buckets[k];
      }
      return true;
    }

    /** Expired buckets, batch by batch until none is left. */
    method SweepBucketBatches(cutoff: int, batchSize: nat) returns (total: nat)
      requires batchSize > 0
      modifies `buckets
      ensures State() == AfterSweepBuckets(old(State()), cutoff, old(buckets.Keys))
      ensures total == |set k | k in old(buckets) && k.start < cutoff|
    {
      var expired := set k | k in buckets && k.start < cutoff;
      ghost var all := expired;
      total := 0;
      while expired != {}
        invariant expired == set k | k in buckets && k.start < cutoff
        invariant forall k :: k in buckets <==> k in old(buckets) && (k.start >= cutoff || k in expired)
        invariant forall k :: k in buckets ==> buckets[k] == old(buckets)[k]
        invariant total + |expired| == |all|
        decreases |expired|
      {
        var batch := TakeUpTo(expired, batchSize);
        buckets := buckets - batch;
        expired := expired - batch;
        total := total + |batch|;
      }
    }

    /** Expired tombstones, batch by batch until none is left. */
    method SweepTombstoneBatches(cutoff: int, batchSize: nat) returns (total: nat)
      requires batchSize > 0
      modifies `tombstones
      ensures State() == AfterSweepTombstones(old(State()), cutoff, old(tombstones.Keys))
      ensures total == |set id | id in old(tombstones) && old(tombstones)[id].upto < cutoff|
    {
      var dead := set id | id in tombstones && tombstones[id].upto < cutoff;
      ghost var all := dead;
      total := 0;
      while dead != {}
        invariant dead == set id | id in tombstones && tombstones[id].upto < cutoff
        invariant forall id :: id in tombstones <==>
                    id in old(tombstones) && (old(tombstones)[id].upto >= cutoff || id in dead)
        invariant forall id :: id in tombstones ==> tombstones[id] == old(tombstones)[id]
        invariant total + |dead| == |all|
        decreases |dead|
      {
        var batch := TakeUpTo(dead, batchSize);
        tombstones := tombstones - batch;
        dead := dead - batch;
        total := total + |batch|;
      }
    }

    /** The retention sweep: all batches of expired buckets, then all batches of expired tombstones. */
    method SweepRetention(cutoff: int, batchSize: nat) returns (swept: nat, buried: nat)
      requires batchSize > 0
      modifies this
      ensures State() ==
              var s := AfterSweepBuckets(old(State()), cutoff, old(buckets.Keys));
              AfterSweepTombstones(s, cutoff, old(tombstones.Keys))
      ensures swept == |set k | k in old(buckets) && k.start < cutoff|
      ensures buried == |set id | id in old(tombstones) && old(tombstones)[id].upto < cutoff|
    {
      swept := SweepBucketBatches(cutoff, batchSize);
      buried := SweepTombstoneBatches(cutoff, batchSize);
    }
  }

  method TakeUpTo<T(==)>(rows: set<T>, limit: nat) returns (batch: set<T>)
    requires rows != {} && limit > 0
    ensures batch <= rows && batch != {} && |batch| <= limit
  {
    var k :| k in rows;
    batch := {k};
    var rest := rows - {k};
    while rest != {} && |batch| < limit
      invariant rest <= rows && batch <= rows && rest !! batch && batch != {} && |batch| <= limit
    {
      var x :| x in rest;
      batch, rest := batch + {x}, rest - {x};
    }
  }
}
