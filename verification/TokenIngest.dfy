/**
 Validation of a usage upload (internal/handler/usage_tokens.go): all or nothing,
 in the order the contract lists the checks, ending with the in-request duplicate
 check on a NUL-joined key.

 Decoding is left outside: a timestamp or a number arrives parsed or not, times are
 nanoseconds, and the RFC 3339 formatter is a parameter.
 */
module TokenIngest {
  import opened Base
  import opened TokenUsage

  const Hour := 3_600_000_000_000
  const Day := 24 * Hour
  const MaxBuckets := 500
  const BackfillDefaultDays := 30
  const BackfillMaxDays := 180

  datatype Number = Missing | Int(value: int) | Malformed

  datatype Timestamp = Unparsed | Parsed(time: int, offset: int)

  datatype RawBucket = RawBucket(
    start: Timestamp, size: string, source: string, agent: string, provider: string, model: string,
    prompt: Number, completion: Number, total: Number, requests: Number)

  datatype Request = Request(schemaVersion: Option<int>, device: string, maxDays: Number, buckets: seq<RawBucket>)

  /** Deployment settings and the clock. */
  datatype Config = Config(bucketSize: string, retentionDays: int, now: int)

  datatype Code =
    | InvalidRequest | UnsupportedSchemaVersion | TooManyBuckets | BucketSizeMismatch
    | InvalidBucket | FutureBucket | TooOld | DuplicateBucketKey

  datatype Checked<+T> = Fine(value: T) | Rejected(code: Code, index: int)

  predicate IsControl(c: char) {
    c < ' ' || '\U{7F}' <= c <= '\U{9F}'
  }

  predicate HasControl(s: string) {
    exists i :: 0 <= i < |s| && IsControl(s[i])
  }

  predicate IsLowerAlnum(c: char) {
    'a' <= c <= 'z' || '0' <= c <= '9'
  }

  predicate IsAgentChar(c: char) {
    'A' <= c <= 'Z' || IsLowerAlnum(c) || c == '.' || c == '_' || c == '-'
  }

  predicate ValidDevice(s: string) {
    10 <= |s| <= 34 && s[0] == 'd' && s[1] == '_' && forall i :: 2 <= i < |s| ==> IsLowerAlnum(s[i])
  }

  predicate ValidAgent(s: string) {
    1 <= |s| <= 64 && forall i :: 0 <= i < |s| ==> IsAgentChar(s[i])
  }

  predicate ValidText(s: string, limit: nat) {
    1 <= |s| <= limit && !HasControl(s)
  }

  predicate Aligned(start: int, size: string) {
    if size == "day" then start % Day == 0 else start % Hour == 0
  }

  /** A missing count is 0; anything but a non-negative integer is refused. */
  function Count(n: Number): Option<int> {
    match n
    case Missing => Some(0)
    case Int(v) => if v < 0 then None else Some(v)
    case Malformed => None
  }

  function ValidateBucket(raw: RawBucket, index: int, cfg: Config, tooOldBefore: int): Checked<Bucket> {
    if raw.start.Unparsed? || raw.start.offset != 0 || !Aligned(raw.start.time, cfg.bucketSize)
    then Rejected(InvalidBucket, index)
    else if raw.start.time > cfg.now + Hour then Rejected(FutureBucket, index)
    else if raw.start.time < tooOldBefore then Rejected(TooOld, index)
    else if raw.source != "chat" && raw.source != "gateway" then Rejected(InvalidBucket, index)
    else if !ValidAgent(raw.agent) then Rejected(InvalidBucket, index)
    else if !ValidText(raw.provider, 128) then Rejected(InvalidBucket, index)
    else if !ValidText(raw.model, 200) then Rejected(InvalidBucket, index)
    else if Count(raw.prompt).None? || Count(raw.completion).None? || Count(raw.total).None?
    then Rejected(InvalidBucket, index)
    else if Count(raw.requests).None? then Rejected(InvalidBucket, index)
    else if Count(raw.requests).value < 1 then Rejected(InvalidBucket, index)
    else
      var prompt, completion, total := Count(raw.prompt).value, Count(raw.completion).value, Count(raw.total).value;
      Fine(Bucket(index, raw.start.time, cfg.bucketSize, raw.source, raw.agent, raw.provider, raw.model,
                  Counts(prompt, completion, if total == 0 then prompt + completion else total,
                         Count(raw.requests).value)))
  }

  function MaxDays(req: Request, backfill: bool): Option<int> {
    if !backfill || req.maxDays.Missing? then Some(BackfillDefaultDays)
    else if req.maxDays.Malformed? || req.maxDays.value < 1 || req.maxDays.value > BackfillMaxDays then None
    else Some(req.maxDays.value)
  }

  /** The window a bucket must start in; a backfill window never exceeds retention. */
  function TooOldBefore(req: Request, backfill: bool, cfg: Config): int
    requires MaxDays(req, backfill).Some?
  {
    var wanted := MaxDays(req, backfill).value;
    var days := if backfill && wanted < cfg.retentionDays then wanted else cfg.retentionDays;
    cfg.now - days * Day
  }

  // ------------------------------------------------------------------
  // The duplicate key
  // ------------------------------------------------------------------

  const NUL: char := '\0'

  function Join(fields: seq<string>): string {
    if fields == [] then ""
    else if |fields| == 1 then fields[0]
    else fields[0] + [NUL] + Join(fields[1..])
  }

  function Fields(format: int -> string, b: Bucket): seq<string> {
    [format(b.start), b.size, b.source, b.agent, b.provider, b.model]
  }

  function DedupeKey(format: int -> string, b: Bucket): string {
    Join(Fields(format, b))
  }

  ghost predicate NulFree(fields: seq<string>) {
    forall i :: 0 <= i < |fields| ==> NUL !in fields[i]
  }

  lemma {:induction false} JoinIsInjective(a: seq<string>, b: seq<string>)
    requires NulFree(a) && NulFree(b) && |a| == |b| && Join(a) == Join(b)
    ensures a == b
  {
    if |a| > 1 {
      assert NulFree(a[1..]) && NulFree(b[1..]);
      SplitIsUnique(NUL, a[0], b[0], Join(a[1..]), Join(b[1..]));
      JoinIsInjective(a[1..], b[1..]);
      assert a == [a[0]] + a[1..] && b == [b[0]] + b[1..];
    }
  }

  /** What the formatter must do: tell instants apart, in text without NUL. */
  ghost predicate GoodFormat(format: int -> string) {
    && (forall x :: NUL !in format(x))
    && (forall x, y :: format(x) == format(y) ==> x == y)
  }

  /** What validation guarantees about the text fields. */
  ghost predicate Clean(b: Bucket) {
    NUL !in b.size && NUL !in b.source && NUL !in b.agent && NUL !in b.provider && NUL !in b.model
  }

  lemma ValidatedIsClean(raw: RawBucket, index: int, cfg: Config, tooOldBefore: int)
    requires ValidateBucket(raw, index, cfg, tooOldBefore).Fine? && NUL !in cfg.bucketSize
    ensures Clean(ValidateBucket(raw, index, cfg, tooOldBefore).value)
  {
  }

  /** On validated buckets the joined key is the storage key: equal exactly when the rows collide. */
  lemma DedupeKeyIsExact(format: int -> string, a: Bucket, b: Bucket)
    requires GoodFormat(format) && Clean(a) && Clean(b)
    ensures DedupeKey(format, a) == DedupeKey(format, b) <==> KeyFor("", "", a) == KeyFor("", "", b)
  {
    if DedupeKey(format, a) == DedupeKey(format, b) {
      JoinIsInjective(Fields(format, a), Fields(format, b));
      assert Fields(format, a)[0] == Fields(format, b)[0];
    }
  }

  /** The first bucket whose key an earlier bucket already has. */
  method FindDuplicate(key: Bucket -> string, batch: seq<Bucket>) returns (dup: Option<nat>)
    ensures dup.None? ==> forall i, j :: 0 <= i < j < |batch| ==> key(batch[i]) != key(batch[j])
    ensures dup.Some? ==>
              && dup.value < |batch|
              && (exists i :: 0 <= i < dup.value && key(batch[i]) == key(batch[dup.value]))
              && (forall i, j :: 0 <= i < j < dup.value ==> key(batch[i]) != key(batch[j]))
  {
    var seen: map<string, nat> := map[];
    var i := 0;
    while i < |batch|
      invariant i <= |batch|
      invariant forall k :: k in seen ==> seen[k] < i && key(batch[seen[k]]) == k
      invariant forall j :: 0 <= j < i ==> key(batch[j]) in seen
      invariant forall j, m :: 0 <= j < m < i ==> key(batch[j]) != key(batch[m])
    {
      var k := key(batch[i]);
      if k in seen {
        return Some(i);
      }
      seen := seen[k := i];
      i := i + 1;
    }
    return None;
  }

  // ------------------------------------------------------------------
  // The whole request
  // ------------------------------------------------------------------

  /** Everything that must hold for a request to reach the database. */
  ghost predicate Acceptable(format: int -> string, req: Request, backfill: bool, cfg: Config) {
    && req.schemaVersion == Some(1)
    && ValidDevice(req.device)
    && 1 <= |req.buckets| <= MaxBuckets
    && MaxDays(req, backfill).Some?
    && (forall i :: 0 <= i < |req.buckets| ==> req.buckets[i].size == cfg.bucketSize)
    && var t := TooOldBefore(req, backfill, cfg);
       && (forall i :: 0 <= i < |req.buckets| ==> ValidateBucket(req.buckets[i], i, cfg, t).Fine?)
       && (forall i, j :: 0 <= i < j < |req.buckets| ==>
             DedupeKey(format, ValidateBucket(req.buckets[i], i, cfg, t).value)
             != DedupeKey(format, ValidateBucket(req.buckets[j], j, cfg, t).value))
  }

  /** Everything checked before the buckets are looked at. */
  ghost predicate HeaderHolds(req: Request, backfill: bool) {
    && req.schemaVersion == Some(1) && ValidDevice(req.device) && 1 <= |req.buckets| <= MaxBuckets
    && MaxDays(req, backfill).Some?
  }

  /** Bucket `j` repeats the key of an earlier bucket. */
  ghost predicate Repeats(format: int -> string, req: Request, cfg: Config, t: int, j: nat)
    requires j < |req.buckets| && forall i :: 0 <= i <= j ==> ValidateBucket(req.buckets[i], i, cfg, t).Fine?
  {
    exists i :: 0 <= i < j
                && DedupeKey(format, ValidateBucket(req.buckets[i], i, cfg, t).value)
                   == DedupeKey(format, ValidateBucket(req.buckets[j], j, cfg, t).value)
  }

  /** An error that names a bucket names the first that fails the first check that fails. */
  ghost predicate Culprit(format: int -> string, req: Request, backfill: bool, cfg: Config, code: Code, index: nat) {
    && HeaderHolds(req, backfill)
    && index < |req.buckets|
    && var t := TooOldBefore(req, backfill, cfg);
       if code == BucketSizeMismatch then
         && req.buckets[index].size != cfg.bucketSize
         && (forall i :: 0 <= i < index ==> req.buckets[i].size == cfg.bucketSize)
       else
         && (forall i :: 0 <= i < |req.buckets| ==> req.buckets[i].size == cfg.bucketSize)
         && if code == DuplicateBucketKey then
           && (forall i :: 0 <= i < |req.buckets| ==> ValidateBucket(req.buckets[i], i, cfg, t).Fine?)
           && Repeats(format, req, cfg, t, index)
           && (forall j :: 0 <= j < index ==> !Repeats(format, req, cfg, t, j))
         else
           && ValidateBucket(req.buckets[index], index, cfg, t) == Rejected(code, index)
           && (forall i :: 0 <= i < index ==> ValidateBucket(req.buckets[i], i, cfg, t).Fine?)
  }

  /** The first bucket of another size than the deployment's. */
  method CheckSizes(raw: seq<RawBucket>, size: string) returns (wrong: Option<nat>)
    ensures wrong.None? ==> forall i :: 0 <= i < |raw| ==> raw[i].size == size
    ensures wrong.Some? ==>
              && wrong.value < |raw| && raw[wrong.value].size != size
              && forall i :: 0 <= i < wrong.value ==> raw[i].size == size
  {
    var i := 0;
    while i < |raw|
      invariant i <= |raw|
      invariant forall j :: 0 <= j < i ==> raw[j].size == size
    {
      if raw[i].size != size {
        return Some(i);
      }
      i := i + 1;
    }
    return None;
  }

  /** Every bucket validated, or the first that is not valid. */
  method ReadBuckets(raw: seq<RawBucket>, cfg: Config, tooOldBefore: int) returns (r: Checked<seq<Bucket>>)
    ensures r.Fine? ==>
              && |r.value| == |raw|
              && forall i :: 0 <= i < |raw| ==> ValidateBucket(raw[i], i, cfg, tooOldBefore) == Fine(r.value[i])
    ensures r.Rejected? ==>
              && 0 <= r.index < |raw|
              && ValidateBucket(raw[r.index], r.index, cfg, tooOldBefore) == Rejected(r.code, r.index)
              && forall i :: 0 <= i < r.index ==> ValidateBucket(raw[i], i, cfg, tooOldBefore).Fine?
  {
    var buckets := [];
    var i := 0;
    while i < |raw|
      invariant i <= |raw| && |buckets| == i
      invariant forall j :: 0 <= j < i ==> ValidateBucket(raw[j], j, cfg, tooOldBefore) == Fine(buckets[j])
    {
      var b := ValidateBucket(raw[i], i, cfg, tooOldBefore);
      if b.Rejected? {
        return Rejected(b.code, b.index);
      }
      buckets := buckets + [b.value];
      i := i + 1;
    }
    return Fine(buckets);
  }

  /** The buckets of the batch are the validated ones. */
  ghost predicate Validated(req: Request, cfg: Config, t: int, batch: seq<Bucket>) {
    && |batch| == |req.buckets|
    && forall i :: 0 <= i < |batch| ==> ValidateBucket(req.buckets[i], i, cfg, t) == Fine(batch[i])
  }

  /** A bucket repeats in the request exactly when its key repeats in the batch. */
  lemma RepeatsInBatch(format: int -> string, req: Request, cfg: Config, t: int, batch: seq<Bucket>, j: nat)
    requires Validated(req, cfg, t, batch) && j < |batch|
    ensures Repeats(format, req, cfg, t, j) <==>
            exists i :: 0 <= i < j && DedupeKey(format, batch[i]) == DedupeKey(format, batch[j])
  {
    assert forall i :: 0 <= i <= j ==> ValidateBucket(req.buckets[i], i, cfg, t).value == batch[i];
  }

  lemma FirstRepeatIsCulprit(format: int -> string, req: Request, backfill: bool, cfg: Config,
                             batch: seq<Bucket>, dup: nat)
    requires HeaderHolds(req, backfill) && forall i :: 0 <= i < |req.buckets| ==> req.buckets[i].size == cfg.bucketSize
    requires Validated(req, cfg, TooOldBefore(req, backfill, cfg), batch) && dup < |batch|
    requires exists i :: 0 <= i < dup && DedupeKey(format, batch[i]) == DedupeKey(format, batch[dup])
    requires forall i, j :: 0 <= i < j < dup ==> DedupeKey(format, batch[i]) != DedupeKey(format, batch[j])
    ensures Culprit(format, req, backfill, cfg, DuplicateBucketKey, dup)
    ensures !Acceptable(format, req, backfill, cfg)
  {
    var t := TooOldBefore(req, backfill, cfg);
    forall j | 0 <= j <= dup ensures Repeats(format, req, cfg, t, j) <==> j == dup {
      RepeatsInBatch(format, req, cfg, t, batch, j);
    }
  }

  /** The decision on the buckets of a request whose header holds. */
  method ValidateBuckets(format: int -> string, req: Request, backfill: bool, cfg: Config)
    returns (r: Checked<seq<Bucket>>)
    requires HeaderHolds(req, backfill)
    ensures r.Fine? <==> Acceptable(format, req, backfill, cfg)
    ensures r.Fine? ==>
              && |r.value| == |req.buckets|
              && forall i :: 0 <= i < |r.value| ==>
                   ValidateBucket(req.buckets[i], i, cfg, TooOldBefore(req, backfill, cfg)) == Fine(r.value[i])
    ensures r.Rejected? ==> r.index >= 0 && Culprit(format, req, backfill, cfg, r.code, r.index)
  {
    var wrong := CheckSizes(req.buckets, cfg.bucketSize);
    if wrong.Some? {
      return Rejected(BucketSizeMismatch, wrong.value);
    }
    r := ReadBuckets(req.buckets, cfg, TooOldBefore(req, backfill, cfg));
    if r.Rejected? {
      return;
    }
    var dup := FindDuplicate(b => DedupeKey(format, b), r.value);
    if dup.Some? {
      FirstRepeatIsCulprit(format, req, backfill, cfg, r.value, dup.value);
      return Rejected(DuplicateBucketKey, dup.value);
    }
  }

  method ValidateRequest(format: int -> string, req: Request, backfill: bool, cfg: Config)
    returns (r: Checked<seq<Bucket>>)
    ensures r.Fine? <==> Acceptable(format, req, backfill, cfg)
    ensures r.Fine? ==>
              && |r.value| == |req.buckets|
              && forall i :: 0 <= i < |r.value| ==>
                   ValidateBucket(req.buckets[i], i, cfg, TooOldBefore(req, backfill, cfg)) == Fine(r.value[i])
    ensures r.Rejected? && r.index >= 0 ==> Culprit(format, req, backfill, cfg, r.code, r.index)
    ensures r.Rejected? && r.index < 0 <==> !HeaderHolds(req, backfill)
    ensures r.Rejected? && r.index < 0 ==>
              && r.index == -1
              && (r.code == UnsupportedSchemaVersion <==> req.schemaVersion.Some? && req.schemaVersion.value > 1)
              && (r.code == TooManyBuckets <==>
                  req.schemaVersion == Some(1) && ValidDevice(req.device) && |req.buckets| > MaxBuckets)
              && r.code in {InvalidRequest, UnsupportedSchemaVersion, TooManyBuckets}
  {
    if req.schemaVersion.None? {
      return Rejected(InvalidRequest, -1);
    }
    if req.schemaVersion.value > 1 {
      return Rejected(UnsupportedSchemaVersion, -1);
    }
    if req.schemaVersion.value != 1 || !ValidDevice(req.device) || |req.buckets| == 0 {
      return Rejected(InvalidRequest, -1);
    }
    if |req.buckets| > MaxBuckets {
      return Rejected(TooManyBuckets, -1);
    }
    if MaxDays(req, backfill).None? {
      return Rejected(InvalidRequest, -1);
    }
    r := ValidateBuckets(format, req, backfill, cfg);
  }

  /**
   What validation is for: an accepted batch never makes the upsert meet one key
   twice, all of it is accounted for, and it starts within its too-old threshold.
   */
  lemma AcceptedBatchIsAccounted(format: int -> string, req: Request, backfill: bool, cfg: Config, batch: seq<Bucket>,
                                 s: Store, user: string)
    requires GoodFormat(format) && NUL !in cfg.bucketSize && Acceptable(format, req, backfill, cfg)
    requires |batch| == |req.buckets|
    requires forall i :: 0 <= i < |batch| ==>
               ValidateBucket(req.buckets[i], i, cfg, TooOldBefore(req, backfill, cfg)) == Fine(batch[i])
    ensures forall b :: b in batch ==> TooOldBefore(req, backfill, cfg) <= b.start
    ensures var r := IngestOutcome(s, user, req.device, batch);
            if Revoked(s, user, req.device) then r == DeviceRevoked
            else r.Ingested? && r.accepted + |r.discarded| == |batch| && r.updated == r.accepted
  {
    var t := TooOldBefore(req, backfill, cfg);
    forall i | 0 <= i < |batch| ensures Clean(batch[i]) {
      ValidatedIsClean(req.buckets[i], i, cfg, t);
    }
    forall i, j | 0 <= i < j < |batch| ensures KeyFor("", "", batch[i]) != KeyFor("", "", batch[j]) {
      DedupeKeyIsExact(format, batch[i], batch[j]);
    }
    if !Revoked(s, user, req.device) {
      IngestAccounts(s, user, req.device, batch);
    }
  }
}
