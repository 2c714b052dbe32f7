/**
 The entitlement backfill (cmd/inference-entitlement-backfill/main.go): one pass over
 the candidate subscriptions, for real or as a dry run, with its report.

 The pass runs alone: nothing else writes while it runs and no statement fails.
 `trim` strips white space.
 */
module Backfill {
  import opened Base

  datatype Candidate = Candidate(sub: string, user: string, plan: string, expires: Option<int>, chatModels: seq<string>)

  /** The tables and the catalog the pass only reads. */
  datatype Config = Config(
    benefit: map<string, string>, status: map<string, string>, full: seq<string>, trim: string -> string)

  datatype Entitlement = Entitlement(account: nat, models: seq<string>, policy: string, until: Option<int>)

  /** Billing accounts by user and entitlements by subscription; `nextId` is the next account id. */
  datatype Db = Db(accounts: map<string, nat>, ents: map<string, Entitlement>, nextId: nat)

  datatype Reason =
    | EmptyModels(plan: string)
    | NoBenefit(plan: string)
    | NoVersion(policy: string)
    | Retired(plan: string, policy: string)

  datatype Outcome = Failed(reason: Reason) | Skipped | Granted(newAccount: bool)

  datatype Report = Report(processed: nat, accounts: nat, ents: nat, skipped: nat, errors: seq<(string, Reason)>)

  // ------------------------------------------------------------------
  // Target models
  // ------------------------------------------------------------------

  /** The non-empty trimmed ids, each at its first place. */
  function Cleaned(trim: string -> string, models: seq<string>): seq<string> {
    if models == [] then []
    else
      var kept := Cleaned(trim, Init(models));
      var id := trim(Last(models));
      if id == "" || id in kept then kept else kept + [id]
  }

  function TargetModels(cfg: Config, chatModels: seq<string>): seq<string> {
    if chatModels == [] then cfg.full else Cleaned(cfg.trim, chatModels)
  }

  ghost predicate Occurs(trim: string -> string, models: seq<string>, id: string) {
    exists k :: 0 <= k < |models| && trim(models[k]) == id
  }

  /** Cleaning keeps exactly the non-empty trimmed ids, without repetition. */
  lemma {:induction false} CleanedIsExact(trim: string -> string, models: seq<string>)
    ensures forall i, j :: 0 <= i < j < |Cleaned(trim, models)| ==> Cleaned(trim, models)[i] != Cleaned(trim, models)[j]
    ensures forall id :: id in Cleaned(trim, models) <==> id != "" && Occurs(trim, models, id)
  {
    if models != [] {
      CleanedIsExact(trim, Init(models));
      var kept, last := Cleaned(trim, Init(models)), trim(Last(models));
      forall id ensures id in Cleaned(trim, models) <==> id != "" && Occurs(trim, models, id) {
        assert id in Cleaned(trim, models) <==> id in kept || (id == last && id != "");
        if id == last {
          assert trim(models[|models| - 1]) == id;
        } else if id in kept {
          var k :| 0 <= k < |Init(models)| && trim(Init(models)[k]) == id;
          assert trim(models[k]) == id;
        } else if exists k :: 0 <= k < |models| && trim(models[k]) == id {
          var k :| 0 <= k < |models| && trim(models[k]) == id;
          assert k < |models| - 1 ==> trim(Init(models)[k]) == id;
        }
      }
    }
  }

  /** Ids keep the order of their first occurrences. */
  lemma {:induction false} CleanedKeepsOrder(trim: string -> string, models: seq<string>, k: nat)
    requires k <= |models|
    ensures Cleaned(trim, models[..k]) <= Cleaned(trim, models)
    decreases |models|
  {
    if k == |models| {
      assert models[..k] == models;
    } else {
      assert Init(models)[..k] == models[..k];
      CleanedKeepsOrder(trim, Init(models), k);
    }
  }

  method BuildTargetModels(cfg: Config, chatModels: seq<string>) returns (out: seq<string>)
    ensures out == TargetModels(cfg, chatModels)
  {
    if |chatModels| == 0 {
      return cfg.full;
    }
    var seen: set<string> := {};
    out := [];
    var i := 0;
    while i < |chatModels|
      invariant i <= |chatModels|
      invariant out == Cleaned(cfg.trim, chatModels[..i])
      invariant forall id :: id in seen <==> id in out
    {
      assert Init(chatModels[..i + 1]) == chatModels[..i];
      var id := cfg.trim(chatModels[i]);
      if id != "" && id !in seen {
        seen := seen + {id};
        out := out + [id];
      }
      i := i + 1;
    }
    assert chatModels[..|chatModels|] == chatModels;
  }

  // ------------------------------------------------------------------
  // One candidate
  // ------------------------------------------------------------------

  datatype Policy = Pinned(id: string) | Refused(reason: Reason)

  function ResolvePolicy(cfg: Config, plan: string): Policy {
    if plan !in cfg.benefit then Refused(NoBenefit(plan))
    else
      var id := cfg.benefit[plan];
      if id !in cfg.status then Refused(NoVersion(id))
      else if cfg.status[id] == "retired" then Refused(Retired(plan, id))
      else Pinned(id)
  }

  /** Why a candidate cannot be granted, if it cannot. */
  function Obstacle(cfg: Config, c: Candidate): Option<Reason> {
    if TargetModels(cfg, c.chatModels) == [] then Some(EmptyModels(c.plan))
    else if ResolvePolicy(cfg, c.plan).Refused? then Some(ResolvePolicy(cfg, c.plan).reason)
    else None
  }

  /** What either mode reports for a candidate met in state `db`. */
  function OutcomeIn(cfg: Config, db: Db, c: Candidate): Outcome {
    if Obstacle(cfg, c).Some? then Failed(Obstacle(cfg, c).value)
    else if c.sub in db.ents then Skipped
    else Granted(c.user !in db.accounts)
  }

  /** The account is ensured whether or not the entitlement exists. */
  function WithAccount(db: Db, user: string): Db {
    if user in db.accounts then db else db.(accounts := db.accounts[user := db.nextId], nextId := db.nextId + 1)
  }

  function WithEntitlement(cfg: Config, db: Db, c: Candidate): Db
    requires Obstacle(cfg, c).None? && c.user in db.accounts
  {
    db.(ents := db.ents[c.sub :=
          Entitlement(db.accounts[c.user], TargetModels(cfg, c.chatModels), ResolvePolicy(cfg, c.plan).id, c.expires)])
  }

  function Applied(cfg: Config, db: Db, c: Candidate): Db {
    if Obstacle(cfg, c).Some? then db
    else
      var ensured := WithAccount(db, c.user);
      if c.sub in db.ents then ensured else WithEntitlement(cfg, ensured, c)
  }

  function Tallied(rep: Report, c: Candidate, o: Outcome): Report {
    var r := rep.(processed := rep.processed + 1);
    match o
    case Failed(reason) => r.(errors := r.errors + [(c.user, reason)])
    case Skipped => r.(skipped := r.skipped + 1)
    case Granted(isNew) => r.(accounts := r.accounts + (if isNew then 1 else 0), ents := r.ents + 1)
  }

  // ------------------------------------------------------------------
  // The pass
  // ------------------------------------------------------------------

  const EmptyReport := Report(0, 0, 0, 0, [])

  function RealDb(cfg: Config, db: Db, cands: seq<Candidate>): Db {
    if cands == [] then db else Applied(cfg, RealDb(cfg, db, Init(cands)), Last(cands))
  }

  function RealReport(cfg: Config, db: Db, cands: seq<Candidate>): Report {
    if cands == [] then EmptyReport
    else
      var before, c := Init(cands), Last(cands);
      Tallied(RealReport(cfg, db, before), c, OutcomeIn(cfg, RealDb(cfg, db, before), c))
  }

  /** A dry run probes the untouched database every time. */
  function DryReport(cfg: Config, db: Db, cands: seq<Candidate>): Report {
    if cands == [] then EmptyReport
    else Tallied(DryReport(cfg, db, Init(cands)), Last(cands), OutcomeIn(cfg, db, Last(cands)))
  }

  method Tally(rep: Report, c: Candidate, o: Outcome) returns (r: Report)
    ensures r == Tallied(rep, c, o)
  {
    r := rep.(processed := rep.processed + 1);
    match o {
      case Failed(reason) => r := r.(errors := r.errors + [(c.user, reason)]);
      case Skipped => r := r.(skipped := r.skipped + 1);
      case Granted(isNew) =>
        if isNew {
          r := r.(accounts := r.accounts + 1);
        }
        r := r.(ents := r.ents + 1);
    }
  }

  class Pass {
    const cfg: Config
    var db: Db

    constructor (cfg: Config, db: Db)
      ensures this.cfg == cfg && this.db == db
    {
      this.cfg := cfg;
      this.db := db;
    }

    method Process(c: Candidate, dryRun: bool) returns (o: Outcome)
      modifies this
      ensures o == OutcomeIn(cfg, old(db), c)
      ensures db == if dryRun then old(db) else Applied(cfg, old(db), c)
    {
      var models := BuildTargetModels(cfg, c.chatModels);
      if |models| == 0 {
        return Failed(EmptyModels(c.plan));
      }
      var policy := ResolvePolicy(cfg, c.plan);
      if policy.Refused? {
        return Failed(policy.reason);
      }
      if dryRun {
        return if c.sub in db.ents then Skipped else Granted(c.user !in db.accounts);
      }
      var isNew := c.user !in db.accounts;
      if isNew {
        db := db.(accounts := db.accounts[c.user := db.nextId], nextId := db.nextId + 1);
      }
      if c.sub in db.ents {
        return Skipped;
      }
      db := db.(ents := db.ents[c.sub := Entitlement(db.accounts[c.user], models, policy.id, c.expires)]);
      return Granted(isNew);
    }

    method Run(cands: seq<Candidate>, dryRun: bool) returns (rep: Report)
      modifies this
      ensures dryRun ==> rep == DryReport(cfg, old(db), cands) && db == old(db)
      ensures !dryRun ==> rep == RealReport(cfg, old(db), cands) && db == RealDb(cfg, old(db), cands)
    {
      rep := EmptyReport;
      var i := 0;
      while i < |cands|
        invariant i <= |cands|
        invariant dryRun ==> rep == DryReport(cfg, old(db), cands[..i]) && db == old(db)
        invariant !dryRun ==> rep == RealReport(cfg, old(db), cands[..i]) && db == RealDb(cfg, old(db), cands[..i])
      {
        assert Init(cands[..i + 1]) == cands[..i];
        var c := cands[i];
        var o := Process(c, dryRun);
        rep := Tally(rep, c, o);
        i := i + 1;
      }
      assert cands[..|cands|] == cands;
    }
  }

  // ------------------------------------------------------------------
  // What the real run leaves behind
  // ------------------------------------------------------------------

  /** Users and subscriptions of the candidates that meet no obstacle. */
  function Users(cfg: Config, cands: seq<Candidate>): set<string> {
    if cands == [] then {}
    else if Obstacle(cfg, Last(cands)).None? then Users(cfg, Init(cands)) + {Last(cands).user}
    else Users(cfg, Init(cands))
  }

  function Subs(cfg: Config, cands: seq<Candidate>): set<string> {
    if cands == [] then {}
    else if Obstacle(cfg, Last(cands)).None? then Subs(cfg, Init(cands)) + {Last(cands).sub}
    else Subs(cfg, Init(cands))
  }

  lemma {:induction false} RealRunCoversUsers(cfg: Config, db: Db, cands: seq<Candidate>)
    ensures RealDb(cfg, db, cands).accounts.Keys == db.accounts.Keys + Users(cfg, cands)
  {
    if cands != [] {
      RealRunCoversUsers(cfg, db, Init(cands));
      var mid := RealDb(cfg, db, Init(cands));
      assert Applied(cfg, mid, Last(cands)).accounts.Keys ==
             mid.accounts.Keys + if Obstacle(cfg, Last(cands)).None? then {Last(cands).user} else {};
    }
  }

  lemma {:induction false} RealRunCoversSubs(cfg: Config, db: Db, cands: seq<Candidate>)
    ensures RealDb(cfg, db, cands).ents.Keys == db.ents.Keys + Subs(cfg, cands)
  {
    if cands != [] {
      RealRunCoversSubs(cfg, db, Init(cands));
      var mid := RealDb(cfg, db, Init(cands));
      assert Applied(cfg, mid, Last(cands)).ents.Keys ==
             mid.ents.Keys + if Obstacle(cfg, Last(cands)).None? then {Last(cands).sub} else {};
    }
  }

  /** No row that was there before is changed or removed. */
  lemma {:induction false} RealRunOnlyAdds(cfg: Config, db: Db, cands: seq<Candidate>)
    ensures var after := RealDb(cfg, db, cands);
            && (forall u :: u in db.accounts ==> u in after.accounts && after.accounts[u] == db.accounts[u])
            && (forall s :: s in db.ents ==> s in after.ents && after.ents[s] == db.ents[s])
  {
    if cands != [] {
      RealRunOnlyAdds(cfg, db, Init(cands));
    }
  }

  // ------------------------------------------------------------------
  // The dry run predicts the real one
  // ------------------------------------------------------------------

  /** The candidate query lists each subscription once. */
  ghost predicate DistinctSubs(cands: seq<Candidate>) {
    forall i, j :: 0 <= i < j < |cands| ==> cands[i].sub != cands[j].sub
  }

  lemma {:induction false} SubsAreListed(cfg: Config, cands: seq<Candidate>, sub: string)
    requires sub in Subs(cfg, cands)
    ensures exists i :: 0 <= i < |cands| && cands[i].sub == sub
  {
    if sub == Last(cands).sub {
      assert cands[|cands| - 1].sub == sub;
    } else {
      SubsAreListed(cfg, Init(cands), sub);
      var i :| 0 <= i < |Init(cands)| && Init(cands)[i].sub == sub;
      assert cands[i].sub == sub;
    }
  }

  lemma LastSubIsNew(cfg: Config, cands: seq<Candidate>)
    requires cands != [] && DistinctSubs(cands)
    ensures Last(cands).sub !in Subs(cfg, Init(cands)) && DistinctSubs(Init(cands))
  {
    if Last(cands).sub in Subs(cfg, Init(cands)) {
      SubsAreListed(cfg, Init(cands), Last(cands).sub);
    }
  }

  /** Candidates the dry run counts a new account for although an earlier one will have made it. */
  function Overcount(cfg: Config, db: Db, cands: seq<Candidate>): nat {
    if cands == [] then 0
    else
      var c := Last(cands);
      Overcount(cfg, db, Init(cands)) +
      if OutcomeIn(cfg, db, c) == Granted(true) && c.user in Users(cfg, Init(cands)) then 1 else 0
  }

  /**
   From the same database a dry run and a real run report the same grants, skips and
   errors; the dry run's account count is over by exactly the repeated users.
   */
  lemma {:induction false} DryRunPredicts(cfg: Config, db: Db, cands: seq<Candidate>)
    requires DistinctSubs(cands)
    ensures var dry, actual := DryReport(cfg, db, cands), RealReport(cfg, db, cands);
            && dry.processed == actual.processed == |cands|
            && dry.ents == actual.ents && dry.skipped == actual.skipped && dry.errors == actual.errors
            && dry.accounts == actual.accounts + Overcount(cfg, db, cands)
  {
    if cands != [] {
      LastSubIsNew(cfg, cands);
      DryRunPredicts(cfg, db, Init(cands));
      RealRunCoversUsers(cfg, db, Init(cands));
      RealRunCoversSubs(cfg, db, Init(cands));
      var c, mid := Last(cands), RealDb(cfg, db, Init(cands));
      assert c.sub in mid.ents <==> c.sub in db.ents;
      assert c.user in mid.accounts <==> c.user in db.accounts || c.user in Users(cfg, Init(cands));
    }
  }

  /** No account is counted for a user an earlier workable candidate already has. */
  ghost predicate FirstOfUser(cfg: Config, db: Db, cands: seq<Candidate>) {
    forall i, j :: 0 <= i < j < |cands| && Obstacle(cfg, cands[i]).None? ==>
      OutcomeIn(cfg, db, cands[j]) == Granted(true) ==> cands[i].user != cands[j].user
  }

  lemma {:induction false} UsersAreListed(cfg: Config, cands: seq<Candidate>, user: string)
    ensures user in Users(cfg, cands) <==>
            exists i :: 0 <= i < |cands| && Obstacle(cfg, cands[i]).None? && cands[i].user == user
  {
    if cands != [] {
      UsersAreListed(cfg, Init(cands), user);
      assert forall i :: 0 <= i < |Init(cands)| ==> Init(cands)[i] == cands[i];
      assert Last(cands) == cands[|cands| - 1];
    }
  }

  lemma {:induction false} OvercountExactly(cfg: Config, db: Db, cands: seq<Candidate>)
    ensures Overcount(cfg, db, cands) == 0 <==> FirstOfUser(cfg, db, cands)
  {
    if cands != [] {
      OvercountExactly(cfg, db, Init(cands));
      UsersAreListed(cfg, Init(cands), Last(cands).user);
      assert forall i :: 0 <= i < |Init(cands)| ==> Init(cands)[i] == cands[i];
      assert Last(cands) == cands[|cands| - 1];
    }
  }

  /** The account counts agree exactly when no such repeat occurs; in particular when no user has two candidates. */
  lemma {:induction false} AccountsPredictedExactly(cfg: Config, db: Db, cands: seq<Candidate>)
    requires DistinctSubs(cands)
    ensures DryReport(cfg, db, cands).accounts == RealReport(cfg, db, cands).accounts <==> FirstOfUser(cfg, db, cands)
    ensures (forall i, j :: 0 <= i < j < |cands| ==> cands[i].user != cands[j].user) ==> FirstOfUser(cfg, db, cands)
  {
    DryRunPredicts(cfg, db, cands);
    OvercountExactly(cfg, db, cands);
  }

  /** Two subscriptions of one new user: the dry run counts two accounts and the real run one. */
  lemma RepeatedUserIsOvercounted(cfg: Config, a: Candidate, b: Candidate)
    requires Obstacle(cfg, a).None? && Obstacle(cfg, b).None? && a.user == b.user && a.sub != b.sub
    ensures DryReport(cfg, Db(map[], map[], 0), [a, b]).accounts == 2
    ensures RealReport(cfg, Db(map[], map[], 0), [a, b]).accounts == 1
  {
    var db := Db(map[], map[], 0);
    assert Init([a, b]) == [a] && Init([a]) == [];
    assert DryReport(cfg, db, [a]).accounts == 1 && RealReport(cfg, db, [a]).accounts == 1;
    assert OutcomeIn(cfg, db, b) == Granted(true);
    assert RealDb(cfg, db, []) == db;
    var mid := RealDb(cfg, db, [a]);
    assert mid == Applied(cfg, db, a);
    assert a.user in mid.accounts && b.sub !in mid.ents;
    assert OutcomeIn(cfg, mid, b) == Granted(false);
  }

  // ------------------------------------------------------------------
  // A second run creates nothing
  // ------------------------------------------------------------------

  /** A database that already has what a candidate asks for. */
  predicate Settled(cfg: Config, db: Db, c: Candidate) {
    Obstacle(cfg, c).None? ==> c.user in db.accounts && c.sub in db.ents
  }

  lemma {:induction false} SettledStays(cfg: Config, db: Db, cands: seq<Candidate>)
    requires forall i :: 0 <= i < |cands| ==> Settled(cfg, db, cands[i])
    ensures RealDb(cfg, db, cands) == db
    ensures RealReport(cfg, db, cands).ents == 0 && RealReport(cfg, db, cands).accounts == 0
  {
    if cands != [] {
      SettledStays(cfg, db, Init(cands));
      assert Settled(cfg, db, cands[|cands| - 1]);
    }
  }

  lemma {:induction false} CandidatesAreCovered(cfg: Config, cands: seq<Candidate>, i: nat)
    requires i < |cands| && Obstacle(cfg, cands[i]).None?
    ensures cands[i].user in Users(cfg, cands) && cands[i].sub in Subs(cfg, cands)
    decreases |cands|
  {
    if i < |cands| - 1 {
      CandidatesAreCovered(cfg, Init(cands), i);
    }
  }

  lemma SecondRunCreatesNothing(cfg: Config, db: Db, cands: seq<Candidate>)
    ensures var after := RealDb(cfg, db, cands);
            && RealDb(cfg, after, cands) == after
            && RealReport(cfg, after, cands).ents == 0 && RealReport(cfg, after, cands).accounts == 0
  {
    var after := RealDb(cfg, db, cands);
    RealRunCoversUsers(cfg, db, cands);
    RealRunCoversSubs(cfg, db, cands);
    forall i | 0 <= i < |cands| ensures Settled(cfg, after, cands[i]) {
      if Obstacle(cfg, cands[i]).None? {
        CandidatesAreCovered(cfg, cands, i);
      }
    }
    SettledStays(cfg, after, cands);
  }
}
