/**
 * The noise generator's main program: the startup sequence, and one pass of
 * the endless cycle that samples the last minute of organic traffic, plans
 * the fake queries and sends them.
 */
module Noise {
  import opened Outcomes
  import Resilience
  import Database
  import Sampler
  import Pacing
  import Startup

  /**
   * The client identity is normalised, the record field it is compared with
   * is not: with the default identity, records the Pi-hole logged for
   * "127.0.0.1" still count as organic traffic, and only those logged for
   * "localhost" are dropped.
   */
  lemma OneSidedNormalisation(record: seq<string>)
    requires |record| > Sampler.CLIENT_FIELD
    ensures record[Sampler.CLIENT_FIELD] == Startup.LOOPBACK ==>
              Sampler.Kept(record, Startup.Normalize(Startup.DEFAULT_CLIENT))
    ensures record[Sampler.CLIENT_FIELD] == Startup.LOCALHOST ==>
              !Sampler.Kept(record, Startup.Normalize(Startup.DEFAULT_CLIENT))
  {
    Startup.NormalizeCases(Startup.DEFAULT_CLIENT);
  }

  /**
   * Startup after the configuration is read: normalise the client identity,
   * wait for the network (the probe of attempt k is `probe(k)`), then bring
   * the corpus up to date. Nothing is downloaded while the network is down.
   */
  method Start(configuredClient: string, maxTries: nat, retrySeconds: nat, probe: nat -> bool,
               present: bool, existing: Option<seq<string>>, age: real, keepUpdated: bool,
               archive: nat -> Option<seq<seq<string>>>)
    returns (r: Result<Database.Urls, Fatal>, client: string, steps: seq<Startup.Step>)
    ensures client == Startup.Normalize(configuredClient)
    ensures r == Failure(NetworkDown) <==> forall k :: 0 <= k <= maxTries ==> !probe(k)
    ensures r == Failure(NetworkDown) ==> steps == []
    ensures r.Success? ==> steps == Startup.CorpusPlan(present, age, keepUpdated)
    ensures r.Success? && Startup.Download !in steps ==>
              r.value.hasTable == existing.Some? &&
              r.value.domains == (if existing.Some? then existing.value else [])
    ensures r.Success? && Startup.Download in steps ==>
              var a := archive(multiset(steps)[Startup.Download] - 1);
              a.Some? && Database.WellFormedRows(a.value) &&
              r.value.hasTable && r.value.domains == Database.DomainsOf(a.value) && r.value.pending == None
    ensures r.Failure? && r != Failure(NetworkDown) ==>
              steps <= Startup.CorpusPlan(present, age, keepUpdated) && steps != [] &&
              steps[|steps| - 1] == Startup.Download &&
              var a := archive(multiset(steps)[Startup.Download] - 1);
              r.error == (if a.None? then DownloadFailed else ImportFailed) &&
              (a.Some? ==> !Database.WellFormedRows(a.value))
  {
    client := Startup.Normalize(configuredClient);
    var up, _ := Startup.CheckNetwork(maxTries, retrySeconds, probe);
    if up.Failure? {
      return Failure(NetworkDown), client, [];
    }
    steps, r := Startup.PrepareCorpus(present, existing, age, keepUpdated, archive);
  }

  /**
   * One cycle of `CYCLE_SECONDS` seconds against the corpus `db`: sample the
   * window ending at `now`, plan `pct` percent of its size in fake queries,
   * fetch that many random domains (`shuffled` is the order ORDER BY RANDOM()
   * produced) and send them. `randBelow(k, n)` is the index `random.choice`
   * draws from n types at attempt k. The cycle's sample and plan are returned
   * with its outcome (the number of queries sent), the sleeps of the API poll
   * (one per failed request) and the emission trace of resolutions and
   * sleeps, which an IndexError cuts short.
   */
  method Cycle(db: Database.Urls, client: string, pct: nat, now: int,
               fetch: nat -> Option<seq<seq<string>>>, shuffled: seq<string>,
               randBelow: (nat, nat) -> nat, answered: nat -> bool)
    returns (r: Result<nat, Fatal>, pollSleeps: seq<nat>, trace: seq<Pacing.Event>,
             sample: Option<Sampler.Sample>, plan: Pacing.Plan)
    requires multiset(shuffled) == multiset(db.domains)
    requires forall k, n :: 0 < n ==> randBelow(k, n) < n
    ensures var v := Resilience.Retry(Resilience.PIHOLE_MAXIMUM_TRIES, Sampler.Arrived(fetch), 0);
            pollSleeps == Resilience.Sleeps(Resilience.PIHOLE_RETRY_SECONDS, v.failures) &&
            (v.GaveUp? <==> r == Failure(PiholeDown)) &&
            (v.GaveUp? ==> sample.None?) &&
            (v.Passed? ==>
               fetch(v.failures).Some? &&
               var data := fetch(v.failures).value;
               (sample.None? <==> exists i :: 0 <= i < |data| && !Sampler.LongEnough(data[i])) &&
               (sample.None? ==> r == Failure(WrongFormat)) &&
               (sample.Some? ==>
                  var g := Sampler.Genuine(data, client);
                  sample.value.genuine ==
                    (if g == [] then [Sampler.Placeholder(Sampler.SENTINEL)] else Sampler.Records(g)) &&
                  plan.amount == Pacing.QueryAmount(if g == [] then 1 else |g|, pct)))
    ensures sample.Some? ==>
              plan == Pacing.MakePlan(|sample.value.genuine|, pct, Pacing.CYCLE_SECONDS) &&
              sample.value.types != [] && |sample.value.types| == |sample.value.genuine| &&
              forall i :: 0 <= i < |sample.value.genuine| ==>
                Sampler.Typed(sample.value.genuine[i]) &&
                sample.value.types[i] == Sampler.TypeOf(sample.value.genuine[i])
    ensures sample.Some? && !db.hasTable ==> r == Failure(NoSuchTable)
    ensures sample.Some? && db.hasTable ==> (r.Success? <==> plan.amount <= |db.domains|)
    ensures sample.Some? && db.hasTable && |db.domains| < plan.amount ==> r == Failure(DomainIndexError)
    ensures r.Success? ==>
              sample.Some? && db.hasTable && r.value == plan.amount && plan.amount <= |db.domains| &&
              Pacing.Passes(trace, shuffled, sample.value.types, plan.timeout, answered, plan.amount) &&
              Pacing.Slept(trace) == Pacing.CYCLE_SECONDS as real
    ensures r == Failure(DomainIndexError) ==>
              sample.Some? && db.hasTable && |db.domains| < plan.amount &&
              Pacing.Passes(trace, shuffled, sample.value.types, plan.timeout, answered, |db.domains|)
    ensures r.Failure? && r.error != DomainIndexError ==> trace == []
  {
    var sampled: Result<Sampler.Sample, Fatal>, timeFrom: int, timeUntil: int;
    sampled, timeFrom, timeUntil, pollSleeps := Sampler.GetGenuineQueries(Pacing.CYCLE_SECONDS, now, client, fetch);
    if sampled.Failure? {
      assert sampled.error != DomainIndexError;
      return Failure(sampled.error), pollSleeps, [], None, Pacing.Plan(1, Pacing.CYCLE_SECONDS as real);
    }
    sample := Some(sampled.value);
    r, trace, plan := Inject(db, sampled.value, pct, shuffled, randBelow, answered);
  }

  /**
   * The part of a cycle after sampling: plan `pct` percent of the sample's
   * size in fake queries, fetch that many random domains and send them.
   */
  method Inject(db: Database.Urls, s: Sampler.Sample, pct: nat, shuffled: seq<string>,
                randBelow: (nat, nat) -> nat, answered: nat -> bool)
    returns (r: Result<nat, Fatal>, trace: seq<Pacing.Event>, plan: Pacing.Plan)
    requires s.types != []
    requires multiset(shuffled) == multiset(db.domains)
    requires forall k, n :: 0 < n ==> randBelow(k, n) < n
    ensures plan == Pacing.MakePlan(|s.genuine|, pct, Pacing.CYCLE_SECONDS)
    ensures !db.hasTable <==> r == Failure(NoSuchTable)
    ensures r == Failure(NoSuchTable) ==> trace == []
    ensures r.Failure? ==> r.error == NoSuchTable || r.error == DomainIndexError
    ensures db.hasTable ==> (r.Success? <==> plan.amount <= |db.domains|)
    ensures r.Success? ==>
              r.value == plan.amount &&
              Pacing.Passes(trace, shuffled, s.types, plan.timeout, answered, plan.amount) &&
              Pacing.Slept(trace) == Pacing.CYCLE_SECONDS as real
    ensures r == Failure(DomainIndexError) ==>
              |db.domains| < plan.amount &&
              Pacing.Passes(trace, shuffled, s.types, plan.timeout, answered, |db.domains|)
  {
    plan := Pacing.MakePlan(|s.genuine|, pct, Pacing.CYCLE_SECONDS);
    ghost var duration := plan.timeout * plan.amount as real;
    assert duration == Pacing.CYCLE_SECONDS as real;
    var fetched := db.GetRandomDomains(plan.amount, shuffled);
    if fetched.Failure? {
      return Failure(fetched.error), [], plan;
    }
    var queries := fetched.value;
    r, trace := Send(queries, s.types, plan, randBelow, answered);
    if r.Success? {
      PassesPrefix(trace, queries, shuffled, s.types, plan.timeout, answered, plan.amount);
      assert Pacing.Slept(trace) == duration;
    } else {
      PassesPrefix(trace, queries, shuffled, s.types, plan.timeout, answered, |queries|);
      assert |queries| == |db.domains|;
    }
  }

  /** A trace over a prefix of the random order is a trace over the order itself. */
  lemma PassesPrefix(t: seq<Pacing.Event>, queries: seq<string>, shuffled: seq<string>,
                     types: seq<string>, timeout: real, answered: nat -> bool, n: nat)
    requires queries <= shuffled
    requires Pacing.Passes(t, queries, types, timeout, answered, n)
    ensures Pacing.Passes(t, shuffled, types, timeout, answered, n)
  {
    assert forall k :: 0 <= k < n ==> queries[k] == shuffled[k];
  }

  /**
   * The emission stage of a cycle: one resolution of each fetched domain, in
   * order, each followed by the plan's pause, until `plan.amount` were sent;
   * with fewer domains, an IndexError after the last of them.
   */
  method Send(queries: seq<string>, types: seq<string>, plan: Pacing.Plan,
              randBelow: (nat, nat) -> nat, answered: nat -> bool)
    returns (r: Result<nat, Fatal>, trace: seq<Pacing.Event>)
    requires plan.amount >= 1 && types != []
    requires forall k, n :: 0 < n ==> randBelow(k, n) < n
    ensures r.Success? <==> plan.amount <= |queries|
    ensures r.Success? ==> r.value == plan.amount
    ensures r.Failure? ==> r.error == DomainIndexError
    ensures r.Success? ==>
              Pacing.Passes(trace, queries, types, plan.timeout, answered, plan.amount) &&
              Pacing.Slept(trace) == plan.timeout * plan.amount as real
    ensures r.Failure? ==>
              Pacing.Passes(trace, queries, types, plan.timeout, answered, |queries|)
  {
    var n := |types|;
    var pick := (k: nat) => randBelow(k, n);
    r, trace := Pacing.Emit(queries, types, plan, pick, answered);
    if r.Success? {
      Pacing.EmissionsPasses(queries, types, plan.timeout, pick, answered, plan.amount);
      Pacing.PassesSlept(trace, queries, types, plan.timeout, answered, plan.amount);
    } else {
      Pacing.EmissionsPasses(queries, types, plan.timeout, pick, answered, |queries|);
    }
  }
}
