/**
 * What the program does before its first cycle: normalising the configured
 * client identity, waiting for the network, and deciding whether the domain
 * corpus has to be downloaded (or downloaded again) and imported.
 */
module Startup {
  import opened Outcomes
  import Resilience
  import Database

  // ---------------------------------------------------------------------
  // String replacement and client normalisation
  // ---------------------------------------------------------------------

  /** `pat` occurs in `s` at position i. */
  predicate At(s: string, pat: string, i: nat)
  {
    i + |pat| <= |s| && s[i..i + |pat|] == pat
  }

  /** Python's `s.replace(pat, rep)`: every occurrence, scanning left to right, never overlapping. */
  function ReplaceAll(s: string, pat: string, rep: string): string
    requires pat != []
    decreases |s|
  {
    if |s| < |pat| then s
    else if s[..|pat|] == pat then rep + ReplaceAll(s[|pat|..], pat, rep)
    else [s[0]] + ReplaceAll(s[1..], pat, rep)
  }

  /**
   * A replacement of the same length keeps the length, and leaves each
   * position either a replacement character or the original character, where
   * no occurrence starts.
   */
  lemma {:induction false} ReplaceAllPositions(s: string, pat: string, rep: string)
    requires pat != [] && |rep| == |pat|
    ensures |ReplaceAll(s, pat, rep)| == |s|
    ensures forall i :: 0 <= i < |s| ==>
              ReplaceAll(s, pat, rep)[i] in rep ||
              (ReplaceAll(s, pat, rep)[i] == s[i] && !At(s, pat, i))
    decreases |s|
  {
    var t := ReplaceAll(s, pat, rep);
    if |s| < |pat| {
    } else if s[..|pat|] == pat {
      var s' := s[|pat|..];
      ReplaceAllPositions(s', pat, rep);
      forall i | |pat| <= i < |s|
        ensures t[i] in rep || (t[i] == s[i] && !At(s, pat, i))
      {
        assert t[i] == ReplaceAll(s', pat, rep)[i - |pat|];
        assert s'[i - |pat|] == s[i];
        if At(s, pat, i) {
          assert s'[i - |pat|..i - |pat| + |pat|] == s[i..i + |pat|];
          assert At(s', pat, i - |pat|);
        }
      }
      forall i | 0 <= i < |pat|
        ensures t[i] in rep
      {
        assert t[i] == rep[i];
      }
    } else {
      var s' := s[1..];
      ReplaceAllPositions(s', pat, rep);
      assert !At(s, pat, 0);
      forall i | 1 <= i < |s|
        ensures t[i] in rep || (t[i] == s[i] && !At(s, pat, i))
      {
        assert t[i] == ReplaceAll(s', pat, rep)[i - 1];
        assert s'[i - 1] == s[i];
        if At(s, pat, i) {
          assert s'[i - 1..i - 1 + |pat|] == s[i..i + |pat|];
          assert At(s', pat, i - 1);
        }
      }
    }
  }

  /**
   * When the replacement shares no character with the pattern and has its
   * length, no occurrence of the pattern is left after replacing.
   */
  lemma ReplaceAllRemoves(s: string, pat: string, rep: string)
    requires pat != [] && |rep| == |pat|
    requires forall c :: c in rep ==> c !in pat
    ensures forall i :: 0 <= i < |ReplaceAll(s, pat, rep)| ==> !At(ReplaceAll(s, pat, rep), pat, i)
  {
    var t := ReplaceAll(s, pat, rep);
    ReplaceAllPositions(s, pat, rep);
    forall i | 0 <= i < |t| && At(t, pat, i)
      ensures false
    {
      AtChar(t, pat, i, 0);
    }
  }

  /** Without an occurrence of the pattern, replacing changes nothing. */
  lemma {:induction false} ReplaceAllAbsent(s: string, pat: string, rep: string)
    requires pat != []
    requires forall i :: 0 <= i < |s| ==> !At(s, pat, i)
    ensures ReplaceAll(s, pat, rep) == s
    decreases |s|
  {
    if |pat| <= |s| {
      assert !At(s, pat, 0);
      var s' := s[1..];
      forall i | 0 <= i < |s'|
        ensures !At(s', pat, i)
      {
        if At(s', pat, i) {
          assert s[i + 1..i + 1 + |pat|] == s'[i..i + |pat|];
          assert At(s, pat, i + 1);
        }
      }
      ReplaceAllAbsent(s', pat, rep);
    }
  }

  const LOOPBACK: string := "127.0.0.1"
  const LOCALHOST: string := "localhost"

  /** The client identity when none is configured. */
  const DEFAULT_CLIENT: string := LOOPBACK

  /** The configured client identity as the Pi-hole logs it: loopback becomes localhost. */
  function Normalize(client: string): (c: string)
    ensures |c| == |client|
    ensures forall i :: 0 <= i < |c| ==> !At(c, LOOPBACK, i)
  {
    ReplaceAllPositions(client, LOOPBACK, LOCALHOST);
    ReplaceAllRemoves(client, LOOPBACK, LOCALHOST);
    ReplaceAll(client, LOOPBACK, LOCALHOST)
  }

  /** The default identity becomes "localhost"; one without loopback stays as it is. */
  lemma NormalizeCases(client: string)
    ensures Normalize(DEFAULT_CLIENT) == LOCALHOST
    ensures (forall i :: 0 <= i < |client| ==> !At(client, LOOPBACK, i)) ==> Normalize(client) == client
  {
    assert DEFAULT_CLIENT[..|LOOPBACK|] == LOOPBACK;
    assert ReplaceAll(DEFAULT_CLIENT[|LOOPBACK|..], LOOPBACK, LOCALHOST) == [];
    if forall i :: 0 <= i < |client| ==> !At(client, LOOPBACK, i) {
      ReplaceAllAbsent(client, LOOPBACK, LOCALHOST);
    }
  }

  // ---------------------------------------------------------------------
  // Network readiness
  // ---------------------------------------------------------------------

  /** The probe host when none is configured. */
  const DEFAULT_NETWORK_CHECK_URL: string := "duckduckgo.com"

  /** The configured probe URL with its scheme removed. */
  function ProbeHost(url: string): string
  {
    ReplaceAll(ReplaceAll(url, "https://", ""), "http://", "")
  }

  /** A character of an occurrence of the pattern is that of the pattern. */
  lemma AtChar(s: string, pat: string, i: nat, k: nat)
    requires At(s, pat, i) && k < |pat|
    ensures s[i + k] == pat[k]
  {
    assert s[i..i + |pat|][k] == s[i + k];
  }

  /** The pattern cannot occur where its k-th character does not appear late enough. */
  lemma NoOccurrence(s: string, pat: string, k: nat)
    requires k < |pat|
    requires forall j :: 0 <= j < |s| && s[j] == pat[k] ==> j < k
    ensures forall i :: 0 <= i < |s| ==> !At(s, pat, i)
  {
    forall i | 0 <= i < |s| && At(s, pat, i)
      ensures false
    {
      AtChar(s, pat, i, k);
    }
  }

  /** A host without a colon is probed as it is, with or without either scheme in front. */
  lemma ProbeHostStrips(h: string)
    requires ':' !in h
    ensures ProbeHost(h) == h
    ensures ProbeHost("https://" + h) == h
    ensures ProbeHost("http://" + h) == h
  {
    NoOccurrence(h, "https://", 5);
    NoOccurrence(h, "http://", 4);
    ReplaceAllAbsent(h, "https://", "");
    ReplaceAllAbsent(h, "http://", "");
    var u := "https://" + h;
    assert u[..8] == "https://" && u[8..] == h;
    assert ReplaceAll(u, "https://", "") == "" + ReplaceAll(h, "https://", "") == h;
    assert ProbeHost(u) == ReplaceAll(h, "http://", "");
    var v := "http://" + h;
    NoOccurrence(v, "https://", 5);
    ReplaceAllAbsent(v, "https://", "");
    assert v[..7] == "http://" && v[7..] == h;
    assert ReplaceAll(v, "http://", "") == "" + ReplaceAll(h, "http://", "");
  }

  /**
   * With the configuration defaults, the probe goes to "duckduckgo.com" as
   * configured, and a network that never answers is given up on after 11
   * probes and 110 seconds of sleep.
   */
  lemma NetworkDefaults(probe: nat -> bool)
    ensures ProbeHost(DEFAULT_NETWORK_CHECK_URL) == DEFAULT_NETWORK_CHECK_URL
    ensures (forall k :: 0 <= k <= Resilience.DEFAULT_MAXIMUM_NETWORK_TRIES ==> !probe(k)) ==>
              Resilience.Retry(Resilience.DEFAULT_MAXIMUM_NETWORK_TRIES, probe, 0) == Resilience.GaveUp(11) &&
              Resilience.Total(Resilience.Sleeps(Resilience.DEFAULT_NETWORK_RETRY_SECONDS, 11)) == 110
  {
    ProbeHostStrips(DEFAULT_NETWORK_CHECK_URL);
    Resilience.RetryBoundary(Resilience.DEFAULT_MAXIMUM_NETWORK_TRIES, probe);
    Resilience.SleepsTotal(Resilience.DEFAULT_NETWORK_RETRY_SECONDS, 11);
  }

  /**
   * `check_network`: the readiness probe of `probeHost` run under the
   * bounded-retry gate; the process gives up once the counter exceeds
   * `maxTries`, and sleeps `retrySeconds` after each failed probe.
   */
  method CheckNetwork(maxTries: nat, retrySeconds: nat, probe: nat -> bool)
    returns (r: Result<nat, Fatal>, sleeps: seq<nat>)
    ensures r.Success? <==> exists k :: 0 <= k <= maxTries && probe(k)
    ensures r.Success? ==> probe(r.value) && forall k :: 0 <= k < r.value ==> !probe(k)
    ensures r.Failure? ==> r.error == NetworkDown && |sleeps| == maxTries + 1
    ensures sleeps == Resilience.Sleeps(retrySeconds, if r.Success? then r.value else maxTries + 1)
  {
    var ok, tries;
    ok, tries, sleeps := Resilience.RunRetry(maxTries, retrySeconds, probe);
    Resilience.RetrySpec(maxTries, probe);
    if ok {
      r := Success(tries);
    } else {
      r := Failure(NetworkDown);
    }
  }

  // ---------------------------------------------------------------------
  // Corpus decision
  // ---------------------------------------------------------------------

  /** The age, in seconds, past which the corpus is refreshed (the literal used; a week is 604800). */
  const MAX_DATABASE_AGE: real := 604400.0

  /** The actions on the database file, in the order they happen. */
  datatype Step = Download | Remove

  /** The corpus is refreshed: it is older than the limit and updates are enabled. */
  predicate Stale(age: real, keepUpdated: bool)
  {
    age > MAX_DATABASE_AGE && keepUpdated
  }

  /**
   * The startup decision on the database file: download when it is missing,
   * then remove and download again when it is stale. `age` is the age of the
   * file at the staleness test (the new file's, after a first download).
   */
  function CorpusPlan(present: bool, age: real, keepUpdated: bool): (s: seq<Step>)
    ensures !present <==> (s != [] && s[0] == Download)
    ensures Remove in s <==> Stale(age, keepUpdated)
    ensures multiset(s)[Download] == (if present then 0 else 1) + (if Stale(age, keepUpdated) then 1 else 0)
    ensures forall i :: 0 <= i < |s| && s[i] == Remove ==> i + 1 < |s| && s[i + 1] == Download
  {
    (if present then [] else [Download]) + (if Stale(age, keepUpdated) then [Remove, Download] else [])
  }

  /** A fatal exit before the import left the database as it was. */
  twostate predicate Unchanged(db: Database.Urls)
    reads db
  {
    db.hasTable == old(db.hasTable) && db.domains == old(db.domains) &&
    db.pending == old(db.pending) && db.log == old(db.log)
  }

  /**
   * `download_domains` into the database file behind `db`: `archive` is the
   * unpacked CSV rows, or None when the HTTP download failed. The table is
   * created (an error if it exists) and the rows imported.
   */
  method DownloadDomains(db: Database.Urls, archive: Option<seq<seq<string>>>) returns (r: Result<(), Fatal>)
    requires db.pending == None
    modifies db
    ensures archive.None? ==> r == Failure(DownloadFailed) && Unchanged(db)
    ensures archive.Some? && old(db.hasTable) ==> r == Failure(TableExists) && Unchanged(db)
    ensures archive.Some? && !old(db.hasTable) ==>
              db.hasTable &&
              (r.Success? <==> Database.WellFormedRows(archive.value)) &&
              (r.Success? ==>
                 db.domains == Database.DomainsOf(archive.value) && db.pending == None &&
                 Database.Flatten(Database.Chunks(archive.value, Database.IMPORT_CHUNK_ROWS)) == archive.value &&
                 db.log == old(db.log) + Database.Transactions(Database.Chunks(archive.value, Database.IMPORT_CHUNK_ROWS))) &&
              (r.Failure? ==> r.error == ImportFailed)
    ensures archive.Some? && !old(db.hasTable) && r.Failure? ==>
              exists c: nat, j: nat ::
                Database.StoppedAt(Database.Chunks(archive.value, Database.IMPORT_CHUNK_ROWS), c, j,
                                   [], old(db.log), db.domains, db.pending, db.log)
  {
    if archive.None? {
      return Failure(DownloadFailed);
    }
    var created := db.CreateTable();
    if !created {
      return Failure(TableExists);
    }
    var imported := db.MassInsert(Database.RowList(archive.value));
    if imported.None? || imported.value.Malformed? {
      return Failure(ImportFailed);
    }
    r := Success(());
  }

  /**
   * `download_domains` as written: the `csv.reader` itself is handed to the
   * import, whose `chunks` takes its length first. That raises, the handler
   * reports the import as failed, and the new table stays empty, whatever
   * the archive holds.
   */
  method DownloadDomainsAsWritten(db: Database.Urls, archive: Option<seq<seq<string>>>)
    returns (r: Result<(), Fatal>)
    requires db.pending == None
    modifies db
    ensures archive.None? ==> r == Failure(DownloadFailed) && Unchanged(db)
    ensures archive.Some? && old(db.hasTable) ==> r == Failure(TableExists) && Unchanged(db)
    ensures archive.Some? && !old(db.hasTable) ==>
              r == Failure(ImportFailed) && db.hasTable && db.domains == [] && db.pending == None &&
              db.log == old(db.log)
  {
    if archive.None? {
      return Failure(DownloadFailed);
    }
    var created := db.CreateTable();
    if !created {
      return Failure(TableExists);
    }
    var imported := db.MassInsert(Database.CsvReader(archive.value));
    r := if imported == Some(Database.Imported) then Success(()) else Failure(ImportFailed);
  }

  /**
   * One run of `download_domains` into a new database file (the file was
   * missing or has just been removed): the first error ends the run.
   */
  method FreshDownload(archive: Option<seq<seq<string>>>) returns (db: Database.Urls, r: Result<(), Fatal>)
    ensures fresh(db)
    ensures r.Success? <==> archive.Some? && Database.WellFormedRows(archive.value)
    ensures r.Success? ==>
              archive.Some? && Database.WellFormedRows(archive.value) &&
              db.hasTable && db.domains == Database.DomainsOf(archive.value) && db.pending == None
    ensures r.Failure? ==> r.error == (if archive.None? then DownloadFailed else ImportFailed)
  {
    db := new Database.Urls(None);
    r := DownloadDomains(db, archive);
  }

  /**
   * The startup sequence on the database file. `present` says whether the
   * file exists and `existing` what its domains table holds (None: no
   * table); download number k fetches `archive(k)`. Returns the steps taken
   * and the database the cycles will read.
   */
  method PrepareCorpus(present: bool, existing: Option<seq<string>>, age: real, keepUpdated: bool,
                       archive: nat -> Option<seq<seq<string>>>)
    returns (steps: seq<Step>, r: Result<Database.Urls, Fatal>)
    ensures r.Success? ==> steps == CorpusPlan(present, age, keepUpdated)
    ensures r.Success? && Download !in steps ==>
              r.value.hasTable == existing.Some? &&
              r.value.domains == (if existing.Some? then existing.value else [])
    ensures r.Success? && Download in steps ==>
              var a := archive(multiset(steps)[Download] - 1);
              a.Some? && Database.WellFormedRows(a.value) &&
              r.value.hasTable && r.value.domains == Database.DomainsOf(a.value) && r.value.pending == None
    ensures r.Failure? ==>
              steps <= CorpusPlan(present, age, keepUpdated) && steps != [] && steps[|steps| - 1] == Download &&
              var a := archive(multiset(steps)[Download] - 1);
              r.error == (if a.None? then DownloadFailed else ImportFailed) &&
              (a.Some? ==> !Database.WellFormedRows(a.value))
  {
    var db: Database.Urls;
    var d: Result<(), Fatal>;
    if !present {
      db, d := FreshDownload(archive(0));
      steps := [Download];
      assert multiset(steps)[Download] == 1;
      if d.Failure? {
        return steps, Failure(d.error);
      }
    } else {
      db := new Database.Urls(existing);
      steps := [];
    }
    if Stale(age, keepUpdated) {
      var k := |steps|;
      db, d := FreshDownload(archive(k));
      assert multiset(steps + [Remove, Download])[Download] == k + 1;
      steps := steps + [Remove, Download];
      if d.Failure? {
        return steps, Failure(d.error);
      }
    }
    r := Success(db);
  }
}
