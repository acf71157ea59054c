/**
 * Sampling of the organic traffic: the query records the Pi-hole logged in
 * the last window, minus those sent by this machine, and the DNS record types
 * they used. The HTTP fetch is an oracle `fetch(k)` giving the parsed `data`
 * array of attempt k, or None when that request failed.
 */
module Sampler {
  import opened Outcomes
  import Resilience

  /** Inserted when nothing qualified, so that later divisions never see 0. */
  const SENTINEL: string := "Let's not divide by 0"

  /** The record type used when no type was sampled. */
  const DEFAULT_TYPE: string := "A"

  /** Field positions in a query record: [time, type, domain, client, ...]. */
  const TYPE_FIELD: nat := 1
  const CLIENT_FIELD: nat := 3

  /** A kept entry: a query record, or the sentinel string. */
  datatype Entry = Record(fields: seq<string>) | Placeholder(text: string)

  /** What a sampling pass returns: the type list and the genuine list. */
  datatype Sample = Sample(types: seq<string>, genuine: seq<Entry>)

  /** A record can be tested against the client identity. */
  predicate LongEnough(record: seq<string>)
  {
    |record| > CLIENT_FIELD
  }

  /** A record counts as organic traffic: it was not sent by `client`. */
  predicate Kept(record: seq<string>, client: string)
  {
    LongEnough(record) && record[CLIENT_FIELD] != client
  }

  /** The records of `data` that count as organic traffic, in order. */
  function Genuine(data: seq<seq<string>>, client: string): (g: seq<seq<string>>)
    ensures |g| <= |data|
    ensures forall i :: 0 <= i < |g| ==> Kept(g[i], client) && g[i] in data
    decreases |data|
  {
    if data == [] then []
    else
      var rest := Genuine(data[..|data| - 1], client);
      var last := data[|data| - 1];
      if Kept(last, client) then rest + [last] else rest
  }

  /** Filtering distributes over concatenation, so it keeps the input order. */
  lemma {:induction false} GenuineAppend(a: seq<seq<string>>, b: seq<seq<string>>, client: string)
    ensures Genuine(a + b, client) == Genuine(a, client) + Genuine(b, client)
    decreases |b|
  {
    if b != [] {
      var n := |b| - 1;
      assert (a + b)[..|a + b| - 1] == a + b[..n];
      assert (a + b)[|a + b| - 1] == b[n];
      GenuineAppend(a, b[..n], client);
    } else {
      assert a + b == a;
    }
  }

  /**
   * No record is dropped or duplicated: each kept record occurs as often as
   * in the input, every other record not at all.
   */
  lemma {:induction false} GenuineCount(data: seq<seq<string>>, client: string, x: seq<string>)
    ensures multiset(Genuine(data, client))[x] == if Kept(x, client) then multiset(data)[x] else 0
    decreases |data|
  {
    if data != [] {
      var n := |data| - 1;
      assert data == data[..n] + [data[n]];
      GenuineCount(data[..n], client, x);
    }
  }

  /** Nothing is kept iff every record was sent by the client (or is too short). */
  lemma {:induction false} GenuineEmpty(data: seq<seq<string>>, client: string)
    ensures Genuine(data, client) == [] <==> forall i :: 0 <= i < |data| ==> !Kept(data[i], client)
    decreases |data|
  {
    if data != [] {
      var n := |data| - 1;
      GenuineEmpty(data[..n], client);
      assert forall i :: 0 <= i < n ==> data[..n][i] == data[i];
    }
  }

  /** The kept records, as entries. */
  function Records(g: seq<seq<string>>): (es: seq<Entry>)
    ensures |es| == |g| && forall i :: 0 <= i < |g| ==> es[i] == Record(g[i])
  {
    seq(|g|, i requires 0 <= i < |g| => Record(g[i]))
  }

  /** Entries whose type field exists. */
  predicate Typed(e: Entry)
  {
    match e
    case Record(fields) => |fields| > TYPE_FIELD
    case Placeholder(text) => |text| > TYPE_FIELD
  }

  /**
   * Field 1 of an entry. Field 1 of the sentinel string is its second
   * character, as a one-character string.
   */
  function TypeOf(e: Entry): string
    requires Typed(e)
  {
    match e
    case Record(fields) => fields[TYPE_FIELD]
    case Placeholder(text) => [text[TYPE_FIELD]]
  }

  /** The sentinel's type is "e", which is not "A". */
  lemma SentinelType()
    ensures Typed(Placeholder(SENTINEL))
    ensures TypeOf(Placeholder(SENTINEL)) == "e" != DEFAULT_TYPE
  {
  }

  /**
   * The filtering and projection of `get_genuine_queries`, after the fetch.
   * Any record too short to hold a client field is fatal; otherwise the
   * genuine list is the kept records in order, or the sentinel alone when
   * there are none, and the type list is field 1 of each genuine entry.
   */
  method GenuineQueries(data: seq<seq<string>>, client: string) returns (r: Result<Sample, Fatal>)
    ensures r.Failure? <==> exists i :: 0 <= i < |data| && !LongEnough(data[i])
    ensures r.Failure? ==> r.error == WrongFormat
    ensures r.Success? ==>
              var s, g := r.value, Genuine(data, client);
              s.genuine == (if g == [] then [Placeholder(SENTINEL)] else Records(g)) &&
              |s.types| == |s.genuine| &&
              (forall i :: 0 <= i < |s.genuine| ==> Typed(s.genuine[i]) && s.types[i] == TypeOf(s.genuine[i])) &&
              s.types != [] && (g == [] ==> s.types == ["e"])
  {
    var kept := KeepGenuine(data, client);
    if kept.Failure? {
      return Failure(kept.error);
    }
    var types := QueryTypes(kept.value);
    r := Success(Sample(types, kept.value));
  }

  /**
   * The filtering loop: the records not sent by `client`, in order, or the
   * sentinel alone when there are none; a fatal error at the first record
   * too short to test.
   */
  method KeepGenuine(data: seq<seq<string>>, client: string) returns (r: Result<seq<Entry>, Fatal>)
    ensures r.Failure? <==> exists i :: 0 <= i < |data| && !LongEnough(data[i])
    ensures r.Failure? ==> r.error == WrongFormat
    ensures r.Success? ==>
              var g := Genuine(data, client);
              r.value == (if g == [] then [Placeholder(SENTINEL)] else Records(g)) &&
              forall i :: 0 <= i < |r.value| ==> Typed(r.value[i])
  {
    var kept: seq<Entry> := [];
    var i := 0;
    while i < |data|
      invariant 0 <= i <= |data|
      invariant forall k :: 0 <= k < i ==> LongEnough(data[k])
      invariant kept == Records(Genuine(data[..i], client))
    {
      var query := data[i];
      if !LongEnough(query) {
        return Failure(WrongFormat);
      }
      assert data[..i + 1][..i] == data[..i];
      if query[CLIENT_FIELD] != client {
        kept := kept + [Record(query)];
      }
      i := i + 1;
    }
    assert data[..i] == data;
    if |kept| == 0 {
      kept := kept + [Placeholder(SENTINEL)];
    }
    r := Success(kept);
  }

  /**
   * The projection loop: field 1 of every genuine entry, in order; "A" when
   * that leaves the list empty, which a non-empty genuine list never does.
   */
  method QueryTypes(genuine: seq<Entry>) returns (types: seq<string>)
    requires forall i :: 0 <= i < |genuine| ==> Typed(genuine[i])
    ensures genuine != [] ==> |types| == |genuine| && forall i :: 0 <= i < |genuine| ==> types[i] == TypeOf(genuine[i])
    ensures genuine == [] ==> types == [DEFAULT_TYPE]
  {
    types := [];
    var k := 0;
    while k < |genuine|
      invariant 0 <= k <= |genuine|
      invariant |types| == k && forall m :: 0 <= m < k ==> types[m] == TypeOf(genuine[m])
    {
      types := types + [TypeOf(genuine[k])];
      k := k + 1;
    }
    if |types| == 0 {
      types := types + [DEFAULT_TYPE];
    }
  }

  /** Whether API request number k got a response. */
  function Arrived(fetch: nat -> Option<seq<seq<string>>>): nat -> bool
  {
    (k: nat) => fetch(k).Some?
  }

  /**
   * `get_genuine_queries(secondsBackwards)` at wall-clock second `now`: the
   * window ends now and spans `secondsBackwards`; the API is polled under the
   * bounded-retry gate (at most 16 attempts, 15 s after each failure), and the
   * first response that arrives is filtered.
   */
  method GetGenuineQueries(secondsBackwards: int, now: int, client: string,
                           fetch: nat -> Option<seq<seq<string>>>)
    returns (r: Result<Sample, Fatal>, timeFrom: int, timeUntil: int, sleeps: seq<nat>)
    ensures timeUntil == now && timeUntil - timeFrom == secondsBackwards
    ensures r.Failure? ==> r.error == PiholeDown || r.error == WrongFormat
    ensures var v := Resilience.Retry(Resilience.PIHOLE_MAXIMUM_TRIES, Arrived(fetch), 0);
            sleeps == Resilience.Sleeps(Resilience.PIHOLE_RETRY_SECONDS, v.failures) &&
            (v.GaveUp? <==> r == Failure(PiholeDown)) &&
            (v.Passed? ==>
               fetch(v.failures).Some? &&
               var data := fetch(v.failures).value;
               (r.Failure? <==> exists i :: 0 <= i < |data| && !LongEnough(data[i])) &&
               (r.Failure? ==> r.error == WrongFormat) &&
               (r.Success? ==>
                  var s, g := r.value, Genuine(data, client);
                  s.genuine == (if g == [] then [Placeholder(SENTINEL)] else Records(g)) &&
                  |s.types| == |s.genuine| &&
                  (forall i :: 0 <= i < |s.genuine| ==> Typed(s.genuine[i]) && s.types[i] == TypeOf(s.genuine[i]))))
  {
    timeUntil := now;
    timeFrom := timeUntil - secondsBackwards;
    var ok, tries;
    ok, tries, sleeps := Resilience.RunRetry(Resilience.PIHOLE_MAXIMUM_TRIES, Resilience.PIHOLE_RETRY_SECONDS, Arrived(fetch));
    if !ok {
      return Failure(PiholeDown), timeFrom, timeUntil, sleeps;
    }
    Resilience.RetrySpec(Resilience.PIHOLE_MAXIMUM_TRIES, Arrived(fetch));
    r := GenuineQueries(fetch(tries).value, client);
  }
}
