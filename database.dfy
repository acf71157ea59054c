/**
 * The `domains` table of the SQLite corpus and the chunked bulk import.
 * The table is kept in memory as a sequence of URLs; the SQL statements the
 * import issues are recorded in a log so that the transaction structure can
 * be stated.
 */
module Database {
  import opened Outcomes

  /** Rows per transaction of the bulk import (the default of `chunks`). */
  const IMPORT_CHUNK_ROWS: nat := 10000

  /** Consecutive slices of `data` of `rows` elements each; the last may be shorter. */
  function Chunks<T>(data: seq<T>, rows: nat): seq<seq<T>>
    requires rows > 0
    decreases |data|
  {
    if |data| == 0 then []
    else if |data| <= rows then [data]
    else [data[..rows]] + Chunks(data[rows..], rows)
  }

  /** Concatenation of a sequence of chunks. */
  function Flatten<T>(cs: seq<seq<T>>): seq<T>
  {
    if cs == [] then [] else Flatten(cs[..|cs| - 1]) + cs[|cs| - 1]
  }

  lemma {:induction false} FlattenCons<T>(x: seq<T>, cs: seq<seq<T>>)
    ensures Flatten([x] + cs) == x + Flatten(cs)
    decreases |cs|
  {
    if cs != [] {
      var last := |cs| - 1;
      assert ([x] + cs)[..|cs|] == [x] + cs[..last];
      FlattenCons(x, cs[..last]);
    }
  }

  /** Concatenating all chunks gives back the data. */
  lemma {:induction false} ChunksFlatten<T>(data: seq<T>, rows: nat)
    requires rows > 0
    ensures Flatten(Chunks(data, rows)) == data
    decreases |data|
  {
    if |data| == 0 {
    } else if |data| <= rows {
      assert Flatten([data]) == Flatten([data][..0]) + data;
    } else {
      ChunksFlatten(data[rows..], rows);
      FlattenCons(data[..rows], Chunks(data[rows..], rows));
    }
  }

  /**
   * Every chunk is non-empty and at most `rows` long, and every chunk but the
   * last is exactly `rows` long.
   */
  lemma {:induction false} ChunksShape<T>(data: seq<T>, rows: nat)
    requires rows > 0
    ensures var cs := Chunks(data, rows);
            forall i :: 0 <= i < |cs| ==> 0 < |cs[i]| <= rows && (i < |cs| - 1 ==> |cs[i]| == rows)
    decreases |data|
  {
    if |data| > rows {
      ChunksShape(data[rows..], rows);
      var cs := Chunks(data, rows);
      assert forall i :: 0 < i < |cs| ==> cs[i] == Chunks(data[rows..], rows)[i - 1];
    }
  }

  /** The number of chunks is the ceiling of |data| / rows; no data, no chunks. */
  lemma {:induction false} ChunksCount<T>(data: seq<T>, rows: nat)
    requires rows > 0
    ensures |Chunks(data, rows)| == (|data| + rows - 1) / rows
    ensures |Chunks(data, rows)| == 0 <==> |data| == 0
    decreases |data|
  {
    if |data| == 0 {
      DivUnique(rows - 1, rows, 0);
    } else if |data| <= rows {
      DivUnique(|data| + rows - 1, rows, 1);
    } else {
      ChunksCount(data[rows..], rows);
      CeilStep(|data| - rows, rows);
    }
  }

  lemma MulGap(a: int, b: int, d: int)
    requires 0 < d
    ensures a < b ==> a * d + d <= b * d
  {
    if a < b {
      var k := b - a;
      assert b * d == a * d + k * d;
      assert k * d >= d;
    }
  }

  /** Division by a positive number is determined by its bounds. */
  lemma DivUnique(x: int, d: int, q: int)
    requires 0 < d && q * d <= x < q * d + d
    ensures x / d == q
  {
    var q' := x / d;
    assert x == q' * d + x % d;
    MulGap(q', q, d);
    MulGap(q, q', d);
  }

  lemma CeilStep(n: nat, d: nat)
    requires 0 < d
    ensures (n + d + d - 1) / d == (n + d - 1) / d + 1
  {
    var q := (n + d - 1) / d;
    DivUnique(n + d - 1, d, q);
    assert (q + 1) * d == q * d + d;
    DivUnique(n + d + d - 1, d, q + 1);
  }

  /** A CSV row of the import: `rank,domain`. */
  predicate WellFormedRow(row: seq<string>)
  {
    |row| == 2
  }

  predicate WellFormedRows(rows: seq<seq<string>>)
  {
    forall i :: 0 <= i < |rows| ==> WellFormedRow(rows[i])
  }

  /** The second column of every row, in order. */
  function DomainsOf(rows: seq<seq<string>>): (ds: seq<string>)
    requires WellFormedRows(rows)
  {
    if rows == [] then [] else DomainsOf(rows[..|rows| - 1]) + [rows[|rows| - 1][1]]
  }

  lemma {:induction false} DomainsOfAt(rows: seq<seq<string>>)
    requires WellFormedRows(rows)
    ensures |DomainsOf(rows)| == |rows|
    ensures forall i :: 0 <= i < |rows| ==> DomainsOf(rows)[i] == rows[i][1]
    decreases |rows|
  {
    if rows != [] {
      DomainsOfAt(rows[..|rows| - 1]);
    }
  }

  /** The SQL statements the bulk import issues. */
  datatype Sql = Begin | Insert(url: string) | Commit

  function InsertAll(ds: seq<string>): (log: seq<Sql>)
  {
    seq(|ds|, i requires 0 <= i < |ds| => Insert(ds[i]))
  }

  /** BEGIN, one INSERT per URL, COMMIT. */
  function Transaction(ds: seq<string>): seq<Sql>
  {
    [Begin] + InsertAll(ds) + [Commit]
  }

  /** One transaction per chunk, holding that chunk's inserts. */
  function Transactions(cs: seq<seq<seq<string>>>): seq<Sql>
    requires WellFormedRows(Flatten(cs))
  {
    if cs == [] then []
    else
      var n := |cs| - 1;
      WellFormedSplit(Flatten(cs[..n]), cs[n]);
      Transactions(cs[..n]) + Transaction(DomainsOf(cs[n]))
  }

  lemma WellFormedSplit(a: seq<seq<string>>, b: seq<seq<string>>)
    requires WellFormedRows(a + b)
    ensures WellFormedRows(a) && WellFormedRows(b)
  {
    forall i | 0 <= i < |a|
      ensures WellFormedRow(a[i])
    {
      assert a[i] == (a + b)[i];
    }
    forall i | 0 <= i < |b|
      ensures WellFormedRow(b[i])
    {
      assert b[i] == (a + b)[|a| + i];
    }
  }

  /** The URLs of the inserts of a log, in order. */
  function Inserted(log: seq<Sql>): seq<string>
  {
    if log == [] then []
    else Inserted(log[..|log| - 1]) + (if log[|log| - 1].Insert? then [log[|log| - 1].url] else [])
  }

  lemma {:induction false} InsertedAppend(a: seq<Sql>, b: seq<Sql>)
    ensures Inserted(a + b) == Inserted(a) + Inserted(b)
    decreases |b|
  {
    if b == [] {
      assert a + b == a;
    } else {
      var n := |b| - 1;
      assert (a + b)[..|a + b| - 1] == a + b[..n];
      InsertedAppend(a, b[..n]);
    }
  }

  lemma {:induction false} InsertedAll(ds: seq<string>)
    ensures Inserted(InsertAll(ds)) == ds
    decreases |ds|
  {
    if ds != [] {
      var n := |ds| - 1;
      assert InsertAll(ds)[..n] == InsertAll(ds[..n]);
      InsertedAll(ds[..n]);
    }
  }

  lemma DomainsOfAppend(a: seq<seq<string>>, b: seq<seq<string>>)
    requires WellFormedRows(a) && WellFormedRows(b)
    ensures WellFormedRows(a + b)
    ensures DomainsOf(a + b) == DomainsOf(a) + DomainsOf(b)
  {
    DomainsOfAt(a);
    DomainsOfAt(b);
    DomainsOfAt(a + b);
  }

  lemma TransactionShape(ds: seq<string>)
    ensures multiset(Transaction(ds))[Begin] == 1
    ensures multiset(Transaction(ds))[Commit] == 1
    ensures Inserted(Transaction(ds)) == ds
  {
    assert Begin !in InsertAll(ds) && Commit !in InsertAll(ds);
    InsertedAppend([Begin] + InsertAll(ds), [Commit]);
    InsertedAppend([Begin], InsertAll(ds));
    InsertedAll(ds);
    assert Inserted([Begin]) == Inserted([Begin][..0]);
    assert Inserted([Commit]) == Inserted([Commit][..0]);
  }

  /**
   * The import's log holds exactly one BEGIN and one COMMIT per chunk, and
   * its inserts are the second column of every row, in order.
   */
  lemma {:induction false} TransactionsPerChunk(cs: seq<seq<seq<string>>>)
    requires WellFormedRows(Flatten(cs))
    ensures multiset(Transactions(cs))[Begin] == |cs|
    ensures multiset(Transactions(cs))[Commit] == |cs|
    ensures Inserted(Transactions(cs)) == DomainsOf(Flatten(cs))
    decreases |cs|
  {
    if cs != [] {
      var n := |cs| - 1;
      WellFormedSplit(Flatten(cs[..n]), cs[n]);
      var ds := DomainsOf(cs[n]);
      TransactionsPerChunk(cs[..n]);
      TransactionShape(ds);
      InsertedAppend(Transactions(cs[..n]), Transaction(ds));
      DomainsOfAppend(Flatten(cs[..n]), cs[n]);
    }
  }

  lemma DomainsOfSnoc(rows: seq<seq<string>>, row: seq<string>)
    requires WellFormedRows(rows) && WellFormedRow(row)
    ensures WellFormedRows(rows + [row])
    ensures DomainsOf(rows + [row]) == DomainsOf(rows) + [row[1]]
  {
    assert (rows + [row])[..|rows|] == rows;
  }

  lemma InsertAllSnoc(ds: seq<string>, d: string)
    ensures InsertAll(ds + [d]) == InsertAll(ds) + [Insert(d)]
  {
  }

  /** Committing chunk c extends the committed rows and the log by that chunk. */
  lemma CommitStep(cs: seq<seq<seq<string>>>, c: nat)
    requires c < |cs|
    requires WellFormedRows(cs[c])
    requires WellFormedRows(Flatten(cs[..c]))
    ensures WellFormedRows(Flatten(cs[..c + 1]))
    ensures Transactions(cs[..c + 1]) == Transactions(cs[..c]) + Transaction(DomainsOf(cs[c]))
    ensures DomainsOf(Flatten(cs[..c + 1])) == DomainsOf(Flatten(cs[..c])) + DomainsOf(cs[c])
  {
    assert cs[..c + 1][..c] == cs[..c];
    assert Flatten(cs[..c + 1]) == Flatten(cs[..c]) + cs[c];
    DomainsOfAppend(Flatten(cs[..c]), cs[c]);
    WellFormedSplit(Flatten(cs[..c]), cs[c]);
  }

  /**
   * The state an import of `cs` into a table holding `domains0` with log
   * `log0` is left in when row j of chunk c is the first malformed row.
   */
  predicate StoppedAt(cs: seq<seq<seq<string>>>, c: nat, j: nat,
                      domains0: seq<string>, log0: seq<Sql>,
                      domains: seq<string>, pending: Option<seq<string>>, log: seq<Sql>)
  {
    c < |cs| && j < |cs[c]| && !WellFormedRow(cs[c][j]) &&
    WellFormedRows(Flatten(cs[..c])) && WellFormedRows(cs[c][..j]) &&
    domains == domains0 + DomainsOf(Flatten(cs[..c])) &&
    pending == Some(DomainsOf(cs[c][..j])) &&
    log == log0 + Transactions(cs[..c]) + [Begin] + InsertAll(DomainsOf(cs[c][..j]))
  }

  /**
   * How the bulk import ends: every row inserted, or the first bad row, given
   * as the index of its chunk and its offset inside that chunk.
   */
  datatype ImportOutcome = Imported | Malformed(chunk: nat, offset: nat)

  /**
   * What the bulk import is handed: a list of rows, or a `csv.reader` that
   * streams them.
   */
  datatype RowSource = RowList(rows: seq<seq<string>>) | CsvReader(rows: seq<seq<string>>)

  /** `len` of the import's input, which `chunks` takes first: a reader has none (a TypeError). */
  function Length(src: RowSource): Option<nat>
  {
    match src
    case RowList(rows) => Some(|rows|)
    case CsvReader(_) => None
  }

  /**
   * The `domains` table behind one SQLite database file. `pending` is the
   * open transaction's inserts (None when no transaction is open); `domains`
   * holds the committed rows.
   */
  class Urls {
    var hasTable: bool
    var domains: seq<string>
    var pending: Option<seq<string>>
    var log: seq<Sql>

    /** A connection to a database file holding `existing` (None: no domains table). */
    constructor (existing: Option<seq<string>>)
      ensures hasTable == existing.Some?
      ensures domains == (if existing.Some? then existing.value else [])
      ensures pending == None && log == []
    {
      hasTable := existing.Some?;
      domains := if existing.Some? then existing.value else [];
      pending := None;
      log := [];
    }

    /** CREATE TABLE domains: an empty table, or an error if it already exists. */
    method CreateTable() returns (ok: bool)
      modifies this
      ensures ok == !old(hasTable)
      ensures hasTable
      ensures domains == (if ok then [] else old(domains))
      ensures pending == old(pending) && log == old(log)
    {
      ok := !hasTable;
      if ok {
        hasTable := true;
        domains := [];
      }
    }

    /**
     * `mass_insert_urls`: one transaction per chunk of IMPORT_CHUNK_ROWS rows,
     * inserting the second column of each row. A row without exactly two
     * fields stops the import inside its chunk's open transaction: the earlier
     * chunks stay committed, the chunk's earlier rows stay pending.
     */
    method MassInsertUrls(urls: seq<seq<string>>) returns (r: ImportOutcome)
      requires hasTable && pending == None
      modifies this
      ensures hasTable
      ensures r.Imported? <==> WellFormedRows(urls)
      ensures r.Imported? ==>
                var cs := Chunks(urls, IMPORT_CHUNK_ROWS);
                domains == old(domains) + DomainsOf(urls) && pending == None &&
                Flatten(cs) == urls && log == old(log) + Transactions(cs)
      ensures r.Malformed? ==>
                var cs := Chunks(urls, IMPORT_CHUNK_ROWS);
                var c, j := r.chunk, r.offset;
                c < |cs| && j < |cs[c]| && !WellFormedRow(cs[c][j]) &&
                WellFormedRows(Flatten(cs[..c])) && WellFormedRows(cs[c][..j]) &&
                domains == old(domains) + DomainsOf(Flatten(cs[..c])) &&
                pending == Some(DomainsOf(cs[c][..j])) &&
                log == old(log) + Transactions(cs[..c]) + [Begin] + InsertAll(DomainsOf(cs[c][..j]))
    {
      var cs := Chunks(urls, IMPORT_CHUNK_ROWS);
      ChunksFlatten(urls, IMPORT_CHUNK_ROWS);
      r := InsertChunks(cs);
      if r.Malformed? {
        FirstMalformedRow(urls, r.chunk, r.offset);
      } else {
        DomainsOfAt(urls);
      }
    }

    /**
     * `mass_insert_urls` on any input: None when `chunks` cannot take the
     * input's length, which raises before any statement is issued.
     */
    method MassInsert(src: RowSource) returns (r: Option<ImportOutcome>)
      requires hasTable && pending == None
      modifies this
      ensures r.None? <==> src.CsvReader?
      ensures r.None? ==> hasTable && domains == old(domains) && pending == old(pending) && log == old(log)
      ensures r.Some? ==> hasTable && (r.value.Imported? <==> WellFormedRows(src.rows))
      ensures r == Some(Imported) ==>
                domains == old(domains) + DomainsOf(src.rows) && pending == None &&
                Flatten(Chunks(src.rows, IMPORT_CHUNK_ROWS)) == src.rows &&
                log == old(log) + Transactions(Chunks(src.rows, IMPORT_CHUNK_ROWS))
      ensures r.Some? && r.value.Malformed? ==>
                StoppedAt(Chunks(src.rows, IMPORT_CHUNK_ROWS), r.value.chunk, r.value.offset,
                          old(domains), old(log), domains, pending, log)
    {
      var n := Length(src);
      if n.None? {
        return None;
      }
      var outcome := MassInsertUrls(src.rows);
      r := Some(outcome);
    }

    /** The loop over the chunks: one transaction per chunk, in order. */
    method InsertChunks(cs: seq<seq<seq<string>>>) returns (r: ImportOutcome)
      requires hasTable && pending == None
      modifies this
      ensures hasTable
      ensures r.Imported? ==>
                WellFormedRows(Flatten(cs)) &&
                domains == old(domains) + DomainsOf(Flatten(cs)) && pending == None &&
                log == old(log) + Transactions(cs)
      ensures r.Malformed? ==> StoppedAt(cs, r.chunk, r.offset, old(domains), old(log), domains, pending, log)
    {
      var c := 0;
      while c < |cs|
        invariant 0 <= c <= |cs|
        invariant hasTable && pending == None
        invariant WellFormedRows(Flatten(cs[..c]))
        invariant domains == old(domains) + DomainsOf(Flatten(cs[..c]))
        invariant log == old(log) + Transactions(cs[..c])
      {
        var bad := ImportChunkAt(cs, c, old(domains), old(log));
        if bad.Some? {
          return Malformed(c, bad.value);
        }
        c := c + 1;
      }
      assert cs[..c] == cs;
      r := Imported;
    }

    /** One pass of the import loop: chunk c, after chunks 0 .. c-1 have been committed. */
    method ImportChunkAt(cs: seq<seq<seq<string>>>, c: nat, ghost domains0: seq<string>, ghost log0: seq<Sql>)
      returns (bad: Option<nat>)
      requires c < |cs| && hasTable && pending == None
      requires WellFormedRows(Flatten(cs[..c]))
      requires domains == domains0 + DomainsOf(Flatten(cs[..c]))
      requires log == log0 + Transactions(cs[..c])
      modifies this
      ensures hasTable
      ensures bad.None? ==>
                pending == None && WellFormedRows(Flatten(cs[..c + 1])) &&
                domains == domains0 + DomainsOf(Flatten(cs[..c + 1])) &&
                log == log0 + Transactions(cs[..c + 1])
      ensures bad.Some? ==> StoppedAt(cs, c, bad.value, domains0, log0, domains, pending, log)
    {
      bad := InsertChunk(cs[c]);
      if bad.None? {
        CommitStep(cs, c);
      }
    }

    /**
     * The body of the import loop for one chunk: BEGIN TRANSACTION, one
     * INSERT per row, COMMIT. A malformed row stops it with the transaction
     * still open; its index in the chunk is returned.
     */
    method InsertChunk(chunk: seq<seq<string>>) returns (bad: Option<nat>)
      requires hasTable && pending == None
      modifies this
      ensures hasTable
      ensures bad.None? <==> WellFormedRows(chunk)
      ensures bad.None? ==>
                domains == old(domains) + DomainsOf(chunk) && pending == None &&
                log == old(log) + Transaction(DomainsOf(chunk))
      ensures bad.Some? ==>
                var j := bad.value;
                j < |chunk| && !WellFormedRow(chunk[j]) && WellFormedRows(chunk[..j]) &&
                domains == old(domains) && pending == Some(DomainsOf(chunk[..j])) &&
                log == old(log) + [Begin] + InsertAll(DomainsOf(chunk[..j]))
    {
      log := log + [Begin];
      pending := Some([]);
      var j := 0;
      while j < |chunk|
        invariant 0 <= j <= |chunk|
        invariant WellFormedRows(chunk[..j])
        invariant pending == Some(DomainsOf(chunk[..j]))
        invariant log == old(log) + [Begin] + InsertAll(DomainsOf(chunk[..j]))
        invariant hasTable && domains == old(domains)
      {
        var row := chunk[j];
        if |row| != 2 {
          return Some(j);
        }
        assert chunk[..j + 1] == chunk[..j] + [row];
        DomainsOfSnoc(chunk[..j], row);
        InsertAllSnoc(DomainsOf(chunk[..j]), row[1]);
        pending := Some(pending.value + [row[1]]);
        log := log + [Insert(row[1])];
        j := j + 1;
      }
      assert chunk[..j] == chunk;
      log := log + [Commit];
      domains := domains + pending.value;
      pending := None;
      bad := None;
    }

    /**
     * `get_random_domains`: the first `count` rows of `SELECT url ... ORDER BY
     * RANDOM()`, where `shuffled` is the order the database chose.
     */
    method GetRandomDomains(count: nat, shuffled: seq<string>) returns (r: Result<seq<string>, Fatal>)
      requires count >= 1
      requires multiset(shuffled) == multiset(domains)
      ensures r.Failure? <==> !hasTable
      ensures r.Failure? ==> r.error == NoSuchTable
      ensures r.Success? ==>
                var urls := r.value;
                |urls| == (if count < |domains| then count else |domains|) &&
                urls <= shuffled &&
                multiset(urls) <= multiset(domains) &&
                forall i :: 0 <= i < |urls| ==> urls[i] in domains
    {
      if !hasTable {
        return Failure(NoSuchTable);
      }
      assert |shuffled| == |multiset(shuffled)| == |domains|;
      var n := if count < |shuffled| then count else |shuffled|;
      var urls := [];
      var i := 0;
      while i < n
        invariant 0 <= i <= n
        invariant urls == shuffled[..i]
      {
        urls := urls + [shuffled[i]];
        i := i + 1;
      }
      assert shuffled == urls + shuffled[n..];
      assert multiset(shuffled) == multiset(urls) + multiset(shuffled[n..]);
      forall i | 0 <= i < |urls|
        ensures urls[i] in domains
      {
        assert urls[i] in multiset(urls);
        assert urls[i] in multiset(domains);
      }
      r := Success(urls);
    }
  }

  /** Row j of chunk c is row c * rows + j of the data. */
  lemma {:induction false} ChunkPosition<T>(data: seq<T>, rows: nat, c: nat, j: nat)
    requires rows > 0
    requires c < |Chunks(data, rows)| && j < |Chunks(data, rows)[c]|
    ensures c * rows + j < |data| && Chunks(data, rows)[c][j] == data[c * rows + j]
    decreases c
  {
    if c > 0 {
      var rest := data[rows..];
      assert Chunks(data, rows)[c] == Chunks(rest, rows)[c - 1];
      ChunkPosition(rest, rows, c - 1, j);
      assert c * rows == (c - 1) * rows + rows;
    }
  }

  /** The chunks before chunk c hold exactly the first c * rows rows. */
  lemma {:induction false} ChunkPrefix<T>(data: seq<T>, rows: nat, c: nat)
    requires rows > 0
    requires c < |Chunks(data, rows)|
    ensures c * rows < |data| && Flatten(Chunks(data, rows)[..c]) == data[..c * rows]
    decreases c
  {
    var cs := Chunks(data, rows);
    if c == 0 {
      assert Flatten(cs[..0]) == [];
    } else {
      var rest := data[rows..];
      var cs' := Chunks(rest, rows);
      assert cs == [data[..rows]] + cs';
      ChunkPrefix(rest, rows, c - 1);
      var m := (c - 1) * rows;
      assert c * rows == m + rows;
      calc {
        Flatten(cs[..c]);
        == { assert cs[..c] == [data[..rows]] + cs'[..c - 1]; }
        Flatten([data[..rows]] + cs'[..c - 1]);
        == { FlattenCons(data[..rows], cs'[..c - 1]); }
        data[..rows] + rest[..m];
        == { assert rest[..m] == data[rows..m + rows]; }
        data[..m + rows];
      }
    }
  }

  /** The bad row the import stops at is the first bad row of the data. */
  lemma FirstMalformedRow(urls: seq<seq<string>>, c: nat, j: nat)
    requires var cs := Chunks(urls, IMPORT_CHUNK_ROWS);
             c < |cs| && j < |cs[c]| && !WellFormedRow(cs[c][j]) &&
             WellFormedRows(Flatten(cs[..c])) && WellFormedRows(cs[c][..j])
    ensures var k := c * IMPORT_CHUNK_ROWS + j;
            k < |urls| && !WellFormedRow(urls[k]) && WellFormedRows(urls[..k])
  {
    var cs := Chunks(urls, IMPORT_CHUNK_ROWS);
    var s := c * IMPORT_CHUNK_ROWS;
    ChunkPrefix(urls, IMPORT_CHUNK_ROWS, c);
    forall i | 0 <= i <= j
      ensures s + i < |urls| && urls[s + i] == cs[c][i]
    {
      ChunkPosition(urls, IMPORT_CHUNK_ROWS, c, i);
    }
    assert urls[..s + j] == urls[..s] + cs[c][..j];
  }
}
