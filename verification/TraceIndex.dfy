/** The incremental hash index of `trace_workspace`, over any history of traces. */
module TraceIndex {
  import opened Sequences

  datatype Stat = Stat(size: nat, modifiedNs: nat)

  /** A path that `iter_files` yields: its stat, if that succeeds, and whether its bytes can be read. */
  datatype FileEntry = FileEntry(virtual: string, stat: Option<Stat>, readable: bool)

  datatype Root = Root(name: string, entries: seq<FileEntry>)

  datatype Found = Found(root: string, entry: FileEntry)

  datatype HashStatus = TooLarge | Cached | Hashed | Unreadable

  datatype Row = Row(stat: Stat, sha256: Option<string>, hashStatus: HashStatus, lastSeenRun: string)

  datatype Key = Key(root: string, path: string)

  type Table = map<Key, Row>

  datatype Stats = Stats(
    filesSeen: nat, filesHashed: nat, filesCached: nat, filesLarge: nat, filesUnreadable: nat, metadataErrors: nat)

  /** The SHA-256 of the file at a key when it has a given stat: size and time determine the content. */
  type Digest = (Key, Stat) -> string

  /** One trace; `stopAfter` is how many listed files were stored when it was interrupted or killed. */
  datatype Trace = Trace(roots: seq<Root>, maxBytes: nat, runId: string, stopAfter: Option<nat>)

  // ---------- one file ----------

  function KeyOf(f: Found): Key {
    Key(f.root, f.entry.virtual)
  }

  /** The stored hash can be reused: same size, same time, and a hash is there. */
  predicate Reusable(table: Table, f: Found)
    requires f.entry.stat.Some?
  {
    var k := KeyOf(f);
    k in table && table[k].stat == f.entry.stat.value && table[k].sha256.Some? && table[k].sha256.value != ""
  }

  function StatusOf(table: Table, f: Found, maxBytes: nat): HashStatus
    requires f.entry.stat.Some?
  {
    if f.entry.stat.value.size > maxBytes then TooLarge
    else if Reusable(table, f) then Cached
    else if f.entry.readable then Hashed
    else Unreadable
  }

  function RowOf(table: Table, f: Found, maxBytes: nat, runId: string, digest: Digest): Row
    requires f.entry.stat.Some?
  {
    var stat := f.entry.stat.value;
    var status := StatusOf(table, f, maxBytes);
    var sha := if status == Cached then table[KeyOf(f)].sha256
               else if status == Hashed then Some(digest(KeyOf(f), stat))
               else None;
    Row(stat, sha, status, runId)
  }

  function StoreFile(table: Table, f: Found, maxBytes: nat, runId: string, digest: Digest): Table {
    if f.entry.stat.None? then table else table[KeyOf(f) := RowOf(table, f, maxBytes, runId, digest)]
  }

  function StoreAll(table: Table, files: seq<Found>, maxBytes: nat, runId: string, digest: Digest): Table {
    if files == [] then table
    else StoreFile(StoreAll(table, files[..|files| - 1], maxBytes, runId, digest),
                   files[|files| - 1], maxBytes, runId, digest)
  }

  function FilesOf(r: Root): seq<Found> {
    seq(|r.entries|, i requires 0 <= i < |r.entries| => Found(r.name, r.entries[i]))
  }

  function Listing(roots: seq<Root>): seq<Found> {
    if roots == [] then [] else Listing(roots[..|roots| - 1]) + FilesOf(roots[|roots| - 1])
  }

  /** DELETE FROM files WHERE root IN (...) AND last_seen_run <> ? */
  function Prune(table: Table, roots: seq<Root>, runId: string): Table {
    map k | k in table && !((exists r :: r in roots && r.name == k.root) && table[k].lastSeenRun != runId) :: table[k]
  }

  /** The table a trace leaves behind. */
  function AfterTrace(table: Table, t: Trace, digest: Digest): Table {
    var files := Listing(t.roots);
    if t.stopAfter.Some? && t.stopAfter.value < |files| then
      StoreAll(table, files[..t.stopAfter.value], t.maxBytes, t.runId, digest)
    else if t.stopAfter.Some? then StoreAll(table, files, t.maxBytes, t.runId, digest)
    else Prune(StoreAll(table, files, t.maxBytes, t.runId, digest), t.roots, t.runId)
  }

  function AfterTraces(table: Table, traces: seq<Trace>, digest: Digest): Table {
    if traces == [] then table
    else AfterTrace(AfterTraces(table, traces[..|traces| - 1], digest), traces[|traces| - 1], digest)
  }

  // ---------- the trace loop ----------

  function ReconciliationGap(s: Stats): Option<(nat, nat)> {
    var expected := s.filesHashed + s.filesCached + s.filesLarge + s.filesUnreadable;
    if expected != s.filesSeen then Some((expected, s.filesSeen)) else None
  }

  function Count(s: Stats, status: HashStatus): Stats {
    match status
    case TooLarge => s.(filesSeen := s.filesSeen + 1, filesLarge := s.filesLarge + 1)
    case Cached => s.(filesSeen := s.filesSeen + 1, filesCached := s.filesCached + 1)
    case Hashed => s.(filesSeen := s.filesSeen + 1, filesHashed := s.filesHashed + 1)
    case Unreadable => s.(filesSeen := s.filesSeen + 1, filesUnreadable := s.filesUnreadable + 1)
  }

  lemma ListingPrefix(roots: seq<Root>, i: nat)
    requires i < |roots|
    ensures Listing(roots[..i + 1]) == Listing(roots[..i]) + FilesOf(roots[i])
  {
    assert roots[..i + 1][..i] == roots[..i];
  }

  lemma {:induction false} ListingExtends(roots: seq<Root>, i: nat)
    requires i <= |roots|
    ensures Listing(roots[..i]) <= Listing(roots)
    decreases |roots| - i
  {
    if i == |roots| {
      assert roots[..i] == roots;
    } else {
      ListingPrefix(roots, i);
      ListingExtends(roots, i + 1);
    }
  }

  /** The table after the first `n` listed files. */
  ghost function StoredFirst(start: Table, all: seq<Found>, n: nat, t: Trace, digest: Digest): Table
    requires n <= |all|
  {
    StoreAll(start, all[..n], t.maxBytes, t.runId, digest)
  }

  /** The row of a file whose stat succeeded, from what was stored and what can be read. A file beyond
      the limit is not hashed; otherwise a hash stored for the same size and time is kept, and a new
      one is taken if the bytes can be read. Other rows stay. */
  ghost predicate Stored(was: Table, f: Found, maxBytes: nat, runId: string, digest: Digest, now: Table)
    requires f.entry.stat.Some?
  {
    var k, stat := KeyOf(f), f.entry.stat.value;
    && k in now && now == was[k := now[k]] && now[k].stat == stat && now[k].lastSeenRun == runId
    && (stat.size > maxBytes <==> now[k].hashStatus == TooLarge)
    && (now[k].hashStatus == Cached <==>
          stat.size <= maxBytes && k in was && was[k].stat == stat && was[k].sha256 !in {None, Some("")})
    && (now[k].hashStatus == Unreadable ==> !f.entry.readable) && (now[k].hashStatus == Hashed ==> f.entry.readable)
    && match now[k].hashStatus
       case Cached => now[k].sha256 == was[k].sha256
       case Hashed => now[k].sha256 == Some(digest(k, stat))
       case _ => now[k].sha256 == None
  }

  /** One more file was seen, and it counts under its status alone. */
  ghost predicate Counted(before: Stats, status: HashStatus, after: Stats) {
    && after.filesSeen == before.filesSeen + 1 && after.metadataErrors == before.metadataErrors
    && after.filesLarge == before.filesLarge + (if status == TooLarge then 1 else 0)
    && after.filesCached == before.filesCached + (if status == Cached then 1 else 0)
    && after.filesHashed == before.filesHashed + (if status == Hashed then 1 else 0)
    && after.filesUnreadable == before.filesUnreadable + (if status == Unreadable then 1 else 0)
  }

  /** How many of the first `n` listed files are beyond the limit. */
  ghost function LargeFiles(files: seq<Found>, n: nat, maxBytes: nat): nat
    requires n <= |files|
  {
    if n == 0 then 0
    else LargeFiles(files, n - 1, maxBytes) + if IsLarge(files[n - 1], maxBytes) then 1 else 0
  }

  ghost predicate IsLarge(f: Found, maxBytes: nat) {
    f.entry.stat.Some? && f.entry.stat.value.size > maxBytes
  }

  /** How many of them have no stat. */
  ghost function FailedStats(files: seq<Found>, n: nat): nat
    requires n <= |files|
  {
    if n == 0 then 0 else FailedStats(files, n - 1) + if files[n - 1].entry.stat.None? then 1 else 0
  }

  /** The counters after `n` listed files: those without a stat and those beyond the limit are
      counted, and every other one is hashed, cached or unreadable. */
  ghost predicate Tallied(stats: Stats, files: seq<Found>, n: nat, maxBytes: nat)
    requires n <= |files|
  {
    && ReconciliationGap(stats) == None && stats.filesSeen + stats.metadataErrors == n
    && stats.metadataErrors == FailedStats(files, n) && stats.filesLarge == LargeFiles(files, n, maxBytes)
  }

  lemma TallyStep(stats: Stats, all: seq<Found>, n: nat, maxBytes: nat, stats': Stats, status: HashStatus)
    requires n < |all| && Tallied(stats, all, n, maxBytes) && ReconciliationGap(stats') == None
    requires if all[n].entry.stat.None? then stats' == stats.(metadataErrors := stats.metadataErrors + 1)
             else Counted(stats, status, stats') && (status == TooLarge <==> IsLarge(all[n], maxBytes))
    ensures Tallied(stats', all, n + 1, maxBytes)
  {}

  class Index {
    var files: Table

    constructor ()
      ensures files == map[]
    {
      files := map[];
    }

    /** The body of the file loop: classify, count, hash if needed, upsert. */
    method StoreOne(f: Found, maxBytes: nat, runId: string, digest: Digest, stats: Stats) returns (stats': Stats)
      requires ReconciliationGap(stats) == None
      modifies this
      ensures files == StoreFile(old(files), f, maxBytes, runId, digest)
      ensures ReconciliationGap(stats') == None
      ensures f.entry.stat.None? ==> files == old(files) && stats' == stats.(metadataErrors := stats.metadataErrors + 1)
      ensures f.entry.stat.Some? ==>
                && Stored(old(files), f, maxBytes, runId, digest, files)
                && Counted(stats, files[KeyOf(f)].hashStatus, stats')
    {
      if f.entry.stat.None? {
        return stats.(metadataErrors := stats.metadataErrors + 1);
      }
      var stat := f.entry.stat.value;
      var key := KeyOf(f);
      var sha: Option<string> := None;
      var status := Unreadable;
      if stat.size > maxBytes {
        status := TooLarge;
      } else if key in files && files[key].stat == stat && files[key].sha256.Some? && files[key].sha256.value != "" {
        sha := files[key].sha256;
        status := Cached;
      } else if f.entry.readable {
        sha := Some(digest(key, stat));
        status := Hashed;
      }
      files := files[key := Row(stat, sha, status, runId)];
      return Count(stats, status);
    }

    /** The inner loop over one root. `done` files were stored before it; it stops early when
        the trace is interrupted. */
    method TraceRoot(root: Root, t: Trace, digest: Digest, done: nat, stats: Stats,
                     ghost start: Table, ghost all: seq<Found>)
      returns (stats': Stats, interrupted: bool)
      requires done <= |all| && Tallied(stats, all, done, t.maxBytes)
      requires done + |root.entries| <= |all| && all[done..done + |root.entries|] == FilesOf(root)
      requires files == StoredFirst(start, all, done, t, digest)
      requires t.stopAfter.Some? ==> done <= t.stopAfter.value
      modifies this
      ensures ReconciliationGap(stats') == None
      ensures interrupted ==> t.stopAfter.Some? && t.stopAfter.value < |all|
                              && files == StoredFirst(start, all, t.stopAfter.value, t, digest)
      ensures !interrupted ==>
                && files == StoredFirst(start, all, done + |root.entries|, t, digest)
                && Tallied(stats', all, done + |root.entries|, t.maxBytes)
                && (t.stopAfter.Some? ==> done + |root.entries| <= t.stopAfter.value)
    {
      stats' := stats;
      for j := 0 to |root.entries|
        invariant t.stopAfter.Some? ==> done + j <= t.stopAfter.value
        invariant files == StoredFirst(start, all, done + j, t, digest)
        invariant Tallied(stats', all, done + j, t.maxBytes)
      {
        if t.stopAfter == Some(done + j) {
          return stats', true;
        }
        assert all[done + j] == FilesOf(root)[j];
        StoreStep(start, all, done + j, t, digest);
        var f := Found(root.name, root.entries[j]);
        var next := StoreOne(f, t.maxBytes, t.runId, digest, stats');
        ghost var status := if f.entry.stat.Some? then files[KeyOf(f)].hashStatus else TooLarge;
        TallyStep(stats', all, done + j, t.maxBytes, next, status);
        stats' := next;
      }
      return stats', false;
    }

    /** The outer loop over the roots. */
    method TraceRoots(t: Trace, digest: Digest) returns (stats: Stats, interrupted: bool)
      modifies this
      ensures ReconciliationGap(stats) == None
      ensures var all := Listing(t.roots);
              if interrupted then
                && t.stopAfter.Some? && t.stopAfter.value < |all|
                && files == StoredFirst(old(files), all, t.stopAfter.value, t, digest)
              else
                && files == StoredFirst(old(files), all, |all|, t, digest)
                && Tallied(stats, all, |all|, t.maxBytes)
                && (t.stopAfter.Some? ==> |all| <= t.stopAfter.value)
    {
      stats := Stats(0, 0, 0, 0, 0, 0);
      var done := 0;
      ghost var start, all := files, Listing(t.roots);
      for i := 0 to |t.roots|
        invariant done == |Listing(t.roots[..i])| <= |all|
        invariant t.stopAfter.Some? ==> done <= t.stopAfter.value
        invariant files == StoredFirst(start, all, done, t, digest)
        invariant Tallied(stats, all, done, t.maxBytes)
      {
        RootSlice(t.roots, i);
        assert all[done..done + |t.roots[i].entries|] == FilesOf(t.roots[i]);
        stats, interrupted := TraceRoot(t.roots[i], t, digest, done, stats, start, all);
        if interrupted {
          return;
        }
        done := done + |t.roots[i].entries|;
      }
      assert done == |all| by {
        assert t.roots[..|t.roots|] == t.roots;
      }
      interrupted := false;
    }

    method TraceWorkspace(t: Trace, digest: Digest) returns (stats: Stats, completed: bool)
      modifies this
      ensures files == AfterTrace(old(files), t, digest)
      ensures completed <==> t.stopAfter.None?
      ensures ReconciliationGap(stats) == None
      ensures completed ==> Tallied(stats, Listing(t.roots), |Listing(t.roots)|, t.maxBytes)
    {
      var interrupted;
      ghost var all := Listing(t.roots);
      stats, interrupted := TraceRoots(t, digest);
      assert all[..|all|] == all;
      if interrupted || t.stopAfter.Some? {
        return stats, false;
      }
      files := Prune(files, t.roots, t.runId);
      return stats, true;
    }
  }

  lemma StoreStep(start: Table, all: seq<Found>, n: nat, t: Trace, digest: Digest)
    requires n < |all|
    ensures StoredFirst(start, all, n + 1, t, digest) ==
            StoreFile(StoredFirst(start, all, n, t, digest), all[n], t.maxBytes, t.runId, digest)
  {
    assert all[..n + 1][..n] == all[..n];
  }

  lemma RootSlice(roots: seq<Root>, i: nat)
    requires i < |roots|
    ensures |Listing(roots[..i + 1])| == |Listing(roots[..i])| + |roots[i].entries| <= |Listing(roots)|
    ensures Listing(roots)[|Listing(roots[..i])|..|Listing(roots[..i + 1])|] == FilesOf(roots[i])
  {
    ListingPrefix(roots, i);
    ListingExtends(roots, i + 1);
    assert Listing(roots[..i + 1])[|Listing(roots[..i])|..] == FilesOf(roots[i]);
  }

  // ---------- every stored hash is the hash of the content ----------

  ghost predicate HashesCorrect(table: Table, digest: Digest) {
    forall k :: k in table && table[k].sha256.Some? ==> table[k].sha256.value == digest(k, table[k].stat)
  }

  lemma {:induction false} StoreAllKeepsHashes(
    table: Table, files: seq<Found>, maxBytes: nat, runId: string, digest: Digest)
    requires HashesCorrect(table, digest)
    ensures HashesCorrect(StoreAll(table, files, maxBytes, runId, digest), digest)
  {
    if files != [] {
      StoreAllKeepsHashes(table, files[..|files| - 1], maxBytes, runId, digest);
    }
  }

  /** After any history of completed, interrupted or killed traces, with any roots and limits. */
  lemma {:induction false} HistoryKeepsHashes(traces: seq<Trace>, digest: Digest)
    ensures HashesCorrect(AfterTraces(map[], traces, digest), digest)
  {
    if traces != [] {
      var t := traces[|traces| - 1];
      var before := AfterTraces(map[], traces[..|traces| - 1], digest);
      HistoryKeepsHashes(traces[..|traces| - 1], digest);
      StoreAllKeepsHashes(before, Listing(t.roots), t.maxBytes, t.runId, digest);
      if t.stopAfter.Some? && t.stopAfter.value < |Listing(t.roots)| {
        StoreAllKeepsHashes(before, Listing(t.roots)[..t.stopAfter.value], t.maxBytes, t.runId, digest);
      }
    }
  }

  // ---------- what a completed trace leaves ----------

  ghost predicate Listed(files: seq<Found>, k: Key) {
    exists f :: f in files && KeyOf(f) == k && f.entry.stat.Some?
  }

  /** The file system does not change while it is listed: one path, one entry. */
  ghost predicate Stable(files: seq<Found>) {
    forall f, g :: f in files && g in files && KeyOf(f) == KeyOf(g) ==> f == g
  }

  ghost predicate FreshRun(table: Table, runId: string) {
    forall k :: k in table ==> table[k].lastSeenRun != runId
  }

  lemma {:induction false} StoredRows(
    table: Table, files: seq<Found>, maxBytes: nat, runId: string, digest: Digest, k: Key)
    requires FreshRun(table, runId)
    ensures var t := StoreAll(table, files, maxBytes, runId, digest);
            && (k in t <==> k in table || Listed(files, k))
            && (k in t ==> (t[k].lastSeenRun == runId <==> Listed(files, k)))
            && (k in t && !Listed(files, k) ==> t[k] == table[k])
  {
    if files != [] {
      var init, last := files[..|files| - 1], files[|files| - 1];
      assert files == init + [last];
      StoredRows(table, init, maxBytes, runId, digest, k);
    }
  }

  /** A completed trace leaves, in its roots, exactly the files whose stat succeeded, and it leaves
      the rows of other roots as they were. */
  lemma CompletedTraceKeys(table: Table, t: Trace, digest: Digest, k: Key)
    requires FreshRun(table, t.runId) && t.stopAfter.None?
    ensures var after := AfterTrace(table, t, digest);
            if exists r :: r in t.roots && r.name == k.root then k in after <==> Listed(Listing(t.roots), k)
            else (k in after <==> k in table) && (k in table ==> after[k] == table[k])
  {
    StoredRows(table, Listing(t.roots), t.maxBytes, t.runId, digest, k);
    if Listed(Listing(t.roots), k) {
      ListedRoot(t.roots, k);
    }
  }

  lemma {:induction false} ListedRoot(roots: seq<Root>, k: Key)
    requires Listed(Listing(roots), k)
    ensures exists r :: r in roots && r.name == k.root
  {
    var init, last := roots[..|roots| - 1], roots[|roots| - 1];
    assert roots == init + [last];
    var f :| f in Listing(roots) && KeyOf(f) == k && f.entry.stat.Some?;
    if f in Listing(init) {
      ListedRoot(init, k);
    } else {
      assert f in FilesOf(last);
    }
  }

  /** The hash a trace stores for a listed file, given what the index held before. */
  ghost function ExpectedHash(table: Table, f: Found, maxBytes: nat, digest: Digest): Option<string>
    requires f.entry.stat.Some?
  {
    if f.entry.stat.value.size <= maxBytes && (f.entry.readable || Reusable(table, f))
    then Some(digest(KeyOf(f), f.entry.stat.value))
    else None
  }

  lemma {:induction false} StoredHash(
    table: Table, files: seq<Found>, maxBytes: nat, runId: string, digest: Digest, f: Found)
    requires HashesCorrect(table, digest) && Stable(files) && f in files && f.entry.stat.Some?
    requires digest(KeyOf(f), f.entry.stat.value) != ""
    ensures var t := StoreAll(table, files, maxBytes, runId, digest);
            && KeyOf(f) in t && t[KeyOf(f)].stat == f.entry.stat.value
            && t[KeyOf(f)].sha256 == ExpectedHash(table, f, maxBytes, digest)
  {
    var init, last := files[..|files| - 1], files[|files| - 1];
    assert files == init + [last];
    assert forall x :: x in init ==> x in files;
    StoreAllKeepsHashes(table, init, maxBytes, runId, digest);
    if f in init {
      StoredHash(table, init, maxBytes, runId, digest, f);
    } else {
      Untouched(table, init, maxBytes, runId, digest, KeyOf(f));
    }
  }

  lemma {:induction false} Untouched(
    table: Table, files: seq<Found>, maxBytes: nat, runId: string, digest: Digest, k: Key)
    requires forall f :: f in files ==> KeyOf(f) != k
    ensures var t := StoreAll(table, files, maxBytes, runId, digest);
            (k in t <==> k in table) && (k in t ==> t[k] == table[k])
  {
    if files != [] {
      Untouched(table, files[..|files| - 1], maxBytes, runId, digest, k);
    }
  }

  /** After any history, a completed trace agrees with a trace into an empty index, except that it
      may still know the (correct) hash of a file that cannot be read any more. */
  lemma CompletedTraceAgreesWithFresh(traces: seq<Trace>, t: Trace, digest: Digest, f: Found)
    requires t.stopAfter.None? && Stable(Listing(t.roots)) && f in Listing(t.roots) && f.entry.stat.Some?
    requires FreshRun(AfterTraces(map[], traces, digest), t.runId)
    requires digest(KeyOf(f), f.entry.stat.value) != ""
    ensures var before := AfterTraces(map[], traces, digest);
            var after, anew := AfterTrace(before, t, digest), AfterTrace(map[], t, digest);
            var k := KeyOf(f);
            && k in after && k in anew && after[k].stat == anew[k].stat
            && (anew[k].sha256.Some? ==> after[k].sha256 == anew[k].sha256)
            && (after[k].sha256 != anew[k].sha256 <==>
                  !f.entry.readable && f.entry.stat.value.size <= t.maxBytes && Reusable(before, f))
  {
    var before := AfterTraces(map[], traces, digest);
    var files := Listing(t.roots);
    HistoryKeepsHashes(traces, digest);
    StoredHash(before, files, t.maxBytes, t.runId, digest, f);
    StoredHash(map[], files, t.maxBytes, t.runId, digest, f);
    StoredRows(before, files, t.maxBytes, t.runId, digest, KeyOf(f));
    StoredRows(map[], files, t.maxBytes, t.runId, digest, KeyOf(f));
  }
}
