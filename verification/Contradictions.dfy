/** Stale-index contradictions: workspace evidence is grouped by (workspace, path) and every index
    item is compared with the groups, instead of with every item. */
module Contradictions {
  import opened Sequences
  import Text

  /** Absent strings of the evidence dictionaries are "", which Python treats alike here. */
  datatype WorkspaceItem = WorkspaceItem(
    workspaceId: string, relativePath: string, path: string, hash: string, ref: string)

  datatype IndexItem = IndexItem(workspaceId: string, path: string, hash: string, ref: string)

  datatype Key = Key(workspaceId: string, relative: string)

  datatype Contradiction = Contradiction(
    indexRef: string, workspaceRef: string, relative: string, workspaceId: string, indexHash: string,
    workspaceHash: string)

  // ---------- path matching ----------

  function TrimSlashes(s: string): string {
    if s != "" && s[0] == '/' then TrimSlashes(s[1..])
    else if s != "" && s[|s| - 1] == '/' then TrimSlashes(s[..|s| - 1])
    else s
  }

  function Norm(s: string, lower: string -> string): string {
    if s == "" then "" else lower(TrimSlashes(Text.Slashes(s)))
  }

  function RelativeOf(w: WorkspaceItem, lower: string -> string): string {
    if Norm(w.relativePath, lower) != "" then Norm(w.relativePath, lower) else Norm(w.path, lower)
  }

  /** The names of `relative` are the last names of the index path. */
  ghost predicate SamePath(indexPath: string, relative: string) {
    exists k :: 0 <= k < |Text.Split(indexPath, '/')| && Text.Split(indexPath, '/')[k..] == Text.Split(relative, '/')
  }

  /** The comparison of two paths as texts decides it. */
  lemma SamePathIff(indexPath: string, relative: string)
    ensures SamePath(indexPath, relative) <==> indexPath == relative || Text.EndsWith(indexPath, "/" + relative)
  {
    var parts, last := Text.Split(indexPath, '/'), Text.Split(relative, '/');
    assert "/" + relative == ['/'] + relative && parts[0..] == parts;
    Text.EndsWithParts(indexPath, relative, '/');
    Text.JoinSplit(indexPath, '/');
    Text.JoinSplit(relative, '/');
    if k :| 0 <= k < |parts| && parts[k..] == last {
      assert k == 0 ==> indexPath == relative;
    }
  }

  /** A path is read without its outer slashes, whichever way they lean, and in lower case. */
  lemma NormReads(s: string, lower: string -> string) returns (before: string, core: string, after: string)
    ensures Text.Slashes(s) == before + core + after && Norm(s, lower) == if s == "" then "" else lower(core)
    ensures forall c :: c in before || c in after ==> c == '/'
    ensures core != "" ==> core[0] != '/' && core[|core| - 1] != '/'
  {
    core := TrimSlashes(Text.Slashes(s));
    before, after := SlashesTrimmed(Text.Slashes(s));
  }

  lemma {:induction false} SlashesTrimmed(s: string) returns (before: string, after: string)
    ensures s == before + TrimSlashes(s) + after && forall c :: c in before || c in after ==> c == '/'
    ensures TrimSlashes(s) != "" ==> TrimSlashes(s)[0] != '/' && TrimSlashes(s)[|TrimSlashes(s)| - 1] != '/'
    decreases |s|
  {
    before, after := "", "";
    if s != "" && s[0] == '/' {
      before, after := SlashesTrimmed(s[1..]);
      assert s == ['/'] + s[1..] == ['/'] + before + TrimSlashes(s) + after;
      before := ['/'] + before;
    } else if s != "" && s[|s| - 1] == '/' {
      before, after := SlashesTrimmed(s[..|s| - 1]);
      assert s == s[..|s| - 1] + ['/'] == before + TrimSlashes(s) + (after + ['/']);
      after := after + ['/'];
    }
  }

  // ---------- the reference: compare every pair ----------

  /** The workspace side of a comparison. */
  predicate Comparable(w: WorkspaceItem, lower: string -> string) {
    w.workspaceId != "" && RelativeOf(w, lower) != ""
  }

  predicate Scoped(x: IndexItem, lower: string -> string) {
    x.hash != "" && Norm(x.path, lower) != "" && x.workspaceId != ""
  }

  ghost predicate Contradicts(x: IndexItem, w: WorkspaceItem, lower: string -> string) {
    && Scoped(x, lower) && Comparable(w, lower)
    && x.workspaceId == w.workspaceId
    && SamePath(Norm(x.path, lower), RelativeOf(w, lower))
    && w.hash != "" && w.hash != x.hash
  }

  function KeyOf(w: WorkspaceItem, lower: string -> string): Key {
    Key(w.workspaceId, RelativeOf(w, lower))
  }

  /** What one index item contradicts. */
  ghost function PairsOf(x: IndexItem, items: seq<WorkspaceItem>, lower: string -> string): set<(string, string)> {
    set w | w in items && Contradicts(x, w, lower) :: (x.ref, w.ref)
  }

  ghost predicate IsPair(
    indexed: seq<IndexItem>, items: seq<WorkspaceItem>, lower: string -> string, p: (string, string))
  {
    exists x, w :: x in indexed && w in items && Contradicts(x, w, lower) && p == (x.ref, w.ref)
  }

  // ---------- grouping ----------

  type Groups = map<Key, seq<WorkspaceItem>>

  ghost predicate GroupsOf(groups: Groups, keys: seq<Key>, items: seq<WorkspaceItem>, lower: string -> string) {
    && (forall k :: k in keys <==> k in groups)
    && forall k, w :: (k in groups && w in groups[k]) <==> (w in items && Comparable(w, lower) && KeyOf(w, lower) == k)
  }

  method Group(items: seq<WorkspaceItem>, lower: string -> string) returns (groups: Groups, keys: seq<Key>)
    ensures GroupsOf(groups, keys, items, lower)
  {
    groups, keys := map[], [];
    for i := 0 to |items|
      invariant GroupsOf(groups, keys, items[..i], lower)
    {
      var w := items[i];
      assert items[..i + 1] == items[..i] + [w];
      if !Comparable(w, lower) {
        continue;
      }
      var k := KeyOf(w, lower);
      if k !in groups {
        keys := keys + [k];
        groups := groups[k := [w]];
      } else {
        groups := groups[k := groups[k] + [w]];
      }
    }
    assert items[..|items|] == items;
  }

  // ---------- the grouped search ----------

  ghost predicate Records(found: seq<Contradiction>, seen: set<(string, string)>) {
    && (forall i, j :: 0 <= i < j < |found| ==> PairOf(found[i]) != PairOf(found[j]))
    && forall p :: p in seen <==> exists c :: c in found && PairOf(c) == p
  }

  function PairOf(c: Contradiction): (string, string) {
    (c.indexRef, c.workspaceRef)
  }

  lemma RecordAdded(found: seq<Contradiction>, seen: set<(string, string)>, c: Contradiction)
    requires Records(found, seen) && PairOf(c) !in seen
    ensures Records(found + [c], seen + {PairOf(c)})
  {
    forall i, j | 0 <= i < j < |found + [c]| ensures PairOf((found + [c])[i]) != PairOf((found + [c])[j]) {
      if j == |found| {
        assert found[i] in found;
      }
    }
    forall p ensures p in seen + {PairOf(c)} <==> exists x :: x in found + [c] && PairOf(x) == p {
      if x :| x in found + [c] && PairOf(x) == p {
        assert x in found || x == c;
      }
      if p in seen {
        var x :| x in found && PairOf(x) == p;
        assert x in found + [c];
      }
      if p == PairOf(c) {
        assert c in found + [c];
      }
    }
  }

  /** The record spells out an actual contradiction of `x`. */
  ghost predicate Describes(c: Contradiction, x: IndexItem, items: seq<WorkspaceItem>, lower: string -> string) {
    exists w :: w in items && Contradicts(x, w, lower)
      && c == Contradiction(x.ref, w.ref, RelativeOf(w, lower), w.workspaceId, x.hash, w.hash)
  }

  /** What an index item contradicts of a group that lies at its own path. */
  ghost function Differing(x: IndexItem, items: seq<WorkspaceItem>): set<(string, string)> {
    set w | w in items && w.hash != "" && w.hash != x.hash :: (x.ref, w.ref)
  }

  ghost predicate Spells(c: Contradiction, x: IndexItem, k: Key, items: seq<WorkspaceItem>) {
    exists w :: w in items && w.hash != "" && w.hash != x.hash
      && c == Contradiction(x.ref, w.ref, k.relative, k.workspaceId, x.hash, w.hash)
  }

  /** One group: its items all lie at `k`, which is known to match the index item. */
  method CompareGroup(
    x: IndexItem, k: Key, items: seq<WorkspaceItem>, seen: set<(string, string)>, found: seq<Contradiction>)
    returns (seen': set<(string, string)>, found': seq<Contradiction>)
    requires Records(found, seen)
    ensures Records(found', seen') && seen' == seen + Differing(x, items)
    ensures forall c :: c in found' ==> c in found || Spells(c, x, k, items)
  {
    seen', found' := seen, found;
    for i := 0 to |items|
      invariant Records(found', seen') && seen' == seen + Differing(x, items[..i])
      invariant forall c :: c in found' ==> c in found || Spells(c, x, k, items)
    {
      var w := items[i];
      assert items[..i + 1] == items[..i] + [w] && w in items;
      if w.hash == "" || w.hash == x.hash || (x.ref, w.ref) in seen' {
        continue;
      }
      var c := Contradiction(x.ref, w.ref, k.relative, k.workspaceId, x.hash, w.hash);
      RecordAdded(found', seen', c);
      assert Spells(c, x, k, items);
      seen' := seen' + {(x.ref, w.ref)};
      found' := found' + [c];
    }
    assert items[..|items|] == items;
  }

  /** In a group at the path of the index item only the hashes matter. */
  lemma MatchingGroup(x: IndexItem, k: Key, items: seq<WorkspaceItem>, lower: string -> string)
    requires Scoped(x, lower) && x.workspaceId == k.workspaceId && SamePath(Norm(x.path, lower), k.relative)
    requires forall w :: w in items ==> Comparable(w, lower) && KeyOf(w, lower) == k
    ensures Differing(x, items) == PairsOf(x, items, lower)
    ensures forall c :: Spells(c, x, k, items) ==> Describes(c, x, items, lower)
  {
    forall w | w in items ensures Contradicts(x, w, lower) <==> w.hash != "" && w.hash != x.hash {}
  }

  /** A group is compared only when its workspace and path match the index item's. */
  method CompareKey(
    x: IndexItem, k: Key, items: seq<WorkspaceItem>, lower: string -> string,
    seen: set<(string, string)>, found: seq<Contradiction>)
    returns (seen': set<(string, string)>, found': seq<Contradiction>)
    requires Scoped(x, lower) && Records(found, seen)
    requires forall w :: w in items ==> Comparable(w, lower) && KeyOf(w, lower) == k
    ensures Records(found', seen') && seen' == seen + PairsOf(x, items, lower)
    ensures forall c :: c in found' ==> c in found || Describes(c, x, items, lower)
  {
    var path := Norm(x.path, lower);
    SamePathIff(path, k.relative);
    if x.workspaceId != k.workspaceId || !(path == k.relative || Text.EndsWith(path, "/" + k.relative)) {
      OtherGroup(x, k, items, lower);
      return seen, found;
    }
    MatchingGroup(x, k, items, lower);
    seen', found' := CompareGroup(x, k, items, seen, found);
  }

  ghost function PairsUnder(x: IndexItem, groups: Groups, keys: seq<Key>, lower: string -> string)
    : set<(string, string)>
  {
    set k, w | k in keys && k in groups && w in groups[k] && Contradicts(x, w, lower) :: (x.ref, w.ref)
  }

  lemma UnderStep(x: IndexItem, groups: Groups, keys: seq<Key>, i: nat, lower: string -> string)
    requires i < |keys| && keys[i] in groups
    ensures PairsUnder(x, groups, keys[..i + 1], lower) ==
            PairsUnder(x, groups, keys[..i], lower) + PairsOf(x, groups[keys[i]], lower)
  {
    assert keys[..i + 1] == keys[..i] + [keys[i]];
  }

  lemma UnderAll(x: IndexItem, groups: Groups, keys: seq<Key>, items: seq<WorkspaceItem>, lower: string -> string)
    requires GroupsOf(groups, keys, items, lower)
    ensures PairsUnder(x, groups, keys, lower) == PairsOf(x, items, lower)
  {
    forall w | w in items && Contradicts(x, w, lower) ensures (x.ref, w.ref) in PairsUnder(x, groups, keys, lower) {
      var k := KeyOf(w, lower);
      assert k in groups && w in groups[k] && k in keys;
    }
  }

  /** Groups at another workspace or another path hold nothing the item contradicts. */
  lemma OtherGroup(x: IndexItem, k: Key, items: seq<WorkspaceItem>, lower: string -> string)
    requires forall w :: w in items ==> Comparable(w, lower) && KeyOf(w, lower) == k
    requires x.workspaceId != k.workspaceId || !SamePath(Norm(x.path, lower), k.relative)
    ensures PairsOf(x, items, lower) == {}
  {}

  lemma GroupMembers(
    x: IndexItem, groups: Groups, keys: seq<Key>, items: seq<WorkspaceItem>, lower: string -> string, k: Key)
    requires GroupsOf(groups, keys, items, lower) && k in keys
    ensures k in groups && forall w :: w in groups[k] ==> Comparable(w, lower) && KeyOf(w, lower) == k
    ensures forall c :: Describes(c, x, groups[k], lower) ==> Describes(c, x, items, lower)
  {
    forall c | Describes(c, x, groups[k], lower) ensures Describes(c, x, items, lower) {
      var w :| w in groups[k] && Contradicts(x, w, lower)
        && c == Contradiction(x.ref, w.ref, RelativeOf(w, lower), w.workspaceId, x.hash, w.hash);
      assert w in items;
    }
  }

  /** The groups in the order their keys first appeared. */
  method CompareItem(
    x: IndexItem, groups: Groups, keys: seq<Key>, ghost items: seq<WorkspaceItem>, lower: string -> string,
    seen: set<(string, string)>, found: seq<Contradiction>)
    returns (seen': set<(string, string)>, found': seq<Contradiction>)
    requires GroupsOf(groups, keys, items, lower) && Records(found, seen)
    ensures Records(found', seen') && seen' == seen + PairsOf(x, items, lower)
    ensures forall c :: c in found' ==> c in found || Describes(c, x, items, lower)
  {
    seen', found' := seen, found;
    if !Scoped(x, lower) {
      assert PairsOf(x, items, lower) == {};
      return;
    }
    for i := 0 to |keys|
      invariant Records(found', seen') && seen' == seen + PairsUnder(x, groups, keys[..i], lower)
      invariant forall c :: c in found' ==> c in found || Describes(c, x, items, lower)
    {
      GroupMembers(x, groups, keys, items, lower, keys[i]);
      UnderStep(x, groups, keys, i, lower);
      seen', found' := CompareKey(x, keys[i], groups[keys[i]], lower, seen', found');
    }
    assert keys[..|keys|] == keys;
    UnderAll(x, groups, keys, items, lower);
  }

  /** Each contradicting pair is reported exactly once, nothing else is, and every record spells
      out an actual contradiction; the records are in the order of their messages. */
  method DetectContradictions(
    indexed: seq<IndexItem>, items: seq<WorkspaceItem>, lower: string -> string, message: Contradiction -> string)
    returns (report: seq<Contradiction>)
    ensures forall i, j :: 0 <= i < j < |report| ==> PairOf(report[i]) != PairOf(report[j])
    ensures forall p :: IsPair(indexed, items, lower, p) <==> exists c :: c in report && PairOf(c) == p
    ensures forall c :: c in report ==> exists x :: x in indexed && Describes(c, x, items, lower)
    ensures Sorted(report, (a, b) => StrLe(message(a), message(b)))
  {
    var groups, keys := Group(items, lower);
    var seen: set<(string, string)>, found: seq<Contradiction> := {}, [];
    for i := 0 to |indexed|
      invariant Records(found, seen)
      invariant forall p :: p in seen <==> IsPair(indexed[..i], items, lower, p)
      invariant forall c :: c in found ==> exists x :: x in indexed && Describes(c, x, items, lower)
    {
      assert indexed[..i + 1] == indexed[..i] + [indexed[i]];
      seen, found := CompareItem(indexed[i], groups, keys, items, lower, seen, found);
    }
    assert indexed[..|indexed|] == indexed;
    var le := (a: Contradiction, b: Contradiction) => StrLe(message(a), message(b));
    report := Sort(found, le);
    SameElements(found, report);
    MessageOrder(message);
    SortIsSorted(found, le);
    PairsStayDistinct(found, report);
  }

  lemma MessageOrder(message: Contradiction -> string)
    ensures TotalPreorder((a: Contradiction, b: Contradiction) => StrLe(message(a), message(b)))
  {
    var le := (a: Contradiction, b: Contradiction) => StrLe(message(a), message(b));
    forall a, b ensures le(a, b) || le(b, a) {
      StrLeTotal(message(a), message(b));
    }
    forall a, b, c | le(a, b) && le(b, c) ensures le(a, c) {
      StrLeTransitive(message(a), message(b), message(c));
    }
  }

  lemma PairsStayDistinct(found: seq<Contradiction>, report: seq<Contradiction>)
    requires multiset(found) == multiset(report)
    requires forall i, j :: 0 <= i < j < |found| ==> PairOf(found[i]) != PairOf(found[j])
    ensures forall i, j :: 0 <= i < j < |report| ==> PairOf(report[i]) != PairOf(report[j])
  {
    assert Distinct(found);
    DistinctPermutation(found, report);
    SameElements(found, report);
    forall i, j | 0 <= i < j < |report| ensures PairOf(report[i]) != PairOf(report[j]) {
      assert report[i] in found && report[j] in found;
      var k :| 0 <= k < |found| && found[k] == report[i];
      var m :| 0 <= m < |found| && found[m] == report[j];
      assert report[i] != report[j];
    }
  }
}
