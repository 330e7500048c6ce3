/** The size-capped min-heap that the workspace searches keep with `heapq`. */
module CandidateHeap {
  import opened Sequences

  datatype Item = Item(root: string, path: string, score: int, sha256: Option<string>)

  /** (penalized score, serial, item): the serial makes tuples distinct before the item is compared. */
  datatype Entry = Entry(score: int, serial: nat, item: Item)

  predicate Less(a: Entry, b: Entry) {
    a.score < b.score || (a.score == b.score && a.serial < b.serial)
  }

  function Parent(i: int): int
    requires i > 0
  {
    (i - 1) / 2
  }

  ghost predicate OrderedAt(h: seq<Entry>, i: int)
    requires 0 < i < |h|
  {
    !Less(h[i], h[Parent(i)])
  }

  ghost predicate IsHeap(h: seq<Entry>) {
    forall i :: 0 < i < |h| ==> OrderedAt(h, i)
  }

  lemma {:induction false} RootIsLeast(h: seq<Entry>, i: int)
    requires IsHeap(h) && 0 <= i < |h|
    ensures !Less(h[i], h[0])
    decreases i
  {
    if i > 0 {
      RootIsLeast(h, Parent(i));
      assert OrderedAt(h, i);
    }
  }

  function Swap(h: seq<Entry>, i: int, j: int): (r: seq<Entry>)
    requires 0 <= i < |h| && 0 <= j < |h|
    ensures |r| == |h| && multiset(r) == multiset(h)
  {
    h[i := h[j]][j := h[i]]
  }

  class CandidateHeap {
    var entries: seq<Entry>

    constructor ()
      ensures entries == []
    {
      entries := [];
    }

    method Push(e: Entry)
      requires IsHeap(entries)
      modifies this
      ensures IsHeap(entries) && multiset(entries) == old(multiset(entries)) + multiset{e}
    {
      Appended(entries, e);
      entries := entries + [e];
      var j := |entries| - 1;
      while j > 0 && Less(entries[j], entries[Parent(j)])
        invariant 0 <= j < |entries| && HeapAbove(entries, j)
        invariant multiset(entries) == old(multiset(entries)) + multiset{e}
      {
        SiftUp(entries, j);
        entries := Swap(entries, j, Parent(j));
        j := Parent(j);
      }
      assert j > 0 ==> OrderedAt(entries, j);
    }

    /** heapreplace: the least entry leaves, `e` enters. */
    method Replace(e: Entry)
      requires IsHeap(entries) && entries != []
      modifies this
      ensures IsHeap(entries) && |entries| == old(|entries|)
      ensures multiset(entries) + multiset{old(entries[0])} == old(multiset(entries)) + multiset{e}
    {
      RootReplaced(entries, e);
      entries := entries[0 := e];
      ghost var contents := multiset(entries);
      var j := 0;
      while 2 * j + 1 < |entries|
        invariant 0 <= j < |entries| == old(|entries|) && HeapBelow(entries, j) && multiset(entries) == contents
        decreases |entries| - j
      {
        var c := LeastChild(entries, j);
        if !Less(entries[c], entries[j]) {
          break;
        }
        SiftDown(entries, j, c);
        entries := Swap(entries, j, c);
        j := c;
      }
      Settled(entries, j);
    }
  }

  /** A heap but for the entry at `j`, which may be less than its parent. */
  ghost predicate HeapAbove(h: seq<Entry>, j: nat)
    requires j < |h|
  {
    && (forall i :: 0 < i < |h| && i != j ==> OrderedAt(h, i))
    && (forall i :: 0 < i < |h| && j > 0 && Parent(i) == j ==> !Less(h[i], h[Parent(j)]))
  }

  /** A heap but for the entry at `j`, which may be greater than its children. */
  ghost predicate HeapBelow(h: seq<Entry>, j: nat)
    requires j < |h|
  {
    && (forall i :: 0 < i < |h| && Parent(i) != j ==> OrderedAt(h, i))
    && (forall i :: 0 < i < |h| && j > 0 && Parent(i) == j ==> !Less(h[i], h[Parent(j)]))
  }

  lemma Appended(h: seq<Entry>, e: Entry)
    requires IsHeap(h)
    ensures HeapAbove(h + [e], |h|)
  {
    forall i | 0 < i < |h| ensures OrderedAt(h + [e], i) {
      assert OrderedAt(h, i);
    }
  }

  lemma RootReplaced(h: seq<Entry>, e: Entry)
    requires IsHeap(h) && h != []
    ensures HeapBelow(h[0 := e], 0)
  {
    forall i | 0 < i < |h| && Parent(i) != 0 ensures OrderedAt(h[0 := e], i) {
      assert OrderedAt(h, i);
    }
  }

  lemma SiftUp(h: seq<Entry>, j: nat)
    requires 0 < j < |h| && HeapAbove(h, j) && Less(h[j], h[Parent(j)])
    ensures HeapAbove(Swap(h, j, Parent(j)), Parent(j))
  {
    var p := Parent(j);
    var r := Swap(h, j, p);
    forall i | 0 < i < |h| && i != p ensures OrderedAt(r, i) {
      if i != j {
        assert OrderedAt(h, i);
      }
    }
    forall i | 0 < i < |h| && p > 0 && Parent(i) == p ensures !Less(r[i], r[Parent(p)]) {
      assert OrderedAt(h, p);
      if i != j {
        assert OrderedAt(h, i);
      }
    }
  }

  ghost predicate IsLeastChild(h: seq<Entry>, j: nat, c: nat) {
    && j < c < |h| && Parent(c) == j
    && forall i :: 0 < i < |h| && Parent(i) == j ==> !Less(h[i], h[c])
  }

  method LeastChild(h: seq<Entry>, j: nat) returns (c: nat)
    requires 2 * j + 1 < |h|
    ensures IsLeastChild(h, j, c)
  {
    c := 2 * j + 1;
    if c + 1 < |h| && Less(h[c + 1], h[c]) {
      c := c + 1;
    }
    assert forall i :: 0 < i < |h| && Parent(i) == j ==> i == 2 * j + 1 || i == 2 * j + 2;
  }

  /** The entry at `j` has come to rest: no child is less than it. */
  lemma Settled(h: seq<Entry>, j: nat)
    requires j < |h| && HeapBelow(h, j)
    requires 2 * j + 1 >= |h| || exists c: nat :: IsLeastChild(h, j, c) && !Less(h[c], h[j])
    ensures IsHeap(h)
  {
    forall i | 0 < i < |h| ensures OrderedAt(h, i) {
      if Parent(i) == j {
        var c: nat :| IsLeastChild(h, j, c) && !Less(h[c], h[j]);
        assert !Less(h[i], h[c]);
      }
    }
  }

  lemma SiftDown(h: seq<Entry>, j: nat, c: nat)
    requires j < |h| && IsLeastChild(h, j, c) && HeapBelow(h, j) && Less(h[c], h[j])
    ensures HeapBelow(Swap(h, j, c), c)
  {
    var r := Swap(h, j, c);
    assert Parent(c) == j;
    forall i | 0 < i < |h| && Parent(i) != c ensures OrderedAt(r, i) {
      if Parent(i) != j {
        assert OrderedAt(h, i);
      }
    }
    forall i | 0 < i < |h| && Parent(i) == c ensures !Less(r[i], r[Parent(c)]) {
      assert OrderedAt(h, i);
    }
  }

  // ---------- the bounded scan ----------

  function EntryOf(matches: seq<Item>, i: nat): Entry
    requires i < |matches|
  {
    Entry(matches[i].score, i + 1, matches[i])
  }

  function Entries(matches: seq<Item>): seq<Entry> {
    seq(|matches|, i requires 0 <= i < |matches| => EntryOf(matches, i))
  }

  predicate EntryLe(a: Entry, b: Entry) {
    !Less(b, a)
  }

  /** What a cap of `limit` keeps, as a sorted list: an entry is inserted while there is room, and
      after that only if it outscores the least one, which leaves. */
  function Kept(all: seq<Entry>, limit: nat): seq<Entry> {
    if all == [] then [] else Admit(Kept(all[..|all| - 1], limit), all[|all| - 1], limit)
  }

  function Admit(before: seq<Entry>, e: Entry, limit: nat): seq<Entry> {
    if |before| < limit then InsertSorted(e, before, EntryLe)
    else if before != [] && e.score > before[0].score then InsertSorted(e, before[1..], EntryLe)
    else before
  }

  lemma EntryLeIsTotalPreorder()
    ensures TotalPreorder(EntryLe)
  {}

  lemma {:induction false} KeptIsSorted(all: seq<Entry>, limit: nat)
    ensures Sorted(Kept(all, limit), EntryLe)
  {
    if all != [] {
      KeptIsSorted(all[..|all| - 1], limit);
      AdmitSorts(Kept(all[..|all| - 1], limit), all[|all| - 1], limit);
    }
  }

  lemma AdmitSorts(before: seq<Entry>, e: Entry, limit: nat)
    requires Sorted(before, EntryLe)
    ensures Sorted(Admit(before, e, limit), EntryLe)
  {
    EntryLeIsTotalPreorder();
    InsertSortedIsSorted(e, before, EntryLe);
    if before != [] {
      InsertSortedIsSorted(e, before[1..], EntryLe);
    }
  }

  /** Equal serial numbers, equal entries. */
  ghost predicate Numbered(all: seq<Entry>) {
    forall x, y :: x in all && y in all && x.serial == y.serial ==> x == y
  }

  /** The heap keeps exactly the entries of the sorted list. */
  method KeepTop(matches: seq<Item>, limit: nat) returns (kept: seq<Entry>)
    requires limit > 0
    ensures multiset(kept) == multiset(Kept(Entries(matches), limit))
  {
    var heap := new CandidateHeap();
    ghost var all := Entries(matches);
    for i := 0 to |matches|
      invariant IsHeap(heap.entries) && multiset(heap.entries) == multiset(Kept(all[..i], limit))
    {
      var e := EntryOf(matches, i);
      SameRoot(all, i, limit, heap.entries);
      KeptStep(all, i, limit);
      if |heap.entries| < limit {
        heap.Push(e);
      } else if e.score > heap.entries[0].score {
        ghost var before, kept' := heap.entries, Kept(all[..i + 1], limit);
        heap.Replace(e);
        CancelOne(multiset(heap.entries), multiset(kept'), before[0]);
      }
    }
    assert all[..|matches|] == all;
    kept := heap.entries;
  }

  /** One more entry: inserted, exchanged for the least one, or passed over. */
  ghost predicate Admits(before: seq<Entry>, e: Entry, after: seq<Entry>, limit: nat) {
    if |before| < limit then multiset(after) == multiset(before) + multiset{e}
    else if before != [] && e.score > before[0].score then
      multiset(after) + multiset{before[0]} == multiset(before) + multiset{e}
    else after == before
  }

  lemma KeptLast(all: seq<Entry>, limit: nat)
    requires all != []
    ensures all == all[..|all| - 1] + [all[|all| - 1]]
    ensures Admits(Kept(all[..|all| - 1], limit), all[|all| - 1], Kept(all, limit), limit)
  {
    LastApart(all);
    AdmitAdmits(Kept(all[..|all| - 1], limit), all[|all| - 1], limit);
  }

  lemma LastApart<T>(all: seq<T>)
    requires all != []
    ensures all == all[..|all| - 1] + [all[|all| - 1]]
  {}

  lemma AdmitAdmits(before: seq<Entry>, e: Entry, limit: nat)
    ensures Admits(before, e, Admit(before, e, limit), limit)
  {
    assert before != [] ==> before == [before[0]] + before[1..];
  }

  lemma KeptStep(all: seq<Entry>, i: nat, limit: nat)
    requires i < |all|
    ensures Admits(Kept(all[..i], limit), all[i], Kept(all[..i + 1], limit), limit)
  {
    var upTo := all[..i + 1];
    assert upTo[..|upTo| - 1] == all[..i] && upTo[|upTo| - 1] == all[i];
    KeptLast(upTo, limit);
  }

  /** Heap and list agree on their least entry. */
  lemma SameRoot(all: seq<Entry>, i: nat, limit: nat, heap: seq<Entry>)
    requires i <= |all| && Numbered(all) && IsHeap(heap) && multiset(heap) == multiset(Kept(all[..i], limit))
    ensures |heap| == |Kept(all[..i], limit)| && (heap != [] ==> heap[0] == Kept(all[..i], limit)[0])
  {
    var kept := Kept(all[..i], limit);
    assert |multiset(heap)| == |multiset(kept)|;
    if heap != [] {
      SameElements(heap, kept);
      KeptIsSorted(all[..i], limit);
      KeptMembers(all[..i], limit);
      assert heap[0] in kept && kept[0] in heap;
      var j :| 0 <= j < |heap| && heap[j] == kept[0];
      RootIsLeast(heap, j);
      if heap[0] != kept[0] {
        HeadIsLeast(kept, EntryLe, heap[0]);
      }
    }
  }

  lemma {:induction false} KeptMembers(all: seq<Entry>, limit: nat)
    ensures forall e :: e in Kept(all, limit) ==> e in all
  {
    if all != [] {
      var init, e := all[..|all| - 1], all[|all| - 1];
      KeptMembers(init, limit);
      KeptLast(all, limit);
      AdmittedMembers(Kept(init, limit), e, Kept(all, limit), limit);
    }
  }

  lemma AdmittedMembers(before: seq<Entry>, e: Entry, after: seq<Entry>, limit: nat)
    requires Admits(before, e, after, limit)
    ensures forall x :: x in after ==> x in before || x == e
  {
    forall x | x in after ensures x in before || x == e {
      assert x in multiset(after);
      if |before| >= limit && before != [] && e.score > before[0].score {
        assert x in multiset(after) + multiset{before[0]};
      }
      assert x in multiset(before) || x == e;
    }
  }

  /** The least score, and among equal scores the earliest match. */
  ghost predicate Evicted(kept: seq<Entry>, gone: Entry) {
    && gone in kept
    && forall x :: x in kept ==> x.score > gone.score || (x.score == gone.score && x.serial >= gone.serial)
  }

  lemma HeadEvicted(kept: seq<Entry>)
    requires kept != [] && Sorted(kept, EntryLe)
    ensures Evicted(kept, kept[0])
  {
    forall x | x in kept ensures x.score > kept[0].score || (x.score == kept[0].score && x.serial >= kept[0].serial) {
      if x != kept[0] {
        HeadIsLeast(kept, EntryLe, x);
      }
    }
  }

  /** The list with one more entry. */
  ghost predicate Steps(before: seq<Entry>, e: Entry, after: seq<Entry>, limit: nat) {
    if |before| < limit then multiset(after) == multiset(before) + multiset{e}
    else if exists x :: x in before && x.score < e.score then
      exists gone :: Evicted(before, gone) && multiset(after) == multiset(before) - multiset{gone} + multiset{e}
    else after == before
  }

  lemma AdmitSteps(before: seq<Entry>, e: Entry, after: seq<Entry>, limit: nat)
    requires limit > 0 && Sorted(before, EntryLe) && Admits(before, e, after, limit)
    ensures Steps(before, e, after, limit)
  {
    if |before| >= limit {
      HeadEvicted(before);
      if e.score > before[0].score {
        MultisetSwap(multiset(after), multiset(before), before[0], e);
      }
    }
  }

  lemma MultisetSwap<T>(after: multiset<T>, before: multiset<T>, gone: T, e: T)
    requires after + multiset{gone} == before + multiset{e} && gone in before
    ensures after == before - multiset{gone} + multiset{e}
  {
    assert after == after + multiset{gone} - multiset{gone};
  }

  /** One more match of a full heap either outscores some entry, and then the lowest and earliest one
      makes room for it, or it leaves everything as it was. */
  lemma FullHeapStep(all: seq<Entry>, e: Entry, limit: nat)
    requires limit > 0
    ensures Steps(Kept(all, limit), e, Kept(all + [e], limit), limit)
  {
    assert (all + [e])[..|all|] == all;
    KeptIsSorted(all, limit);
    AdmitAdmits(Kept(all, limit), e, limit);
    AdmitSteps(Kept(all, limit), e, Kept(all + [e], limit), limit);
  }

  // ---------- what is kept outscores what is dropped ----------

  /** Nothing dropped outscores anything kept, and only a full list drops anything. */
  ghost predicate TopOf(all: seq<Entry>, kept: seq<Entry>, dropped: multiset<Entry>, limit: nat) {
    && multiset(all) == multiset(kept) + dropped
    && (forall k, d :: k in kept && d in dropped ==> d.score <= k.score)
    && |kept| == if |all| <= limit then |all| else limit
  }

  ghost function Dropped(all: seq<Entry>, kept: seq<Entry>): multiset<Entry> {
    multiset(all) - multiset(kept)
  }

  lemma {:induction false} KeptIsTop(all: seq<Entry>, limit: nat)
    requires limit > 0
    ensures TopOf(all, Kept(all, limit), Dropped(all, Kept(all, limit)), limit)
  {
    if all != [] {
      var init, e := all[..|all| - 1], all[|all| - 1];
      KeptIsTop(init, limit);
      KeptLast(all, limit);
      KeptIsSorted(init, limit);
      TopStep(init, Kept(init, limit), e, Kept(all, limit), limit);
    }
  }

  lemma TopStep(init: seq<Entry>, before: seq<Entry>, e: Entry, after: seq<Entry>, limit: nat)
    requires limit > 0 && TopOf(init, before, Dropped(init, before), limit)
    requires Sorted(before, EntryLe) && Admits(before, e, after, limit)
    ensures TopOf(init + [e], after, Dropped(init + [e], after), limit)
  {
    if |before| < limit {
      NothingDroppedYet(init, before, Dropped(init, before));
      TopGrows(init, before, e, after, limit);
    } else {
      LeastScore(before);
      TopExchanges(init, before, Dropped(init, before), e, after, limit);
    }
  }

  lemma LeastScore(kept: seq<Entry>)
    requires Sorted(kept, EntryLe)
    ensures forall k :: k in kept ==> kept[0].score <= k.score
  {
    forall k | k in kept ensures kept[0].score <= k.score {
      var j :| 0 <= j < |kept| && kept[j] == k;
    }
  }

  lemma TopGrows(init: seq<Entry>, before: seq<Entry>, e: Entry, after: seq<Entry>, limit: nat)
    requires |before| < limit && TopOf(init, before, multiset{}, limit) && Admits(before, e, after, limit)
    ensures TopOf(init + [e], after, Dropped(init + [e], after), limit)
  {
    assert |multiset(after)| == |multiset(before)| + 1;
    assert Dropped(init + [e], after) == multiset{};
  }

  lemma Exchange<T>(before: multiset<T>, earlier: multiset<T>, after: multiset<T>, e: T, gone: T)
    requires after + multiset{gone} == before + multiset{e}
    ensures before + earlier + multiset{e} == after + (earlier + multiset{gone})
    ensures before + earlier + multiset{e} - after == earlier + multiset{gone}
    ensures |after| == |before|
  {
    assert before + earlier + multiset{e} == (after + multiset{gone}) + earlier;
    assert |after + multiset{gone}| == |before + multiset{e}|;
  }

  lemma TopExchanges(
    init: seq<Entry>, before: seq<Entry>, earlier: multiset<Entry>, e: Entry, after: seq<Entry>, limit: nat)
    requires TopOf(init, before, earlier, limit) && |before| == limit > 0 && Admits(before, e, after, limit)
    requires forall k :: k in before ==> before[0].score <= k.score
    ensures TopOf(init + [e], after, Dropped(init + [e], after), limit)
  {
    var gone := if e.score > before[0].score then before[0] else e;
    Exchange(multiset(before), earlier, multiset(after), e, gone);
    AdmittedMembers(before, e, after, limit);
    forall k, d | k in after && d in Dropped(init + [e], after) ensures d.score <= k.score {
      assert d in earlier + multiset{gone};
      assert before[0] in before;
      if k !in before {
        assert k == e && gone == before[0];
      }
    }
  }

  lemma NothingDroppedYet(all: seq<Entry>, kept: seq<Entry>, dropped: multiset<Entry>)
    requires multiset(all) == multiset(kept) + dropped && |kept| == |all|
    ensures dropped == multiset{}
  {
    assert |multiset(all)| == |multiset(kept)| + |dropped|;
  }
}
