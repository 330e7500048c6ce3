/** Ranked workspace search: a size-capped heap, a sort, hash de-duplication and truncation
    compared with "sort every match". */
module BoundedSearch {
  import opened Sequences
  import opened CandidateHeap

  /** `lower` is `str.lower`; the sort key is (-score, lowered path). */
  predicate RankLe(lower: string -> string, a: Item, b: Item) {
    a.score > b.score || (a.score == b.score && StrLe(lower(a.path), lower(b.path)))
  }

  lemma RankIsTotalPreorder(lower: string -> string)
    ensures TotalPreorder((a, b) => RankLe(lower, a, b))
  {
    var le := (a, b) => RankLe(lower, a, b);
    forall x, y ensures le(x, y) || le(y, x) {
      StrLeTotal(lower(x.path), lower(y.path));
    }
    forall x, y, z | le(x, y) && le(y, z) ensures le(x, z) {
      if x.score == y.score == z.score {
        StrLeTransitive(lower(x.path), lower(y.path), lower(z.path));
      }
    }
  }

  function Ranked(items: seq<Item>, lower: string -> string): seq<Item> {
    Sort(items, (a, b) => RankLe(lower, a, b))
  }

  /** A hash that takes part in de-duplication: Python treats None and "" as absent. */
  predicate Hashed(x: Item) {
    x.sha256.Some? && x.sha256.value != ""
  }

  function FirstPerHash(items: seq<Item>, seen: set<string>): seq<Item> {
    if items == [] then []
    else if Hashed(items[0]) && items[0].sha256.value in seen then FirstPerHash(items[1..], seen)
    else [items[0]] + FirstPerHash(items[1..], if Hashed(items[0]) then seen + {items[0].sha256.value} else seen)
  }

  function Take(items: seq<Item>, n: nat): seq<Item> {
    if |items| <= n then items else items[..n]
  }

  /** The reference: rank every match, keep the first of each hash, truncate. */
  function SearchAll(matches: seq<Item>, lower: string -> string, maxResults: nat): seq<Item> {
    Take(FirstPerHash(Ranked(matches, lower), {}), maxResults)
  }

  function ItemsOf(entries: seq<Entry>): seq<Item> {
    seq(|entries|, i requires 0 <= i < |entries| => entries[i].item)
  }

  /** Between one and two hundred. */
  function Clamp(requested: int): (n: nat)
    ensures 1 <= n <= 200 && (n < requested ==> n == 200) && (n > requested ==> n == 1)
  {
    if requested > 200 then 200 else if requested < 1 then 1 else requested
  }

  // ---------- the search loop ----------

  method Deduplicate(ordered: seq<Item>, maxResults: nat) returns (results: seq<Item>)
    requires maxResults > 0
    ensures results == Take(FirstPerHash(ordered, {}), maxResults)
  {
    results := [];
    var seen: set<string> := {};
    for i := 0 to |ordered|
      invariant |results| < maxResults
      invariant FirstPerHash(ordered, {}) == results + FirstPerHash(ordered[i..], seen)
    {
      var item := ordered[i];
      assert ordered[i..][1..] == ordered[i + 1..];
      if Hashed(item) && item.sha256.value in seen {
        continue;
      }
      results := results + [item];
      if Hashed(item) {
        seen := seen + {item.sha256.value};
      }
      if |results| >= maxResults {
        return;
      }
    }
  }

  /** An item is kept unless an earlier one has the same content hash. */
  lemma {:induction false} KeptUnlessRepeated(items: seq<Item>, x: Item, seen: set<string>)
    ensures FirstPerHash(items + [x], seen) ==
            FirstPerHash(items, seen) + (if Repeats(x, items) || (Hashed(x) && x.sha256.value in seen) then [] else [x])
  {
    if items == [] {
      assert items + [x] == [x] && [x][1..] == [];
    } else {
      var seen' := if Hashed(items[0]) then seen + {items[0].sha256.value} else seen;
      var rest := items[1..];
      assert (items + [x])[0] == items[0] && (items + [x])[1..] == rest + [x];
      assert items == [items[0]] + rest;
      assert Repeats(x, items) <==> Repeats(x, rest) || (Hashed(x) && x.sha256 == items[0].sha256);
      KeptUnlessRepeated(rest, x, seen);
      KeptUnlessRepeated(rest, x, seen');
    }
  }

  predicate Repeats(x: Item, earlier: seq<Item>) {
    Hashed(x) && exists y | y in earlier :: y.sha256 == x.sha256
  }

  /** Higher scores first, equal scores in the order of the lowered paths. */
  ghost predicate InRankOrder(items: seq<Item>, lower: string -> string) {
    forall i, j :: 0 <= i < j < |items| ==> GoesBefore(items[i], items[j], lower)
  }

  ghost predicate GoesBefore(a: Item, b: Item, lower: string -> string) {
    a.score > b.score || (a.score == b.score && StrLe(lower(a.path), lower(b.path)))
  }

  lemma {:induction false} FirstPerHashInOrder(items: seq<Item>, seen: set<string>, lower: string -> string)
    requires InRankOrder(items, lower)
    ensures InRankOrder(FirstPerHash(items, seen), lower)
  {
    if items != [] {
      var seen' := if Hashed(items[0]) then seen + {items[0].sha256.value} else seen;
      FirstPerHashInOrder(items[1..], seen, lower);
      FirstPerHashInOrder(items[1..], seen', lower);
      FirstPerHashMembers(items[1..], seen');
      var kept := FirstPerHash(items[1..], seen');
      forall i | 0 <= i < |kept| ensures GoesBefore(items[0], kept[i], lower) {
        assert kept[i] in items[1..];
      }
    }
  }

  lemma RankedInOrder(items: seq<Item>, lower: string -> string)
    ensures InRankOrder(Ranked(items, lower), lower)
  {
    RankIsTotalPreorder(lower);
    SortIsSorted(items, (a, b) => RankLe(lower, a, b));
  }

  /** Lowered paths tell the matches apart. */
  ghost predicate DistinctPaths(matches: seq<Item>, lower: string -> string) {
    forall x, y :: x in matches && y in matches && lower(x.path) == lower(y.path) ==> x == y
  }

  /** The items that a heap of `limit` entries keeps of the matches. */
  function KeptItems(matches: seq<Item>, limit: nat): seq<Item> {
    ItemsOf(Kept(Entries(matches), limit))
  }

  /** What the heap kept loses nothing that counts: it yields enough results, or every other match
      repeats a hash that it holds. */
  ghost predicate Suffices(matches: seq<Item>, n: nat) {
    var kept := KeptItems(matches, 4 * n);
    Survivors(kept) >= n || OnlyRepeats(kept, multiset(matches) - multiset(kept))
  }

  /** No file content occurs more than four times among the matches. */
  ghost predicate AtMostFourCopies(matches: seq<Item>) {
    forall h :: |WithHash(matches, h)| <= 4
  }

  /** The bounded search is the reference applied to what the heap keeps. Its scores are a prefix of
      the reference's on all matches, equal exactly when the heap suffices, and so whenever no
      content occurs more than four times. Distinct lowered paths fix the items themselves. */
  method BoundedSearch(matches: seq<Item>, lower: string -> string, requested: int) returns (results: seq<Item>)
    ensures var n, all := Clamp(requested), SearchAll(matches, lower, Clamp(requested));
            && Scores(results) == Scores(SearchAll(KeptItems(matches, 4 * n), lower, n))
            && Scores(results) <= Scores(all)
            && (Scores(results) == Scores(all) <==> Suffices(matches, n))
            && (AtMostFourCopies(matches) ==> Scores(results) == Scores(all))
            && (DistinctPaths(matches, lower) ==> results == SearchAll(KeptItems(matches, 4 * n), lower, n))
            && (DistinctPaths(matches, lower) && |matches| <= 4 * n ==> results == all)
    ensures |results| <= Clamp(requested) && InRankOrder(results, lower)
  {
    var n := Clamp(requested);
    var candidates := KeepTop(matches, 4 * n);
    var ordered := Ranked(ItemsOf(candidates), lower);
    results := Deduplicate(ordered, n);
    RankedInOrder(ItemsOf(candidates), lower);
    FirstPerHashInOrder(ordered, {}, lower);
    ItemsPermuted(candidates, Kept(Entries(matches), 4 * n));
    OrderLost(matches, ItemsOf(candidates), lower, n);
    KeptSearch(matches, lower, n);
    FewCopiesSuffice(matches, n);
  }

  // ---------- counting what survives de-duplication ----------

  ghost function HashesAtLeast(items: seq<Item>, s: int): set<string> {
    set x | x in items && Hashed(x) && x.score >= s :: x.sha256.value
  }

  ghost function UnhashedAtLeast(items: seq<Item>, s: int): multiset<Item> {
    if items == [] then multiset{}
    else
      UnhashedAtLeast(items[1..], s)
      + if !Hashed(items[0]) && items[0].score >= s then multiset{items[0]} else multiset{}
  }

  lemma {:induction false} UnhashedCount(items: seq<Item>, s: int, x: Item)
    ensures UnhashedAtLeast(items, s)[x] == if !Hashed(x) && x.score >= s then multiset(items)[x] else 0
  {
    if items != [] {
      UnhashedCount(items[1..], s, x);
      assert items == [items[0]] + items[1..];
    }
  }

  ghost function CountAtLeast(items: seq<Item>, s: int): nat {
    if items == [] then 0 else CountAtLeast(items[1..], s) + if items[0].score >= s then 1 else 0
  }

  ghost predicate Descending(items: seq<Item>) {
    forall i, j :: 0 <= i < j < |items| ==> items[i].score >= items[j].score
  }

  lemma RankedDescends(items: seq<Item>, lower: string -> string)
    ensures Descending(Ranked(items, lower))
  {
    RankIsTotalPreorder(lower);
    SortIsSorted(items, (a, b) => RankLe(lower, a, b));
  }

  lemma {:induction false} FirstPerHashMembers(items: seq<Item>, seen: set<string>)
    ensures forall x :: x in FirstPerHash(items, seen) ==> x in items
  {
    if items != [] {
      FirstPerHashMembers(items[1..], seen);
      FirstPerHashMembers(items[1..], if Hashed(items[0]) then seen + {items[0].sha256.value} else seen);
    }
  }

  lemma {:induction false} FirstPerHashDescends(items: seq<Item>, seen: set<string>)
    requires Descending(items)
    ensures Descending(FirstPerHash(items, seen))
  {
    if items != [] {
      var seen' := if Hashed(items[0]) then seen + {items[0].sha256.value} else seen;
      FirstPerHashDescends(items[1..], seen);
      FirstPerHashDescends(items[1..], seen');
      FirstPerHashMembers(items[1..], seen');
      HeadIsGreatest(items);
    }
  }

  lemma HeadIsGreatest(items: seq<Item>)
    requires Descending(items) && items != []
    ensures forall x :: x in items[1..] ==> x.score <= items[0].score
  {}

  lemma HashesStep(items: seq<Item>, s: int)
    requires items != []
    ensures HashesAtLeast(items, s) ==
            HashesAtLeast(items[1..], s)
            + if Hashed(items[0]) && items[0].score >= s then {items[0].sha256.value} else {}
  {
    assert items == [items[0]] + items[1..];
  }

  lemma CountCons(x: Item, rest: seq<Item>, s: int)
    ensures CountAtLeast([x] + rest, s) == CountAtLeast(rest, s) + if x.score >= s then 1 else 0
  {
    assert ([x] + rest)[1..] == rest;
  }

  /** How many results score at least `s`: one per unseen hash, and every unhashed match. */
  lemma {:induction false} SurvivorsAtLeast(items: seq<Item>, seen: set<string>, s: int)
    requires Descending(items)
    ensures CountAtLeast(FirstPerHash(items, seen), s) == |HashesAtLeast(items, s) - seen| + |UnhashedAtLeast(items, s)|
  {
    if items == [] {
      assert HashesAtLeast(items, s) - seen == {};
    } else if items[0].score < s {
      SurvivorsBelow(items, seen, s);
    } else if !Hashed(items[0]) {
      SurvivorsAtLeast(items[1..], seen, s);
      UnhashedSurvives(items, seen, s);
    } else if items[0].sha256.value in seen {
      SurvivorsAtLeast(items[1..], seen, s);
      RepeatVanishes(items, seen, s);
    } else {
      SurvivorsAtLeast(items[1..], seen + {items[0].sha256.value}, s);
      NewHashSurvives(items, seen, s);
    }
  }

  lemma UnhashedSurvives(items: seq<Item>, seen: set<string>, s: int)
    requires items != [] && !Hashed(items[0]) && items[0].score >= s
    ensures CountAtLeast(FirstPerHash(items, seen), s) == CountAtLeast(FirstPerHash(items[1..], seen), s) + 1
    ensures HashesAtLeast(items, s) == HashesAtLeast(items[1..], s)
    ensures |UnhashedAtLeast(items, s)| == |UnhashedAtLeast(items[1..], s)| + 1
  {
    HashesStep(items, s);
    CountCons(items[0], FirstPerHash(items[1..], seen), s);
  }

  lemma RepeatVanishes(items: seq<Item>, seen: set<string>, s: int)
    requires items != [] && Hashed(items[0]) && items[0].sha256.value in seen
    ensures FirstPerHash(items, seen) == FirstPerHash(items[1..], seen)
    ensures HashesAtLeast(items, s) - seen == HashesAtLeast(items[1..], s) - seen
    ensures UnhashedAtLeast(items, s) == UnhashedAtLeast(items[1..], s)
  {
    HashesStep(items, s);
  }

  lemma NewHashSurvives(items: seq<Item>, seen: set<string>, s: int)
    requires items != [] && Hashed(items[0]) && items[0].sha256.value !in seen && items[0].score >= s
    ensures var seen' := seen + {items[0].sha256.value};
            && CountAtLeast(FirstPerHash(items, seen), s) == CountAtLeast(FirstPerHash(items[1..], seen'), s) + 1
            && |HashesAtLeast(items, s) - seen| == |HashesAtLeast(items[1..], s) - seen'| + 1
            && UnhashedAtLeast(items, s) == UnhashedAtLeast(items[1..], s)
  {
    HashesStep(items, s);
    CountCons(items[0], FirstPerHash(items[1..], seen + {items[0].sha256.value}), s);
    NewHash(HashesAtLeast(items[1..], s), seen, items[0].sha256.value);
  }

  lemma NewHash(hashes: set<string>, seen: set<string>, h: string)
    requires h !in seen
    ensures |(hashes + {h}) - seen| == |hashes - (seen + {h})| + 1
  {
    assert (hashes + {h}) - seen == (hashes - (seen + {h})) + {h};
  }

  lemma SurvivorsBelow(items: seq<Item>, seen: set<string>, s: int)
    requires Descending(items) && items != [] && items[0].score < s
    ensures CountAtLeast(FirstPerHash(items, seen), s) == 0
    ensures HashesAtLeast(items, s) == {} && UnhashedAtLeast(items, s) == multiset{}
  {
    FirstPerHashMembers(items, seen);
    NoneAtLeast(FirstPerHash(items, seen), s);
    NoneUnhashed(items, s);
  }

  lemma {:induction false} NoneUnhashed(items: seq<Item>, s: int)
    requires forall x :: x in items ==> x.score < s
    ensures UnhashedAtLeast(items, s) == multiset{}
  {
    if items != [] {
      NoneUnhashed(items[1..], s);
    }
  }

  /** In a descending list the items scoring at least `s` are its first `CountAtLeast`. */
  lemma {:induction false} RankAtLeast(items: seq<Item>, s: int, i: nat)
    requires Descending(items)
    ensures i < CountAtLeast(items, s) <==> i < |items| && items[i].score >= s
  {
    if items != [] {
      var rest := items[1..];
      if i > 0 {
        RankAtLeast(rest, s, i - 1);
      }
      if items[0].score < s {
        NoneAtLeast(items, s);
      }
    }
  }

  lemma {:induction false} NoneAtLeast(items: seq<Item>, s: int)
    requires forall x :: x in items ==> x.score < s
    ensures CountAtLeast(items, s) == 0
  {
    if items != [] {
      NoneAtLeast(items[1..], s);
    }
  }

  // ---------- the bounded search refines the reference ----------

  function Scores(items: seq<Item>): seq<int> {
    seq(|items|, i requires 0 <= i < |items| => items[i].score)
  }

  /** `matches` split into kept and dropped, nothing dropped outscoring anything kept. */
  ghost predicate Split(matches: seq<Item>, kept: seq<Item>, dropped: multiset<Item>) {
    && multiset(matches) == multiset(kept) + dropped
    && forall k, d :: k in kept && d in dropped ==> d.score <= k.score
  }

  lemma WithoutOne(ys: seq<Entry>, k: nat)
    requires k < |ys|
    ensures multiset(ys) == multiset(ys[..k] + ys[k + 1..]) + multiset{ys[k]}
    ensures multiset(ItemsOf(ys)) == multiset(ItemsOf(ys[..k] + ys[k + 1..])) + multiset{ys[k].item}
  {
    assert ys == ys[..k] + [ys[k]] + ys[k + 1..];
    assert ItemsOf(ys) == ItemsOf(ys[..k]) + [ys[k].item] + ItemsOf(ys[k + 1..]);
    assert ItemsOf(ys[..k] + ys[k + 1..]) == ItemsOf(ys[..k]) + ItemsOf(ys[k + 1..]);
  }

  lemma {:induction false} ItemsPermuted(xs: seq<Entry>, ys: seq<Entry>)
    requires multiset(xs) == multiset(ys)
    ensures multiset(ItemsOf(xs)) == multiset(ItemsOf(ys))
    decreases |xs|
  {
    if xs == [] {
      assert |multiset(ys)| == 0;
    } else {
      SameElements(xs, ys);
      assert xs[0] in ys;
      var k :| 0 <= k < |ys| && ys[k] == xs[0];
      WithoutOne(ys, k);
      WithoutOne(xs, 0);
      var less, rest := xs[..0] + xs[1..], ys[..k] + ys[k + 1..];
      CancelOne(multiset(less), multiset(rest), xs[0]);
      ItemsPermuted(less, rest);
    }
  }

  /** What the heap keeps and what it drops, as items. */
  lemma KeptSplits(matches: seq<Item>, limit: nat)
    requires limit > 0
    ensures var kept := KeptItems(matches, limit);
            && Split(matches, kept, multiset(matches) - multiset(kept))
            && |kept| == if |matches| <= limit then |matches| else limit
  {
    var all, kept := Entries(matches), Kept(Entries(matches), limit);
    KeptIsTop(all, limit);
    EntriesSplit(matches, kept, Listed(Dropped(all, kept)));
  }

  lemma EntriesSplit(matches: seq<Item>, kept: seq<Entry>, rest: seq<Entry>)
    requires multiset(Entries(matches)) == multiset(kept) + multiset(rest)
    requires forall k, d :: k in kept && d in multiset(rest) ==> d.score <= k.score
    ensures Split(matches, ItemsOf(kept), multiset(matches) - multiset(ItemsOf(kept)))
  {
    var all := Entries(matches);
    ItemsSplit(matches, kept, rest);
    assert multiset(matches) - multiset(ItemsOf(kept)) == multiset(ItemsOf(rest));
    SameElements(all, kept + rest);
    forall e | e in kept + rest ensures e.score == e.item.score {
      assert e in all;
    }
    ScoresCarry(kept, rest);
  }

  lemma ItemsSplit(matches: seq<Item>, kept: seq<Entry>, rest: seq<Entry>)
    requires multiset(Entries(matches)) == multiset(kept) + multiset(rest)
    ensures multiset(Entries(matches)) == multiset(kept + rest)
    ensures multiset(matches) == multiset(ItemsOf(kept)) + multiset(ItemsOf(rest))
  {
    ItemsPermuted(Entries(matches), kept + rest);
    assert ItemsOf(Entries(matches)) == matches;
    assert ItemsOf(kept + rest) == ItemsOf(kept) + ItemsOf(rest);
  }

  lemma ScoresCarry(kept: seq<Entry>, rest: seq<Entry>)
    requires forall k, d :: k in kept && d in multiset(rest) ==> d.score <= k.score
    requires forall e :: e in kept + rest ==> e.score == e.item.score
    ensures forall k, d :: k in ItemsOf(kept) && d in multiset(ItemsOf(rest)) ==> d.score <= k.score
  {
    forall k, d | k in ItemsOf(kept) && d in multiset(ItemsOf(rest)) ensures d.score <= k.score {
      var i :| 0 <= i < |kept| && kept[i].item == k;
      var j :| 0 <= j < |rest| && rest[j].item == d;
      assert kept[i] in kept + rest && rest[j] in kept + rest && rest[j] in multiset(rest);
    }
  }

  /** The elements of a multiset in some order. */
  ghost function Listed<T(!new)>(m: multiset<T>): (xs: seq<T>)
    ensures multiset(xs) == m
    decreases |m|
  {
    if m == multiset{} then []
    else
      var x :| x in m;
      [x] + Listed(m - multiset{x})
  }

  lemma SameCountAbove(matches: seq<Item>, kept: seq<Item>, dropped: multiset<Item>, s: int)
    requires Split(matches, kept, dropped)
    requires forall d :: d in dropped ==> d.score < s
    ensures HashesAtLeast(kept, s) == HashesAtLeast(matches, s)
    ensures |UnhashedAtLeast(kept, s)| == |UnhashedAtLeast(matches, s)|
  {
    SplitElements(matches, kept, dropped);
    forall x ensures UnhashedAtLeast(kept, s)[x] == UnhashedAtLeast(matches, s)[x] {
      UnhashedCount(kept, s, x);
      UnhashedCount(matches, s, x);
      assert x in dropped ==> x.score < s;
    }
    assert UnhashedAtLeast(kept, s) == UnhashedAtLeast(matches, s);
  }

  lemma MoreCountBelow(matches: seq<Item>, kept: seq<Item>, dropped: multiset<Item>, s: int)
    requires Split(matches, kept, dropped)
    ensures HashesAtLeast(kept, s) <= HashesAtLeast(matches, s)
    ensures UnhashedAtLeast(kept, s) <= UnhashedAtLeast(matches, s)
  {
    SplitElements(matches, kept, dropped);
    forall x ensures UnhashedAtLeast(kept, s)[x] <= UnhashedAtLeast(matches, s)[x] {
      UnhashedCount(kept, s, x);
      UnhashedCount(matches, s, x);
    }
  }

  lemma SplitElements(matches: seq<Item>, kept: seq<Item>, dropped: multiset<Item>)
    requires multiset(matches) == multiset(kept) + dropped
    ensures forall x :: x in matches <==> x in kept || x in dropped
  {
    forall x ensures x in matches <==> x in kept || x in dropped {
      assert x in matches <==> x in multiset(matches);
      assert x in kept <==> x in multiset(kept);
    }
  }

  /** De-duplicated results scoring at least `s`, counted without regard to order. */
  lemma RankedSurvivors(items: seq<Item>, lower: string -> string, s: int)
    ensures CountAtLeast(FirstPerHash(Ranked(items, lower), {}), s)
            == |HashesAtLeast(items, s)| + |UnhashedAtLeast(items, s)|
  {
    var ranked := Ranked(items, lower);
    RankedDescends(items, lower);
    SurvivorsAtLeast(ranked, {}, s);
    SameElements(items, ranked);
    assert HashesAtLeast(ranked, s) - {} == HashesAtLeast(items, s);
    forall x ensures UnhashedAtLeast(ranked, s)[x] == UnhashedAtLeast(items, s)[x] {
      UnhashedCount(ranked, s, x);
      UnhashedCount(items, s, x);
    }
    assert UnhashedAtLeast(ranked, s) == UnhashedAtLeast(items, s);
  }

  lemma CountsAgreeOrGrow(matches: seq<Item>, kept: seq<Item>, dropped: multiset<Item>, lower: string -> string, s: int)
    requires Split(matches, kept, dropped)
    ensures var few := CountAtLeast(FirstPerHash(Ranked(kept, lower), {}), s);
            var all := CountAtLeast(FirstPerHash(Ranked(matches, lower), {}), s);
            few <= all && ((forall d :: d in dropped ==> d.score < s) ==> few == all)
  {
    RankedSurvivors(kept, lower, s);
    RankedSurvivors(matches, lower, s);
    MoreCountBelow(matches, kept, dropped, s);
    var h, h' := HashesAtLeast(kept, s), HashesAtLeast(matches, s);
    assert h' == h + (h' - h);
    var u, u' := UnhashedAtLeast(kept, s), UnhashedAtLeast(matches, s);
    assert u' == u + (u' - u);
    if forall d :: d in dropped ==> d.score < s {
      SameCountAbove(matches, kept, dropped, s);
    }
  }

  /** Position by position, the bounded survivors score what the reference's survivors score. */
  lemma SameScoreAt(matches: seq<Item>, kept: seq<Item>, dropped: multiset<Item>, lower: string -> string, i: nat)
    requires Split(matches, kept, dropped)
    requires i < |FirstPerHash(Ranked(kept, lower), {})|
    ensures var few, all := FirstPerHash(Ranked(kept, lower), {}), FirstPerHash(Ranked(matches, lower), {});
            i < |all| && all[i].score == few[i].score
  {
    var few, all := FirstPerHash(Ranked(kept, lower), {}), FirstPerHash(Ranked(matches, lower), {});
    RankedDescends(kept, lower);
    RankedDescends(matches, lower);
    FirstPerHashDescends(Ranked(kept, lower), {});
    FirstPerHashDescends(Ranked(matches, lower), {});
    FirstPerHashMembers(Ranked(kept, lower), {});
    SameElements(kept, Ranked(kept, lower));
    var s := few[i].score;
    CountsAgreeOrGrow(matches, kept, dropped, lower, s);
    RankAtLeast(few, s, i);
    RankAtLeast(all, s, i);
    if all[i].score > s {
      var s' := all[i].score;
      assert few[i] in kept;
      CountsAgreeOrGrow(matches, kept, dropped, lower, s');
      RankAtLeast(few, s', i);
      RankAtLeast(all, s', i);
      assert false;
    }
  }

  lemma SplitScoresArePrefix(
    matches: seq<Item>, kept: seq<Item>, dropped: multiset<Item>, lower: string -> string, maxResults: nat)
    requires Split(matches, kept, dropped)
    ensures Scores(SearchAll(kept, lower, maxResults)) <= Scores(SearchAll(matches, lower, maxResults))
  {
    var few, all := FirstPerHash(Ranked(kept, lower), {}), FirstPerHash(Ranked(matches, lower), {});
    forall i | 0 <= i < |few| ensures i < |all| && all[i].score == few[i].score {
      SameScoreAt(matches, kept, dropped, lower, i);
    }
    if few != [] {
      SameScoreAt(matches, kept, dropped, lower, |few| - 1);
    }
    TakenPrefix(few, all, maxResults);
  }

  lemma TakenPrefix(few: seq<Item>, all: seq<Item>, n: nat)
    requires |few| <= |all| && forall i :: 0 <= i < |few| ==> all[i].score == few[i].score
    ensures Scores(Take(few, n)) <= Scores(Take(all, n))
  {
    var a, b := Take(few, n), Take(all, n);
    assert Scores(a) == Scores(b)[..|a|];
  }

  lemma SameItems(xs: seq<Item>, ys: seq<Item>, lower: string -> string, n: nat)
    requires multiset(xs) == multiset(ys) && DistinctPaths(xs, lower)
    ensures SearchAll(xs, lower, n) == SearchAll(ys, lower, n)
  {
    var le := (a, b) => RankLe(lower, a, b);
    RankIsTotalPreorder(lower);
    SortIsSorted(xs, le);
    SortIsSorted(ys, le);
    SameElements(xs, Sort(xs, le));
    forall x, y | x in Sort(xs, le) && y in Sort(xs, le) && le(x, y) && le(y, x) ensures x == y {
      StrLeAntisymmetric(lower(x.path), lower(y.path));
    }
    SortedUnique(Sort(xs, le), Sort(ys, le), le);
  }

  /** The heap hands over its entries in no particular order: the scores do not depend on it, and
      neither do the items when lowered paths tell them apart. */
  lemma OrderLost(matches: seq<Item>, candidates: seq<Item>, lower: string -> string, n: nat)
    requires n > 0 && multiset(candidates) == multiset(KeptItems(matches, 4 * n))
    ensures Scores(SearchAll(candidates, lower, n)) == Scores(SearchAll(KeptItems(matches, 4 * n), lower, n))
    ensures DistinctPaths(matches, lower) ==>
              SearchAll(candidates, lower, n) == SearchAll(KeptItems(matches, 4 * n), lower, n)
  {
    var kept := KeptItems(matches, 4 * n);
    SplitScoresArePrefix(candidates, kept, multiset{}, lower, n);
    SplitScoresArePrefix(kept, candidates, multiset{}, lower, n);
    if DistinctPaths(matches, lower) {
      KeptSplits(matches, 4 * n);
      SplitElements(matches, kept, multiset(matches) - multiset(kept));
      SameElements(candidates, kept);
      SameItems(candidates, kept, lower, n);
    }
  }

  // ---------- when the bounded search falls short ----------

  /** Every dropped item repeats the hash of a kept one. */
  ghost predicate OnlyRepeats(kept: seq<Item>, dropped: multiset<Item>) {
    forall d :: d in dropped ==> Hashed(d) && exists k :: k in kept && Hashed(k) && k.sha256 == d.sha256
  }

  function Pick(items: seq<Item>, p: Item -> bool): seq<Item> {
    if items == [] then []
    else Pick(items[..|items| - 1], p) + if p(items[|items| - 1]) then [items[|items| - 1]] else []
  }

  lemma {:induction false} Picked(items: seq<Item>, p: Item -> bool, x: Item)
    ensures multiset(Pick(items, p))[x] == if p(x) then multiset(items)[x] else 0
  {
    if items != [] {
      Picked(items[..|items| - 1], p, x);
      assert items == items[..|items| - 1] + [items[|items| - 1]];
    }
  }

  function IsUnhashed(): Item -> bool {
    x => !Hashed(x)
  }

  function HashIs(h: string): Item -> bool {
    x => Hashed(x) && x.sha256.value == h
  }

  function HashIsNot(h: string): Item -> bool {
    x => !HashIs(h)(x)
  }

  function WithHash(items: seq<Item>, h: string): seq<Item> {
    Pick(items, HashIs(h))
  }

  ghost function Hashes(items: seq<Item>): set<string> {
    set x | x in items && Hashed(x) :: x.sha256.value
  }

  /** How many items de-duplication leaves: one per hash, and every unhashed one. */
  ghost function Survivors(items: seq<Item>): nat {
    |Hashes(items)| + |Pick(items, IsUnhashed())|
  }

  ghost predicate AllAtLeast(items: seq<Item>, s: int) {
    forall x :: x in items ==> x.score >= s
  }

  lemma {:induction false} CountAll(items: seq<Item>, s: int)
    requires AllAtLeast(items, s)
    ensures CountAtLeast(items, s) == |items|
  {
    if items != [] {
      CountAll(items[1..], s);
    }
  }

  lemma {:induction false} LowerBound(items: seq<Item>) returns (s: int)
    ensures AllAtLeast(items, s)
  {
    s := 0;
    if items != [] {
      s := LowerBound(items[1..]);
      s := if items[0].score < s then items[0].score else s;
      assert items == [items[0]] + items[1..];
    }
  }

  lemma AllCounted(items: seq<Item>, s: int)
    requires AllAtLeast(items, s)
    ensures HashesAtLeast(items, s) == Hashes(items)
    ensures UnhashedAtLeast(items, s) == multiset(Pick(items, IsUnhashed()))
  {
    forall x ensures UnhashedAtLeast(items, s)[x] == multiset(Pick(items, IsUnhashed()))[x] {
      UnhashedCount(items, s, x);
      Picked(items, IsUnhashed(), x);
      assert x in multiset(items) ==> x in items;
    }
  }

  lemma SurvivorCount(items: seq<Item>, lower: string -> string)
    ensures |FirstPerHash(Ranked(items, lower), {})| == Survivors(items)
  {
    var s := LowerBound(items);
    AllCounted(items, s);
    RankedSurvivors(items, lower, s);
    FirstPerHashMembers(Ranked(items, lower), {});
    SameElements(items, Ranked(items, lower));
    CountAll(FirstPerHash(Ranked(items, lower), {}), s);
  }

  /** Searching the kept part gives the reference's scores exactly when it yields enough results or
      every dropped match repeats a kept hash. */
  lemma SplitExact(
    matches: seq<Item>, kept: seq<Item>, dropped: multiset<Item>, lower: string -> string, maxResults: nat)
    requires Split(matches, kept, dropped)
    ensures Scores(SearchAll(kept, lower, maxResults)) == Scores(SearchAll(matches, lower, maxResults))
            <==> Survivors(kept) >= maxResults || OnlyRepeats(kept, dropped)
  {
    SplitScoresArePrefix(matches, kept, dropped, lower, maxResults);
    SurvivorCount(kept, lower);
    SurvivorCount(matches, lower);
    SameCountsOnlyRepeats(matches, kept, dropped);
    var a, b := Scores(SearchAll(kept, lower, maxResults)), Scores(SearchAll(matches, lower, maxResults));
    assert a == b <==> |a| == |b|;
  }

  lemma SameCountsOnlyRepeats(matches: seq<Item>, kept: seq<Item>, dropped: multiset<Item>)
    requires Split(matches, kept, dropped)
    ensures Survivors(kept) <= Survivors(matches)
    ensures Survivors(kept) == Survivors(matches) <==> OnlyRepeats(kept, dropped)
  {
    PartKept(matches, kept, dropped);
    PartCounts(Hashes(kept), Hashes(matches),
               multiset(Pick(kept, IsUnhashed())), multiset(Pick(matches, IsUnhashed())));
    if Survivors(kept) == Survivors(matches) {
      SameKeysOnlyRepeats(matches, kept, dropped);
    }
    if OnlyRepeats(kept, dropped) {
      RepeatsAddNothing(matches, kept, dropped);
    }
  }

  lemma PartCounts<S, T>(h: set<S>, h': set<S>, u: multiset<T>, u': multiset<T>)
    requires h <= h' && u <= u'
    ensures |h| + |u| <= |h'| + |u'| && (|h| + |u| == |h'| + |u'| ==> h == h' && u == u')
  {
    assert h' == h + (h' - h) && u' == u + (u' - u);
    assert |h'| == |h| + |h' - h| && |u'| == |u| + |u' - u|;
  }

  lemma PartKept(matches: seq<Item>, kept: seq<Item>, dropped: multiset<Item>)
    requires Split(matches, kept, dropped)
    ensures Hashes(kept) <= Hashes(matches)
    ensures multiset(Pick(kept, IsUnhashed())) <= multiset(Pick(matches, IsUnhashed()))
  {
    SplitElements(matches, kept, dropped);
    PicksGrow(kept, matches, IsUnhashed());
  }

  lemma PicksGrow(some: seq<Item>, all: seq<Item>, p: Item -> bool)
    requires multiset(some) <= multiset(all)
    ensures multiset(Pick(some, p)) <= multiset(Pick(all, p)) && |Pick(some, p)| <= |Pick(all, p)|
  {
    forall x ensures multiset(Pick(some, p))[x] <= multiset(Pick(all, p))[x] {
      Picked(some, p, x);
      Picked(all, p, x);
    }
    var a, b := multiset(Pick(some, p)), multiset(Pick(all, p));
    assert b == a + (b - a);
  }

  lemma SameKeysOnlyRepeats(matches: seq<Item>, kept: seq<Item>, dropped: multiset<Item>)
    requires Split(matches, kept, dropped) && Hashes(kept) == Hashes(matches)
    requires multiset(Pick(kept, IsUnhashed())) == multiset(Pick(matches, IsUnhashed()))
    ensures OnlyRepeats(kept, dropped)
  {
    SplitElements(matches, kept, dropped);
    forall d | d in dropped ensures Hashed(d) && exists k :: k in kept && Hashed(k) && k.sha256 == d.sha256 {
      Picked(kept, IsUnhashed(), d);
      Picked(matches, IsUnhashed(), d);
      assert d.sha256.value in Hashes(matches);
      var k :| k in kept && Hashed(k) && k.sha256.value == d.sha256.value;
    }
  }

  lemma RepeatsAddNothing(matches: seq<Item>, kept: seq<Item>, dropped: multiset<Item>)
    requires Split(matches, kept, dropped) && OnlyRepeats(kept, dropped)
    ensures Survivors(kept) == Survivors(matches)
  {
    SplitElements(matches, kept, dropped);
    assert Hashes(kept) == Hashes(matches);
    var u, u' := multiset(Pick(kept, IsUnhashed())), multiset(Pick(matches, IsUnhashed()));
    forall x ensures u[x] == u'[x] {
      Picked(kept, IsUnhashed(), x);
      Picked(matches, IsUnhashed(), x);
      assert x in dropped ==> Hashed(x);
    }
    assert u == u';
    assert |u| == |u'|;
  }

  /** The search of what the heap kept, compared with the search of all matches. */
  lemma KeptSearch(matches: seq<Item>, lower: string -> string, n: nat)
    requires n > 0
    ensures var some, all := SearchAll(KeptItems(matches, 4 * n), lower, n), SearchAll(matches, lower, n);
            && Scores(some) <= Scores(all)
            && (Scores(some) == Scores(all) <==> Suffices(matches, n))
            && (DistinctPaths(matches, lower) && |matches| <= 4 * n ==> some == all)
  {
    var kept := KeptItems(matches, 4 * n);
    KeptSplits(matches, 4 * n);
    SplitScoresArePrefix(matches, kept, multiset(matches) - multiset(kept), lower, n);
    SplitExact(matches, kept, multiset(matches) - multiset(kept), lower, n);
    if |matches| <= 4 * n && DistinctPaths(matches, lower) {
      NothingLost(matches, kept);
      SameItems(matches, kept, lower, n);
    }
  }

  lemma NothingLost(matches: seq<Item>, kept: seq<Item>)
    requires multiset(kept) <= multiset(matches) && |kept| == |matches|
    ensures multiset(kept) == multiset(matches)
  {
    var lost := multiset(matches) - multiset(kept);
    assert multiset(matches) == multiset(kept) + lost;
    assert |multiset(matches)| == |multiset(kept)| + |lost|;
  }

  // ---------- few copies are harmless ----------

  lemma {:induction false} PickSplits(items: seq<Item>, p: Item -> bool, q: Item -> bool)
    requires forall x :: q(x) <==> !p(x)
    ensures |items| == |Pick(items, p)| + |Pick(items, q)|
  {
    if items != [] {
      PickSplits(items[..|items| - 1], p, q);
    }
  }

  lemma PickedMembers(items: seq<Item>, p: Item -> bool)
    ensures forall x :: x in Pick(items, p) <==> x in items && p(x)
  {
    forall x ensures x in Pick(items, p) <==> x in items && p(x) {
      Picked(items, p, x);
      assert x in items <==> x in multiset(items);
      assert x in Pick(items, p) <==> x in multiset(Pick(items, p));
    }
  }

  /** Taking one hash away leaves the other hashes, and all unhashed items. */
  lemma WithoutHash(items: seq<Item>, h: string)
    requires h in Hashes(items)
    ensures var rest := Pick(items, HashIsNot(h));
            && multiset(rest) <= multiset(items) && |items| == |WithHash(items, h)| + |rest|
            && Survivors(rest) == Survivors(items) - 1 && |Hashes(rest)| == |Hashes(items)| - 1
  {
    var rest := Pick(items, HashIsNot(h));
    PickSplits(items, HashIs(h), HashIsNot(h));
    HashesStay(items, h);
    PickedPart(items, HashIsNot(h));
    UnhashedStay(items, h);
  }

  lemma HashesStay(items: seq<Item>, h: string)
    ensures Hashes(Pick(items, HashIsNot(h))) == Hashes(items) - {h}
  {
    var rest := Pick(items, HashIsNot(h));
    PickedMembers(items, HashIsNot(h));
    forall x ensures x in rest <==> x in items && !(Hashed(x) && x.sha256.value == h) {
      assert HashIsNot(h)(x) <==> !HashIs(h)(x);
    }
  }

  lemma PickedPart(items: seq<Item>, p: Item -> bool)
    ensures multiset(Pick(items, p)) <= multiset(items)
  {
    forall x ensures multiset(Pick(items, p))[x] <= multiset(items)[x] {
      Picked(items, p, x);
    }
  }

  lemma UnhashedStay(items: seq<Item>, h: string)
    ensures |Pick(Pick(items, HashIsNot(h)), IsUnhashed())| == |Pick(items, IsUnhashed())|
  {
    var rest := Pick(items, HashIsNot(h));
    var u, u' := multiset(Pick(rest, IsUnhashed())), multiset(Pick(items, IsUnhashed()));
    forall x ensures u[x] == u'[x] {
      Picked(items, HashIsNot(h), x);
      Picked(rest, IsUnhashed(), x);
      Picked(items, IsUnhashed(), x);
      assert IsUnhashed()(x) ==> !HashIs(h)(x) && HashIsNot(h)(x);
    }
    assert u == u';
    assert |u| == |u'|;
  }

  lemma HashListed(items: seq<Item>, x: Item)
    requires x in items && Hashed(x)
    ensures x.sha256.value in Hashes(items)
  {}

  lemma {:induction false} AllUnhashed(items: seq<Item>)
    requires Hashes(items) == {}
    ensures Pick(items, IsUnhashed()) == items
  {
    if items != [] {
      var init, last := items[..|items| - 1], items[|items| - 1];
      assert items == init + [last] && last in items;
      assert Hashes(init) <= Hashes(items);
      AllUnhashed(init);
      if Hashed(last) {
        HashListed(items, last);
        assert false;
      }
    }
  }

  lemma FewerCopies(some: seq<Item>, all: seq<Item>)
    requires multiset(some) <= multiset(all) && AtMostFourCopies(all)
    ensures AtMostFourCopies(some)
  {
    forall h ensures |WithHash(some, h)| <= 4 {
      PicksGrow(some, all, HashIs(h));
      assert |WithHash(all, h)| <= 4;
    }
  }

  lemma {:induction false} FourPerSurvivor(items: seq<Item>)
    requires AtMostFourCopies(items)
    ensures |items| <= 4 * Survivors(items)
    decreases |Hashes(items)|
  {
    if Hashes(items) == {} {
      AllUnhashed(items);
    } else {
      var h :| h in Hashes(items);
      WithoutHash(items, h);
      FewerCopies(Pick(items, HashIsNot(h)), items);
      FourPerSurvivor(Pick(items, HashIsNot(h)));
      assert |WithHash(items, h)| <= 4;
    }
  }

  lemma FewCopiesSuffice(matches: seq<Item>, n: nat)
    requires n > 0
    ensures AtMostFourCopies(matches) ==> Suffices(matches, n)
  {
    var kept := KeptItems(matches, 4 * n);
    KeptSplits(matches, 4 * n);
    if |matches| <= 4 * n {
      NothingLost(matches, kept);
      assert multiset(matches) - multiset(kept) == multiset{};
    } else if AtMostFourCopies(matches) {
      FewerCopies(kept, matches);
      FourPerSurvivor(kept);
    }
  }

  ghost function Copies(copy: Item, n: nat): seq<Item> {
    seq(n, _ => copy)
  }

  lemma {:induction false} KeptWhole(all: seq<Entry>, limit: nat)
    requires |all| <= limit
    ensures multiset(Kept(all, limit)) == multiset(all)
  {
    if all != [] {
      KeptWhole(all[..|all| - 1], limit);
      KeptLast(all, limit);
      assert |multiset(Kept(all[..|all| - 1], limit))| == |multiset(all[..|all| - 1])|;
    }
  }

  /** A full heap of equal scores passes over a later entry that does not outscore them. */
  lemma CrowdKept(copy: Item, hidden: Item, n: nat)
    requires hidden.score <= copy.score && n > 0
    ensures multiset(KeptItems(Copies(copy, n) + [hidden], n)) == multiset(Copies(copy, n))
  {
    var all, crowd := Entries(Copies(copy, n) + [hidden]), Entries(Copies(copy, n));
    assert all[..|all| - 1] == crowd;
    KeptWhole(crowd, n);
    KeptLast(all, n);
    SameElements(Kept(crowd, n), crowd);
    assert |multiset(Kept(crowd, n))| == |multiset(crowd)|;
    assert Kept(crowd, n)[0] in crowd;
    assert forall e :: e in crowd ==> e.score == copy.score;
    ItemsPermuted(Kept(all, n), crowd);
    assert ItemsOf(crowd) == Copies(copy, n);
  }

  lemma OneSurvivor(copy: Item, items: seq<Item>)
    requires Hashed(copy) && forall x :: x in items <==> x == copy
    ensures Survivors(items) == 1 && Hashes(items) == {copy.sha256.value}
  {
    PickedMembers(items, IsUnhashed());
    var unhashed := Pick(items, IsUnhashed());
    assert unhashed != [] ==> unhashed[0] in unhashed;
    assert Hashes(items) == {copy.sha256.value};
  }

  /** Enough copies of one file hide a lower-scoring file from a search for two results or more. */
  lemma BoundedSearchCanFallShort(copy: Item, hidden: Item, lower: string -> string, n: nat)
    requires n >= 2 && hidden.score <= copy.score
    requires Hashed(copy) && Hashed(hidden) && copy.sha256 != hidden.sha256
    ensures var matches := Copies(copy, 4 * n) + [hidden];
            && !Suffices(matches, n)
            && Scores(SearchAll(KeptItems(matches, 4 * n), lower, n)) != Scores(SearchAll(matches, lower, n))
  {
    var matches := Copies(copy, 4 * n) + [hidden];
    var kept := KeptItems(matches, 4 * n);
    CrowdKept(copy, hidden, 4 * n);
    SameElements(kept, Copies(copy, 4 * n));
    assert Copies(copy, 4 * n)[0] == copy;
    OneSurvivor(copy, kept);
    assert multiset(matches) == multiset(kept) + multiset{hidden};
    assert hidden in multiset(matches) - multiset(kept);
    KeptSearch(matches, lower, n);
  }
}
