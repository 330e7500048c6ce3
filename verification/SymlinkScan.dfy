/** The work-list search of the `cep.symlink_free` rule. */
module SymlinkScan {
  import opened Sequences

  const CAP: nat := 50

  type Path = seq<string>

  /** A directory entry; `Broken` is one whose inspection raises. */
  datatype Node =
    | Link(name: string)
    | Directory(name: string, readable: bool, entries: seq<Node>)
    | Regular(name: string)
    | Broken(name: string)

  datatype Root = Root(name: string, readable: bool, entries: seq<Node>)

  datatype Frame = Frame(path: Path, readable: bool, entries: seq<Node>)

  function SkippedDirs(): set<string> {
    {".git", ".lbe", "node_modules", "dist", "build", "coverage", "release-public", "release-exec", "__pycache__"}
  }

  // ---------- what is there to be found ----------

  /** The links reachable through readable directories that are not skipped. */
  ghost function LinksIn(path: Path, entries: seq<Node>, skipped: set<string>): multiset<Path>
    decreases entries
  {
    if entries == [] then multiset{}
    else
      LinksIn(path, entries[..|entries| - 1], skipped) +
      var last := entries[|entries| - 1];
      if last.name in skipped then multiset{}
      else match last
        case Link(n) => multiset{path + [n]}
        case Directory(n, readable, sub) => if readable then LinksIn(path + [n], sub, skipped) else multiset{}
        case _ => multiset{}
  }

  /** The visited paths that cannot be inspected. */
  ghost function UnreadableIn(path: Path, entries: seq<Node>, skipped: set<string>): multiset<Path>
    decreases entries
  {
    if entries == [] then multiset{}
    else
      UnreadableIn(path, entries[..|entries| - 1], skipped) +
      var last := entries[|entries| - 1];
      if last.name in skipped then multiset{}
      else match last
        case Broken(n) => multiset{path + [n]}
        case Directory(n, readable, sub) =>
          if readable then UnreadableIn(path + [n], sub, skipped) else multiset{path + [n]}
        case _ => multiset{}
  }

  ghost function Size(entries: seq<Node>): nat
    decreases entries
  {
    if entries == [] then 0
    else Size(entries[..|entries| - 1]) +
         match entries[|entries| - 1]
         case Directory(_, _, sub) => 1 + Size(sub)
         case _ => 0
  }

  ghost function FrameLinks(f: Frame, skipped: set<string>): multiset<Path> {
    if f.readable then LinksIn(f.path, f.entries, skipped) else multiset{}
  }

  ghost function FrameUnreadable(f: Frame, skipped: set<string>): multiset<Path> {
    if f.readable then UnreadableIn(f.path, f.entries, skipped) else multiset{f.path}
  }

  ghost function PendingLinks(pending: seq<Frame>, skipped: set<string>): multiset<Path> {
    if pending == [] then multiset{}
    else PendingLinks(pending[..|pending| - 1], skipped) + FrameLinks(pending[|pending| - 1], skipped)
  }

  ghost function PendingUnreadable(pending: seq<Frame>, skipped: set<string>): multiset<Path> {
    if pending == [] then multiset{}
    else PendingUnreadable(pending[..|pending| - 1], skipped) + FrameUnreadable(pending[|pending| - 1], skipped)
  }

  ghost function PendingSize(pending: seq<Frame>): nat {
    if pending == [] then 0
    else PendingSize(pending[..|pending| - 1]) + 1 + Size(pending[|pending| - 1].entries)
  }

  function Start(r: Root): Frame {
    Frame([r.name], r.readable, r.entries)
  }

  function Starts(roots: seq<Root>): seq<Frame> {
    seq(|roots|, i requires 0 <= i < |roots| => Start(roots[i]))
  }

  ghost function EntryLinks(path: Path, entry: Node, skipped: set<string>): multiset<Path> {
    if entry.name in skipped then multiset{}
    else match entry
      case Link(n) => multiset{path + [n]}
      case Directory(n, readable, sub) => FrameLinks(Frame(path + [n], readable, sub), skipped)
      case _ => multiset{}
  }

  ghost function EntryUnreadable(path: Path, entry: Node, skipped: set<string>): multiset<Path> {
    if entry.name in skipped then multiset{}
    else match entry
      case Broken(n) => multiset{path + [n]}
      case Directory(n, readable, sub) => FrameUnreadable(Frame(path + [n], readable, sub), skipped)
      case _ => multiset{}
  }

  lemma EntryStep(path: Path, entries: seq<Node>, i: nat, skipped: set<string>)
    requires i < |entries|
    ensures LinksIn(path, entries[..i + 1], skipped) == LinksIn(path, entries[..i], skipped)
        + EntryLinks(path, entries[i], skipped)
    ensures UnreadableIn(path, entries[..i + 1], skipped)
            == UnreadableIn(path, entries[..i], skipped) + EntryUnreadable(path, entries[i], skipped)
    ensures Size(entries[..i + 1]) ==
            Size(entries[..i]) + if entries[i].Directory? then 1 + Size(entries[i].entries) else 0
  {
    assert entries[..i + 1][..i] == entries[..i];
  }

  lemma PushFrame(pending: seq<Frame>, f: Frame, skipped: set<string>)
    ensures PendingLinks(pending + [f], skipped) == PendingLinks(pending, skipped) + FrameLinks(f, skipped)
    ensures PendingUnreadable(pending + [f], skipped) == PendingUnreadable(pending, skipped)
        + FrameUnreadable(f, skipped)
    ensures PendingSize(pending + [f]) == PendingSize(pending) + 1 + Size(f.entries)
  {
    assert (pending + [f])[..|pending|] == pending;
  }

  /** A name-by-name walk through readable directories that ends at a link. */
  ghost predicate ReachesLink(entries: seq<Node>, names: Path, skipped: set<string>)
    decreases |names|, 1
  {
    names != [] && exists e :: e in entries && StartsWalk(e, names, skipped)
  }

  ghost predicate StartsWalk(e: Node, names: Path, skipped: set<string>)
    requires names != []
    decreases |names|, 0
  {
    && e.name == names[0] && e.name !in skipped
    && if |names| == 1 then e.Link? else e.Directory? && e.readable && ReachesLink(e.entries, names[1..], skipped)
  }

  /** The links counted below a directory are those that such a walk reaches. */
  lemma {:induction false} LinksAreReached(path: Path, entries: seq<Node>, skipped: set<string>, names: Path)
    ensures path + names in LinksIn(path, entries, skipped) <==> ReachesLink(entries, names, skipped)
    decreases entries, 1
  {
    if entries != [] {
      var init, last := entries[..|entries| - 1], entries[|entries| - 1];
      assert entries == init + [last] && entries[..|entries|] == entries;
      LinksAreReached(path, init, skipped, names);
      EntryIsReached(path, last, skipped, names);
      EntryStep(path, entries, |entries| - 1, skipped);
    }
  }

  lemma {:induction false} EntryIsReached(path: Path, e: Node, skipped: set<string>, names: Path)
    ensures path + names in EntryLinks(path, e, skipped) <==> names != [] && StartsWalk(e, names, skipped)
    decreases e, 0
  {
    var below := path + [e.name];
    if e.Directory? && e.name !in skipped && e.readable {
      if names != [] && names[0] == e.name {
        assert path + names == below + names[1..];
        LinksAreReached(below, e.entries, skipped, names[1..]);
      } else if path + names in LinksIn(below, e.entries, skipped) {
        LinksExtendPath(below, e.entries, skipped, path + names);
        assert false;
      }
    } else if e.Link? && path + names == below {
      assert names == (path + names)[|path|..] == [e.name];
    }
  }

  lemma {:induction false} LinksExtendPath(path: Path, entries: seq<Node>, skipped: set<string>, p: Path)
    requires p in LinksIn(path, entries, skipped)
    ensures path <= p && |path| < |p|
    decreases entries
  {
    var init, last := entries[..|entries| - 1], entries[|entries| - 1];
    if p in LinksIn(path, init, skipped) {
      LinksExtendPath(path, init, skipped, p);
    } else if last.Directory? {
      LinksExtendPath(path + [last.name], last.entries, skipped, p);
    }
  }

  /** A walk through readable directories that ends at something that cannot be inspected. */
  ghost predicate ReachesBlocked(entries: seq<Node>, names: Path, skipped: set<string>)
    decreases |names|, 1
  {
    names != [] && exists e :: e in entries && StartsBlocked(e, names, skipped)
  }

  ghost predicate StartsBlocked(e: Node, names: Path, skipped: set<string>)
    requires names != []
    decreases |names|, 0
  {
    && e.name == names[0] && e.name !in skipped
    && if |names| == 1 then e.Broken? || (e.Directory? && !e.readable)
       else e.Directory? && e.readable && ReachesBlocked(e.entries, names[1..], skipped)
  }

  /** The unreadable paths counted below a directory are those that such a walk reaches. */
  lemma {:induction false} BlockedAreReached(path: Path, entries: seq<Node>, skipped: set<string>, names: Path)
    ensures path + names in UnreadableIn(path, entries, skipped) <==> ReachesBlocked(entries, names, skipped)
    decreases entries, 1
  {
    if entries != [] {
      var init, last := entries[..|entries| - 1], entries[|entries| - 1];
      assert entries == init + [last] && entries[..|entries|] == entries;
      BlockedAreReached(path, init, skipped, names);
      EntryIsBlocked(path, last, skipped, names);
      EntryStep(path, entries, |entries| - 1, skipped);
    }
  }

  lemma {:induction false} EntryIsBlocked(path: Path, e: Node, skipped: set<string>, names: Path)
    ensures path + names in EntryUnreadable(path, e, skipped) <==> names != [] && StartsBlocked(e, names, skipped)
    decreases e, 0
  {
    var below := path + [e.name];
    if e.Directory? && e.name !in skipped && e.readable {
      if names != [] && names[0] == e.name {
        assert path + names == below + names[1..];
        BlockedAreReached(below, e.entries, skipped, names[1..]);
      } else if path + names in UnreadableIn(below, e.entries, skipped) {
        BlockedExtendPath(below, e.entries, skipped, path + names);
        assert false;
      }
    } else if path + names == below {
      assert names == (path + names)[|path|..] == [e.name];
    }
  }

  lemma {:induction false} BlockedExtendPath(path: Path, entries: seq<Node>, skipped: set<string>, p: Path)
    requires p in UnreadableIn(path, entries, skipped)
    ensures path <= p && |path| < |p|
    decreases entries
  {
    var init, last := entries[..|entries| - 1], entries[|entries| - 1];
    if p in UnreadableIn(path, init, skipped) {
      BlockedExtendPath(path, init, skipped, p);
    } else if last.Directory? && last.readable {
      BlockedExtendPath(path + [last.name], last.entries, skipped, p);
    }
  }

  /** The path leads from a readable root to a link. */
  ghost predicate LinkAt(roots: seq<Root>, p: Path, skipped: set<string>) {
    exists r :: r in roots && r.readable && LeadsFrom(r, p) && ReachesLink(r.entries, p[1..], skipped)
  }

  /** The path is that of an unreadable root, or leads from a readable one to something unreadable. */
  ghost predicate BlockedAt(roots: seq<Root>, p: Path, skipped: set<string>) {
    exists r ::
      r in roots && LeadsFrom(r, p) && if r.readable then ReachesBlocked(r.entries, p[1..], skipped) else |p| == 1
  }

  ghost predicate LeadsFrom(r: Root, p: Path) {
    p != [] && p[0] == r.name
  }

  lemma StartLinks(r: Root, p: Path, skipped: set<string>)
    ensures p in FrameLinks(Start(r), skipped) <==>
              r.readable && LeadsFrom(r, p) && ReachesLink(r.entries, p[1..], skipped)
  {
    if r.readable {
      if p in LinksIn([r.name], r.entries, skipped) {
        LinksExtendPath([r.name], r.entries, skipped, p);
        assert p[0] == [r.name][0];
      }
      if LeadsFrom(r, p) {
        assert p == [r.name] + p[1..];
        LinksAreReached([r.name], r.entries, skipped, p[1..]);
      }
    }
  }

  lemma StartBlocked(r: Root, p: Path, skipped: set<string>)
    ensures p in FrameUnreadable(Start(r), skipped) <==>
              LeadsFrom(r, p) && if r.readable then ReachesBlocked(r.entries, p[1..], skipped) else |p| == 1
  {
    if r.readable {
      if p in UnreadableIn([r.name], r.entries, skipped) {
        BlockedExtendPath([r.name], r.entries, skipped, p);
        assert p[0] == [r.name][0];
      }
      if LeadsFrom(r, p) {
        assert p == [r.name] + p[1..];
        BlockedAreReached([r.name], r.entries, skipped, p[1..]);
      }
    } else if LeadsFrom(r, p) && |p| == 1 {
      assert p == [r.name];
    }
  }

  lemma StartsStep(roots: seq<Root>, i: nat, skipped: set<string>)
    requires i < |roots|
    ensures PendingLinks(Starts(roots[..i + 1]), skipped) ==
            PendingLinks(Starts(roots[..i]), skipped) + FrameLinks(Start(roots[i]), skipped)
    ensures PendingUnreadable(Starts(roots[..i + 1]), skipped) ==
            PendingUnreadable(Starts(roots[..i]), skipped) + FrameUnreadable(Start(roots[i]), skipped)
  {
    assert Starts(roots[..i + 1]) == Starts(roots[..i]) + [Start(roots[i])];
    PushFrame(Starts(roots[..i]), Start(roots[i]), skipped);
  }

  lemma LastReaches(roots: seq<Root>, p: Path, skipped: set<string>)
    requires roots != []
    ensures var init, last := roots[..|roots| - 1], roots[|roots| - 1];
            && (LinkAt(roots, p, skipped) <==>
                  || LinkAt(init, p, skipped)
                  || (last.readable && LeadsFrom(last, p) && ReachesLink(last.entries, p[1..], skipped)))
            && (BlockedAt(roots, p, skipped) <==>
                  || BlockedAt(init, p, skipped)
                  || (LeadsFrom(last, p) &&
                      if last.readable then ReachesBlocked(last.entries, p[1..], skipped) else |p| == 1))
  {
    var init, last := roots[..|roots| - 1], roots[|roots| - 1];
    assert roots == init + [last];
    assert forall r :: r in roots <==> r in init || r == last;
  }

  lemma {:induction false} RootsReach(roots: seq<Root>, p: Path, skipped: set<string>)
    ensures p in PendingLinks(Starts(roots), skipped) <==> LinkAt(roots, p, skipped)
    ensures p in PendingUnreadable(Starts(roots), skipped) <==> BlockedAt(roots, p, skipped)
  {
    if roots != [] {
      var n := |roots| - 1;
      RootsReach(roots[..n], p, skipped);
      StartsStep(roots, n, skipped);
      assert roots[..n + 1] == roots;
      LastReaches(roots, p, skipped);
      StartLinks(roots[n], p, skipped);
      StartBlocked(roots[n], p, skipped);
    }
  }

  // ---------- the search ----------

  /** Links found, or still to be found below the pending directories. */
  ghost function KnownLinks(s: Search, skipped: set<string>): multiset<Path> {
    multiset(s.links) + PendingLinks(s.pending, skipped)
  }

  ghost function KnownUnreadable(s: Search, skipped: set<string>): multiset<Path> {
    multiset(s.unreadable) + PendingUnreadable(s.pending, skipped)
  }

  /** The work-list and the two result lists. */
  datatype Search = Search(pending: seq<Frame>, links: seq<Path>, unreadable: seq<Path>)

  lemma ResultsGrow(s: Search, p: Path, skipped: set<string>)
    ensures KnownLinks(s.(links := s.links + [p]), skipped) == KnownLinks(s, skipped) + multiset{p}
    ensures KnownUnreadable(s.(unreadable := s.unreadable + [p]), skipped) == KnownUnreadable(s, skipped) + multiset{p}
  {}

  lemma Regroup<T>(a: multiset<T>, b: multiset<T>, c: multiset<T>)
    ensures a + (b + c) == a + b + c
  {}

  /** One directory entry. */
  method ScanEntry(path: Path, entry: Node, skipped: set<string>, s: Search) returns (s': Search)
    ensures KnownLinks(s', skipped) == KnownLinks(s, skipped) + EntryLinks(path, entry, skipped)
    ensures KnownUnreadable(s', skipped) == KnownUnreadable(s, skipped) + EntryUnreadable(path, entry, skipped)
    ensures PendingSize(s'.pending) <= PendingSize(s.pending) + if entry.Directory? then 1 + Size(entry.entries) else 0
    ensures |s'.links| <= |s.links| + 1
    ensures multiset(s'.links) <= multiset(s.links) + EntryLinks(path, entry, skipped)
  {
    s' := s;
    if entry.name in skipped {
      return;
    }
    match entry {
      case Link(n) =>
        assert EntryLinks(path, entry, skipped) == multiset{path + [n]}
          && EntryUnreadable(path, entry, skipped) == multiset{};
        ResultsGrow(s, path + [n], skipped);
        s' := s.(links := s.links + [path + [n]]);
      case Directory(n, readable, sub) =>
        assert EntryLinks(path, entry, skipped) == FrameLinks(Frame(path + [n], readable, sub), skipped);
        var f := Frame(path + [n], readable, sub);
        PushFrame(s.pending, f, skipped);
        Regroup(multiset(s.links), PendingLinks(s.pending, skipped), FrameLinks(f, skipped));
        Regroup(multiset(s.unreadable), PendingUnreadable(s.pending, skipped), FrameUnreadable(f, skipped));
        s' := s.(pending := s.pending + [f]);
      case Broken(n) =>
        assert EntryLinks(path, entry, skipped) == multiset{}
          && EntryUnreadable(path, entry, skipped) == multiset{path + [n]};
        ResultsGrow(s, path + [n], skipped);
        s' := s.(unreadable := s.unreadable + [path + [n]]);
      case Regular(_) =>
    }
  }

  /** The entries of one readable directory; stops at the cap. */
  method ScanEntries(path: Path, entries: seq<Node>, skipped: set<string>, s: Search) returns (s': Search)
    requires |s.links| < CAP
    ensures |s'.links| <= CAP && multiset(s'.links) <= multiset(s.links) + LinksIn(path, entries, skipped)
    ensures |s'.links| < CAP ==>
              && KnownLinks(s', skipped) == KnownLinks(s, skipped) + LinksIn(path, entries, skipped)
              && KnownUnreadable(s', skipped) == KnownUnreadable(s, skipped) + UnreadableIn(path, entries, skipped)
              && PendingSize(s'.pending) <= PendingSize(s.pending) + Size(entries)
  {
    s' := s;
    for i := 0 to |entries|
      invariant |s'.links| < CAP && multiset(s'.links) <= multiset(s.links) + LinksIn(path, entries[..i], skipped)
      invariant KnownLinks(s', skipped) == KnownLinks(s, skipped) + LinksIn(path, entries[..i], skipped)
      invariant KnownUnreadable(s', skipped) == KnownUnreadable(s, skipped) + UnreadableIn(path, entries[..i], skipped)
      invariant PendingSize(s'.pending) <= PendingSize(s.pending) + Size(entries[..i])
    {
      EntryStep(path, entries, i, skipped);
      s' := ScanEntry(path, entries[i], skipped, s');
      if |s'.links| >= CAP {
        LinksGrow(path, entries, i + 1, skipped);
        return;
      }
    }
    assert entries[..|entries|] == entries;
  }

  lemma {:induction false} LinksGrow(path: Path, entries: seq<Node>, i: nat, skipped: set<string>)
    requires i <= |entries|
    ensures LinksIn(path, entries[..i], skipped) <= LinksIn(path, entries, skipped)
    decreases |entries| - i
  {
    if i == |entries| {
      assert entries[..i] == entries;
    } else {
      EntryStep(path, entries, i, skipped);
      LinksGrow(path, entries, i + 1, skipped);
    }
  }

  /** The search went from `s` to `s'`: nothing invented, and below the cap nothing lost. */
  ghost predicate Progress(s: Search, s': Search, skipped: set<string>) {
    && |s'.links| <= CAP && multiset(s'.links) <= KnownLinks(s, skipped)
    && (|s'.links| < CAP ==>
          KnownLinks(s', skipped) == KnownLinks(s, skipped)
            && KnownUnreadable(s', skipped) == KnownUnreadable(s, skipped))
  }

  lemma ProgressComposes(s: Search, s': Search, s'': Search, skipped: set<string>)
    requires Progress(s, s', skipped) && Progress(s', s'', skipped) && |s'.links| < CAP
    ensures Progress(s, s'', skipped)
  {}

  lemma PendingPop(s: Search, skipped: set<string>)
    requires s.pending != []
    ensures var current, rest := s.pending[|s.pending| - 1], s.(pending := s.pending[..|s.pending| - 1]);
            && KnownLinks(s, skipped) == KnownLinks(rest, skipped) + FrameLinks(current, skipped)
            && KnownUnreadable(s, skipped) == KnownUnreadable(rest, skipped) + FrameUnreadable(current, skipped)
            && PendingSize(s.pending) == PendingSize(rest.pending) + 1 + Size(current.entries)
  {}

  /** One pass of the work-list loop: the last pending directory. */
  method ScanNext(s: Search, skipped: set<string>) returns (s': Search)
    requires s.pending != [] && |s.links| < CAP
    ensures Progress(s, s', skipped) && (|s'.links| < CAP ==> PendingSize(s'.pending) < PendingSize(s.pending))
  {
    PendingPop(s, skipped);
    var current := s.pending[|s.pending| - 1];
    var rest := s.(pending := s.pending[..|s.pending| - 1]);
    if current.readable {
      s' := ScanEntries(current.path, current.entries, skipped, rest);
    } else {
      ResultsGrow(rest, current.path, skipped);
      s' := rest.(unreadable := rest.unreadable + [current.path]);
    }
  }

  /** The pending directories, last in first out, until none is left or the cap is reached. */
  method ScanPending(start: Search, skipped: set<string>) returns (s: Search)
    requires |start.links| < CAP
    ensures Progress(start, s, skipped) && (|s.links| < CAP ==> s.pending == [])
  {
    s := start;
    while s.pending != [] && |s.links| < CAP
      invariant Progress(start, s, skipped)
      decreases |s.links| < CAP, PendingSize(s.pending)
    {
      var next := ScanNext(s, skipped);
      ProgressComposes(start, s, next, skipped);
      s := next;
    }
  }

  /** One root. */
  method ScanRoot(root: Root, skipped: set<string>, links: seq<Path>, unreadable: seq<Path>)
    returns (links': seq<Path>, unreadable': seq<Path>)
    requires |links| < CAP
    ensures |links'| <= CAP && multiset(links') <= multiset(links) + FrameLinks(Start(root), skipped)
    ensures |links'| < CAP ==>
              && multiset(links') == multiset(links) + FrameLinks(Start(root), skipped)
              && multiset(unreadable') == multiset(unreadable) + FrameUnreadable(Start(root), skipped)
  {
    var empty := Search([], links, unreadable);
    PushFrame(empty.pending, Start(root), skipped);
    var s := ScanPending(empty.(pending := empty.pending + [Start(root)]), skipped);
    links', unreadable' := s.links, s.unreadable;
    if |links'| < CAP {
      NothingPending(s, skipped);
      NothingPending(empty, skipped);
    }
  }

  lemma NothingPending(s: Search, skipped: set<string>)
    requires s.pending == []
    ensures KnownLinks(s, skipped) == multiset(s.links) && KnownUnreadable(s, skipped) == multiset(s.unreadable)
  {}

  // ---------- the rule ----------

  datatype Status = Failed | Blocked | Passed

  datatype Verdict = Verdict(status: Status, symlinks: seq<Path>, truncated: bool, unreadable: seq<Path>)

  /** Exactly: failed when some link is reachable, blocked when none is but something visited could
      not be inspected, passed otherwise. The listed links are real and at most fifty, and complete
      below that number. */
  ghost predicate Answers(v: Verdict, links: multiset<Path>, unreadable: multiset<Path>) {
    && (v.status == Failed <==> links != multiset{})
    && (v.status == Blocked <==> links == multiset{} && unreadable != multiset{})
    && |v.symlinks| <= CAP && multiset(v.symlinks) <= links
    && (v.truncated <==> |v.symlinks| == CAP)
    && (!v.truncated ==> multiset(v.symlinks) == links && multiset(v.unreadable) == unreadable)
  }

  method SymlinkFree(roots: seq<Root>) returns (v: Verdict)
    ensures Answers(v, PendingLinks(Starts(roots), SkippedDirs()), PendingUnreadable(Starts(roots), SkippedDirs()))
    ensures v.status == Failed <==> exists p :: LinkAt(roots, p, SkippedDirs())
    ensures v.status == Blocked <==> v.status != Failed && exists p :: BlockedAt(roots, p, SkippedDirs())
    ensures forall p :: p in v.symlinks ==> LinkAt(roots, p, SkippedDirs())
    ensures !v.truncated ==> forall p :: p in v.symlinks <==> LinkAt(roots, p, SkippedDirs())
    ensures !v.truncated ==> forall p :: p in v.unreadable <==> BlockedAt(roots, p, SkippedDirs())
  {
    var links, unreadable := ScanRoots(roots, SkippedDirs());
    var truncated := |links| >= CAP;
    var status := if links != [] then Failed else if unreadable != [] then Blocked else Passed;
    v := Verdict(status, links, truncated, unreadable);
    assert links != [] ==> links[0] in multiset(links);
    assert unreadable != [] ==> unreadable[0] in multiset(unreadable);
    AnswersByWalks(v, roots, SkippedDirs());
  }

  lemma AnswersByWalks(v: Verdict, roots: seq<Root>, skipped: set<string>)
    requires Answers(v, PendingLinks(Starts(roots), skipped), PendingUnreadable(Starts(roots), skipped))
    ensures v.status == Failed <==> exists p :: LinkAt(roots, p, skipped)
    ensures v.status == Blocked <==> v.status != Failed && exists p :: BlockedAt(roots, p, skipped)
    ensures forall p :: p in v.symlinks ==> LinkAt(roots, p, skipped)
    ensures !v.truncated ==> forall p :: p in v.symlinks <==> LinkAt(roots, p, skipped)
    ensures !v.truncated ==> forall p :: p in v.unreadable <==> BlockedAt(roots, p, skipped)
  {
    var links, unreadable := PendingLinks(Starts(roots), skipped), PendingUnreadable(Starts(roots), skipped);
    forall p
      ensures (p in links <==> LinkAt(roots, p, skipped)) && (p in unreadable <==> BlockedAt(roots, p, skipped))
      ensures (p in v.symlinks <==> p in multiset(v.symlinks)) && (p in v.unreadable <==> p in multiset(v.unreadable))
    {
      RootsReach(roots, p, skipped);
    }
    if links != multiset{} {
      var p :| p in links;
    }
    if unreadable != multiset{} {
      var p :| p in unreadable;
    }
  }

  method ScanRoots(roots: seq<Root>, skipped: set<string>) returns (links: seq<Path>, unreadable: seq<Path>)
    ensures |links| <= CAP && multiset(links) <= PendingLinks(Starts(roots), skipped)
    ensures |links| < CAP ==>
              && multiset(links) == PendingLinks(Starts(roots), skipped)
              && multiset(unreadable) == PendingUnreadable(Starts(roots), skipped)
  {
    links, unreadable := [], [];
    for i := 0 to |roots|
      invariant |links| < CAP
      invariant multiset(links) == PendingLinks(Starts(roots[..i]), skipped)
      invariant multiset(unreadable) == PendingUnreadable(Starts(roots[..i]), skipped)
    {
      StartsStep(roots, i, skipped);
      links, unreadable := ScanRoot(roots[i], skipped, links, unreadable);
      if |links| >= CAP {
        RootsGrow(roots, i + 1, skipped);
        return;
      }
    }
    assert roots[..|roots|] == roots;
  }

  lemma {:induction false} RootsGrow(roots: seq<Root>, i: nat, skipped: set<string>)
    requires i <= |roots|
    ensures PendingLinks(Starts(roots[..i]), skipped) <= PendingLinks(Starts(roots), skipped)
    decreases |roots| - i
  {
    if i == |roots| {
      assert roots[..i] == roots;
    } else {
      StartsStep(roots, i, skipped);
      RootsGrow(roots, i + 1, skipped);
    }
  }
}
