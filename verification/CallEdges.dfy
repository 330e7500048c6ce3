/** The call graph handed to the path search: `_call_edges` matches call names to known symbols. */
module CallEdges {
  import opened Sequences
  import opened CallerPaths
  import Text

  datatype Call = Call(callName: string, caller: string, sourcePath: string, callsiteRef: string)

  function LastPart(name: string): string {
    if name == "" then ""
    else if name[|name| - 1] == '.' then ""
    else LastPart(name[..|name| - 1]) + [name[|name| - 1]]
  }

  predicate MayCall(call: Call, symbol: string) {
    symbol == call.callName || Text.EndsWith(symbol, ['.'] + LastPart(call.callName))
  }

  function EdgeOf(call: Call, symbol: string): Edge {
    Edge(call.caller, symbol, call.sourcePath, call.callsiteRef)
  }

  // ---------- what a call edge is, independently of the matching ----------

  ghost function Components(name: string): seq<string> {
    Text.Split(name, '.')
  }

  ghost function LastOf(name: string): string {
    Components(name)[|Components(name)| - 1]
  }

  /** The symbol is the call's name, or a dotted symbol with the same last component. */
  ghost predicate Calls(callName: string, symbol: string) {
    symbol == callName || (|Components(symbol)| >= 2 && LastOf(symbol) == LastOf(callName))
  }

  ghost predicate IsEdgeOf(c: Call, known: set<string>, e: Edge) {
    && e.callee in known && Calls(c.callName, e.callee)
    && e.caller == c.caller && e.sourcePath == c.sourcePath && e.callsiteRef == c.callsiteRef
  }

  ghost predicate IsCallEdge(calls: seq<Call>, known: set<string>, e: Edge) {
    exists c :: c in calls && IsEdgeOf(c, known, e)
  }

  /** What follows the last dot; the whole name if it has none. */
  lemma LastPartJoined(prefix: string, last: string)
    requires Text.Free(last, '.')
    ensures LastPart(prefix + ['.'] + last) == last && LastPart(last) == last
  {
    LastPartAfter(prefix + ['.'], last);
    LastPartAfter("", last);
    assert "" + last == last;
  }

  lemma {:induction false} LastPartAfter(before: string, last: string)
    requires before == "" || before[|before| - 1] == '.'
    requires Text.Free(last, '.')
    ensures LastPart(before + last) == last
  {
    if last == "" {
      assert before + last == before;
    } else {
      var init, c := last[..|last| - 1], last[|last| - 1];
      assert c in last && forall x :: x in init ==> x in last;
      LastPartAfter(before, init);
      LastPartGrows(before + init, c);
      assert before + init + [c] == before + last && init + [c] == last;
    }
  }

  lemma LastPartGrows(name: string, c: char)
    requires c != '.'
    ensures LastPart(name + [c]) == LastPart(name) + [c]
  {
    assert (name + [c])[..|name|] == name;
  }

  lemma LastPartIsLast(name: string)
    ensures LastPart(name) == LastOf(name) && Text.Free(LastOf(name), '.')
  {
    var parts := Components(name);
    Text.JoinSplit(name, '.');
    assert parts[|parts| - 1] in parts;
    if |parts| == 1 {
      assert parts[0] == name;
      LastPartJoined("", name);
    } else {
      var init := parts[..|parts| - 1];
      assert init + [parts[|parts| - 1]] == parts;
      Text.JoinSnoc(init, parts[|parts| - 1], '.');
      LastPartJoined(Text.Join(init, '.'), parts[|parts| - 1]);
    }
  }

  /** Matching a suffix of the text is matching the last of at least two components. */
  lemma MayCallIff(call: Call, symbol: string)
    ensures MayCall(call, symbol) <==> Calls(call.callName, symbol)
  {
    var parts, last := Components(symbol), LastPart(call.callName);
    LastPartIsLast(call.callName);
    Text.EndsWithParts(symbol, last, '.');
    Text.SplitOne(last, '.');
    if |parts| >= 2 && LastOf(symbol) == last {
      var k := |parts| - 1;
      assert Text.Split(symbol, '.')[k..] == Text.Split(last, '.');
      assert Text.EndsWith(symbol, ['.'] + last);
    }
    if Text.EndsWith(symbol, ['.'] + last) {
      var k :| 0 < k < |Text.Split(symbol, '.')| && Text.Split(symbol, '.')[k..] == Text.Split(last, '.');
      assert |parts[k..]| == 1 && parts[|parts| - 1] == parts[k..][0];
    }
  }

  ghost predicate DistinctRefs(calls: seq<Call>) {
    forall i, j :: 0 <= i < j < |calls| ==> calls[i].callsiteRef != calls[j].callsiteRef
  }

  method Candidates(call: Call, known: set<string>) returns (symbols: seq<string>)
    ensures Distinct(symbols) && Sorted(symbols, StrLe)
    ensures forall s :: s in symbols <==> s in known && Calls(call.callName, s)
  {
    forall s ensures MayCall(call, s) <==> Calls(call.callName, s) {
      MayCallIff(call, s);
    }
    symbols := SortSet(set s | s in known && MayCall(call, s));
  }

  /** Exactly the matching (call, symbol) pairs; the path search may rely on their distinctness. */
  method CallEdges(calls: seq<Call>, known: set<string>, text: Edge -> string) returns (edges: seq<Edge>)
    ensures forall e :: e in edges <==> IsCallEdge(calls, known, e)
    ensures forall i, j :: 0 <= i < j < |edges| ==>
              && StrLe(edges[i].callsiteRef, edges[j].callsiteRef)
              && (edges[i].callsiteRef == edges[j].callsiteRef ==> StrLe(text(edges[i]), text(edges[j])))
    ensures DistinctRefs(calls) ==> DistinctCallsites(edges)
  {
    var output: seq<Edge> := [];
    for i := 0 to |calls|
      invariant forall e :: e in output <==> IsCallEdge(calls[..i], known, e)
      invariant DistinctRefs(calls) ==> Distinct(output)
    {
      assert calls[..i + 1] == calls[..i] + [calls[i]];
      var symbols := Candidates(calls[i], known);
      var found := seq(|symbols|, k requires 0 <= k < |symbols| => EdgeOf(calls[i], symbols[k]));
      forall e
        ensures e in found <==> IsEdgeOf(calls[i], known, e)
      {
        if e.callee in symbols {
          var k :| 0 <= k < |symbols| && symbols[k] == e.callee;
          assert found[k] == EdgeOf(calls[i], e.callee);
        }
      }
      if DistinctRefs(calls) {
        forall e | e in output ensures e !in found {
          assert IsCallEdge(calls[..i], known, e);
        }
        DistinctConcat(output, found);
      }
      output := output + found;
    }
    assert calls[..|calls|] == calls;
    var le := (a, b) => KeyLe((e: Edge) => e.callsiteRef, text, a, b);
    edges := Sort(output, le);
    KeyLeIsTotalPreorder((e: Edge) => e.callsiteRef, text);
    SortIsSorted(output, le);
    SameElements(output, edges);
    if DistinctRefs(calls) {
      DistinctPermutation(output, edges);
    }
    forall i, j | 0 <= i < j < |edges|
      ensures StrLe(edges[i].callsiteRef, edges[j].callsiteRef)
      ensures edges[i].callsiteRef == edges[j].callsiteRef ==> StrLe(text(edges[i]), text(edges[j]))
    {
      KeyLeMeans((e: Edge) => e.callsiteRef, text, edges[i], edges[j]);
    }
  }
}
