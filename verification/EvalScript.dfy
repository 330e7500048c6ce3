/** The two scanners of the CEP callback rule: one finds the closing parenthesis of an
    `evalScript(` call, the other splits its arguments. */
module EvalScript {
  import opened Sequences
  import opened Text

  const MAX_FINDINGS: nat := 50

  // ---------- quotes and escapes ----------

  /** The variables `quote` and `escaped`, which both scanners update alike. */
  datatype Lexer = Lexer(quote: Option<char>, escaped: bool)

  const OUTSIDE := Lexer(None, false)

  predicate IsQuote(c: char) {
    c == '\'' || c == '"' || c == '`'
  }

  function NextLexer(l: Lexer, c: char): Lexer {
    if l.quote.Some? then
      if l.escaped then l.(escaped := false)
      else if c == '\\' then l.(escaped := true)
      else if c == l.quote.value then l.(quote := None)
      else l
    else if IsQuote(c) then l.(quote := Some(c))
    else l
  }

  /** Neither inside a literal nor opening one. */
  predicate IsCode(l: Lexer, c: char) {
    l.quote.None? && !IsQuote(c)
  }

  // ---------- the parenthesis scanner ----------

  datatype Paren = Paren(lexer: Lexer, depth: int)

  function NextParen(p: Paren, c: char): Paren {
    var d := if IsCode(p.lexer, c) && c == '(' then 1 else if IsCode(p.lexer, c) && c == ')' then -1 else 0;
    Paren(NextLexer(p.lexer, c), p.depth + d)
  }

  function ScanParens(p: Paren, s: string): Paren {
    if s == "" then p else NextParen(ScanParens(p, s[..|s| - 1]), s[|s| - 1])
  }

  /** Quote-aware parenthesis depth just before position `i`, counted from the opening one. */
  function DepthBefore(content: string, open: nat, i: nat): int
    requires open < i <= |content|
  {
    ScanParens(Paren(OUTSIDE, 1), content[open + 1..i]).depth
  }

  /** The least position after which the depth has returned to zero. */
  ghost predicate ClosesAt(content: string, open: nat, close: nat) {
    && open < close < |content|
    && DepthBefore(content, open, close + 1) == 0
    && forall i :: open < i <= close ==> DepthBefore(content, open, i) > 0
  }

  lemma ClosesOnce(content: string, open: nat, close: nat, close': nat)
    requires ClosesAt(content, open, close) && ClosesAt(content, open, close')
    ensures close == close'
  {
    assert DepthBefore(content, open, close + 1) == 0 && DepthBefore(content, open, close' + 1) == 0;
  }

  ghost function CloseOf(content: string, open: nat): (r: Option<nat>)
    ensures r.Some? ==> ClosesAt(content, open, r.value)
    ensures r.None? ==> forall c: nat :: !ClosesAt(content, open, c)
  {
    if exists c: nat :: ClosesAt(content, open, c) then
      var c: nat :| ClosesAt(content, open, c);
      Some(c)
    else None
  }

  method FindClose(content: string, open: nat) returns (close: Option<nat>)
    requires open < |content|
    ensures close == CloseOf(content, open)
  {
    var depth, quote, escaped := 1, None, false;
    for i := open + 1 to |content|
      invariant ScanParens(Paren(OUTSIDE, 1), content[open + 1..i]) == Paren(Lexer(quote, escaped), depth)
      invariant forall j :: open < j <= i ==> DepthBefore(content, open, j) > 0
    {
      var c := content[i];
      assert content[open + 1..i + 1][..i - open - 1] == content[open + 1..i];
      if quote != None {
        if escaped {
          escaped := false;
        } else if c == '\\' {
          escaped := true;
        } else if c == quote.value {
          quote := None;
        }
        continue;
      }
      if IsQuote(c) {
        quote := Some(c);
        continue;
      }
      if c == '(' {
        depth := depth + 1;
      } else if c == ')' {
        depth := depth - 1;
        if depth == 0 {
          assert ClosesAt(content, open, i);
          ClosesOnce(content, open, i, CloseOf(content, open).value);
          return Some(i);
        }
      }
    }
    forall c: nat ensures !ClosesAt(content, open, c) {
      if open < c < |content| {
        assert DepthBefore(content, open, c + 1) > 0;
      }
    }
    return None;
  }

  // ---------- the argument splitter ----------

  datatype Splitter = Splitter(lexer: Lexer, depth: nat, done: seq<string>, current: string)

  predicate IsOpener(c: char) {
    c == '(' || c == '[' || c == '{'
  }

  predicate IsCloser(c: char) {
    c == ')' || c == ']' || c == '}'
  }

  function NextSplitter(s: Splitter, c: char): Splitter {
    var l := NextLexer(s.lexer, c);
    if IsCode(s.lexer, c) && IsOpener(c) then Splitter(l, s.depth + 1, s.done, s.current + [c])
    else if IsCode(s.lexer, c) && IsCloser(c) then
      Splitter(l, if s.depth == 0 then 0 else s.depth - 1, s.done, s.current + [c])
    else if IsCode(s.lexer, c) && c == ',' && s.depth == 0 then Splitter(l, 0, s.done + [s.current], "")
    else Splitter(l, s.depth, s.done, s.current + [c])
  }

  function ScanSplits(s: Splitter, source: string): Splitter {
    if source == "" then s else NextSplitter(ScanSplits(s, source[..|source| - 1]), source[|source| - 1])
  }

  /** The untrimmed argument texts. */
  function RawArguments(source: string): seq<string> {
    var s := ScanSplits(FRESH, source);
    s.done + [s.current]
  }

  function StripAll(texts: seq<string>): seq<string> {
    seq(|texts|, i requires 0 <= i < |texts| => Strip(texts[i]))
  }

  lemma StripOneMore(texts: seq<string>, text: string)
    ensures StripAll(texts + [text]) == StripAll(texts) + [Strip(text)]
  {}

  lemma SplitStep(source: string, start: nat, i: nat)
    requires start <= i < |source|
    ensures ScanSplits(FRESH, source[..i + 1]) == NextSplitter(ScanSplits(FRESH, source[..i]), source[i])
    ensures source[start..i + 1] == source[start..i] + [source[i]]
  {
    assert source[..i + 1][..i] == source[..i];
  }

  method SplitTopLevelArguments(source: string) returns (args: seq<string>)
    ensures args == StripAll(RawArguments(source))
  {
    args := [];
    var start, depth, quote, escaped := 0, 0, None, false;
    ghost var raw: seq<string> := [];
    for i := 0 to |source|
      invariant 0 <= start <= i && depth >= 0
      invariant ScanSplits(FRESH, source[..i])
                == Splitter(Lexer(quote, escaped), depth, raw, source[start..i])
      invariant args == StripAll(raw)
    {
      var c := source[i];
      SplitStep(source, start, i);
      if quote != None {
        if escaped {
          escaped := false;
        } else if c == '\\' {
          escaped := true;
        } else if c == quote.value {
          quote := None;
        }
        continue;
      }
      if IsQuote(c) {
        quote := Some(c);
        continue;
      }
      if IsOpener(c) {
        depth := depth + 1;
        continue;
      }
      if IsCloser(c) {
        depth := if depth == 0 then 0 else depth - 1;
        continue;
      }
      if c == ',' && depth == 0 {
        StripOneMore(raw, source[start..i]);
        args := args + [Strip(source[start..i])];
        raw := raw + [source[start..i]];
        start := i + 1;
      }
    }
    assert source[..|source|] == source && source[start..|source|] == source[start..];
    StripOneMore(raw, source[start..]);
    args := args + [Strip(source[start..])];
  }

  function Join(texts: seq<string>): string {
    if texts == [] then ""
    else if |texts| == 1 then texts[0]
    else Join(texts[..|texts| - 1]) + [','] + texts[|texts| - 1]
  }

  lemma JoinGrowsLast(done: seq<string>, current: string, c: char)
    ensures Join(done + [current + [c]]) == Join(done + [current]) + [c]
  {
    var all, all' := done + [current], done + [current + [c]];
    assert all[..|all| - 1] == done == all'[..|all'| - 1];
    if done != [] {
      assert Join(all') == Join(done) + [','] + (current + [c]);
      assert Join(all) == Join(done) + [','] + current;
    }
  }

  lemma JoinNewPiece(all: seq<string>)
    requires all != []
    ensures Join(all + [""]) == Join(all) + [',']
  {
    assert (all + [""])[..|all|] == all;
    assert Join(all) + [','] + "" == Join(all) + [','];
  }

  lemma StepJoins(s: Splitter, c: char)
    ensures var s' := NextSplitter(s, c);
            Join(s'.done + [s'.current]) == Join(s.done + [s.current]) + [c]
  {
    StepPieces(s, c);
    if IsCode(s.lexer, c) && c == ',' && s.depth == 0 {
      JoinNewPiece(s.done + [s.current]);
    } else {
      JoinGrowsLast(s.done, s.current, c);
    }
  }

  /** A top-level comma starts a piece; everything else goes into the last one. */
  lemma StepPieces(s: Splitter, c: char)
    ensures var s' := NextSplitter(s, c);
            if IsCode(s.lexer, c) && c == ',' && s.depth == 0
            then s'.done + [s'.current] == s.done + [s.current] + [""]
            else s'.done == s.done && s'.current == s.current + [c]
  {}

  const FRESH := Splitter(OUTSIDE, 0, [], "")

  lemma {:induction false} SplitsJoin(source: string)
    ensures var s := ScanSplits(FRESH, source);
            Join(s.done + [s.current]) == source
  {
    if source != "" {
      var init, c := source[..|source| - 1], source[|source| - 1];
      SplitsJoin(init);
      var s := ScanSplits(FRESH, init);
      assert ScanSplits(FRESH, source) == NextSplitter(s, c);
      StepJoins(s, c);
      assert source == init + [c];
    }
  }

  /** Splitting loses nothing: the pieces joined by commas are the source. */
  lemma SplitIsLossless(source: string)
    ensures Join(RawArguments(source)) == source
  {
    SplitsJoin(source);
  }

  // ---------- extraction ----------

  datatype Call = Call(arguments: seq<string>, position: nat)

  function SkipSpaces(content: string, i: nat): (j: nat)
    requires i <= |content|
    ensures i <= j <= |content|
    decreases |content| - i
  {
    if i < |content| && IsSpace(content[i]) then SkipSpaces(content, i + 1) else i
  }

  const KEYWORD: string := "evalScript"

  /** The regular expression `\bevalScript\s*\(` matches at `i`; `isWord` is `\w`. */
  predicate MatchesAt(content: string, i: nat, isWord: char -> bool) {
    && i + |KEYWORD| <= |content| && content[i..i + |KEYWORD|] == KEYWORD
    && (i == 0 || !isWord(content[i - 1]))
    && (var open := SkipSpaces(content, i + |KEYWORD|);
        open < |content| && content[open] == '(')
  }

  function OpenOf(content: string, i: nat, isWord: char -> bool): (open: nat)
    requires MatchesAt(content, i, isWord)
    ensures open < |content| && content[open] == '('
  {
    SkipSpaces(content, i + |KEYWORD|)
  }

  ghost function CallAt(content: string, i: nat, isWord: char -> bool): Option<Call> {
    if !MatchesAt(content, i, isWord) then None
    else
      var open := OpenOf(content, i, isWord);
      var close := CloseOf(content, open);
      if close.None? then None
      else Some(Call(StripAll(RawArguments(content[open + 1..close.value])), i))
  }

  /** The calls that start before position `n`, in order. */
  ghost function CallsBefore(content: string, n: nat, isWord: char -> bool): seq<Call> {
    if n == 0 then []
    else
      var call := CallAt(content, n - 1, isWord);
      CallsBefore(content, n - 1, isWord) + if call.Some? then [call.value] else []
  }

  /** The first fifty calls, in order of position. */
  method ExtractCalls(content: string, isWord: char -> bool) returns (calls: seq<Call>)
    ensures var all := CallsBefore(content, |content|, isWord);
            calls == if |all| <= MAX_FINDINGS then all else all[..MAX_FINDINGS]
  {
    calls := [];
    for i := 0 to |content|
      invariant calls == CallsBefore(content, i, isWord) && |calls| < MAX_FINDINGS
    {
      var call := ReadCall(content, i, isWord);
      if call.Some? {
        calls := calls + [call.value];
        if |calls| >= MAX_FINDINGS {
          CallsGrow(content, i + 1, |content|, isWord);
          return;
        }
      }
    }
  }

  method ReadCall(content: string, i: nat, isWord: char -> bool) returns (call: Option<Call>)
    ensures call == CallAt(content, i, isWord)
  {
    if !MatchesAt(content, i, isWord) {
      return None;
    }
    var open := OpenOf(content, i, isWord);
    var close := FindClose(content, open);
    if close.None? {
      return None;
    }
    var arguments := SplitTopLevelArguments(content[open + 1..close.value]);
    return Some(Call(arguments, i));
  }

  lemma {:induction false} CallsGrow(content: string, m: nat, n: nat, isWord: char -> bool)
    requires m <= n
    ensures CallsBefore(content, m, isWord) <= CallsBefore(content, n, isWord)
    decreases n
  {
    if m < n {
      CallsGrow(content, m, n - 1, isWord);
    }
  }

  // ---------- well-formed argument text ----------

  datatype LiteralChar = Bare(c: char) | Escaped(c: char)

  /** JavaScript text as far as the scanners look at it. */
  datatype Piece =
    | Plain(c: char)
    | Stray(c: char)
    | Literal(quote: char, body: seq<LiteralChar>)
    | Group(open: char, inner: seq<Piece>, close: char)

  function RenderBody(body: seq<LiteralChar>): string {
    if body == [] then ""
    else RenderBody(body[..|body| - 1]) + RenderChar(body[|body| - 1])
  }

  function RenderChar(b: LiteralChar): string {
    match b
    case Bare(c) => [c]
    case Escaped(c) => ['\\', c]
  }

  function Render(pieces: seq<Piece>): string
    decreases pieces
  {
    if pieces == [] then ""
    else Render(pieces[..|pieces| - 1]) +
         match pieces[|pieces| - 1]
         case Plain(c) => [c]
         case Stray(c) => [c]
         case Literal(q, body) => [q] + RenderBody(body) + [q]
         case Group(open, inner, close) => [open] + Render(inner) + [close]
  }

  predicate LiteralOk(quote: char, body: seq<LiteralChar>) {
    quote in "'\"`" && forall b :: b in body && b.Bare? ==> b.c != quote && b.c != '\\'
  }

  predicate PlainOk(c: char, nested: bool) {
    c !in "'\"`([{)]}" && (c == ',' ==> nested)
  }

  predicate Brackets(open: char, close: char) {
    (open == '(' && close == ')') || (open == '[' && close == ']') || (open == '{' && close == '}')
  }

  /** Quotes and brackets are closed, commas occur only inside them, and a closing bracket that
      nothing opened, which the splitter ignores, only outside them. */
  predicate Closed(pieces: seq<Piece>, nested: bool)
    decreases pieces
  {
    pieces == [] ||
    (&& Closed(pieces[..|pieces| - 1], nested)
     && match pieces[|pieces| - 1]
        case Plain(c) => PlainOk(c, nested)
        case Stray(c) => c in "]}" && !nested
        case Literal(q, body) => LiteralOk(q, body)
        case Group(open, inner, close) => Brackets(open, close) && Closed(inner, true))
  }

  // ---------- scanning rendered text ----------

  lemma {:induction false} ScanParensConcat(p: Paren, a: string, b: string)
    ensures ScanParens(p, a + b) == ScanParens(ScanParens(p, a), b)
    decreases |b|
  {
    if b == "" {
      assert a + b == a;
    } else {
      assert (a + b)[..|a + b| - 1] == a + b[..|b| - 1];
      ScanParensConcat(p, a, b[..|b| - 1]);
    }
  }

  lemma {:induction false} ScanSplitsConcat(s: Splitter, a: string, b: string)
    ensures ScanSplits(s, a + b) == ScanSplits(ScanSplits(s, a), b)
    decreases |b|
  {
    if b == "" {
      assert a + b == a;
    } else {
      assert (a + b)[..|a + b| - 1] == a + b[..|b| - 1];
      ScanSplitsConcat(s, a, b[..|b| - 1]);
    }
  }

  /** `text` leaves the parenthesis scanner where it was, and never takes it below its depth. */
  ghost predicate Keeps(p: Paren, text: string) {
    && ScanParens(p, text) == p
    && forall i :: 0 <= i <= |text| ==> ScanParens(p, text[..i]).depth >= p.depth
  }

  lemma KeepsConcat(p: Paren, a: string, b: string)
    requires Keeps(p, a) && Keeps(p, b)
    ensures Keeps(p, a + b)
  {
    ScanParensConcat(p, a, b);
    forall i | 0 <= i <= |a + b| ensures ScanParens(p, (a + b)[..i]).depth >= p.depth {
      if i <= |a| {
        assert (a + b)[..i] == a[..i];
      } else {
        assert (a + b)[..i] == a + b[..i - |a|];
        ScanParensConcat(p, a, b[..i - |a|]);
      }
    }
  }

  lemma ScanOne(p: Paren, c: char)
    ensures ScanParens(p, [c]) == NextParen(p, c) && ScanParens(p, []) == p
  {
    assert [c][..0] == [];
  }

  lemma KeepsOne(p: Paren, c: char)
    requires NextParen(p, c) == p
    ensures Keeps(p, [c])
  {
    ScanOne(p, c);
    forall i | 0 <= i <= 1 ensures ScanParens(p, [c][..i]).depth >= p.depth {
      assert [c][..0] == [] && [c][..1] == [c];
    }
  }

  /** A delimiter, text that keeps the state behind it, and the matching delimiter. */
  lemma KeepsWrapped(p: Paren, inside: Paren, open: char, text: string, close: char)
    requires NextParen(p, open) == inside && NextParen(inside, close) == p && inside.depth >= p.depth
    requires Keeps(inside, text)
    ensures Keeps(p, [open] + text + [close])
  {
    var all := [open] + text + [close];
    ScanOne(p, open);
    ScanOne(inside, close);
    ScanParensConcat(p, [open], text);
    ScanParensConcat(p, [open] + text, [close]);
    forall i | 0 <= i <= |all| ensures ScanParens(p, all[..i]).depth >= p.depth {
      if i == 0 {
        assert all[..i] == [];
      } else if i <= |text| + 1 {
        assert all[..i] == [open] + text[..i - 1];
        ScanParensConcat(p, [open], text[..i - 1]);
      } else {
        assert all[..i] == all;
      }
    }
  }

  lemma {:induction false} BodyKeeps(quote: char, body: seq<LiteralChar>, d: int)
    requires LiteralOk(quote, body)
    ensures Keeps(Paren(Lexer(Some(quote), false), d), RenderBody(body))
  {
    var p := Paren(Lexer(Some(quote), false), d);
    if body == [] {
      assert forall i :: 0 <= i <= 0 ==> ""[..i] == "";
    } else {
      var init, last := body[..|body| - 1], body[|body| - 1];
      BodyKeeps(quote, init, d);
      match last
      case Bare(c) =>
        assert last in body;
        KeepsOne(p, c);
        KeepsConcat(p, RenderBody(init), [c]);
      case Escaped(c) =>
        EscapeKeeps(p, c);
        KeepsConcat(p, RenderBody(init), ['\\', c]);
    }
  }

  lemma EscapeKeeps(p: Paren, c: char)
    requires p.lexer.quote.Some? && !p.lexer.escaped && p.lexer.quote.value != '\\'
    ensures Keeps(p, ['\\', c])
  {
    ScanOne(p, '\\');
    ScanOne(NextParen(p, '\\'), c);
    assert ['\\', c] == ['\\'] + [c];
    ScanParensConcat(p, ['\\'], [c]);
    forall i | 0 <= i <= 2 ensures ScanParens(p, ['\\', c][..i]).depth >= p.depth {
      assert ['\\', c][..0] == [] && ['\\', c][..1] == ['\\'] && ['\\', c][..2] == ['\\', c];
    }
  }

  lemma {:induction false} PiecesKeep(pieces: seq<Piece>, nested: bool, d: int)
    requires Closed(pieces, nested)
    ensures Keeps(Paren(OUTSIDE, d), Render(pieces))
    decreases pieces
  {
    var p := Paren(OUTSIDE, d);
    if pieces == [] {
      assert forall i :: 0 <= i <= 0 ==> ""[..i] == "";
    } else {
      var init, last := pieces[..|pieces| - 1], pieces[|pieces| - 1];
      PiecesKeep(init, nested, d);
      match last
      case Plain(c) =>
        KeepsOne(p, c);
        KeepsConcat(p, Render(init), [c]);
      case Stray(c) =>
        KeepsOne(p, c);
        KeepsConcat(p, Render(init), [c]);
      case Literal(q, body) =>
        BodyKeeps(q, body, d);
        KeepsWrapped(p, Paren(Lexer(Some(q), false), d), q, RenderBody(body), q);
        KeepsConcat(p, Render(init), [q] + RenderBody(body) + [q]);
      case Group(open, inner, close) =>
        var inside := NextParen(p, open);
        PiecesKeep(inner, true, inside.depth);
        KeepsWrapped(p, inside, open, Render(inner), close);
        KeepsConcat(p, Render(init), [open] + Render(inner) + [close]);
    }
  }

  lemma SplitOne(s: Splitter, c: char)
    ensures ScanSplits(s, [c]) == NextSplitter(s, c)
  {
    assert [c][..0] == [];
  }

  lemma SplitWrapped(s: Splitter, open: char, text: string, close: char, end: Splitter)
    requires ScanSplits(NextSplitter(s, open), text) == end
    ensures ScanSplits(s, [open] + text + [close]) == NextSplitter(end, close)
  {
    SplitOne(s, open);
    SplitOne(end, close);
    ScanSplitsConcat(s, [open], text);
    ScanSplitsConcat(s, [open] + text, [close]);
  }

  lemma {:induction false} BodyAbsorbed(quote: char, body: seq<LiteralChar>, s: Splitter)
    requires LiteralOk(quote, body) && s.lexer == Lexer(Some(quote), false)
    ensures ScanSplits(s, RenderBody(body)) == s.(current := s.current + RenderBody(body))
  {
    if body == [] {
      assert s.current + "" == s.current;
    } else {
      var init, last := body[..|body| - 1], body[|body| - 1];
      BodyAbsorbed(quote, init, s);
      CharAbsorbed(s.(current := s.current + RenderBody(init)), last, quote);
      ScanSplitsConcat(s, RenderBody(init), RenderChar(last));
      assert last in body;
      assert s.current + RenderBody(init) + RenderChar(last) == s.current + RenderBody(body);
    }
  }

  /** One character of a literal, escaped or not, stays in the current argument. */
  lemma CharAbsorbed(s: Splitter, b: LiteralChar, quote: char)
    requires s.lexer == Lexer(Some(quote), false) && IsQuote(quote)
    requires b.Bare? ==> b.c != quote && b.c != '\\'
    ensures ScanSplits(s, RenderChar(b)) == s.(current := s.current + RenderChar(b))
  {
    match b
    case Bare(c) => SplitOne(s, c);
    case Escaped(c) =>
      SplitOne(s, '\\');
      SplitOne(NextSplitter(s, '\\'), c);
      assert ['\\', c] == ['\\'] + [c];
      ScanSplitsConcat(s, ['\\'], [c]);
      assert s.current + ['\\'] + [c] == s.current + ['\\', c];
  }

  /** The splitter adds `text` to its current argument and nothing else. */
  ghost predicate Absorbed(s: Splitter, text: string) {
    ScanSplits(s, text) == s.(current := s.current + text)
  }

  lemma AbsorbedConcat(s: Splitter, a: string, b: string)
    requires Absorbed(s, a) && Absorbed(s.(current := s.current + a), b)
    ensures Absorbed(s, a + b)
  {
    ScanSplitsConcat(s, a, b);
    assert s.current + (a + b) == s.current + a + b;
  }

  lemma LiteralAbsorbed(quote: char, body: seq<LiteralChar>, s: Splitter)
    requires LiteralOk(quote, body) && s.lexer == OUTSIDE
    ensures Absorbed(s, [quote] + RenderBody(body) + [quote])
  {
    var inside := NextSplitter(s, quote);
    QuoteOpens(s, quote);
    BodyAbsorbed(quote, body, inside);
    var end := inside.(current := inside.current + RenderBody(body));
    SplitWrapped(s, quote, RenderBody(body), quote, end);
    QuoteCloses(end, quote);
    Reassociate(s.current, [quote], RenderBody(body), [quote]);
  }

  lemma Reassociate(a: string, b: string, c: string, d: string)
    ensures a + b + c + d == a + (b + c + d)
  {}

  lemma QuoteOpens(s: Splitter, quote: char)
    requires s.lexer == OUTSIDE && IsQuote(quote)
    ensures NextSplitter(s, quote) == s.(lexer := Lexer(Some(quote), false), current := s.current + [quote])
  {}

  lemma QuoteCloses(s: Splitter, quote: char)
    requires s.lexer == Lexer(Some(quote), false) && IsQuote(quote)
    ensures NextSplitter(s, quote) == s.(lexer := OUTSIDE, current := s.current + [quote])
  {}

  lemma GroupAbsorbed(s: Splitter, open: char, text: string, close: char)
    requires s.lexer == OUTSIDE && Brackets(open, close) && Absorbed(NextSplitter(s, open), text)
    ensures Absorbed(s, [open] + text + [close])
  {
    var inside := NextSplitter(s, open);
    SplitWrapped(s, open, text, close, inside.(current := inside.current + text));
    Reassociate(s.current, [open], text, [close]);
  }

  lemma {:induction false} PiecesAbsorbed(pieces: seq<Piece>, nested: bool, s: Splitter)
    requires Closed(pieces, nested) && s.lexer == OUTSIDE && (nested <==> s.depth > 0)
    ensures Absorbed(s, Render(pieces))
    decreases pieces
  {
    if pieces == [] {
      assert s.current + "" == s.current;
    } else {
      var init, last := pieces[..|pieces| - 1], pieces[|pieces| - 1];
      PiecesAbsorbed(init, nested, s);
      var s1 := s.(current := s.current + Render(init));
      match last
      case Plain(c) =>
        SplitOne(s1, c);
        AbsorbedConcat(s, Render(init), [c]);
      case Stray(c) =>
        SplitOne(s1, c);
        AbsorbedConcat(s, Render(init), [c]);
      case Literal(q, body) =>
        LiteralAbsorbed(q, body, s1);
        AbsorbedConcat(s, Render(init), [q] + RenderBody(body) + [q]);
      case Group(open, inner, close) =>
        PiecesAbsorbed(inner, true, NextSplitter(s1, open));
        GroupAbsorbed(s1, open, Render(inner), close);
        AbsorbedConcat(s, Render(init), [open] + Render(inner) + [close]);
    }
  }

  // ---------- the round trip ----------

  function RenderAll(args: seq<seq<Piece>>): seq<string> {
    seq(|args|, i requires 0 <= i < |args| => Render(args[i]))
  }

  ghost predicate ArgumentsOk(args: seq<seq<Piece>>) {
    && args != []
    && forall a :: a in args ==> Closed(a, false) && Trimmed(Render(a))
  }

  lemma RenderAllStep(args: seq<seq<Piece>>)
    requires args != []
    ensures var all := RenderAll(args);
            && all[..|all| - 1] == RenderAll(args[..|args| - 1]) && all[|all| - 1] == Render(args[|args| - 1])
            && all == RenderAll(args[..|args| - 1]) + [Render(args[|args| - 1])]
  {}

  lemma {:induction false} ArgumentsKeep(args: seq<seq<Piece>>, d: int)
    requires ArgumentsOk(args)
    ensures Keeps(Paren(OUTSIDE, d), Join(RenderAll(args)))
  {
    var p, init, last := Paren(OUTSIDE, d), args[..|args| - 1], args[|args| - 1];
    PiecesKeep(last, false, d);
    RenderAllStep(args);
    if init != [] {
      ArgumentsKeep(init, d);
      KeepsOne(p, ',');
      KeepsConcat(p, Join(RenderAll(init)), [',']);
      KeepsConcat(p, Join(RenderAll(init)) + [','], Render(last));
    }
  }

  lemma AfterComma(text: string, done: seq<string>, current: string, last: seq<Piece>)
    requires ScanSplits(FRESH, text) == Splitter(OUTSIDE, 0, done, current) && Closed(last, false)
    ensures ScanSplits(FRESH, text + [','] + Render(last)) == Splitter(OUTSIDE, 0, done + [current], Render(last))
  {
    var s := Splitter(OUTSIDE, 0, done, current);
    var s' := NextSplitter(s, ',');
    SplitOne(s, ',');
    ScanSplitsConcat(FRESH, text, [',']);
    assert s' == Splitter(OUTSIDE, 0, done + [current], "");
    AbsorbedFresh(s', last);
    ScanSplitsConcat(FRESH, text + [','], Render(last));
  }

  lemma AbsorbedFresh(s: Splitter, last: seq<Piece>)
    requires Closed(last, false) && s.lexer == OUTSIDE && s.depth == 0 && s.current == ""
    ensures ScanSplits(s, Render(last)) == s.(current := Render(last))
  {
    PiecesAbsorbed(last, false, s);
    assert "" + Render(last) == Render(last);
  }

  lemma {:induction false} ArgumentsSplit(args: seq<seq<Piece>>)
    requires ArgumentsOk(args)
    ensures ScanSplits(FRESH, Join(RenderAll(args))) ==
            Splitter(OUTSIDE, 0, RenderAll(args[..|args| - 1]), Render(args[|args| - 1]))
  {
    var init, last := args[..|args| - 1], args[|args| - 1];
    RenderAllStep(args);
    if init == [] {
      AbsorbedFresh(FRESH, last);
    } else {
      ArgumentsSplit(init);
      RenderAllStep(init);
      AfterComma(Join(RenderAll(init)), RenderAll(init[..|init| - 1]), Render(init[|init| - 1]), last);
    }
  }

  lemma RenderedAreTrimmed(args: seq<seq<Piece>>)
    requires ArgumentsOk(args)
    ensures StripAll(RenderAll(args)) == RenderAll(args)
  {
    forall i | 0 <= i < |args| ensures Strip(Render(args[i])) == Render(args[i]) {
      assert args[i] in args;
      StripTrimmed(Render(args[i]));
    }
  }

  lemma JoinedArgumentsParse(args: seq<seq<Piece>>)
    requires ArgumentsOk(args)
    ensures StripAll(RawArguments(Join(RenderAll(args)))) == RenderAll(args)
  {
    ArgumentsSplit(args);
    RenderAllStep(args);
    var all := RenderAll(args);
    assert RawArguments(Join(all)) == all;
    RenderedAreTrimmed(args);
  }

  lemma ClosesAfter(content: string, open: nat, text: string)
    requires open + 1 + |text| < |content|
    requires content[open + 1..open + 1 + |text|] == text && content[open + 1 + |text|] == ')'
    requires Keeps(Paren(OUTSIDE, 1), text)
    ensures CloseOf(content, open) == Some(open + 1 + |text|)
  {
    var close := open + 1 + |text|;
    forall i | open < i <= close ensures DepthBefore(content, open, i) > 0 {
      assert content[open + 1..i] == text[..i - open - 1];
    }
    var whole := content[open + 1..close + 1];
    assert whole[..|whole| - 1] == text;
    assert ClosesAt(content, open, close);
    ClosesOnce(content, open, close, CloseOf(content, open).value);
  }

  lemma {:induction false} GapSkipped(content: string, i: nat, open: nat)
    requires i <= open < |content| && !IsSpace(content[open])
    requires forall k :: i <= k < open ==> IsSpace(content[k])
    ensures SkipSpaces(content, i) == open
    decreases open - i
  {
    if i < open {
      GapSkipped(content, i + 1, open);
    }
  }

  /** The keyword, standing at `i` and not inside a word, with only white space before its parenthesis. */
  ghost predicate WrittenAt(
    content: string, i: nat, isWord: char -> bool, before: string, gap: string, after: string)
  {
    && content == before + "evalScript" + gap + "(" + after && |before| == i
    && (before != "" ==> !isWord(before[|before| - 1])) && forall c :: c in gap ==> IsSpace(c)
  }

  /** The pattern matches exactly where the keyword is written. */
  lemma MatchesIff(content: string, i: nat, isWord: char -> bool)
    ensures MatchesAt(content, i, isWord) <==>
              exists before, gap, after :: WrittenAt(content, i, isWord, before, gap, after)
  {
    if MatchesAt(content, i, isWord) {
      var from, open := i + |KEYWORD|, OpenOf(content, i, isWord);
      SkippedAreSpaces(content, from);
      var before, gap, after := content[..i], content[from..open], content[open + 1..];
      assert content == content[..i] + content[i..from] + content[from..open] + [content[open]] + content[open + 1..];
      assert WrittenAt(content, i, isWord, before, gap, after);
    }
    if before, gap, after :| WrittenAt(content, i, isWord, before, gap, after) {
      WrittenMatches(content, i, isWord, before, gap, after);
    }
  }

  lemma WrittenMatches(content: string, i: nat, isWord: char -> bool, before: string, gap: string, after: string)
    requires WrittenAt(content, i, isWord, before, gap, after)
    ensures MatchesAt(content, i, isWord)
  {
    var open := i + |KEYWORD| + |gap|;
    assert content[i..i + |KEYWORD|] == KEYWORD && content[open] == '(';
    assert i > 0 ==> content[i - 1] == before[i - 1];
    assert forall k :: i + |KEYWORD| <= k < open ==> content[k] == gap[k - i - |KEYWORD|];
    GapSkipped(content, i + |KEYWORD|, open);
  }

  lemma {:induction false} SkippedAreSpaces(content: string, i: nat)
    requires i <= |content|
    ensures forall c :: c in content[i..SkipSpaces(content, i)] ==> IsSpace(c)
    decreases |content| - i
  {
    if i < |content| && IsSpace(content[i]) {
      SkippedAreSpaces(content, i + 1);
      var end := SkipSpaces(content, i);
      assert content[i..end] == [content[i]] + content[i + 1..end];
    }
  }

  ghost function Embed(before: string, gap: string, text: string, after: string): string {
    before + KEYWORD + gap + "(" + text + ")" + after
  }

  /** Any closed and trimmed arguments, written as a call anywhere in any text, are read back
      exactly, whatever quotes or calls precede them. */
  lemma CallRoundTrip(before: string, gap: string, args: seq<seq<Piece>>, after: string, isWord: char -> bool)
    requires ArgumentsOk(args)
    requires before != "" ==> !isWord(before[|before| - 1])
    requires forall c :: c in gap ==> IsSpace(c)
    ensures CallAt(Embed(before, gap, Join(RenderAll(args)), after), |before|, isWord)
            == Some(Call(RenderAll(args), |before|))
  {
    ArgumentsKeep(args, 1);
    TextReadBack(before, gap, Join(RenderAll(args)), after, isWord);
    JoinedArgumentsParse(args);
  }

  /** Text that keeps the parenthesis scanner's state is read back as it splits. */
  lemma TextReadBack(before: string, gap: string, text: string, after: string, isWord: char -> bool)
    requires Keeps(Paren(OUTSIDE, 1), text)
    requires before != "" ==> !isWord(before[|before| - 1])
    requires forall c :: c in gap ==> IsSpace(c)
    ensures CallAt(Embed(before, gap, text, after), |before|, isWord)
            == Some(Call(StripAll(RawArguments(text)), |before|))
  {
    var content, i := Embed(before, gap, text, after), |before|;
    var open := i + |KEYWORD| + |gap|;
    EmbedParts(before, gap, text, after);
    OpenFound(before, gap, text, after);
    ClosesAfter(content, open, text);
    CallReads(content, i, open, text, isWord);
  }

  /** The opening parenthesis follows the keyword and the gap, and the text before is untouched. */
  lemma OpenFound(before: string, gap: string, text: string, after: string)
    requires forall c :: c in gap ==> IsSpace(c)
    ensures var content, i := Embed(before, gap, text, after), |before|;
            && SkipSpaces(content, i + |KEYWORD|) == i + |KEYWORD| + |gap|
            && (i > 0 ==> content[i - 1] == before[i - 1])
  {
    var content, i := Embed(before, gap, text, after), |before|;
    EmbedParts(before, gap, text, after);
    GapSkipped(content, i + |KEYWORD|, i + |KEYWORD| + |gap|);
    assert i > 0 ==> content[..i][i - 1] == before[i - 1];
  }

  lemma CallReads(content: string, i: nat, open: nat, text: string, isWord: char -> bool)
    requires i + |KEYWORD| <= open && open + 1 + |text| < |content| && content[i..i + |KEYWORD|] == KEYWORD
    requires i == 0 || !isWord(content[i - 1])
    requires SkipSpaces(content, i + |KEYWORD|) == open && content[open] == '('
    requires content[open + 1..open + 1 + |text|] == text && CloseOf(content, open) == Some(open + 1 + |text|)
    ensures CallAt(content, i, isWord) == Some(Call(StripAll(RawArguments(text)), i))
  {}

  lemma EmbedParts(before: string, gap: string, text: string, after: string)
    ensures var content := Embed(before, gap, text, after);
            var i := |before|;
            var open := i + |KEYWORD| + |gap|;
            && open + 1 + |text| < |content|
            && content[..i] == before && content[i..i + |KEYWORD|] == KEYWORD
            && content[open] == '(' && content[open + 1..open + 1 + |text|] == text && content[open + 1 + |text|] == ')'
            && forall k :: i + |KEYWORD| <= k < open ==> content[k] in gap
  {}

  /** The empty argument list is the one that does not come back: it reads as one empty argument. */
  lemma EmptyCallReadsOneArgument(before: string, gap: string, after: string, isWord: char -> bool)
    requires before != "" ==> !isWord(before[|before| - 1])
    requires forall c :: c in gap ==> IsSpace(c)
    ensures CallAt(Embed(before, gap, Join([]), after), |before|, isWord) == Some(Call([""], |before|))
  {
    assert ArgumentsOk([[]]) && RenderAll([[]]) == [""] && Join([""]) == Join([]);
    CallRoundTrip(before, gap, [[]], after, isWord);
  }

  /** Below the cap the extractor's result contains the embedded call. */
  lemma EmbeddedCallIsReported(
    before: string, gap: string, args: seq<seq<Piece>>, after: string, isWord: char -> bool)
    requires ArgumentsOk(args)
    requires before != "" ==> !isWord(before[|before| - 1])
    requires forall c :: c in gap ==> IsSpace(c)
    requires var content := Embed(before, gap, Join(RenderAll(args)), after);
             |CallsBefore(content, |before|, isWord)| < MAX_FINDINGS
    ensures var content := Embed(before, gap, Join(RenderAll(args)), after);
            var all := CallsBefore(content, |content|, isWord);
            var k := |CallsBefore(content, |before|, isWord)|;
            k < |all| && k < MAX_FINDINGS && all[k] == Call(RenderAll(args), |before|)
  {
    var content := Embed(before, gap, Join(RenderAll(args)), after);
    CallRoundTrip(before, gap, args, after, isWord);
    EmbedParts(before, gap, Join(RenderAll(args)), after);
    CallsGrow(content, |before| + 1, |content|, isWord);
  }
}
