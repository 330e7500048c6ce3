/** Python string operations used by several components. */
module Text {
  import opened Sequences

  /** The characters removed by `str.strip` and matched by `\s`. */
  predicate IsSpace(c: char) {
    var n := c as int;
    || 0x09 <= n <= 0x0d || 0x1c <= n <= 0x20 || n == 0x85 || n == 0xa0 || n == 0x1680
    || 0x2000 <= n <= 0x200a || n == 0x2028 || n == 0x2029 || n == 0x202f || n == 0x205f || n == 0x3000
  }

  function LStrip(s: string): string {
    if s != "" && IsSpace(s[0]) then LStrip(s[1..]) else s
  }

  function RStrip(s: string): string {
    if s != "" && IsSpace(s[|s| - 1]) then RStrip(s[..|s| - 1]) else s
  }

  function Strip(s: string): string {
    RStrip(LStrip(s))
  }

  predicate Blank(s: string) {
    s == "" || (IsSpace(s[0]) && Blank(s[1..]))
  }

  /** The validators' reading of a required text: trimmed, or refused when blank. */
  function Required(s: string): Option<string> {
    if Blank(s) then None else Some(Strip(s))
  }

  /** Text that `str.strip` leaves alone. */
  predicate Trimmed(s: string) {
    s == "" || (!IsSpace(s[0]) && !IsSpace(s[|s| - 1]))
  }

  /** `text.replace` of backslashes by slashes */
  function Slashes(s: string): string {
    seq(|s|, i requires 0 <= i < |s| => if s[i] == '\\' then '/' else s[i])
  }

  predicate EndsWith(text: string, suffix: string) {
    |suffix| <= |text| && text[|text| - |suffix|..] == suffix
  }

  lemma {:induction false} RStripEnd(s: string)
    ensures var r := RStrip(s); r <= s && (r != "" ==> !IsSpace(r[|r| - 1]))
    ensures s != "" && !IsSpace(s[0]) ==> RStrip(s) != ""
  {
    if s != "" && IsSpace(s[|s| - 1]) {
      RStripEnd(s[..|s| - 1]);
    }
  }

  lemma {:induction false} LStripStart(s: string)
    ensures LStrip(s) != "" ==> !IsSpace(LStrip(s)[0])
    ensures Blank(s) <==> LStrip(s) == ""
  {
    if s != "" && IsSpace(s[0]) {
      LStripStart(s[1..]);
    }
  }

  lemma StripTrimmed(s: string)
    ensures Trimmed(Strip(s))
    ensures Trimmed(s) ==> Strip(s) == s
    ensures Blank(s) <==> Strip(s) == ""
  {
    LStripStart(s);
    RStripEnd(LStrip(s));
  }

  lemma StripIdempotent(s: string)
    ensures Strip(Strip(s)) == Strip(s) && (Blank(Strip(s)) <==> Blank(s))
  {
    StripTrimmed(s);
    StripTrimmed(Strip(s));
  }

  /** Reading a required text again changes nothing. */
  lemma RequiredStays(s: string)
    requires Required(s).Some?
    ensures Required(Strip(s)) == Required(s)
  {
    StripIdempotent(s);
  }

  /** Stripping takes white space off both ends, and nothing else. */
  lemma StripParts(s: string) returns (before: string, after: string)
    ensures s == before + Strip(s) + after && Blank(before) && Blank(after) && Trimmed(Strip(s))
  {
    StripTrimmed(s);
    before := LeadingPart(s);
    after := TrailingPart(LStrip(s));
    Sandwich(before, Strip(s), after);
  }

  lemma Sandwich(a: string, b: string, c: string)
    ensures a + (b + c) == a + b + c
  {}

  lemma {:induction false} LeadingPart(s: string) returns (before: string)
    ensures s == before + LStrip(s) && Blank(before)
  {
    before := "";
    if s != "" && IsSpace(s[0]) {
      var rest := LeadingPart(s[1..]);
      before := [s[0]] + rest;
      assert before[1..] == rest;
    }
  }

  lemma {:induction false} TrailingPart(s: string) returns (after: string)
    ensures s == RStrip(s) + after && Blank(after)
  {
    after := "";
    if s != "" && IsSpace(s[|s| - 1]) {
      var rest := TrailingPart(s[..|s| - 1]);
      after := rest + [s[|s| - 1]];
      BlankEnds(rest, s[|s| - 1]);
    }
  }

  lemma {:induction false} BlankEnds(s: string, c: char)
    requires Blank(s) && IsSpace(c)
    ensures Blank(s + [c])
  {
    if s != "" {
      BlankEnds(s[1..], c);
      assert (s + [c])[1..] == s[1..] + [c];
    }
  }

  // ---------- separated parts ----------

  /** `str.split` at one character. */
  function Split(s: string, sep: char): (parts: seq<string>)
    ensures parts != []
  {
    if s == "" then [""]
    else if s[0] == sep then [""] + Split(s[1..], sep)
    else Grown(s[0], Split(s[1..], sep))
  }

  /** The first part, one character longer. */
  function Grown(c: char, parts: seq<string>): seq<string>
    requires parts != []
  {
    [[c] + parts[0]] + parts[1..]
  }

  lemma GrownAppend(c: char, xs: seq<string>, ys: seq<string>)
    requires xs != []
    ensures Grown(c, xs + ys) == Grown(c, xs) + ys
  {
    assert (xs + ys)[0] == xs[0] && (xs + ys)[1..] == xs[1..] + ys;
  }

  function Join(parts: seq<string>, sep: char): string {
    if parts == [] then ""
    else if |parts| == 1 then parts[0]
    else parts[0] + [sep] + Join(parts[1..], sep)
  }

  predicate Free(s: string, sep: char) {
    forall c :: c in s ==> c != sep
  }

  lemma {:induction false} SplitOne(s: string, sep: char)
    requires Free(s, sep)
    ensures Split(s, sep) == [s]
  {
    if s != "" {
      assert s[0] in s;
      assert forall c :: c in s[1..] ==> c in s;
      SplitOne(s[1..], sep);
      assert [s[0]] + s[1..] == s;
    }
  }

  lemma {:induction false} SplitCons(s: string, rest: string, sep: char)
    requires Free(s, sep)
    ensures Split(s + [sep] + rest, sep) == [s] + Split(rest, sep)
  {
    var all := s + [sep] + rest;
    if s == "" {
      assert all[1..] == rest;
    } else {
      assert s[0] in s;
      assert forall c :: c in s[1..] ==> c in s;
      SplitCons(s[1..], rest, sep);
      assert all[1..] == s[1..] + [sep] + rest;
      assert [s[0]] + s[1..] == s;
    }
  }

  lemma {:induction false} SplitJoined(parts: seq<string>, sep: char)
    requires parts != [] && forall p :: p in parts ==> Free(p, sep)
    ensures Split(Join(parts, sep), sep) == parts
  {
    assert parts[0] in parts;
    if |parts| == 1 {
      SplitOne(parts[0], sep);
    } else {
      SplitJoined(parts[1..], sep);
      SplitCons(parts[0], Join(parts[1..], sep), sep);
      assert [parts[0]] + parts[1..] == parts;
    }
  }

  /** The parts hold no separator, and joined they are the text. */
  lemma {:induction false} JoinSplit(s: string, sep: char)
    ensures Join(Split(s, sep), sep) == s
    ensures forall p :: p in Split(s, sep) ==> Free(p, sep)
  {
    if s != "" {
      var rest := Split(s[1..], sep);
      JoinSplit(s[1..], sep);
      if s[0] == sep {
        assert ([""] + rest)[1..] == rest;
        assert "" + [sep] + s[1..] == s;
      } else {
        var parts := Grown(s[0], rest);
        assert parts[1..] == rest[1..];
        if |rest| > 1 {
          assert [s[0]] + rest[0] + [sep] + Join(rest[1..], sep) == [s[0]] + (rest[0] + [sep] + Join(rest[1..], sep));
        }
        assert [s[0]] + s[1..] == s;
        assert rest[0] in rest;
        forall p | p in parts ensures Free(p, sep) {
          assert p == [s[0]] + rest[0] || p in rest;
        }
      }
    }
  }

  lemma {:induction false} JoinSnoc(parts: seq<string>, last: string, sep: char)
    requires parts != []
    ensures Join(parts + [last], sep) == Join(parts, sep) + [sep] + last
  {
    if |parts| > 1 {
      JoinSnoc(parts[1..], last, sep);
      assert (parts + [last])[1..] == parts[1..] + [last];
      assert parts[0] + [sep] + (Join(parts[1..], sep) + [sep] + last)
             == parts[0] + [sep] + Join(parts[1..], sep) + [sep] + last;
    } else {
      assert (parts + [last])[1..] == [last];
    }
  }

  /** A text ends with a separator and `suffix` exactly when, part by part, it ends with the suffix
      and has something before it. */
  lemma EndsWithParts(text: string, suffix: string, sep: char)
    ensures EndsWith(text, [sep] + suffix) <==>
              exists k :: 0 < k < |Split(text, sep)| && Split(text, sep)[k..] == Split(suffix, sep)
  {
    if EndsWith(text, [sep] + suffix) {
      var before := text[..|text| - |suffix| - 1];
      assert text == before + [sep] + suffix;
      SplitAppend(before, suffix, sep);
      assert Split(text, sep)[|Split(before, sep)|..] == Split(suffix, sep);
    }
    if k :| 0 < k < |Split(text, sep)| && Split(text, sep)[k..] == Split(suffix, sep) {
      PartsEnd(text, suffix, sep, k);
    }
  }

  lemma PartsEnd(text: string, suffix: string, sep: char, k: nat)
    requires 0 < k < |Split(text, sep)| && Split(text, sep)[k..] == Split(suffix, sep)
    ensures EndsWith(text, [sep] + suffix)
  {
    var parts := Split(text, sep);
    JoinSplit(text, sep);
    JoinSplit(suffix, sep);
    JoinAppend(parts[..k], parts[k..], sep);
    assert parts[..k] + parts[k..] == parts;
    EndsAfter(Join(parts[..k], sep), sep, suffix);
  }

  lemma EndsAfter(before: string, sep: char, suffix: string)
    ensures EndsWith(before + [sep] + suffix, [sep] + suffix)
  {
    assert before + [sep] + suffix == before + ([sep] + suffix);
  }

  lemma {:induction false} SplitAppend(s: string, rest: string, sep: char)
    ensures Split(s + [sep] + rest, sep) == Split(s, sep) + Split(rest, sep)
  {
    var all := s + [sep] + rest;
    if s == "" {
      assert all[1..] == rest;
    } else {
      SplitAppend(s[1..], rest, sep);
      assert all[1..] == s[1..] + [sep] + rest;
      if s[0] == sep {
        assert [""] + (Split(s[1..], sep) + Split(rest, sep)) == [""] + Split(s[1..], sep) + Split(rest, sep);
      } else {
        GrownAppend(s[0], Split(s[1..], sep), Split(rest, sep));
      }
    }
  }

  lemma {:induction false} JoinAppend(xs: seq<string>, ys: seq<string>, sep: char)
    requires xs != [] && ys != []
    ensures Join(xs + ys, sep) == Join(xs, sep) + [sep] + Join(ys, sep)
  {
    if |xs| == 1 {
      assert (xs + ys)[1..] == ys;
    } else {
      JoinAppend(xs[1..], ys, sep);
      assert (xs + ys)[1..] == xs[1..] + ys;
      assert xs[0] + [sep] + (Join(xs[1..], sep) + [sep] + Join(ys, sep))
             == xs[0] + [sep] + Join(xs[1..], sep) + [sep] + Join(ys, sep);
    }
  }
}
