/**
 DNS-label-safe names derived from arbitrary strings.  `lower` is the host's lower-casing, of which only its effect on
 names already in lower case matters.
 */
module KubernetesName {
  import opened Option

  predicate Alphanumeric(c: char) {
    'a' <= c <= 'z' || '0' <= c <= '9'
  }

  predicate Allowed(c: char) {
    Alphanumeric(c) || c == '-'
  }

  predicate AllAllowed(s: string) {
    forall i :: 0 <= i < |s| ==> Allowed(s[i])
  }

  // Each maximal run of other characters becomes one hyphen.
  function ReplaceRuns(s: string, inRun: bool): (r: string)
    ensures AllAllowed(r)
  {
    if s == [] then []
    else if Allowed(s[0]) then [s[0]] + ReplaceRuns(s[1..], false)
    else if inRun then ReplaceRuns(s[1..], true)
    else ['-'] + ReplaceRuns(s[1..], true)
  }

  function StripLeft(s: string): (r: string)
    ensures |r| <= |s| && r == s[|s| - |r|..]
    ensures r == [] || r[0] != '-'
  {
    if s != [] && s[0] == '-' then StripLeft(s[1..]) else s
  }

  function StripRight(s: string): (r: string)
    ensures r <= s && (r == [] || r[|r| - 1] != '-')
    ensures s != [] && s[0] != '-' ==> r != []
  {
    if s != [] && s[|s| - 1] == '-' then StripRight(s[..|s| - 1]) else s
  }

  predicate SingleHyphens(s: string) {
    forall i, j :: 0 <= i < |s| && 0 <= j < |s| && j == i + 1 ==> s[i] != '-' || s[j] != '-'
  }

  // Runs of hyphens become one.
  function Collapse(s: string): (r: string)
    ensures s != [] ==> r != [] && r[0] == s[0] && r[|r| - 1] == s[|s| - 1]
    ensures SingleHyphens(r)
    ensures AllAllowed(s) ==> AllAllowed(r)
  {
    if |s| <= 1 then s
    else if s[0] == '-' && s[1] == '-' then Collapse(s[1..])
    else [s[0]] + Collapse(s[1..])
  }

  function Truncated(s: string): string {
    if |s| > 63 then s[..63] else s
  }

  // None stands for the ValueError.
  function KubernetesName(lower: string -> string, value: string): Option<string> {
    var stripped := StripRight(StripLeft(ReplaceRuns(lower(value), false)));
    var normalized := Collapse(stripped);
    if normalized == [] then None else Some(StripRight(Truncated(normalized)))
  }

  // At most 63 letters, digits and single inner hyphens.
  predicate Label(s: string) {
    && 0 < |s| <= 63
    && AllAllowed(s)
    && SingleHyphens(s)
    && s[0] != '-' && s[|s| - 1] != '-'
  }

  lemma NameIsLabel(lower: string -> string, value: string)
    ensures KubernetesName(lower, value).Some? ==> Label(KubernetesName(lower, value).value)
  {
    var replaced := ReplaceRuns(lower(value), false);
    var stripped := StripRight(StripLeft(replaced));
    SuffixKept(replaced, StripLeft(replaced));
    PrefixKept(StripLeft(replaced), stripped);
    if stripped != [] {
      TruncationIsLabel(Collapse(stripped));
    }
  }

  lemma SuffixKept(s: string, r: string)
    requires AllAllowed(s) && |r| <= |s| && r == s[|s| - |r|..]
    ensures AllAllowed(r)
  {
  }

  lemma PrefixKept(s: string, r: string)
    requires AllAllowed(s) && r <= s
    ensures AllAllowed(r) && (SingleHyphens(s) ==> SingleHyphens(r))
    ensures r != [] ==> r[0] == s[0]
  {
  }

  lemma TruncationIsLabel(s: string)
    requires AllAllowed(s) && SingleHyphens(s) && s != [] && s[0] != '-'
    ensures Label(StripRight(Truncated(s)))
  {
    PrefixKept(s, Truncated(s));
    PrefixKept(Truncated(s), StripRight(Truncated(s)));
  }

  predicate HasAlphanumeric(s: string) {
    exists i :: 0 <= i < |s| && Alphanumeric(s[i])
  }

  lemma {:induction false} ReplaceKeepsAlphanumeric(s: string, inRun: bool)
    ensures HasAlphanumeric(s) <==> HasAlphanumeric(ReplaceRuns(s, inRun))
  {
    if s != [] {
      var rest := ReplaceRuns(s[1..], !Allowed(s[0]));
      ReplaceKeepsAlphanumeric(s[1..], !Allowed(s[0]));
      HeadOrTail(s);
      if Allowed(s[0]) {
        HeadOrTail([s[0]] + rest);
      } else if !inRun {
        HeadOrTail(['-'] + rest);
      }
    }
  }

  lemma HeadOrTail(s: string)
    requires s != []
    ensures HasAlphanumeric(s) <==> Alphanumeric(s[0]) || HasAlphanumeric(s[1..])
  {
    if HasAlphanumeric(s) && !Alphanumeric(s[0]) {
      var i :| 0 <= i < |s| && Alphanumeric(s[i]);
      assert s[1..][i - 1] == s[i];
    }
    if HasAlphanumeric(s[1..]) {
      var i :| 0 <= i < |s[1..]| && Alphanumeric(s[1..][i]);
      assert s[i + 1] == s[1..][i];
    }
  }

  // Of allowed characters, stripping hyphens leaves nothing exactly when there is nothing else.
  lemma {:induction false} StripLeftEmpty(s: string)
    requires AllAllowed(s)
    ensures StripLeft(s) == [] <==> !HasAlphanumeric(s)
  {
    if s != [] && s[0] == '-' {
      HeadOrTail(s);
      StripLeftEmpty(s[1..]);
    } else if s != [] {
      assert Alphanumeric(s[0]);
    }
  }

  // A name can be derived exactly when the lower-cased value has a letter or digit of the ASCII range.
  lemma NamedIff(lower: string -> string, value: string)
    ensures KubernetesName(lower, value).Some? <==> HasAlphanumeric(lower(value))
  {
    var replaced := ReplaceRuns(lower(value), false);
    ReplaceKeepsAlphanumeric(lower(value), false);
    StripLeftEmpty(replaced);
  }

  lemma {:induction false} ReplaceFixed(s: string, inRun: bool)
    requires AllAllowed(s)
    ensures ReplaceRuns(s, inRun) == s
  {
    if s != [] {
      ReplaceFixed(s[1..], false);
    }
  }

  lemma {:induction false} CollapseFixed(s: string)
    requires SingleHyphens(s)
    ensures Collapse(s) == s
  {
    if |s| > 1 {
      CollapseFixed(s[1..]);
    }
  }

  lemma NothingToStrip(s: string)
    requires s != [] && s[0] != '-' && s[|s| - 1] != '-'
    ensures StripLeft(s) == s && StripRight(s) == s
  {
  }

  // Naming twice is naming once: a label names itself.
  lemma LabelNamesItself(lower: string -> string, s: string)
    requires Label(s) && lower(s) == s
    ensures KubernetesName(lower, s) == Some(s)
  {
    ReplaceFixed(s, false);
    NothingToStrip(s);
    CollapseFixed(s);
    assert Truncated(s) == s;
  }

  // ---------------------------------------------------------------- what stands between words

  predicate Hyphens(s: string) {
    forall i :: 0 <= i < |s| ==> s[i] == '-'
  }

  lemma {:induction false} ReplaceSplit(x: string, y: string, inRun: bool)
    ensures ReplaceRuns(x + y, inRun) ==
            ReplaceRuns(x, inRun) + ReplaceRuns(y, if x == [] then inRun else !Allowed(x[|x| - 1]))
  {
    if x == [] {
      assert x + y == y;
    } else {
      ReplaceSplit(x[1..], y, !Allowed(x[0]));
      var rest := ReplaceRuns(y, !Allowed(x[|x| - 1]));
      HeadJoins(x, y);
      HeadJoins([x[0]] + ReplaceRuns(x[1..], !Allowed(x[0])), rest);
      HeadJoins(['-'] + ReplaceRuns(x[1..], !Allowed(x[0])), rest);
    }
  }

  lemma {:induction false} GapIsHyphens(gap: string, inRun: bool)
    requires !HasAlphanumeric(gap)
    ensures Hyphens(ReplaceRuns(gap, inRun)) && (gap != [] && !inRun ==> ReplaceRuns(gap, inRun) != [])
  {
    if gap != [] {
      HeadOrTail(gap);
      GapIsHyphens(gap[1..], !Allowed(gap[0]));
    }
  }

  lemma {:induction false} StripHyphens(h: string, s: string)
    requires Hyphens(h) && s != [] && s[0] != '-'
    ensures StripLeft(h + s) == s
  {
    if h == [] {
      assert h + s == s;
    } else {
      assert (h + s)[1..] == h[1..] + s;
      StripHyphens(h[1..], s);
    }
  }

  lemma {:induction false} StripHyphensAfter(s: string, h: string)
    requires Hyphens(h) && s != [] && s[|s| - 1] != '-'
    ensures StripRight(s + h) == s
  {
    if h == [] {
      assert s + h == s;
    } else {
      assert (s + h)[..|s + h| - 1] == s + h[..|h| - 1];
      StripHyphensAfter(s, h[..|h| - 1]);
    }
  }

  lemma CollapseKeeps(s: string)
    requires s != [] && (|s| == 1 || s[0] != '-' || s[1] != '-')
    ensures Collapse(s) == [s[0]] + Collapse(s[1..])
  {
  }

  lemma SingleTail(a: string)
    requires SingleHyphens(a) && |a| > 1
    ensures SingleHyphens(a[1..]) && (a[0] != '-' || a[1] != '-')
  {
  }

  lemma {:induction false} CollapseAfter(a: string, rest: string)
    requires SingleHyphens(a) && (a == [] || a[|a| - 1] != '-')
    ensures Collapse(a + rest) == a + Collapse(rest)
  {
    if a == [] {
      assert a + rest == rest;
    } else {
      if |a| > 1 {
        SingleTail(a);
      }
      CollapseAfter(a[1..], rest);
      CollapseOneMore(a, rest, Collapse(rest));
    }
  }

  lemma CollapseOneMore(a: string, rest: string, r: string)
    requires a != [] && (if |a| > 1 then a[0] != '-' || a[1] != '-' else a[0] != '-')
    requires Collapse(a[1..] + rest) == a[1..] + r
    ensures Collapse(a + rest) == a + r
  {
    HeadJoins(a, rest);
    CollapseKeeps(a + rest);
    HeadJoins(a, r);
  }

  lemma HeadJoins(a: string, r: string)
    requires a != []
    ensures (a + r)[1..] == a[1..] + r && [a[0]] + (a[1..] + r) == a + r
  {
  }

  lemma {:induction false} CollapseHyphens(h: string, b: string)
    requires Hyphens(h) && h != [] && SingleHyphens(b) && b != [] && b[0] != '-'
    ensures Collapse(h + b) == "-" + b
  {
    HeadJoins(h, b);
    if |h| > 1 {
      CollapseHyphens(h[1..], b);
      CollapseDrops(h + b);
    } else {
      HyphenBefore(h + b, b);
    }
  }

  lemma CollapseDrops(s: string)
    requires |s| > 1 && s[0] == '-' && s[1] == '-'
    ensures Collapse(s) == Collapse(s[1..])
  {
  }

  lemma HyphenBefore(s: string, b: string)
    requires s != [] && s[0] == '-' && s[1..] == b && SingleHyphens(b) && b != [] && b[0] != '-'
    ensures Collapse(s) == [s[0]] + b
  {
    CollapseFixed(b);
    assert s[1] == b[0];
    CollapseKeeps(s);
  }

  // Of a string with single hyphens, cutting loses one character more than its length at most.
  lemma CutLength(s: string)
    requires SingleHyphens(s) && s != [] && s[0] != '-'
    ensures StripRight(Truncated(s)) <= s && (|s| > 63 ==> |StripRight(Truncated(s))| >= 62)
    ensures |s| <= 63 && s[|s| - 1] != '-' ==> StripRight(Truncated(s)) == s
  {
    var cut := Truncated(s);
    if |s| > 63 && cut[62] == '-' {
      assert cut[61] == s[61] && cut[62] == s[62] && s[61] != '-';
      assert cut[..62][61] != '-';
      assert StripRight(cut[..62]) == cut[..62];
    }
  }

  // Whatever stands between two labels that has neither letter nor digit becomes one hyphen, and what stands before and
  // after them goes.  Only what is too long is cut.
  lemma GapBecomesHyphen(lower: string -> string, value: string, before: string, a: string, gap: string, b: string,
                         after: string)
    requires lower(value) == before + a + gap + b + after && Label(a) && Label(b) && gap != []
    requires !HasAlphanumeric(before) && !HasAlphanumeric(gap) && !HasAlphanumeric(after)
    ensures var name, joined := KubernetesName(lower, value), a + "-" + b;
            && name.Some? && name.value <= joined
            && (|joined| <= 63 ==> name.value == joined) && (|joined| > 63 ==> |name.value| >= 62)
  {
    var h := WordsReplaced(before, a, gap, b, after);
    WordsCollapse(a, h, b);
    JoinedIsSingle(a, b);
    CutLength(a + "-" + b);
    NameOfCollapsed(lower, value, a + h + b);
  }

  lemma NameOfCollapsed(lower: string -> string, value: string, words: string)
    requires StripRight(StripLeft(ReplaceRuns(lower(value), false))) == words && Collapse(words) != []
    ensures KubernetesName(lower, value) == Some(StripRight(Truncated(Collapse(words))))
  {
  }

  lemma WordsCollapse(a: string, h: string, b: string)
    requires Label(a) && Label(b) && Hyphens(h) && h != []
    ensures Collapse(a + h + b) == a + "-" + b
  {
    assert a + h + b == a + (h + b) && a + "-" + b == a + ("-" + b);
    CollapseAfter(a, h + b);
    CollapseHyphens(h, b);
  }

  lemma JoinedIsSingle(a: string, b: string)
    requires Label(a) && Label(b)
    ensures SingleHyphens(a + "-" + b)
    ensures (a + "-" + b)[0] != '-' && (a + "-" + b)[|a| + |b|] != '-'
  {
    var s := a + "-" + b;
    forall i, j | 0 <= i < |s| && 0 <= j < |s| && j == i + 1 ensures s[i] != '-' || s[j] != '-' {
      if j < |a| {
        assert a[i] != '-' || a[j] != '-';
      } else if i > |a| {
        assert b[i - |a| - 1] != '-' || b[j - |a| - 1] != '-';
      }
    }
  }

  lemma ReplaceWord(x: string, a: string)
    requires Label(a)
    ensures ReplaceRuns(x + a, false) == ReplaceRuns(x, false) + a
  {
    ReplaceSplit(x, a, false);
    ReplaceFixed(a, false);
    ReplaceFixed(a, true);
  }

  // The hyphens that a gap after a word becomes.
  lemma ReplaceGap(x: string, gap: string)
    requires (x == [] || Allowed(x[|x| - 1])) && !HasAlphanumeric(gap)
    ensures ReplaceRuns(x + gap, false) == ReplaceRuns(x, false) + ReplaceRuns(gap, false)
    ensures Hyphens(ReplaceRuns(gap, false)) && (gap != [] ==> ReplaceRuns(gap, false) != [])
  {
    ReplaceSplit(x, gap, false);
    GapIsHyphens(gap, false);
  }

  // Up to stripping, replacing leaves the words with hyphens between them.
  lemma WordsReplaced(before: string, a: string, gap: string, b: string, after: string) returns (h: string)
    requires Label(a) && Label(b) && gap != []
    requires !HasAlphanumeric(before) && !HasAlphanumeric(gap) && !HasAlphanumeric(after)
    ensures Hyphens(h) && h != []
    ensures StripRight(StripLeft(ReplaceRuns(before + a + gap + b + after, false))) == a + h + b
  {
    var first := before + a;
    var second := first + gap + b;
    h := ReplaceRuns(gap, false);
    ReplaceGap([], before);
    ReplaceWord(before, a);
    ReplaceGap(first, gap);
    ReplaceWord(first + gap, b);
    ReplaceGap(second, after);
    StripAround(ReplaceRuns(before, false), a, h, b, ReplaceRuns(after, false));
  }

  lemma StripAround(start: string, a: string, h: string, b: string, end: string)
    requires Hyphens(start) && Hyphens(end) && Label(a) && Label(b)
    ensures StripRight(StripLeft(start + a + h + b + end)) == a + h + b
  {
    var words := a + h + b;
    assert words[|words| - 1] == b[|b| - 1];
    assert start + a + h + b + end == start + (words + end);
    StripHyphens(start, words + end);
    StripHyphensAfter(words, end);
  }
}
