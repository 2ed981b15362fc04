/** The pieces of Go's `strings` package that the core uses, over sequences of
    characters. Every delimiter the core searches for is ASCII, so splitting a
    sequence of characters agrees with Go's splitting at byte offsets. */
module Text {
  import opened Wrappers

  /** Go's `unicode.IsSpace`: the ASCII blanks, NEL, NBSP and the other
      characters with the Unicode White_Space property. */
  predicate IsSpace(c: char) {
    c == ' ' || c == '\t' || c == '\n' || c == '\r' || c == '\U{B}' || c == '\U{C}'
    || c == '\U{85}' || c == '\U{A0}' || c == '\U{1680}'
    || ('\U{2000}' <= c <= '\U{200A}')
    || c == '\U{2028}' || c == '\U{2029}' || c == '\U{202F}' || c == '\U{205F}' || c == '\U{3000}'
  }

  predicate AllSpace(s: string) {
    forall i :: 0 <= i < |s| ==> IsSpace(s[i])
  }

  /** Number of whitespace characters at the front of `s`. */
  function LeadingSpaces(s: string): (n: nat)
    ensures n <= |s|
    ensures AllSpace(s[..n])
    ensures n < |s| ==> !IsSpace(s[n])
  {
    if s == [] || !IsSpace(s[0]) then 0 else 1 + LeadingSpaces(s[1..])
  }

  /** Number of whitespace characters at the back of `s`. */
  function TrailingSpaces(s: string): (n: nat)
    ensures n <= |s|
    ensures AllSpace(s[|s| - n..])
    ensures n < |s| ==> !IsSpace(s[|s| - 1 - n])
  {
    if s == [] || !IsSpace(s[|s| - 1]) then 0 else 1 + TrailingSpaces(s[..|s| - 1])
  }

  /** `strings.TrimLeftFunc(s, unicode.IsSpace)`. */
  function TrimLeftSpace(s: string): (r: string)
    ensures r == [] || !IsSpace(r[0])
  {
    s[LeadingSpaces(s)..]
  }

  /** `strings.TrimRightFunc(s, unicode.IsSpace)`. */
  function TrimRightSpace(s: string): (r: string)
    ensures r == [] || !IsSpace(r[|r| - 1])
  {
    s[..|s| - TrailingSpaces(s)]
  }

  /** `strings.TrimSpace`. */
  function TrimSpace(s: string): (r: string)
    ensures |r| <= |s|
    ensures r == [] || (!IsSpace(r[0]) && !IsSpace(r[|r| - 1]))
  {
    TrimRightSpace(TrimLeftSpace(s))
  }

  /** Only white space is removed, and only at the two ends. */
  lemma TrimSpaceRemovesOnlyBlanks(s: string)
    ensures var r := TrimSpace(s); var k := LeadingSpaces(s);
      k + |r| <= |s| && r == s[k..k + |r|] && AllSpace(s[..k]) && AllSpace(s[k + |r|..])
  {
    var k := LeadingSpaces(s);
    var t := TrimLeftSpace(s);
    var r := TrimRightSpace(t);
    assert r == s[k..k + |r|];
    assert s[k + |r|..] == t[|t| - TrailingSpaces(t)..];
  }

  lemma TrimSpaceOfTrimmed(s: string)
    requires s == [] || (!IsSpace(s[0]) && !IsSpace(s[|s| - 1]))
    ensures TrimSpace(s) == s
  {
  }

  lemma {:induction false} LeadingSpacesPrefix(ws: string, m: string)
    requires AllSpace(ws)
    ensures LeadingSpaces(ws + m) == |ws| + LeadingSpaces(m)
    decreases |ws|
  {
    if ws != [] {
      assert (ws + m)[1..] == ws[1..] + m;
      LeadingSpacesPrefix(ws[1..], m);
    } else {
      assert ws + m == m;
    }
  }

  lemma {:induction false} TrailingSpacesSuffix(m: string, ws: string)
    requires AllSpace(ws)
    ensures TrailingSpaces(m + ws) == TrailingSpaces(m) + |ws|
    decreases |ws|
  {
    if ws != [] {
      assert (m + ws)[..|m + ws| - 1] == m + ws[..|ws| - 1];
      TrailingSpacesSuffix(m, ws[..|ws| - 1]);
    } else {
      assert m + ws == m;
    }
  }

  lemma {:induction false} AllSpaceLeading(s: string)
    requires AllSpace(s)
    ensures LeadingSpaces(s) == |s|
  {
    if s != [] {
      AllSpaceLeading(s[1..]);
    }
  }

  lemma {:induction false} AllSpaceTrailing(s: string)
    requires AllSpace(s)
    ensures TrailingSpaces(s) == |s|
  {
    if s != [] {
      AllSpaceTrailing(s[..|s| - 1]);
    }
  }

  lemma TrimSpaceLeadingPad(ws: string, m: string)
    requires AllSpace(ws)
    ensures TrimSpace(ws + m) == TrimSpace(m)
  {
    LeadingSpacesPrefix(ws, m);
    assert (ws + m)[|ws| + LeadingSpaces(m)..] == m[LeadingSpaces(m)..];
  }

  lemma TrimLeftSpaceTrailingPad(m: string, ws: string)
    requires AllSpace(ws)
    ensures TrimLeftSpace(m + ws) == if TrimLeftSpace(m) == [] then [] else TrimLeftSpace(m) + ws
  {
    var lead := LeadingSpaces(m);
    var rest := m[lead..];
    assert m == m[..lead] + rest;
    assert m + ws == m[..lead] + (rest + ws);
    LeadingSpacesPrefix(m[..lead], rest + ws);
    if lead == |m| {
      assert rest + ws == ws;
      AllSpaceLeading(ws);
    } else {
      assert LeadingSpaces(rest + ws) == 0;
    }
  }

  lemma TrimRightSpacePad(r: string, ws: string)
    requires AllSpace(ws)
    ensures TrimRightSpace(r + ws) == TrimRightSpace(r)
  {
    TrailingSpacesSuffix(r, ws);
    assert (r + ws)[..|r + ws| - TrailingSpaces(r + ws)] == r[..|r| - TrailingSpaces(r)];
  }

  lemma TrimSpaceTrailingPad(m: string, ws: string)
    requires AllSpace(ws)
    ensures TrimSpace(m + ws) == TrimSpace(m)
  {
    TrimLeftSpaceTrailingPad(m, ws);
    if TrimLeftSpace(m) != [] {
      TrimRightSpacePad(TrimLeftSpace(m), ws);
    }
  }

  /** Whitespace added around a string does not change what it trims to. */
  lemma TrimSpaceIgnoresPadding(ws1: string, m: string, ws2: string)
    requires AllSpace(ws1) && AllSpace(ws2)
    ensures TrimSpace(ws1 + m + ws2) == TrimSpace(m)
  {
    var tail := m + ws2;
    assert ws1 + m + ws2 == ws1 + tail;
    TrimSpaceLeadingPad(ws1, tail);
    TrimSpaceTrailingPad(m, ws2);
  }

  /** Trimming only removes characters. */
  lemma TrimSpaceKeepsOnly(s: string, c: char)
    requires c !in s
    ensures c !in TrimSpace(s)
  {
    var l := TrimLeftSpace(s);
    assert forall i :: 0 <= i < |l| ==> l[i] == s[LeadingSpaces(s) + i];
    var r := TrimSpace(s);
    assert forall i :: 0 <= i < |r| ==> r[i] == l[i];
  }

  /** `strings.TrimSpace` is idempotent. */
  lemma TrimSpaceIdempotent(s: string)
    ensures TrimSpace(TrimSpace(s)) == TrimSpace(s)
  {
    TrimSpaceOfTrimmed(TrimSpace(s));
  }

  /** Index of the first occurrence of `c` in `s` (`strings.Index` with a
      one-character needle, or `strings.IndexByte`). */
  function IndexOfChar(s: string, c: char): (r: Option<nat>)
    ensures r.None? <==> c !in s
    ensures r.Some? ==> r.value < |s| && s[r.value] == c && c !in s[..r.value]
  {
    if s == [] then None
    else if s[0] == c then Some(0)
    else
      match IndexOfChar(s[1..], c)
      case None => None
      case Some(k) => assert s[..k + 1] == [s[0]] + s[1..][..k]; Some(k + 1)
  }

  /** Index of the last occurrence of `c` in `s` (`strings.LastIndex`). */
  function LastIndexOfChar(s: string, c: char): (r: Option<nat>)
    ensures r.None? <==> c !in s
    ensures r.Some? ==> r.value < |s| && s[r.value] == c && c !in s[r.value + 1..]
  {
    if s == [] then None
    else if s[|s| - 1] == c then Some(|s| - 1)
    else
      var front := s[..|s| - 1];
      assert s == front + [s[|s| - 1]];
      match LastIndexOfChar(front, c)
      case None => None
      case Some(k) => assert s[k + 1..] == front[k + 1..] + [s[|s| - 1]]; Some(k)
  }

  predicate OccursAt(s: string, pat: string, i: nat) {
    i + |pat| <= |s| && s[i..i + |pat|] == pat
  }

  /** Index of the first occurrence of `pat` in `s` (`strings.Index`). */
  function IndexOf(s: string, pat: string): (r: Option<nat>)
    ensures r.Some? ==> OccursAt(s, pat, r.value)
    ensures r.Some? ==> forall j: nat :: j < r.value ==> !OccursAt(s, pat, j)
    ensures r.None? ==> forall j: nat :: !OccursAt(s, pat, j)
    decreases |s|
  {
    if pat <= s then
      assert OccursAt(s, pat, 0);
      Some(0)
    else if s == [] then None
    else
      var r := IndexOf(s[1..], pat);
      assert forall j: nat :: OccursAt(s, pat, j + 1) <==> OccursAt(s[1..], pat, j) by {
        forall j: nat ensures OccursAt(s, pat, j + 1) <==> OccursAt(s[1..], pat, j) {
          if j + 1 + |pat| <= |s| {
            assert s[j + 1..j + 1 + |pat|] == s[1..][j..j + |pat|];
          }
        }
      }
      assert forall j: nat :: j == 0 || OccursAt(s, pat, j) ==> j == 0 || OccursAt(s[1..], pat, j - 1);
      match r
      case None => None
      case Some(k) => Some(k + 1)
  }

  /** `strings.Contains`. */
  predicate Contains(s: string, pat: string) {
    IndexOf(s, pat).Some?
  }

  lemma ContainsAt(s: string, pat: string, i: nat)
    requires OccursAt(s, pat, i)
    ensures Contains(s, pat)
  {
  }

  lemma ContainsChar(s: string, c: char)
    ensures Contains(s, [c]) <==> c in s
  {
    if c in s {
      var i :| 0 <= i < |s| && s[i] == c;
      assert OccursAt(s, [c], i);
    }
    if Contains(s, [c]) {
      var i := IndexOf(s, [c]).value;
      assert s[i..i + 1] == [c];
      assert s[i] == c;
    }
  }

  /** `strings.HasSuffix`. */
  predicate HasSuffix(s: string, suffix: string) {
    |suffix| <= |s| && s[|s| - |suffix|..] == suffix
  }

  /** `strings.TrimRight(s, cutset)` for a one-character cutset: every trailing
      copy of `c` is removed. */
  function TrimRightChar(s: string, c: char): (r: string)
    ensures r <= s
    ensures r == [] || r[|r| - 1] != c
    ensures forall i :: |r| <= i < |s| ==> s[i] == c
  {
    if s == [] || s[|s| - 1] != c then s else TrimRightChar(s[..|s| - 1], c)
  }

  /** `unicode.ToLower` on the characters whose case matters to the core: ASCII
      capitals, U+0130 (which Go lowers to 'i') and the Kelvin sign. */
  function LowerChar(c: char): char {
    if 'A' <= c <= 'Z' then (c as int + 32) as char
    else if c == '\U{130}' then 'i'
    else if c == '\U{212A}' then 'k'
    else c
  }

  /** `strings.ToLower`, restricted to the characters `LowerChar` lowers: the
      result agrees with Go's in every position that Go lowers to an ASCII
      letter, and other letters are kept as they are. */
  function ToLower(s: string): (r: string)
    ensures |r| == |s|
    ensures forall i :: 0 <= i < |s| ==> r[i] == LowerChar(s[i])
  {
    seq(|s|, i requires 0 <= i < |s| => LowerChar(s[i]))
  }

  lemma LowerCharKeepsSpace(c: char)
    ensures IsSpace(LowerChar(c)) == IsSpace(c)
    ensures LowerChar(LowerChar(c)) == LowerChar(c)
  {
  }

  lemma ToLowerSlice(s: string, i: nat, j: nat)
    requires i <= j <= |s|
    ensures ToLower(s)[i..j] == ToLower(s[i..j])
  {
  }

  lemma AllSpacePrefixAt(s: string, k: nat)
    requires k <= |s| && AllSpace(s[..k])
    ensures forall j :: 0 <= j < k ==> IsSpace(s[j])
  {
    forall j | 0 <= j < k ensures IsSpace(s[j]) {
      assert s[..k][j] == s[j];
    }
  }

  lemma AllSpaceSuffixAt(s: string, k: nat)
    requires k <= |s| && AllSpace(s[|s| - k..])
    ensures forall j :: |s| - k <= j < |s| ==> IsSpace(s[j])
  {
    forall j | |s| - k <= j < |s| ensures IsSpace(s[j]) {
      assert s[|s| - k..][j - (|s| - k)] == s[j];
    }
  }

  /** Leading blanks followed by a non-blank: there is one such count. */
  lemma LeadingCountUnique(s: string, m: nat, n: nat)
    requires m <= |s| && AllSpace(s[..m]) && (m < |s| ==> !IsSpace(s[m]))
    requires n <= |s| && AllSpace(s[..n]) && (n < |s| ==> !IsSpace(s[n]))
    ensures m == n
  {
    AllSpacePrefixAt(s, m);
    AllSpacePrefixAt(s, n);
  }

  lemma TrailingCountUnique(s: string, m: nat, n: nat)
    requires m <= |s| && AllSpace(s[|s| - m..]) && (m < |s| ==> !IsSpace(s[|s| - 1 - m]))
    requires n <= |s| && AllSpace(s[|s| - n..]) && (n < |s| ==> !IsSpace(s[|s| - 1 - n]))
    ensures m == n
  {
    AllSpaceSuffixAt(s, m);
    AllSpaceSuffixAt(s, n);
  }

  /** The count of leading blanks is the one its contract describes. */
  lemma LeadingSpacesUnique(s: string, n: nat)
    requires n <= |s| && AllSpace(s[..n]) && (n < |s| ==> !IsSpace(s[n]))
    ensures LeadingSpaces(s) == n
  {
    LeadingCountUnique(s, LeadingSpaces(s), n);
  }

  lemma TrailingSpacesUnique(s: string, n: nat)
    requires n <= |s| && AllSpace(s[|s| - n..]) && (n < |s| ==> !IsSpace(s[|s| - 1 - n]))
    ensures TrailingSpaces(s) == n
  {
    var m := TrailingSpaces(s);
    assert m <= |s|;
    assert AllSpace(s[|s| - m..]);
    assert m < |s| ==> !IsSpace(s[|s| - 1 - m]);
    TrailingCountUnique(s, m, n);
  }

  lemma LeadingSpacesToLower(s: string)
    ensures LeadingSpaces(ToLower(s)) == LeadingSpaces(s)
  {
    var n := LeadingSpaces(s);
    var low := ToLower(s);
    forall j | 0 <= j < n ensures IsSpace(low[j]) {
      assert s[..n][j] == s[j];
      LowerCharKeepsSpace(s[j]);
    }
    if n < |s| {
      LowerCharKeepsSpace(s[n]);
    }
    LeadingSpacesUnique(low, n);
  }

  lemma TrailingSpacesToLower(s: string)
    ensures TrailingSpaces(ToLower(s)) == TrailingSpaces(s)
  {
    var n := TrailingSpaces(s);
    var low := ToLower(s);
    forall j | |s| - n <= j < |s| ensures IsSpace(low[j]) {
      assert s[|s| - n..][j - (|s| - n)] == s[j];
      LowerCharKeepsSpace(s[j]);
    }
    if n < |s| {
      LowerCharKeepsSpace(s[|s| - 1 - n]);
    }
    TrailingSpacesUnique(low, n);
  }

  lemma TrimLeftSpaceToLower(s: string)
    ensures TrimLeftSpace(ToLower(s)) == ToLower(TrimLeftSpace(s))
  {
    LeadingSpacesToLower(s);
    ToLowerSlice(s, LeadingSpaces(s), |s|);
  }

  lemma TrimRightSpaceToLower(s: string)
    ensures TrimRightSpace(ToLower(s)) == ToLower(TrimRightSpace(s))
  {
    TrailingSpacesToLower(s);
    ToLowerSlice(s, 0, |s| - TrailingSpaces(s));
  }

  /** Lowering case and trimming whitespace commute. */
  lemma TrimSpaceToLower(s: string)
    ensures TrimSpace(ToLower(s)) == ToLower(TrimSpace(s))
  {
    TrimLeftSpaceToLower(s);
    TrimRightSpaceToLower(TrimLeftSpace(s));
  }

  lemma ToLowerIdempotent(s: string)
    ensures ToLower(ToLower(s)) == ToLower(s)
  {
    forall i | 0 <= i < |s| ensures ToLower(ToLower(s))[i] == ToLower(s)[i] {
      LowerCharKeepsSpace(s[i]);
    }
  }

  /** `strings.Join`. */
  function Join(parts: seq<string>, sep: string): string {
    if parts == [] then ""
    else if |parts| == 1 then parts[0]
    else parts[0] + sep + Join(parts[1..], sep)
  }

  /** `strings.Split` with a one-character separator. */
  function Split(s: string, sep: char): (r: seq<string>)
    ensures |r| >= 1
    ensures forall i :: 0 <= i < |r| ==> sep !in r[i]
    decreases |s|
  {
    match IndexOfChar(s, sep)
    case None => [s]
    case Some(i) => [s[..i]] + Split(s[i + 1..], sep)
  }

  lemma {:induction false} IndexOfCharAfter(a: string, c: char, b: string)
    requires c !in a
    ensures IndexOfChar(a + [c] + b, c) == Some(|a|)
  {
    if a != [] {
      assert (a + [c] + b)[1..] == a[1..] + [c] + b;
      IndexOfCharAfter(a[1..], c, b);
    }
  }

  lemma {:induction false} LastIndexOfCharBefore(a: string, c: char, b: string)
    requires c !in b
    ensures LastIndexOfChar(a + [c] + b, c) == Some(|a|)
    decreases |b|
  {
    var s := a + [c] + b;
    if b != [] {
      assert s[|s| - 1] == b[|b| - 1];
      assert s[..|s| - 1] == a + [c] + b[..|b| - 1];
      LastIndexOfCharBefore(a, c, b[..|b| - 1]);
    } else {
      assert s[|s| - 1] == c;
    }
  }

  /** A needle that occurs in neither half, and contains no copy of the
      character that joins them, does not occur in the joined string. */
  lemma NotContainsJoined(a: string, c: char, b: string, pat: string)
    requires pat != []
    requires !Contains(a, pat) && !Contains(b, pat) && c !in pat
    ensures !Contains(a + [c] + b, pat)
  {
    var s := a + [c] + b;
    forall j: nat | j + |pat| <= |s| ensures !OccursAt(s, pat, j) {
      if j + |pat| <= |a| {
        assert s[j..j + |pat|] == a[j..j + |pat|];
        assert !OccursAt(a, pat, j);
      } else if j > |a| {
        var k := j - |a| - 1;
        assert s[|a| + 1..] == b;
        assert s[j..j + |pat|] == s[|a| + 1..][k..k + |pat|];
        assert !OccursAt(b, pat, k);
      } else {
        assert s[j..j + |pat|][|a| - j] == c;
      }
    }
  }

  /** A needle whose first character does not recur in it is found at the
      first place it is written, provided it does not occur before. */
  lemma IndexOfAfter(a: string, pat: string, b: string)
    requires pat != [] && pat[0] !in pat[1..]
    requires !Contains(a, pat)
    ensures IndexOf(a + pat + b, pat) == Some(|a|)
  {
    var s := a + pat + b;
    assert s[|a|..|a| + |pat|] == pat;
    assert OccursAt(s, pat, |a|);
    forall j: nat | j < |a| ensures !OccursAt(s, pat, j) {
      if j + |pat| <= |a| {
        assert s[j..j + |pat|] == a[j..j + |pat|];
        assert !OccursAt(a, pat, j);
      } else {
        assert s[|a|] == pat[0];
        assert pat[1..][|a| - j - 1] == pat[|a| - j];
      }
    }
  }

  /** A piece free of the separator is cut off first. */
  lemma SplitAt(a: string, c: char, b: string)
    requires c !in a
    ensures Split(a + [c] + b, c) == [a] + Split(b, c)
  {
    var s := a + [c] + b;
    IndexOfCharAfter(a, c, b);
    assert s[..|a|] == a && s[|a| + 1..] == b;
  }

  lemma SplitNone(a: string, c: char)
    requires c !in a
    ensures Split(a, c) == [a]
  {
  }

  /** Joining pieces that are free of the separator and splitting again gives
      the pieces back. */
  lemma {:induction false} SplitJoin(parts: seq<string>, sep: char)
    requires |parts| >= 1
    requires forall i :: 0 <= i < |parts| ==> sep !in parts[i]
    ensures Split(Join(parts, [sep]), sep) == parts
    decreases |parts|
  {
    if |parts| > 1 {
      var rest := Join(parts[1..], [sep]);
      assert Join(parts, [sep]) == parts[0] + [sep] + rest;
      SplitAt(parts[0], sep, rest);
      SplitJoin(parts[1..], sep);
    } else {
      SplitNone(parts[0], sep);
    }
  }

  lemma JoinEmpty(parts: seq<string>, sep: string)
    requires sep != ""
    ensures Join(parts, sep) == "" <==> parts == [] || parts == [""]
  {
    if |parts| > 1 {
      assert |Join(parts, sep)| >= |sep|;
    }
  }

  lemma {:induction false} JoinContainsPart(parts: seq<string>, sep: string, k: nat)
    requires k < |parts|
    ensures Contains(Join(parts, sep), parts[k])
  {
    if k == 0 {
      if |parts| == 1 {
        assert Join(parts, sep) == "" + parts[0] + "";
        JoinedContains("", parts[0], "");
      } else {
        assert Join(parts, sep) == "" + parts[0] + (sep + Join(parts[1..], sep));
        JoinedContains("", parts[0], sep + Join(parts[1..], sep));
      }
    } else {
      var rest := Join(parts[1..], sep);
      assert parts[1..][k - 1] == parts[k];
      JoinContainsPart(parts[1..], sep, k - 1);
      assert Join(parts, sep) == parts[0] + sep + rest + "";
      JoinedContains(parts[0] + sep, rest, "");
      ContainsTransitive(Join(parts, sep), rest, parts[k]);
    }
  }

  lemma JoinedContains(a: string, pat: string, b: string)
    ensures Contains(a + pat + b, pat)
  {
    assert (a + pat + b)[|a|..|a| + |pat|] == pat;
    assert OccursAt(a + pat + b, pat, |a|);
  }

  /** A text ends with what was appended last. */
  lemma EndsWithLast(a: string, pat: string)
    ensures Contains(a + pat, pat)
  {
    JoinedContains(a, pat, "");
    assert a + pat + "" == a + pat;
  }

  /** What occurs in a prefix occurs in the whole. */
  lemma PrefixContains(s: string, u: string, pat: string)
    requires s <= u && Contains(s, pat)
    ensures Contains(u, pat)
  {
    var i := IndexOf(s, pat).value;
    assert u[i..i + |pat|] == s[i..i + |pat|];
    ContainsAt(u, pat, i);
  }

  lemma OccursAtCompose(s: string, mid: string, pat: string, i: nat, j: nat)
    requires OccursAt(s, mid, i) && OccursAt(mid, pat, j)
    ensures OccursAt(s, pat, i + j)
  {
    forall k | 0 <= k < |pat| ensures s[i + j + k] == pat[k] {
      assert s[i..i + |mid|][j + k] == mid[j + k];
      assert mid[j..j + |pat|][k] == pat[k];
    }
    assert s[i + j..i + j + |pat|] == pat;
  }

  lemma ContainsTransitive(s: string, mid: string, pat: string)
    requires Contains(s, mid) && Contains(mid, pat)
    ensures Contains(s, pat)
  {
    var i := IndexOf(s, mid).value;
    var j := IndexOf(mid, pat).value;
    OccursAtCompose(s, mid, pat, i, j);
    ContainsAt(s, pat, i + j);
  }

  /** A non-empty sequence is its head before its tail. */
  lemma HeadTail<T>(xs: seq<T>)
    requires xs != []
    ensures xs == [xs[0]] + xs[1..]
  {
  }

  /** The strings one after the other (a `strings.Builder` after these
      writes). */
  function Concat(xs: seq<string>): string {
    if xs == [] then "" else xs[0] + Concat(xs[1..])
  }

  lemma {:induction false} ConcatAppend(a: seq<string>, b: seq<string>)
    ensures Concat(a + b) == Concat(a) + Concat(b)
  {
    if a == [] {
      assert a + b == b;
    } else {
      assert (a + b)[1..] == a[1..] + b;
      ConcatAppend(a[1..], b);
    }
  }

  lemma {:induction false} ConcatSplit(xs: seq<string>, k: nat)
    requires k <= |xs|
    ensures Concat(xs) == Concat(xs[..k]) + Concat(xs[k..])
  {
    if k == 0 {
      assert xs[..0] == [];
      assert xs[0..] == xs;
    } else {
      var tail := xs[1..];
      ConcatSplit(tail, k - 1);
      assert tail[..k - 1] == xs[1..k] == xs[..k][1..];
      assert tail[k - 1..] == xs[k..];
      assert Concat(xs[..k]) == xs[0] + Concat(xs[..k][1..]);
    }
  }

  /** Any run of consecutive sections occurs in the whole. */
  lemma ConcatContainsRun(xs: seq<string>, i: nat, j: nat)
    requires i <= j <= |xs|
    ensures Contains(Concat(xs), Concat(xs[i..j]))
  {
    var front := xs[..j];
    ConcatSplit(xs, j);
    ConcatSplit(front, i);
    assert front[..i] == xs[..i];
    assert front[i..] == xs[i..j];
    JoinedContains(Concat(xs[..i]), Concat(xs[i..j]), Concat(xs[j..]));
  }

  lemma Concat1(x: string)
    ensures Concat([x]) == x
  {
    assert [x][1..] == [];
    assert Concat([x]) == x + Concat([]);
  }

  lemma Concat3(x: string, y: string, z: string)
    ensures Concat([x, y, z]) == x + y + z
  {
    assert [x, y, z][1..] == [y, z];
    assert [y, z][1..] == [z];
    Concat1(z);
    assert Concat([y, z]) == y + z;
    assert Concat([x, y, z]) == x + (y + z);
  }

}
