/** The JavaScript string built-ins the server relies on: `trim`, `split` on one
    character, `split(/\s+/)`, `Array.prototype.join` and `toLowerCase` (restricted to
    the letters that can make a command word equal `/ban`). */
module JsString {

  /** White space as `String.prototype.trim` and the regular-expression class `\s`
      see it: ECMA-262's WhiteSpace and LineTerminator code points. */
  predicate IsSpace(c: char) {
    c == '\t' || c == '\n' || c == '\U{B}' || c == '\U{C}' || c == '\r' || c == ' '
    || c == '\U{A0}' || c == '\U{1680}' || ('\U{2000}' <= c <= '\U{200A}')
    || c == '\U{2028}' || c == '\U{2029}' || c == '\U{202F}' || c == '\U{205F}'
    || c == '\U{3000}' || c == '\U{FEFF}'
  }

  /** No white space anywhere in `s`. */
  predicate NoSpace(s: string) {
    forall k :: 0 <= k < |s| ==> !IsSpace(s[k])
  }

  /** Every character of `s` is white space. */
  predicate AllSpace(s: string) {
    forall k :: 0 <= k < |s| ==> IsSpace(s[k])
  }

  /** Length of the longest all-space prefix of `s`. */
  function LeadingSpaces(s: string): (n: nat)
    ensures n <= |s|
    ensures forall k :: 0 <= k < n ==> IsSpace(s[k])
    ensures n < |s| ==> !IsSpace(s[n])
  {
    if s != [] && IsSpace(s[0]) then 1 + LeadingSpaces(s[1..]) else 0
  }

  /** Length of the longest all-space suffix of `s`. */
  function TrailingSpaces(s: string): (n: nat)
    ensures n <= |s|
    ensures forall k :: |s| - n <= k < |s| ==> IsSpace(s[k])
    ensures n < |s| ==> !IsSpace(s[|s| - 1 - n])
  {
    if s != [] && IsSpace(s[|s| - 1]) then 1 + TrailingSpaces(s[..|s| - 1]) else 0
  }

  /** `s.trim()`: the contiguous middle of `s` that neither starts nor ends with white
      space, everything cut off on either side being white space. */
  function Trim(s: string): (r: string)
    ensures LeadingSpaces(s) + |r| <= |s| && r == s[LeadingSpaces(s)..LeadingSpaces(s) + |r|]
    ensures r == [] || (!IsSpace(r[0]) && !IsSpace(r[|r| - 1]))
    ensures forall k :: 0 <= k < |s| && !(LeadingSpaces(s) <= k < LeadingSpaces(s) + |r|) ==> IsSpace(s[k])
  {
    var a := LeadingSpaces(s);
    var t := s[a..];
    var b := TrailingSpaces(t);
    assert forall k :: a + |t| - b <= k < |s| ==> s[k] == t[k - a];
    t[..|t| - b]
  }

  /** A string without white space at either end is its own trim. */
  lemma TrimOfTrimmed(s: string)
    requires s == [] || (!IsSpace(s[0]) && !IsSpace(s[|s| - 1]))
    ensures Trim(s) == s
  {
    if s != [] {
      assert LeadingSpaces(s) == 0;
      assert TrailingSpaces(s) == 0;
    }
  }

  /** Trimming removes exactly the white space padding around a core that neither
      starts nor ends with white space. */
  lemma TrimPadded(pre: string, core: string, post: string)
    requires AllSpace(pre) && AllSpace(post)
    requires core != [] && !IsSpace(core[0]) && !IsSpace(core[|core| - 1])
    ensures Trim(pre + core + post) == core
  {
    var s := pre + core + post;
    assert forall k :: 0 <= k < |pre| ==> s[k] == pre[k];
    assert forall k :: 0 <= k < |core| ==> s[|pre| + k] == core[k];
    assert forall k :: 0 <= k < |post| ==> s[|pre| + |core| + k] == post[k];
    var r := Trim(s);
    var l := LeadingSpaces(s);
    assert !IsSpace(s[|pre|]);
    assert l == |pre|;
    assert !IsSpace(s[|pre| + |core| - 1]);
    assert l + |r| == |pre| + |core|;
    assert s[|pre|..|pre| + |core|] == core;
  }

  /** Index of the first occurrence of `c` in `s`. */
  function IndexOf(s: string, c: char): (k: nat)
    requires c in s
    ensures k < |s| && s[k] == c && c !in s[..k]
  {
    if s[0] == c then 0 else 1 + IndexOf(s[1..], c)
  }

  /** The first occurrence is the only position holding `c` with no `c` before it. */
  lemma IndexOfUnique(s: string, c: char, k: nat)
    requires k < |s| && s[k] == c && c !in s[..k]
    ensures IndexOf(s, c) == k
  {
  }

  /** `s.split(sep)` for a one-character separator: the pieces between consecutive
      separators, including empty ones; `"".split(sep)` is `[""]`. */
  function Split(s: string, sep: char): (parts: seq<string>)
    ensures |parts| >= 1
    ensures forall i :: 0 <= i < |parts| ==> sep !in parts[i]
    decreases |s|
  {
    if sep in s then
      var k := IndexOf(s, sep);
      [s[..k]] + Split(s[k + 1..], sep)
    else
      [s]
  }

  /** `parts.join(sep)`; the empty array joins to `""`. */
  function Join(parts: seq<string>, sep: string): string
  {
    if |parts| == 0 then ""
    else if |parts| == 1 then parts[0]
    else parts[0] + sep + Join(parts[1..], sep)
  }

  /** Joining a piece onto a non-empty list puts one separator between them. */
  lemma JoinCons(p: string, rest: seq<string>, sep: string)
    requires |rest| >= 1
    ensures Join([p] + rest, sep) == p + sep + Join(rest, sep)
  {
    assert ([p] + rest)[1..] == rest;
  }

  /** Splitting a piece that holds no separator off the front of a string. */
  lemma {:induction false} SplitCons(a: string, sep: char, rest: string)
    requires sep !in a
    ensures Split(a + [sep] + rest, sep) == [a] + Split(rest, sep)
  {
    var s := a + [sep] + rest;
    assert s[|a|] == sep;
    assert s[..|a|] == a;
    IndexOfUnique(s, sep, |a|);
    assert s[|a| + 1..] == rest;
  }

  /** Joining the pieces of a split with the separator gives back the string. */
  lemma {:induction false} JoinSplit(s: string, sep: char)
    ensures Join(Split(s, sep), [sep]) == s
    decreases |s|
  {
    if sep in s {
      var k := IndexOf(s, sep);
      var rest := s[k + 1..];
      JoinSplit(rest, sep);
      assert Split(s, sep)[1..] == Split(rest, sep);
      assert s == s[..k] + [sep] + rest;
    }
  }

  /** Splitting a join of separator-free pieces gives back the pieces. */
  lemma {:induction false} SplitJoin(parts: seq<string>, sep: char)
    requires |parts| >= 1
    requires forall i :: 0 <= i < |parts| ==> sep !in parts[i]
    ensures Split(Join(parts, [sep]), sep) == parts
  {
    if |parts| > 1 {
      SplitJoin(parts[1..], sep);
      SplitCons(parts[0], sep, Join(parts[1..], [sep]));
      assert parts == [parts[0]] + parts[1..];
    }
  }

  /** Index of the first white-space character of `s`, or `|s|` when there is none. */
  function FirstSpace(s: string): (k: nat)
    ensures k <= |s|
    ensures forall j :: 0 <= j < k ==> !IsSpace(s[j])
    ensures k < |s| ==> IsSpace(s[k])
  {
    if s == [] || IsSpace(s[0]) then 0 else 1 + FirstSpace(s[1..])
  }

  /** `s.split(/\s+/)`: the pieces between maximal runs of white space, including an
      empty first or last piece when `s` starts or ends with white space. */
  function SplitWs(s: string): (parts: seq<string>)
    ensures |parts| >= 1
    ensures forall i :: 0 <= i < |parts| ==> NoSpace(parts[i])
    decreases |s|
  {
    var k := FirstSpace(s);
    if k == |s| then
      [s]
    else
      var rest := s[k..];
      var m := LeadingSpaces(rest);
      assert m >= 1;
      [s[..k]] + SplitWs(rest[m..])
  }

  /** A word followed by a run of white space and then a non-space splits there. */
  lemma {:induction false} SplitWsCons(w: string, gap: string, rest: string)
    requires w != [] && NoSpace(w)
    requires gap != [] && AllSpace(gap)
    requires rest == [] || !IsSpace(rest[0])
    ensures SplitWs(w + gap + rest) == [w] + SplitWs(rest)
  {
    var s := w + gap + rest;
    assert s[|w|] == gap[0];
    assert forall j :: 0 <= j < |w| ==> s[j] == w[j];
    var tail := s[|w|..];
    assert tail == gap + rest;
    assert forall j :: 0 <= j < |gap| ==> tail[j] == gap[j];
    assert tail[|gap|..] == rest;
    assert s[..|w|] == w;
  }

  /** A non-empty string without white space is a single piece. */
  lemma SplitWsWord(w: string)
    requires NoSpace(w)
    ensures SplitWs(w) == [w]
  {
    assert FirstSpace(w) == |w|;
  }

  /** Every element of `ws` is a non-empty word without white space. */
  predicate AreWords(ws: seq<string>) {
    forall i :: 0 <= i < |ws| ==> ws[i] != [] && NoSpace(ws[i])
  }

  /** Every element of `gaps` is a non-empty run of white space. */
  predicate AreGaps(gaps: seq<string>) {
    forall i :: 0 <= i < |gaps| ==> gaps[i] != [] && AllSpace(gaps[i])
  }

  /** The words `ws` with `gaps[i]` between `ws[i]` and `ws[i + 1]`. */
  function Spaced(ws: seq<string>, gaps: seq<string>): string
    requires |gaps| + 1 == |ws|
    decreases |ws|
  {
    if |ws| == 1 then ws[0] else ws[0] + gaps[0] + Spaced(ws[1..], gaps[1..])
  }

  /** Words and gaps begin with the first word's first character and end with the last
      word's last character. */
  lemma {:induction false} SpacedEnds(ws: seq<string>, gaps: seq<string>)
    requires |gaps| + 1 == |ws| && AreWords(ws)
    ensures var s := Spaced(ws, gaps);
      s != [] && s[0] == ws[0][0] && s[|s| - 1] == ws[|ws| - 1][|ws[|ws| - 1]| - 1]
    decreases |ws|
  {
    if |ws| > 1 {
      SpacedEnds(ws[1..], gaps[1..]);
    }
  }

  /** `split(/\s+/)` recovers the words from words separated by white-space runs. */
  lemma {:induction false} SplitWsSpaced(ws: seq<string>, gaps: seq<string>)
    requires |gaps| + 1 == |ws| && AreWords(ws) && AreGaps(gaps)
    ensures SplitWs(Spaced(ws, gaps)) == ws
    decreases |ws|
  {
    if |ws| == 1 {
      SplitWsWord(ws[0]);
    } else {
      var rest := Spaced(ws[1..], gaps[1..]);
      SpacedEnds(ws[1..], gaps[1..]);
      SplitWsSpaced(ws[1..], gaps[1..]);
      SplitWsCons(ws[0], gaps[0], rest);
      assert ws == [ws[0]] + ws[1..];
    }
  }

  /** `ws.join(sep)` is the words with `sep` as every gap. */
  lemma {:induction false} JoinSpaced(ws: seq<string>, sep: string)
    requires |ws| >= 1
    ensures Join(ws, sep) == Spaced(ws, seq(|ws| - 1, _ => sep))
    decreases |ws|
  {
    if |ws| > 1 {
      JoinSpaced(ws[1..], sep);
      assert seq(|ws| - 1, _ => sep)[1..] == seq(|ws| - 2, _ => sep);
    }
  }

  /** Words joined by single spaces need no trimming. */
  lemma JoinWordsTrimmed(ws: seq<string>)
    requires |ws| >= 1 && AreWords(ws)
    ensures Join(ws, " ") != "" && Trim(Join(ws, " ")) == Join(ws, " ")
  {
    JoinSpaced(ws, " ");
    SpacedEnds(ws, seq(|ws| - 1, _ => " "));
    TrimOfTrimmed(Join(ws, " "));
  }

  /** `toLowerCase` on one character, for the ASCII letters. */
  function LowerAscii(c: char): char {
    if 'A' <= c <= 'Z' then (c as int + ('a' as int - 'A' as int)) as char else c
  }

  /** `s.toLowerCase()` on the ASCII letters; other characters are kept. */
  function ToLowerAscii(s: string): string {
    seq(|s|, k requires 0 <= k < |s| => LowerAscii(s[k]))
  }

  /** A word lowercases to `/ban` exactly when it is `/ban` in any mixture of cases. */
  lemma LowersToBan(w: string)
    ensures ToLowerAscii(w) == "/ban" <==>
      |w| == 4 && w[0] == '/' && (w[1] == 'b' || w[1] == 'B') && (w[2] == 'a' || w[2] == 'A')
      && (w[3] == 'n' || w[3] == 'N')
  {
    if |w| == 4 {
      var l := ToLowerAscii(w);
      assert l[0] == LowerAscii(w[0]) && l[1] == LowerAscii(w[1]);
      assert l[2] == LowerAscii(w[2]) && l[3] == LowerAscii(w[3]);
    }
  }
}
