/** The JavaScript string operations the components rely on: `lastIndexOf`,
    `split`/`join` on one separator character, `startsWith`, `toLowerCase`
    (on ASCII letters) and `trim`. */
module Strings {

  /** `s.lastIndexOf(c)`: the position of the last `c`, or -1. */
  function LastIndexOf(s: string, c: char): (i: int)
    ensures -1 <= i < |s|
    ensures i >= 0 ==> s[i] == c
    ensures forall k :: i < k < |s| ==> s[k] != c
  {
    if |s| == 0 then -1
    else if s[|s| - 1] == c then |s| - 1
    else LastIndexOf(s[..|s| - 1], c)
  }

  /** `s.split(sep)`: the maximal runs between separators, in order; there is
      always at least one part, and no part holds the separator. */
  function Split(s: string, sep: char): (parts: seq<string>)
    ensures |parts| >= 1
    ensures forall i :: 0 <= i < |parts| ==> sep !in parts[i]
  {
    if |s| == 0 then [""]
    else
      var init := Split(s[..|s| - 1], sep);
      if s[|s| - 1] == sep then init + [""]
      else init[..|init| - 1] + [init[|init| - 1] + [s[|s| - 1]]]
  }

  /** `parts.join(sep)` */
  function Join(parts: seq<string>, sep: char): string
  {
    if |parts| == 0 then ""
    else if |parts| == 1 then parts[0]
    else Join(parts[..|parts| - 1], sep) + [sep] + parts[|parts| - 1]
  }

  function Last(parts: seq<string>): string
    requires |parts| >= 1
  {
    parts[|parts| - 1]
  }

  function DropLast(parts: seq<string>): seq<string>
    requires |parts| >= 1
  {
    parts[..|parts| - 1]
  }

  /** Joining one more part adds a separator and that part. */
  lemma JoinSnoc(parts: seq<string>, p: string, sep: char)
    ensures Join(parts + [p], sep) == if |parts| == 0 then p else Join(parts, sep) + [sep] + p
  {
    assert (parts + [p])[..|parts|] == parts;
  }

  /** Appending a character to the last part appends it to the join. */
  lemma JoinExtendLast(parts: seq<string>, c: char, sep: char)
    requires |parts| >= 1
    ensures Join(DropLast(parts) + [Last(parts) + [c]], sep) == Join(parts, sep) + [c]
  {
    JoinSnoc(DropLast(parts), Last(parts) + [c], sep);
    if |parts| > 1 {
      assert Join(parts, sep) == Join(DropLast(parts), sep) + [sep] + Last(parts);
    }
  }

  /** Splitting text with one more character: a separator opens a new empty
      part, any other character extends the last part. */
  lemma SplitSnoc(t: string, c: char, sep: char)
    ensures Split(t + [c], sep) ==
      if c == sep then Split(t, sep) + [""]
      else DropLast(Split(t, sep)) + [Last(Split(t, sep)) + [c]]
  {
    assert (t + [c])[..|t|] == t;
  }

  /** Joining the parts of a split with the same separator gives back the
      original text. */
  lemma {:induction false} JoinSplit(s: string, sep: char)
    ensures Join(Split(s, sep), sep) == s
  {
    if |s| > 0 {
      var t := s[..|s| - 1];
      var c := s[|s| - 1];
      assert s == t + [c];
      JoinSplit(t, sep);
      SplitSnoc(t, c, sep);
      if c == sep {
        JoinSnoc(Split(t, sep), "", sep);
      } else {
        JoinExtendLast(Split(t, sep), c, sep);
      }
    }
  }

  /** The split of `s` is the split of the text before the last separator,
      followed by the text after it. */
  lemma {:induction false} SplitAtLast(s: string, sep: char)
    requires LastIndexOf(s, sep) >= 0
    ensures var i := LastIndexOf(s, sep);
      Split(s, sep) == Split(s[..i], sep) + [s[i + 1..]]
  {
    var i := LastIndexOf(s, sep);
    var n := |s|;
    var t := s[..n - 1];
    var c := s[n - 1];
    assert s == t + [c];
    SplitSnoc(t, c, sep);
    if i == n - 1 {
      assert t == s[..i];
      assert s[i + 1..] == "";
    } else {
      assert LastIndexOf(s, sep) == LastIndexOf(t, sep);
      SplitAtLast(t, sep);
      var front := Split(t[..i], sep);
      var init := Split(t, sep);
      assert init == front + [t[i + 1..]];
      assert DropLast(init) == front;
      assert Last(init) == t[i + 1..];
      assert t[..i] == s[..i];
      assert t[i + 1..] + [c] == s[i + 1..];
    }
  }

  /** With no separator in `s`, the split is `[s]`. */
  lemma {:induction false} SplitNoSeparator(s: string, sep: char)
    requires LastIndexOf(s, sep) == -1
    ensures Split(s, sep) == [s]
  {
    if |s| > 0 {
      var t := s[..|s| - 1];
      SplitNoSeparator(t, sep);
      assert s == t + [s[|s| - 1]];
    }
  }

  /** `s.split(sep).pop()`: the text after the last separator, or all of `s`. */
  lemma SplitLast(s: string, sep: char)
    ensures Last(Split(s, sep)) == s[LastIndexOf(s, sep) + 1..]
  {
    if LastIndexOf(s, sep) >= 0 {
      SplitAtLast(s, sep);
    } else {
      SplitNoSeparator(s, sep);
    }
  }

  /** `s.split(sep).slice(0, -1).join(sep)`: the text before the last
      separator, or "" when there is none. */
  lemma SplitDropLastJoin(s: string, sep: char)
    ensures var i := LastIndexOf(s, sep);
      Join(DropLast(Split(s, sep)), sep) == if i < 0 then "" else s[..i]
  {
    var i := LastIndexOf(s, sep);
    if i >= 0 {
      SplitAtLast(s, sep);
      var parts := Split(s, sep);
      assert DropLast(parts) == Split(s[..i], sep);
      JoinSplit(s[..i], sep);
    } else {
      SplitNoSeparator(s, sep);
    }
  }

  /** `s.split(sep).length` is one more than the number of separators. */
  lemma {:induction false} SplitCount(s: string, sep: char)
    ensures |Split(s, sep)| == multiset(s)[sep] + 1
  {
    if |s| > 0 {
      var t := s[..|s| - 1];
      SplitCount(t, sep);
      assert s == t + [s[|s| - 1]];
      assert multiset(s) == multiset(t) + multiset{s[|s| - 1]};
    }
  }

  /** `s.startsWith(p)` */
  predicate StartsWith(s: string, p: string)
  {
    |p| <= |s| && s[..|p|] == p
  }

  /** `toLowerCase` on one character; letters outside ASCII are left alone. */
  function LowerChar(c: char): (d: char)
    ensures !IsUpper(d)
    ensures !IsUpper(c) ==> d == c
    ensures IsUpper(c) ==> d as int == c as int + 32
  {
    if 'A' <= c <= 'Z' then (c as int + 32) as char else c
  }

  predicate IsUpper(c: char)
  {
    'A' <= c <= 'Z'
  }

  /** `s.toLowerCase()` on ASCII: same length, every upper-case letter
      replaced by its lower-case partner, nothing else changed. */
  function ToLower(s: string): (r: string)
    ensures |r| == |s|
    ensures forall i :: 0 <= i < |s| ==> r[i] == LowerChar(s[i])
  {
    if |s| == 0 then "" else [LowerChar(s[0])] + ToLower(s[1..])
  }

  /** Lowering case does not move any dot or slash, so the position of the
      last separator is the same before and after. */
  lemma {:induction false} LastIndexOfLower(s: string, c: char)
    requires !IsUpper(c) && !('a' <= c <= 'z')
    ensures LastIndexOf(ToLower(s), c) == LastIndexOf(s, c)
  {
    var i := LastIndexOf(s, c);
    var j := LastIndexOf(ToLower(s), c);
    assert forall k :: 0 <= k < |s| ==> (ToLower(s)[k] == c <==> s[k] == c);
  }

  /** Lowering case commutes with taking a suffix. */
  lemma {:induction false} LowerSuffix(s: string, k: nat)
    requires k <= |s|
    ensures ToLower(s)[k..] == ToLower(s[k..])
  {
    var a := ToLower(s)[k..];
    var b := ToLower(s[k..]);
    forall i | 0 <= i < |a|
      ensures a[i] == b[i]
    {
      assert s[k..][i] == s[k + i];
    }
  }

  /** The characters `String.prototype.trim` removes: the ECMAScript
      WhiteSpace and LineTerminator code points. */
  const WhitespaceChars: set<char> := {
    '\t', '\n', '\U{000B}', '\U{000C}', '\r', ' ', '\U{00A0}', '\U{1680}',
    '\U{2000}', '\U{2001}', '\U{2002}', '\U{2003}', '\U{2004}', '\U{2005}',
    '\U{2006}', '\U{2007}', '\U{2008}', '\U{2009}', '\U{200A}',
    '\U{2028}', '\U{2029}', '\U{202F}', '\U{205F}', '\U{3000}', '\U{FEFF}'
  }

  predicate IsWhitespace(c: char)
  {
    c in WhitespaceChars
  }

  predicate AllWhitespace(s: string)
  {
    forall k :: 0 <= k < |s| ==> IsWhitespace(s[k])
  }

  /** How many whitespace characters `trim` drops from the front of `s`. */
  function LeadingSpace(s: string): (n: nat)
    ensures n <= |s|
    ensures forall k :: 0 <= k < n ==> IsWhitespace(s[k])
    ensures n < |s| ==> !IsWhitespace(s[n])
  {
    if |s| > 0 && IsWhitespace(s[0]) then 1 + LeadingSpace(s[1..]) else 0
  }

  /** Where the whitespace `trim` drops from the back of `s` begins. */
  function TrailingSpace(s: string): (n: nat)
    ensures n <= |s|
    ensures forall k :: n <= k < |s| ==> IsWhitespace(s[k])
    ensures n > 0 ==> !IsWhitespace(s[n - 1])
  {
    if |s| > 0 && IsWhitespace(s[|s| - 1]) then TrailingSpace(s[..|s| - 1]) else |s|
  }

  /** `s.trim()`: the piece of `s` between its leading and its trailing
      whitespace. It is an infix of `s` with only whitespace before and
      after it, and it neither starts nor ends with whitespace. */
  function Trim(s: string): (r: string)
    ensures LeadingSpace(s) + |r| <= |s|
    ensures r == s[LeadingSpace(s)..LeadingSpace(s) + |r|]
    ensures AllWhitespace(s[..LeadingSpace(s)])
    ensures AllWhitespace(s[LeadingSpace(s) + |r|..])
    ensures r == [] || (!IsWhitespace(r[0]) && !IsWhitespace(r[|r| - 1]))
  {
    var i := LeadingSpace(s);
    var j := TrailingSpace(s);
    if j <= i then
      assert i == |s|;
      ""
    else
      s[i..j]
  }

  /** `!s.trim()`: the trimmed text is empty exactly when every character of
      `s` is whitespace. */
  lemma TrimEmptyIffBlank(s: string)
    ensures Trim(s) == "" <==> AllWhitespace(s)
  {
    if Trim(s) == "" {
      assert LeadingSpace(s) == |s|;
    }
  }

  /** Text that neither starts nor ends with whitespace is its own trim, so
      trimming twice is trimming once. */
  lemma TrimTrimmed(s: string)
    requires s == [] || (!IsWhitespace(s[0]) && !IsWhitespace(s[|s| - 1]))
    ensures Trim(s) == s
    ensures Trim(Trim(s)) == Trim(s)
  {
    assert LeadingSpace(s) == 0;
    assert TrailingSpace(s) == |s|;
  }
}
