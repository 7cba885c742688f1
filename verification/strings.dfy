/** The JavaScript string primitives the components rely on, over `seq<char>`:
    `split` on a one-character separator, `join`, `trim`, `filter(Boolean)` on
    a list of strings, and upper-casing restricted to ASCII. */
module Strings {

  /** `parts.join([sep])`: the pieces with one separator between neighbours;
      `[].join(sep)` is the empty string. */
  function Join(parts: seq<string>, sep: char): string
  {
    if |parts| == 0 then ""
    else if |parts| == 1 then parts[0]
    else parts[0] + [sep] + Join(parts[1..], sep)
  }

  /** Joining separator-free pieces writes exactly one separator between
      neighbours and none anywhere else. */
  lemma {:induction false} JoinSeparators(parts: seq<string>, sep: char)
    requires forall i :: 0 <= i < |parts| ==> sep !in parts[i]
    ensures multiset(Join(parts, sep))[sep] == if |parts| == 0 then 0 else |parts| - 1
    decreases |parts|
  {
    if |parts| > 1 {
      JoinSeparators(parts[1..], sep);
      assert sep !in multiset(parts[0]);
    } else if |parts| == 1 {
      assert sep !in multiset(parts[0]);
    }
  }

  /** `s.split(sep)` for a one-character separator: the maximal separator-free
      pieces, in order. The empty string splits into one empty piece, and
      every separator starts a new (possibly empty) piece. */
  function Split(s: string, sep: char): (parts: seq<string>)
    ensures |parts| >= 1
    ensures forall i :: 0 <= i < |parts| ==> sep !in parts[i]
    decreases |s|
  {
    if |s| == 0 then [""]
    else
      var rest := Split(s[1..], sep);
      if s[0] == sep then [""] + rest
      else [[s[0]] + rest[0]] + rest[1..]
  }

  lemma {:induction false} JoinSplit(s: string, sep: char)
    ensures Join(Split(s, sep), sep) == s
    decreases |s|
  {
    if |s| > 0 {
      JoinSplit(s[1..], sep);
      var rest := Split(s[1..], sep);
      if s[0] == sep {
        assert s == [sep] + s[1..];
      } else {
        var parts := [[s[0]] + rest[0]] + rest[1..];
        assert parts[1..] == rest[1..];
        assert s == [s[0]] + s[1..];
      }
    }
  }

  /** Splitting the join of separator-free pieces gives the pieces back. */
  lemma {:induction false} SplitJoin(parts: seq<string>, sep: char)
    requires |parts| >= 1
    requires forall i :: 0 <= i < |parts| ==> sep !in parts[i]
    ensures Split(Join(parts, sep), sep) == parts
    decreases |parts|
  {
    if |parts| == 1 {
      SplitSepFree(parts[0], sep);
    } else {
      SplitJoin(parts[1..], sep);
      SplitAtFirst(parts[0], Join(parts[1..], sep), sep);
      assert parts == [parts[0]] + parts[1..];
    }
  }

  /** A separator-free string is its own single piece. */
  lemma {:induction false} SplitSepFree(a: string, sep: char)
    requires sep !in a
    ensures Split(a, sep) == [a]
    decreases |a|
  {
    if |a| > 0 {
      SplitSepFree(a[1..], sep);
      assert [a[0]] + a[1..] == a;
    }
  }

  /** Splitting at the first separator: a separator-free head becomes the first
      piece and the rest splits on its own. */
  lemma {:induction false} SplitAtFirst(a: string, t: string, sep: char)
    requires sep !in a
    ensures Split(a + [sep] + t, sep) == [a] + Split(t, sep)
    decreases |a|
  {
    var s := a + [sep] + t;
    if |a| == 0 {
      assert s == [sep] + t;
      assert s[1..] == t;
    } else {
      assert s[0] == a[0] && s[1..] == a[1..] + [sep] + t;
      SplitAtFirst(a[1..], t, sep);
      var rest := Split(s[1..], sep);
      assert rest[0] == a[1..] && rest[1..] == Split(t, sep);
      assert Split(s, sep) == [[a[0]] + rest[0]] + rest[1..];
      assert [a[0]] + a[1..] == a;
    }
  }

  /** A character other than the separator occurs in a join only if it occurs
      in one of the pieces. */
  lemma {:induction false} JoinAvoids(parts: seq<string>, sep: char, c: char)
    requires c != sep
    requires forall i :: 0 <= i < |parts| ==> c !in parts[i]
    ensures c !in Join(parts, sep)
    decreases |parts|
  {
    if |parts| > 1 {
      JoinAvoids(parts[1..], sep, c);
    }
  }

  /** A string that splits into a single piece is that piece. */
  lemma SplitSingle(s: string, sep: char)
    requires |Split(s, sep)| == 1
    ensures Split(s, sep) == [s]
  {
    JoinSplit(s, sep);
  }

  /** The pieces of a split with at least two pieces: the first piece, the
      separator, and a remainder that splits into the other pieces. */
  lemma SplitHead(s: string, sep: char)
    requires |Split(s, sep)| >= 2
    ensures var parts := Split(s, sep);
      var k := |parts[0]|;
      && k < |s| && s[..k] == parts[0] && s[k] == sep
      && Split(s[k + 1..], sep) == parts[1..]
  {
    var parts := Split(s, sep);
    JoinSplit(s, sep);
    var k := |parts[0]|;
    var t := Join(parts[1..], sep);
    assert s == parts[0] + [sep] + t;
    assert s[k + 1..] == t;
    SplitJoin(parts[1..], sep);
  }

  /** ECMAScript white space and line terminators, the characters `trim`
      removes: TAB, LF, VT, FF, CR, SPACE, NBSP, the other Unicode space
      separators, LINE and PARAGRAPH SEPARATOR, and the byte-order mark. */
  predicate IsWhitespace(c: char)
  {
    || c == '\t' || c == '\n' || c == '\U{000B}' || c == '\U{000C}' || c == '\r'
    || c == ' ' || c == '\U{00A0}' || c == '\U{1680}'
    || ('\U{2000}' <= c <= '\U{200A}')
    || c == '\U{2028}' || c == '\U{2029}' || c == '\U{202F}' || c == '\U{205F}'
    || c == '\U{3000}' || c == '\U{FEFF}'
  }

  /** Neither end of `s` is white space. */
  predicate Trimmed(s: string)
  {
    |s| == 0 || (!IsWhitespace(s[0]) && !IsWhitespace(s[|s| - 1]))
  }

  /** `s[..lo]` and `s[hi..]` are whitespace only: cutting them off is a
      trim of `s`. */
  predicate Margins(s: string, lo: int, hi: int)
  {
    && 0 <= lo <= hi <= |s|
    && (forall i :: 0 <= i < lo ==> IsWhitespace(s[i]))
    && (forall i :: hi <= i < |s| ==> IsWhitespace(s[i]))
  }

  /** `s.trimStart()`: the suffix left after dropping leading white space. */
  function TrimStart(s: string): (r: string)
    ensures |r| <= |s| && r == s[|s| - |r|..]
    ensures |r| == 0 || !IsWhitespace(r[0])
    ensures forall i :: 0 <= i < |s| - |r| ==> IsWhitespace(s[i])
    decreases |s|
  {
    if |s| > 0 && IsWhitespace(s[0]) then
      var r := TrimStart(s[1..]);
      assert s[1..][|s| - 1 - |r|..] == s[|s| - |r|..];
      r
    else
      s
  }

  /** `s.trimEnd()`: the prefix left after dropping trailing white space. */
  function TrimEnd(s: string): (r: string)
    ensures |r| <= |s| && r == s[..|r|]
    ensures |r| == 0 || !IsWhitespace(r[|r| - 1])
    ensures forall i :: |r| <= i < |s| ==> IsWhitespace(s[i])
    decreases |s|
  {
    if |s| > 0 && IsWhitespace(s[|s| - 1]) then
      var r := TrimEnd(s[..|s| - 1]);
      assert s[..|s| - 1][..|r|] == s[..|r|];
      r
    else
      s
  }

  /** `s.trim()`: no white space at either end, every character taken from
      `s`, and a string already trimmed is left alone. */
  function Trim(s: string): (r: string)
    ensures Trimmed(r)
    ensures forall c :: c in r ==> c in s
    ensures Trimmed(s) ==> r == s
    ensures exists lo, hi :: Margins(s, lo, hi) && r == s[lo..hi]
  {
    TrimFacts(s);
    TrimEnd(TrimStart(s))
  }

  /** Trimming keeps a slice of `s` between whitespace margins. */
  lemma TrimFacts(s: string)
    ensures var r := TrimEnd(TrimStart(s));
      && (forall c :: c in r ==> c in s)
      && exists lo, hi :: Margins(s, lo, hi) && r == s[lo..hi]
  {
    var lo, hi := TrimMargins(s);
    SliceMembers(s, lo, hi);
  }

  lemma SliceMembers(s: string, lo: int, hi: int)
    requires 0 <= lo <= hi <= |s|
    ensures forall c :: c in s[lo..hi] ==> c in s
  {
    forall c | c in s[lo..hi] ensures c in s {
      var i :| lo <= i < hi && s[i] == c;
    }
  }

  lemma TrimMargins(s: string) returns (lo: int, hi: int)
    ensures Margins(s, lo, hi) && TrimEnd(TrimStart(s)) == s[lo..hi]
  {
    var t := TrimStart(s);
    lo := |s| - |t|;
    hi := MarginsOfSuffix(s, lo, t, TrimEnd(t));
  }

  /** A whitespace prefix of `s` followed by `t`, where `t` is `r` and a
      whitespace tail: `r` sits between whitespace margins of `s`. */
  lemma MarginsOfSuffix(s: string, lo: int, t: string, r: string) returns (hi: int)
    requires 0 <= lo <= |s| && t == s[lo..]
    requires forall i :: 0 <= i < lo ==> IsWhitespace(s[i])
    requires |r| <= |t| && r == t[..|r|]
    requires forall i :: |r| <= i < |t| ==> IsWhitespace(t[i])
    ensures hi == lo + |r| && Margins(s, lo, hi) && r == s[lo..hi]
  {
    hi := lo + |r|;
    forall i | hi <= i < |s| ensures IsWhitespace(s[i]) {
      assert s[i] == t[i - lo];
    }
  }

  /** `xs.map(s => s.trim())`. */
  function TrimAll(xs: seq<string>): (r: seq<string>)
    ensures |r| == |xs|
    ensures forall i :: 0 <= i < |r| ==> r[i] == Trim(xs[i])
  {
    seq(|xs|, i requires 0 <= i < |xs| => Trim(xs[i]))
  }

  /** `xs.filter(Boolean)` on strings: drops the empty strings and keeps the
      others in order. */
  function FilterNonEmpty(xs: seq<string>): (r: seq<string>)
    ensures |r| <= |xs|
    ensures forall i :: 0 <= i < |r| ==> r[i] != "" && r[i] in xs
    ensures forall i :: 0 <= i < |xs| && xs[i] != "" ==> xs[i] in r
    ensures (forall i :: 0 <= i < |xs| ==> xs[i] != "") ==> r == xs
  {
    if |xs| == 0 then []
    else
      var rest := FilterNonEmpty(xs[1..]);
      assert forall i :: 1 <= i < |xs| ==> xs[i] == xs[1..][i - 1];
      if xs[0] == "" then rest
      else
        assert xs == [xs[0]] + xs[1..];
        [xs[0]] + rest
  }

  /** Filtering distributes over concatenation: the surviving elements keep
      their order and their number. */
  lemma {:induction false} FilterAppend(a: seq<string>, b: seq<string>)
    ensures FilterNonEmpty(a + b) == FilterNonEmpty(a) + FilterNonEmpty(b)
    decreases |a|
  {
    if |a| == 0 {
      assert a + b == b;
    } else {
      assert (a + b)[0] == a[0] && (a + b)[1..] == a[1..] + b;
      FilterAppend(a[1..], b);
    }
  }

  /** A one-element list keeps its element exactly when it is non-empty. */
  lemma FilterOne(x: string)
    ensures FilterNonEmpty([x]) == if x == "" then [] else [x]
  {
  }

  /** Trimming every element distributes over concatenation. */
  lemma TrimAllAppend(a: seq<string>, b: seq<string>)
    ensures TrimAll(a + b) == TrimAll(a) + TrimAll(b)
  {
  }

  /** Splitting at a separator the caller placed: the pieces of the part
      before it, then the pieces of the part after it. */
  lemma SplitConcat(a: string, b: string, sep: char)
    ensures Split(a + [sep] + b, sep) == Split(a, sep) + Split(b, sep)
  {
    var p, q := Split(a, sep), Split(b, sep);
    JoinSplit(a, sep);
    JoinSplit(b, sep);
    JoinAppend(p, q, sep);
    SepFreeAppend(p, q, sep);
    SplitJoin(p + q, sep);
  }

  lemma SepFreeAppend(p: seq<string>, q: seq<string>, sep: char)
    requires forall i :: 0 <= i < |p| ==> sep !in p[i]
    requires forall i :: 0 <= i < |q| ==> sep !in q[i]
    ensures forall i :: 0 <= i < |p + q| ==> sep !in (p + q)[i]
  {
    forall i | |p| <= i < |p + q| ensures sep !in (p + q)[i] {
      assert (p + q)[i] == q[i - |p|];
    }
  }

  /** Joining two non-empty lists puts one separator between their joins. */
  lemma {:induction false} JoinAppend(p: seq<string>, q: seq<string>, sep: char)
    requires |p| >= 1 && |q| >= 1
    ensures Join(p + q, sep) == Join(p, sep) + [sep] + Join(q, sep)
    decreases |p|
  {
    assert (p + q)[0] == p[0];
    if |p| == 1 {
      assert (p + q)[1..] == q;
    } else {
      assert (p + q)[1..] == p[1..] + q;
      JoinAppend(p[1..], q, sep);
    }
  }

  /** `String.prototype.toUpperCase` on one character, restricted to ASCII:
      'a'..'z' become 'A'..'Z', everything else is unchanged. */
  function UpperChar(c: char): (u: char)
    ensures 'a' <= c <= 'z' ==> 'A' <= u <= 'Z' && u as int - c as int == 'A' as int - 'a' as int
    ensures !('a' <= c <= 'z') ==> u == c
  {
    if 'a' <= c <= 'z' then (c as int - 'a' as int + 'A' as int) as char else c
  }

  /** ASCII upper-casing of a whole string, character by character. */
  function Upper(s: string): (r: string)
    ensures |r| == |s|
    ensures forall i :: 0 <= i < |s| ==> r[i] == UpperChar(s[i])
  {
    seq(|s|, i requires 0 <= i < |s| => UpperChar(s[i]))
  }
}
