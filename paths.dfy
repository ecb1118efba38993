/**
 * Strings and POSIX paths as the commands handle them: Python's `str.split`
 * (first and last piece), `os.path.join`, `os.path.basename` and
 * `os.path.dirname`, and the file system seen as two sets of paths.
 */
module Paths {

  /** `os.sep` on the POSIX systems the tool runs on. */
  const Sep: char := '/'

  /** What `os.path.isfile` and `os.path.isdir` answer: the regular files and the directories. */
  datatype FileSystem = FileSystem(files: set<string>, dirs: set<string>)

  /** `m` occurs in `s` starting at index `i`. */
  predicate OccursAt(s: string, m: string, i: int) {
    0 <= i && i + |m| <= |s| && s[i..i + |m|] == m
  }

  lemma OccursAtTail(s: string, m: string)
    requires |s| > 0
    ensures forall i :: 1 <= i ==> (OccursAt(s, m, i) <==> OccursAt(s[1..], m, i - 1))
  {
    forall i | 1 <= i
      ensures OccursAt(s, m, i) <==> OccursAt(s[1..], m, i - 1)
    {
      if i + |m| <= |s| {
        var t, u := s[1..][i - 1..i - 1 + |m|], s[i..i + |m|];
        assert forall k :: 0 <= k < |m| ==> t[k] == u[k];
        assert t == u;
      }
    }
  }

  /**
   * `s.split(m)[0]` for a non-empty separator `m`: everything before the
   * first occurrence of `m`, or all of `s` when `m` does not occur.
   */
  function BeforeFirst(s: string, m: string): string
    requires |m| > 0
    decreases |s|
  {
    if |s| < |m| then s
    else if s[..|m|] == m then []
    else [s[0]] + BeforeFirst(s[1..], m)
  }

  /**
   * BeforeFirst is the longest prefix of `s` in which no occurrence of `m`
   * starts: it is all of `s` when `m` does not occur, and otherwise it stops
   * exactly where the first `m` starts.
   */
  lemma {:induction false} BeforeFirstSplits(s: string, m: string)
    requires |m| > 0
    ensures BeforeFirst(s, m) <= s
    ensures forall i :: 0 <= i < |BeforeFirst(s, m)| ==> !OccursAt(s, m, i)
    ensures BeforeFirst(s, m) == s || OccursAt(s, m, |BeforeFirst(s, m)|)
    decreases |s|
  {
    if |s| >= |m| && s[..|m|] != m {
      OccursAtTail(s, m);
      BeforeFirstSplits(s[1..], m);
      var rest := BeforeFirst(s[1..], m);
      assert rest == s[1..] ==> [s[0]] + rest == s;
    }
  }

  /**
   * `s.split(c)[-1]`, which is also `os.path.basename(s)` when `c` is the
   * separator: the suffix of `s` after its last `c`, or all of `s` when `c`
   * does not occur.
   */
  function AfterLast(s: string, c: char): string {
    if |s| == 0 || s[|s| - 1] == c then []
    else AfterLast(s[..|s| - 1], c) + [s[|s| - 1]]
  }

  /** AfterLast is a suffix free of `c`, and all of `s` or preceded by a `c`. */
  lemma {:induction false} AfterLastSuffix(s: string, c: char)
    ensures |AfterLast(s, c)| <= |s| && AfterLast(s, c) == s[|s| - |AfterLast(s, c)|..]
    ensures c !in AfterLast(s, c)
    ensures AfterLast(s, c) == s || (|AfterLast(s, c)| < |s| && s[|s| - |AfterLast(s, c)| - 1] == c)
  {
    if |s| > 0 && s[|s| - 1] != c {
      AfterLastSuffix(s[..|s| - 1], c);
      var rest := AfterLast(s[..|s| - 1], c);
      assert s[..|s| - 1][|s| - 1 - |rest|..] + [s[|s| - 1]] == s[|s| - |rest| - 1..];
    }
  }

  /** A non-empty suffix holds the last character. */
  lemma SuffixHoldsLast(s: string, t: string)
    requires |t| <= |s| && t == s[|s| - |t|..]
    ensures |t| > 0 ==> s[|s| - 1] in t
  {
    if |t| > 0 {
      assert t[|t| - 1] == s[|s| - 1];
    }
  }

  /** The three properties of AfterLastSuffix determine AfterLast. */
  lemma {:induction false} AfterLastUnique(s: string, c: char, t: string)
    requires |t| <= |s| && t == s[|s| - |t|..]
    requires c !in t
    requires t == s || (|t| < |s| && s[|s| - |t| - 1] == c)
    ensures AfterLast(s, c) == t
    decreases |s|
  {
    if |s| > 0 {
      if s[|s| - 1] == c {
        SuffixHoldsLast(s, t);
      } else {
        var s', t' := s[..|s| - 1], t[..|t| - 1];
        assert t' == s'[|s'| - |t'|..];
        assert forall x :: x in t' ==> x in t;
        assert t != s ==> s'[|s'| - |t'| - 1] == s[|s| - |t| - 1];
        AfterLastUnique(s', c, t');
        assert t == t' + [s[|s| - 1]];
      }
    }
  }

  /** `os.path.join(a, b)`: `b` alone when it is absolute, else `a` and `b` with one separator between them. */
  function Join(a: string, b: string): string {
    if |b| > 0 && b[0] == Sep then b
    else if a == [] || a[|a| - 1] == Sep then a + b
    else a + [Sep] + b
  }

  /**
   * Joining ends with the name joined. A relative name is preceded by the
   * directory and at most one character, which is a separator, added exactly
   * when the directory is non-empty and does not already end in one.
   */
  lemma JoinShape(a: string, b: string)
    ensures |b| <= |Join(a, b)| && Join(a, b)[|Join(a, b)| - |b|..] == b
    ensures (|b| > 0 && b[0] == Sep) ==> Join(a, b) == b
    ensures !(|b| > 0 && b[0] == Sep) ==> a <= Join(a, b) && |Join(a, b)| - |b| - |a| <= 1
    ensures !(|b| > 0 && b[0] == Sep) ==>
      (|Join(a, b)| == |a| + |b| + 1 <==> a != [] && a[|a| - 1] != Sep)
    ensures |Join(a, b)| == |a| + |b| + 1 ==> Join(a, b)[|a|] == Sep
  {
  }

  /** Joining a directory and a plain name gives a path whose last component is that name. */
  lemma {:induction false} JoinedLastComponent(dir: string, name: string)
    requires |name| > 0 && Sep !in name
    ensures AfterLast(Join(dir, name), Sep) == name
  {
    var p := Join(dir, name);
    if dir == [] || dir[|dir| - 1] == Sep {
      assert p[|p| - |name|..] == name;
      if dir != [] {
        assert p[|p| - |name| - 1] == Sep;
      }
    } else {
      assert p[|p| - |name|..] == name;
      assert p[|p| - |name| - 1] == Sep;
    }
    AfterLastUnique(p, Sep, name);
  }

  /** Every character of `s` is the separator. */
  predicate AllSeps(s: string) {
    forall i :: 0 <= i < |s| ==> s[i] == Sep
  }

  /** `s.rstrip('/')`. */
  function StripTrailingSeps(s: string): string {
    if |s| == 0 || s[|s| - 1] != Sep then s
    else StripTrailingSeps(s[..|s| - 1])
  }

  /** Stripping keeps a prefix that does not end in a separator and drops separators only. */
  lemma {:induction false} StripTrailingSepsShape(s: string)
    ensures StripTrailingSeps(s) <= s
    ensures StripTrailingSeps(s) == [] || StripTrailingSeps(s)[|StripTrailingSeps(s)| - 1] != Sep
    ensures forall i :: |StripTrailingSeps(s)| <= i < |s| ==> s[i] == Sep
  {
    if |s| > 0 && s[|s| - 1] == Sep {
      StripTrailingSepsShape(s[..|s| - 1]);
    }
  }

  /** Everything before the last component of `p`: `p` with its trailing non-separators dropped. */
  function Head(p: string): string {
    if |p| == 0 || p[|p| - 1] == Sep then p
    else Head(p[..|p| - 1])
  }

  /**
   * `os.path.dirname(p)`: everything before the last component, with the
   * trailing separators removed unless it consists of separators only.
   */
  function DirName(p: string): string {
    var head := Head(p);
    if AllSeps(head) then head else StripTrailingSeps(head)
  }

  /**
   * The head and the last component make up the path, and the head is
   * empty exactly when the path has no separator.
   */
  lemma {:induction false} HeadShape(p: string)
    ensures Head(p) + AfterLast(p, Sep) == p
    ensures Head(p) == [] || Head(p)[|Head(p)| - 1] == Sep
    ensures Head(p) == [] <==> Sep !in p
  {
    if |p| > 0 && p[|p| - 1] != Sep {
      var q := p[..|p| - 1];
      HeadShape(q);
      assert p == q + [p[|p| - 1]];
      assert Head(p) + AfterLast(p, Sep) == Head(q) + AfterLast(q, Sep) + [p[|p| - 1]];
      assert Sep in p <==> Sep in q;
    }
  }

  /**
   * The directory part is the head when that is all separators, and
   * otherwise the head without its trailing separators: a non-empty prefix
   * of it not ending in a separator, followed in it by separators only. It
   * is empty exactly when the path has no separator.
   */
  lemma DirNameShape(p: string)
    ensures DirName(p) <= Head(p) <= p
    ensures AllSeps(Head(p)) ==> DirName(p) == Head(p)
    ensures !AllSeps(Head(p)) ==>
      && DirName(p) != [] && DirName(p)[|DirName(p)| - 1] != Sep
      && AllSeps(Head(p)[|DirName(p)|..])
    ensures DirName(p) == [] <==> Sep !in p
  {
    HeadShape(p);
    StripTrailingSepsShape(Head(p));
  }
}
