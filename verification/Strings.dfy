/** The few string operations the rest of the model needs, with the meaning Go's
    `strings` package gives them: prefixes and suffixes, splitting and joining, trimming,
    searching, and the byte order. A `char` stands for one byte. */
module Strings {

  /** Result of an operation that can fail with a described error. */
  datatype Result<+T, +E> = Ok(value: T) | Err(error: E)

  datatype Option<+T> = None | Some(value: T)

  predicate HasPrefix(s: string, prefix: string) {
    |prefix| <= |s| && s[..|prefix|] == prefix
  }

  predicate HasSuffix(s: string, suffix: string) {
    |suffix| <= |s| && s[|s| - |suffix|..] == suffix
  }

  // ---- laws of suffixes

  lemma {:induction false} SuffixAppend(t: string, p: string, c: string)
    requires HasSuffix(t, p)
    ensures HasSuffix(t + c, p + c)
  {
    assert t + c == t[..|t| - |p|] + (p + c);
  }

  lemma {:induction false} SuffixLead(t: string, c: string, p: string)
    requires HasSuffix(c, p)
    ensures HasSuffix(t + c, p)
  {
    assert t + c == (t + c[..|c| - |p|]) + p;
  }

  lemma {:induction false} SuffixStrip(s: string, x: string, t: string)
    requires HasSuffix(s, x + t)
    ensures |t| <= |s| && HasSuffix(s[..|s| - |t|], x)
  {
    var y := s[..|s| - |x + t|];
    assert s == y + (x + t);
    assert s[..|s| - |t|] == y + x;
  }

  lemma {:induction false} SuffixOfLonger(s: string, x: string, y: string)
    requires HasSuffix(s, x) && HasSuffix(s, y) && |x| <= |y|
    ensures HasSuffix(y, x)
  {
    assert y[|y| - |x|..] == s[|s| - |y|..][|y| - |x|..];
  }

  lemma {:induction false} SuffixTrans(s: string, x: string, y: string)
    requires HasSuffix(s, x) && HasSuffix(x, y)
    ensures HasSuffix(s, y)
  {
    assert s[|s| - |y|..] == s[|s| - |x|..][|x| - |y|..];
  }

  // ---- splitting on one separator

  /** strings.Split(s, sep) for a one-character separator: always at least one segment. */
  function Split(s: string, sep: char): (segs: seq<string>)
    ensures |segs| >= 1
    ensures forall i :: 0 <= i < |segs| ==> sep !in segs[i]
  {
    if s == "" then [""]
    else
      var rest := Split(s[1..], sep);
      if s[0] == sep then [""] + rest else [[s[0]] + rest[0]] + rest[1..]
  }

  function Join(segs: seq<string>, sep: char): string
    requires |segs| >= 1
  {
    if |segs| == 1 then segs[0] else segs[0] + [sep] + Join(segs[1..], sep)
  }

  lemma {:induction false} JoinOfSplit(s: string, sep: char)
    ensures Join(Split(s, sep), sep) == s
  {
    if s != "" {
      var rest := Split(s[1..], sep);
      JoinOfSplit(s[1..], sep);
      if s[0] == sep {
        assert ([""] + rest)[1..] == rest;
      } else if |rest| > 1 {
        assert ([[s[0]] + rest[0]] + rest[1..])[1..] == rest[1..];
      }
    }
  }

  /** Text without the separator only extends the first segment of what follows it. */
  lemma {:induction false} SplitAppend(a: string, b: string, sep: char)
    requires sep !in a
    ensures Split(a + b, sep) == [a + Split(b, sep)[0]] + Split(b, sep)[1..]
  {
    if a == "" {
      assert a + b == b && a + Split(b, sep)[0] == Split(b, sep)[0];
      assert [Split(b, sep)[0]] + Split(b, sep)[1..] == Split(b, sep);
    } else {
      assert (a + b)[1..] == a[1..] + b;
      SplitAppend(a[1..], b, sep);
      assert [a[0]] + (a[1..] + Split(b, sep)[0]) == a + Split(b, sep)[0];
    }
  }

  lemma {:induction false} SplitAtSep(a: string, b: string, sep: char)
    requires sep !in a
    ensures Split(a + [sep] + b, sep) == [a] + Split(b, sep)
  {
    assert a + [sep] + b == a + ([sep] + b);
    SplitAppend(a, [sep] + b, sep);
    assert ([sep] + b)[1..] == b;
    assert a + "" == a;
  }

  lemma {:induction false} SplitOfJoin(segs: seq<string>, sep: char)
    requires |segs| >= 1 && forall i :: 0 <= i < |segs| ==> sep !in segs[i]
    ensures Split(Join(segs, sep), sep) == segs
  {
    if |segs| == 1 {
      SplitAppend(segs[0], "", sep);
      assert segs[0] + "" == segs[0];
    } else {
      SplitAtSep(segs[0], Join(segs[1..], sep), sep);
      SplitOfJoin(segs[1..], sep);
    }
  }

  /** Taking one more character in front of a text changes its first segment, or adds one. */
  lemma {:induction false} FirstSegment(a: string, rest: seq<string>, more: seq<string>, sep: char)
    requires a != "" && rest == Split(a[1..], sep)
    ensures (if a[0] == sep then [""] + (rest + more) else [[a[0]] + (rest + more)[0]] + (rest + more)[1..])
            == Split(a, sep) + more
  {
    assert (rest + more)[0] == rest[0] && (rest + more)[1..] == rest[1..] + more;
  }

  /** Appending a separator and more text only appends segments. */
  lemma {:induction false} SplitExtend(a: string, b: string, sep: char)
    ensures Split(a + [sep] + b, sep) == Split(a, sep) + Split(b, sep)
  {
    if a == "" {
      assert a + [sep] + b == [sep] + b;
      assert ([sep] + b)[1..] == b;
    } else {
      var whole := a + [sep] + b;
      assert whole[1..] == a[1..] + [sep] + b && whole[0] == a[0];
      SplitExtend(a[1..], b, sep);
      FirstSegment(a, Split(a[1..], sep), Split(b, sep), sep);
    }
  }

  // ---- trimming

  /** White space as unicode.IsSpace has it below 0x80. */
  predicate IsSpace(c: char) {
    c == ' ' || ('\t' <= c <= '\r')
  }

  function TrimLeft(s: string): (t: string)
    ensures t == "" || !IsSpace(t[0])
    ensures |t| <= |s| && t == s[|s| - |t|..]
  {
    if s != "" && IsSpace(s[0]) then TrimLeft(s[1..]) else s
  }

  function TrimRight(s: string): (t: string)
    ensures t == "" || !IsSpace(t[|t| - 1])
    ensures |t| <= |s| && t == s[..|t|]
  {
    if s != "" && IsSpace(s[|s| - 1]) then TrimRight(s[..|s| - 1]) else s
  }

  /** strings.TrimSpace. */
  function TrimSpace(s: string): (t: string)
    ensures t == "" || (!IsSpace(t[0]) && !IsSpace(t[|t| - 1]))
  {
    TrimRight(TrimLeft(s))
  }

  lemma {:induction false} LeftCut(s: string)
    ensures forall i :: 0 <= i < |s| - |TrimLeft(s)| ==> IsSpace(s[i])
  {
    hide IsSpace;
    if s != "" && IsSpace(s[0]) {
      LeftCut(s[1..]);
      assert forall i :: 1 <= i < |s| ==> s[i] == s[1..][i - 1];
    }
  }

  lemma {:induction false} RightCut(s: string)
    ensures forall i :: |TrimRight(s)| <= i < |s| ==> IsSpace(s[i])
  {
    hide IsSpace;
    if s != "" && IsSpace(s[|s| - 1]) { RightCut(s[..|s| - 1]); }
  }

  /** Only white space is cut off, on either side of what is left. */
  lemma {:induction false} TrimCuts(s: string)
    ensures exists k :: TrimmedAt(s, k)
  {
    hide IsSpace, TrimLeft, TrimRight;
    var l := TrimLeft(s);
    var t := TrimRight(l);
    var k := |s| - |l|;
    LeftCut(s);
    RightCut(l);
    SliceOfSlice(s, k, |t|);
    forall i | k + |t| <= i < |s| ensures IsSpace(s[i]) {
      assert s[i] == l[i - k];
    }
    assert TrimmedAt(s, k);
  }

  lemma {:induction false} SliceOfSlice(s: string, k: nat, n: nat)
    requires k <= |s| && n <= |s| - k
    ensures s[k..][..n] == s[k..k + n]
  {
  }

  /** What is left of s starts at k; all before and all behind it is white space. */
  ghost predicate TrimmedAt(s: string, k: int) {
    && 0 <= k <= |s| - |TrimSpace(s)| && TrimSpace(s) == s[k..k + |TrimSpace(s)|]
    && (forall i :: 0 <= i < k || k + |TrimSpace(s)| <= i < |s| ==> IsSpace(s[i]))
  }

  lemma {:induction false} TrimNothing(s: string)
    requires s == "" || (!IsSpace(s[0]) && !IsSpace(s[|s| - 1]))
    ensures TrimSpace(s) == s
  {
  }

  // ---- searching

  /** Index of the first c in s, or |s| when there is none. */
  function IndexByte(s: string, c: char): (i: nat)
    ensures i <= |s|
    ensures forall k :: 0 <= k < i ==> s[k] != c
    ensures i < |s| ==> s[i] == c
  {
    if s == "" || s[0] == c then 0 else 1 + IndexByte(s[1..], c)
  }

  /** Index of the last c in s, or -1 when there is none. */
  function LastIndexByte(s: string, c: char): (i: int)
    ensures -1 <= i < |s|
    ensures i >= 0 ==> s[i] == c
    ensures forall k :: i < k < |s| ==> s[k] != c
  {
    if s == "" then -1
    else if s[|s| - 1] == c then |s| - 1
    else LastIndexByte(s[..|s| - 1], c)
  }

  /** Index of the first occurrence of the non-empty text sub, or |s| when there is none. */
  function IndexOf(s: string, sub: string): (i: nat)
    requires sub != ""
    ensures i <= |s|
    ensures i < |s| ==> HasPrefix(s[i..], sub)
    ensures forall k {:trigger HasPrefix(s[k..], sub)} :: 0 <= k < i ==> !HasPrefix(s[k..], sub)
  {
    if s == "" || HasPrefix(s, sub) then
      assert s[0..] == s;
      0
    else
      var i := IndexOf(s[1..], sub);
      assert s[1 + i..] == s[1..][i..];
      assert forall k {:trigger HasPrefix(s[k..], sub)} :: 0 <= k < 1 + i ==> !HasPrefix(s[k..], sub) by {
        forall k | 0 <= k < 1 + i ensures !HasPrefix(s[k..], sub) {
          if k > 0 { assert s[k..] == s[1..][k - 1..]; } else { assert s[k..] == s; }
        }
      }
      1 + i
  }

  predicate Contains(s: string, sub: string)
    requires sub != ""
  {
    IndexOf(s, sub) < |s|
  }

  /** An occurrence anywhere is enough. */
  lemma {:induction false} ContainsAt(s: string, sub: string, k: nat)
    requires sub != "" && k < |s| && HasPrefix(s[k..], sub)
    ensures Contains(s, sub) && IndexOf(s, sub) <= k
  {
  }

  // ---- the byte order of strings

  predicate Less(a: string, b: string) {
    b != "" && (a == "" || a[0] < b[0] || (a[0] == b[0] && Less(a[1..], b[1..])))
  }

  lemma {:induction false} LessHas(a: string, b: string) returns (k: nat)
    requires Less(a, b)
    ensures FirstAt(a, b, k)
    decreases |a|
  {
    k := 0;
    if a != "" && a[0] == b[0] {
      var j := LessHas(a[1..], b[1..]);
      k := j + 1;
      DiffersLater(a, b, k);
    }
  }

  lemma {:induction false} HasLess(a: string, b: string, k: nat)
    requires FirstAt(a, b, k)
    ensures Less(a, b)
    decreases k
  {
    if k > 0 {
      assert a[..k][0] == b[..k][0];
      DiffersLater(a, b, k);
      HasLess(a[1..], b[1..], k - 1);
    }
  }

  /** Byte order: at the first difference the smaller byte, or nothing more, comes first. */
  lemma {:induction false} LessMeans(a: string, b: string)
    ensures Less(a, b) <==> exists k :: FirstAt(a, b, k)
  {
    hide Less, FirstAt;
    if Less(a, b) { var k := LessHas(a, b); }
    if k :| FirstAt(a, b, k) { FirstIsPlace(a, b, k); HasLess(a, b, k); }
  }

  lemma {:induction false} FirstIsPlace(a: string, b: string, k: int)
    ensures FirstAt(a, b, k) ==> k >= 0
  {
  }

  /** The texts agree up to k, where they differ or one ends. */
  predicate DiffersAt(a: string, b: string, k: int) {
    0 <= k <= |a| && k <= |b| && a[..k] == b[..k] && (k < |a| && k < |b| ==> a[k] != b[k])
  }

  /** There a has the smaller byte, or ends. */
  predicate FirstAt(a: string, b: string, k: int) {
    DiffersAt(a, b, k) && k < |b| && (k == |a| || a[k] < b[k])
  }

  lemma {:induction false} DiffersLater(a: string, b: string, k: int)
    requires a != "" && b != "" && a[0] == b[0] && k > 0
    ensures DiffersAt(a, b, k) <==> DiffersAt(a[1..], b[1..], k - 1)
  {
    if k <= |a| && k <= |b| {
      TakeFirst(a, k);
      TakeFirst(b, k);
      assert a[1..][..k - 1] == a[..k][1..] && b[1..][..k - 1] == b[..k][1..];
    }
  }

  lemma {:induction false} TakeFirst(s: string, k: nat)
    requires 0 < k <= |s|
    ensures s[..k] == [s[0]] + s[1..][..k - 1] && s[1..][..k - 1] == s[..k][1..]
  {
  }

  lemma {:induction false} LessTotal(a: string, b: string)
    ensures a == b || Less(a, b) || Less(b, a)
    ensures !(Less(a, b) && Less(b, a)) && !Less(a, a)
    decreases |a|
  {
    if a != "" {
      LessTotal(a[1..], a[1..]);
      if b != "" {
        LessTotal(a[1..], b[1..]);
        if a[0] == b[0] && a[1..] == b[1..] {
          assert a == [a[0]] + a[1..] && b == [b[0]] + b[1..];
        }
      }
    }
  }

  lemma {:induction false} LessTransitive(a: string, b: string, c: string)
    requires Less(a, b) && Less(b, c)
    ensures Less(a, c)
    decreases |b|
  {
    if a != "" && a[0] == b[0] && b[0] == c[0] {
      LessTransitive(a[1..], b[1..], c[1..]);
    }
  }

  lemma {:induction false} NotLessTransitive(a: string, b: string, c: string)
    ensures !Less(b, a) && !Less(c, b) ==> !Less(c, a)
  {
    LessTotal(a, b);
    LessTotal(b, c);
    LessTotal(a, c);
    if Less(a, b) && Less(b, c) { LessTransitive(a, b, c); }
  }
}
