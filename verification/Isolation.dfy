/** When one path rule keeps two stacks apart. */
module Isolation {
  import opened Strings
  import opened PathText
  import opened PathRules
  import Glob
  import Refs

  // checkRule aims at keeping them apart ("blog" never reads "blog-staging") but accepts
  // rules such as "*{stack}" that do not. What follows finds the exact condition, one
  // that can be read off the rule.

  /** The rule never lets two different stacks read one path. */
  ghost predicate KeepsStacksApart(rule: string) {
    forall a, b, path :: ValidStackID(a) && ValidStackID(b) && a != b ==>
      !(Covers(Subst(rule, a), path) && Covers(Subst(rule, b), path))
  }

  /** No two stacks share a path that a reference can name. */
  ghost predicate KeepsNamedPathsApart(rule: string) {
    forall a, b, path :: ValidStackID(a) && ValidStackID(b) && a != b && Refs.GoodPath(path) ==>
      !(Covers(Subst(rule, a), path) && Covers(Subst(rule, b), path))
  }

  // ---- the condition

  /** The first {stack} of the segment comes before any '*'. */
  predicate LeftAnchored(seg: string) {
    var i := IndexOf(seg, STACK);
    i < |seg| && '*' !in seg[..i]
  }

  /** What follows the last '*' of the segment (all of it when there is none). */
  function Tail(seg: string): string {
    seg[LastIndexByte(seg, '*') + 1..]
  }

  /** Position of the last {stack}, or -1. */
  function LastStack(s: string): (i: int)
    ensures i == -1 || StackAt(s, i)
    ensures forall k :: i < k ==> !StackAt(s, k)
  {
    if |s| < 7 then -1
    else if StackAt(s, |s| - 7) then |s| - 7
    else
      assert s == s[..|s| - 1] + s[|s| - 1..];
      assert forall k :: k <= |s| - 8 ==> (StackAt(s, k) <==> StackAt(s[..|s| - 1], k)) by {
        forall k | k <= |s| - 8 ensures StackAt(s, k) <==> StackAt(s[..|s| - 1], k) {
          StackAtAppend(s[..|s| - 1], s[|s| - 1..], k);
        }
      }
      LastStack(s[..|s| - 1])
  }

  predicate IdText(s: string) {
    forall i :: 0 <= i < |s| ==> IsIdChar(s[i])
  }

  /** After the last '*' there is a {stack}, and before the last one a character no id has. */
  predicate RightAnchored(seg: string) {
    var i := LastStack(Tail(seg));
    i >= 0 && !IdText(Tail(seg)[..i])
  }

  predicate Isolating(seg: string) {
    LeftAnchored(seg) || RightAnchored(seg)
  }

  /** A segment of the shape  ...*text{stack}...  where text could be part of an id. */
  predicate Floating(seg: string) {
    !Isolating(seg) && LastStack(Tail(seg)) >= 0
  }

  function FloatText(seg: string): string
    requires Floating(seg)
  {
    Tail(seg)[..LastStack(Tail(seg))]
  }

  predicate Comparable(x: string, y: string) {
    HasSuffix(x, y) || HasSuffix(y, x)
  }

  /** Readable off the rule: one segment is anchored, or two float on texts that cannot both end one id. */
  predicate IsolatesByShape(rule: string) {
    var segs := Split(rule, '/');
    || (exists i :: 0 <= i < |segs| && Isolating(segs[i]))
    || (exists i, j :: 0 <= i < |segs| && 0 <= j < |segs| && Floating(segs[i]) && Floating(segs[j])
                       && !Comparable(FloatText(segs[i]), FloatText(segs[j])))
  }

  // ---- texts and ids

  lemma {:induction false} IdHasNone(id: string)
    requires IdText(id)
    ensures '*' !in id && '/' !in id && '_' !in id && '{' !in id && '}' !in id
  {
  }

  /** The run of id characters at a given place is one text. */
  lemma {:induction false} SameRunForward(x: string, a: string, s: string, b: string, t: string)
    requires IdText(a) && IdText(b)
    requires (s == "" || !IsIdChar(s[0])) && (t == "" || !IsIdChar(t[0]))
    requires x + a + s == x + b + t
    ensures a == b
  {
    var whole := x + a + s;
    assert whole[|x|..] == a + s && whole[|x|..] == b + t;
    var rest := a + s;
    assert |a| < |rest| ==> rest[|a|] == s[0];
    assert |b| < |rest| ==> rest[|b|] == t[0];
    assert forall i :: 0 <= i < |a| ==> rest[i] == a[i];
    assert forall i :: 0 <= i < |b| ==> rest[i] == b[i];
    assert |a| == |b|;
    assert a == rest[..|a|] && b == rest[..|b|];
  }

  /** So is the run of id characters a text ends with. */
  lemma {:induction false} SameRunBackward(s: string, z: char, a: string, b: string)
    requires IdText(a) && IdText(b) && !IsIdChar(z)
    requires HasSuffix(s, [z] + a) && HasSuffix(s, [z] + b)
    ensures a == b
  {
    var i, j := |s| - |a| - 1, |s| - |b| - 1;
    assert s[i..] == [z] + a && s[j..] == [z] + b;
    assert s[i] == z && s[j] == z;
    assert forall k :: i < k < |s| ==> s[k] == s[i..][k - i];
    assert forall k :: j < k < |s| ==> s[k] == s[j..][k - j];
    assert i == j;
    assert a == s[i..][1..] && b == s[j..][1..];
  }

  lemma {:induction false} StackBraces(s: string, i: int)
    ensures StackAt(s, i) ==> 0 <= i <= |s| - 7 && s[i] == '{' && s[i + 6] == '}'
    ensures StackAt(s, i) ==> forall m :: i < m < i + 7 ==> s[m] != '{'
  {
    if StackAt(s, i) {
      var w := s[i..i + 7];
      forall m | i < m < i + 7 ensures s[m] != '{' {
        assert s[m] == w[m - i];
      }
      assert s[i] == w[0] && s[i + 6] == w[6];
    }
  }

  lemma {:induction false} NoOverlap(s: string, i: int, j: int)
    requires StackAt(s, i) && i - 7 < j < i + 7 && j != i
    ensures !StackAt(s, j)
  {
    StackBraces(s, i);
    StackBraces(s, j);
  }

  lemma {:induction false} IdTextHasNoStack(s: string)
    requires IdText(s)
    ensures !HasStack(s)
  {
    forall m ensures !StackAt(s, m) {
      StackBraces(s, m);
    }
  }

  lemma {:induction false} StackSplits(s: string, i: int)
    requires StackAt(s, i)
    ensures s == s[..i] + STACK + s[i + 7..]
    ensures s == s[..i] + (STACK + s[i + 7..])
  {
    assert s[i..] == s[i..i + 7] + s[i + 7..];
  }

  lemma {:induction false} SubstOfStack(q: string, put: string)
    ensures Subst(STACK + q, put) == put + Subst(q, put)
  {
    assert (STACK + q)[7..] == q && (STACK + q)[..7] == STACK;
  }

  lemma {:induction false} NothingAfterLast(s: string)
    requires LastStack(s) >= 0
    ensures !HasStack(s[LastStack(s) + 7..])
  {
    var i := LastStack(s);
    var u, q := s[..i + 7], s[i + 7..];
    assert s == u + q;
    forall k ensures !StackAt(q, k) {
      if k >= 0 { StackAtShift(u, q, k); }
    }
  }

  /** Substitution around an occurrence that is known to be the last one. */
  lemma {:induction false} SubstAtLast(s: string, put: string)
    requires LastStack(s) >= 0
    ensures var i := LastStack(s); Subst(s, put) == Subst(s[..i], put) + (put + s[i + 7..])
  {
    var i := LastStack(s);
    var u, q := s[..i], s[i + 7..];
    StackSplits(s, i);
    forall k | |u| - 7 < k < |u| ensures !StackAt(u + (STACK + q), k) {
      NoOverlap(s, i, k);
    }
    SubstConcat(u, STACK + q, put);
    SubstOfStack(q, put);
    NothingAfterLast(s);
    SubstNothing(q, put);
  }

  /** Substitution does not look across a character the placeholder does not have. */
  lemma {:induction false} SubstAcross(s: string, z: char, t: string, put: string)
    requires z !in STACK
    ensures Subst(s + ([z] + t), put) == Subst(s, put) + ([z] + Subst(t, put))
  {
    var whole := s + ([z] + t);
    forall k | |s| - 7 < k < |s| ensures !StackAt(whole, k) {
      if 0 <= k && k + 7 <= |whole| { assert whole[k..k + 7][|s| - k] == z; }
    }
    SubstConcat(s, [z] + t, put);
    assert !HasPrefix([z] + t, STACK) by { if |t| >= 6 { assert ([z] + t)[..7][0] == z; } }
    assert ([z] + t)[1..] == t;
  }

  lemma {:induction false} SubstStarFree(s: string, id: string)
    requires '*' !in s && IdText(id)
    ensures '*' !in Subst(s, id)
  {
    if '*' in Subst(s, id) { SubstChars(s, id, '*'); }
  }

  lemma {:induction false} SubstSlashFree(s: string, id: string)
    requires '/' !in s && IdText(id)
    ensures '/' !in Subst(s, id)
  {
    if '/' in Subst(s, id) { SubstChars(s, id, '/'); }
  }

  // ---- an anchored segment keeps two stacks apart

  lemma {:induction false} PostStarts(post: string, id: string)
    requires post == "" || post[0] == '_'
    ensures post == "" ==> Subst(post, id) == ""
    ensures post != "" ==> Subst(post, id) != "" && Subst(post, id)[0] == '_'
  {
  }

  /** What follows the first {stack}, with the id put in. */
  function AfterFirst(seg: string, id: string): string {
    var i := IndexOf(seg, STACK);
    if i + 7 <= |seg| then Subst(seg[i + 7..], id) else ""
  }

  /** seg is pre + {stack} + post with the id cut off by what follows it. */
  lemma {:induction false} LeftShape(seg: string, id: string)
    requires GoodSegment(seg) && LeftAnchored(seg)
    ensures Subst(seg, id) == seg[..IndexOf(seg, STACK)] + id + AfterFirst(seg, id)
    ensures AfterFirst(seg, id) == "" || AfterFirst(seg, id)[0] == '_'
  {
    var i := IndexOf(seg, STACK);
    PrefixIsStackAt(seg, i);
    NoneBefore(seg, i);
    var pre, post := seg[..i], seg[i + 7..];
    StackSplits(seg, i);
    SubstAround(pre, post, id);
    PostStarts(post, id);
  }

  lemma {:induction false} TailTextStarts(tail: string, rest: string)
    requires Glob.Matches(tail, rest) && (tail == "" || tail[0] == '_')
    ensures rest == "" || rest[0] == '_'
  {
  }

  lemma {:induction false} LeftMatched(seg: string, id: string, s: string) returns (rest: string)
    requires GoodSegment(seg) && LeftAnchored(seg) && IdText(id)
    requires Glob.Matches(Subst(seg, id), s)
    ensures s == seg[..IndexOf(seg, STACK)] + id + rest
    ensures rest == "" || rest[0] == '_'
  {
    LeftShape(seg, id);
    var tail := AfterFirst(seg, id);
    var lit := seg[..IndexOf(seg, STACK)] + id;
    IdHasNone(id);
    assert '*' !in lit;
    Glob.LiteralPrefix(lit, tail, s);
    rest := s[|lit|..];
    TailTextStarts(tail, rest);
    assert s == s[..|lit|] + s[|lit|..];
  }

  lemma {:induction false} LastForeign(s: string) returns (k: nat)
    requires !IdText(s)
    ensures k < |s| && !IsIdChar(s[k]) && IdText(s[k + 1..])
  {
    if !IsIdChar(s[|s| - 1]) {
      k := |s| - 1;
    } else {
      var t := s[..|s| - 1];
      assert s == t + [s[|s| - 1]];
      k := LastForeign(t);
      assert s[k + 1..] == t[k + 1..] + [s[|s| - 1]];
    }
  }

  /** The last foreign character before a {stack} is not one of the placeholder's own. */
  lemma {:induction false} IdOrBrace(c: char)
    ensures c in STACK && !IsIdChar(c) ==> c == '{' || c == '}'
  {
  }

  lemma {:induction false} SliceAt(s: string, n: nat)
    requires n <= |s|
    ensures |s[n..]| == |s| - n && s == s[..n] + s[n..]
    ensures n > 0 ==> s == s[..n - 1] + ([s[n - 1]] + s[n..])
    ensures forall c: char :: c in s[n..] ==> exists m :: n <= m < |s| && s[m] == c
  {
  }

  lemma {:induction false} TailCut(seg: string)
    ensures '*' !in Tail(seg)
    ensures var k := LastIndexByte(seg, '*'); k < 0 ==> Tail(seg) == seg
    ensures var k := LastIndexByte(seg, '*'); k >= 0 ==> seg == seg[..k] + (['*'] + Tail(seg))
    ensures seg == seg[..|seg| - |Tail(seg)|] + Tail(seg)
  {
    hide LastIndexByte;
    SliceAt(seg, LastIndexByte(seg, '*') + 1);
  }

  /** What follows the last '*', with the id put in, ends every text the segment matches. */
  lemma {:induction false} SuffixMatched(seg: string, id: string, s: string)
    requires IdText(id) && Glob.Matches(Subst(seg, id), s)
    ensures HasSuffix(s, Subst(Tail(seg), id))
  {
    hide Subst, Glob.Matches;
    var k := LastIndexByte(seg, '*');
    var r := Tail(seg);
    TailCut(seg);
    SubstStarFree(r, id);
    if k < 0 {
      Glob.LiteralMatches(Subst(seg, id), s);
    } else {
      SubstAcross(seg[..k], '*', r, id);
      MatchedEnd(Subst(seg[..k], id), Subst(r, id), s);
    }
  }

  lemma {:induction false} MatchedEnd(p: string, lit: string, s: string)
    requires '*' !in lit && Glob.Matches(p + (['*'] + lit), s)
    ensures HasSuffix(s, lit)
  {
    assert p + (['*'] + lit) == (p + ['*']) + lit;
    Glob.LiteralSuffix(p + ['*'], lit, s);
  }

  lemma {:induction false} Shifted(p: string, r: string, k: nat, i: nat)
    requires k < i <= |r|
    ensures (p + r)[|p| + k] == r[k] && (p + r)[|p| + k + 1..|p| + i] == r[k + 1..i]
  {
  }

  /** The last foreign character before the last {stack} of an anchored tail. */
  lemma {:induction false} RightShape(seg: string) returns (k: nat)
    requires GoodSegment(seg) && RightAnchored(seg)
    ensures var r, i := Tail(seg), LastStack(Tail(seg));
            k < i && !IsIdChar(r[k]) && r[k] !in STACK && IdText(r[k + 1..i])
  {
    TailCut(seg);
    k := ForeignIn(seg, seg[..|seg| - |Tail(seg)|], Tail(seg), LastStack(Tail(seg)));
  }

  lemma {:induction false} ForeignIn(seg: string, p: string, r: string, i: int) returns (k: nat)
    requires GoodSegment(seg) && seg == p + r && StackAt(r, i) && !IdText(r[..i])
    ensures k < i && !IsIdChar(r[k]) && r[k] !in STACK && IdText(r[k + 1..i])
  {
    hide StackAt, PlainChars;
    StackBraces(r, i);
    k := LastForeign(r[..i]);
    assert r[..i][k + 1..] == r[k + 1..i];
    StackAtShift(p, r, i);
    Shifted(p, r, k, i);
    var at, n := |p| + k, |p| + i;
    StackBraces(seg, n);
    StackBraces(seg, at);
    StackBraces(seg, at - 6);
    IdOrBrace(r[k]);
    assert forall m :: at < m < n ==> seg[m] == r[k + 1..i][m - at - 1];
    assert seg[at] == '}' ==> StackAt(seg, at - 6);
    assert seg[at] == '{' ==> StackAt(seg, at);
  }

  lemma {:induction false} RightSubst(r: string, k: nat, id: string)
    requires LastStack(r) > k && r[k] !in STACK && IdText(r[k + 1..LastStack(r)])
    ensures var i := LastStack(r);
            HasSuffix(Subst(r, id), [r[k]] + (r[k + 1..i] + id) + r[i + 7..])
  {
    hide Subst, LastStack;
    var i := LastStack(r);
    SubstAtLast(r, id);
    SubstBefore(r[..i], k, id);
    assert r[..i][k + 1..] == r[k + 1..i];
    Regroup(Subst(r[..k], id), [r[k]], r[k + 1..i], id, r[i + 7..]);
  }

  lemma {:induction false} SubstBefore(h: string, k: nat, id: string)
    requires k < |h| && h[k] !in STACK && IdText(h[k + 1..])
    ensures Subst(h, id) == Subst(h[..k], id) + ([h[k]] + h[k + 1..])
  {
    var z, u := h[k], h[k + 1..];
    assert h == h[..k] + ([z] + u);
    SubstAcross(h[..k], z, u, id);
    IdTextHasNoStack(u);
    SubstNothing(u, id);
  }

  lemma {:induction false} Regroup(x: string, z: string, u: string, id: string, q: string)
    ensures HasSuffix((x + (z + u)) + (id + q), z + (u + id) + q)
  {
    assert (x + (z + u)) + (id + q) == x + (z + (u + id) + q);
  }

  lemma {:induction false} RightMatched(seg: string, k: nat, id: string, s: string)
    requires LastStack(Tail(seg)) > k && Tail(seg)[k] !in STACK && IdText(Tail(seg)[k + 1..LastStack(Tail(seg))])
    requires IdText(id) && Glob.Matches(Subst(seg, id), s)
    ensures var r, i := Tail(seg), LastStack(Tail(seg));
            |r[i + 7..]| <= |s| && HasSuffix(s[..|s| - |r[i + 7..]|], [r[k]] + (r[k + 1..i] + id))
  {
    hide Subst, Glob.Matches, LastStack, Tail, IdText;
    var r, i := Tail(seg), LastStack(Tail(seg));
    SuffixMatched(seg, id, s);
    RightSubst(r, k, id);
    var end := [r[k]] + (r[k + 1..i] + id);
    SuffixTrans(s, Subst(r, id), end + r[i + 7..]);
    SuffixStrip(s, end, r[i + 7..]);
  }

  lemma {:induction false} AnchoredSeparates(seg: string, a: string, b: string, s: string)
    requires GoodSegment(seg) && Isolating(seg) && IdText(a) && IdText(b)
    requires Glob.Matches(Subst(seg, a), s) && Glob.Matches(Subst(seg, b), s)
    ensures a == b
  {
    if LeftAnchored(seg) {
      var ta := LeftMatched(seg, a, s);
      var tb := LeftMatched(seg, b, s);
      SameRunForward(seg[..IndexOf(seg, STACK)], a, ta, b, tb);
    } else {
      RightSeparates(seg, a, b, s);
    }
  }

  lemma {:induction false} RightSeparates(seg: string, a: string, b: string, s: string)
    requires GoodSegment(seg) && RightAnchored(seg) && IdText(a) && IdText(b)
    requires Glob.Matches(Subst(seg, a), s) && Glob.Matches(Subst(seg, b), s)
    ensures a == b
  {
    hide Subst, Glob.Matches, LastStack, Tail, IdText, GoodSegment, RightAnchored;
    var k := RightShape(seg);
    RightMatched(seg, k, a, s);
    RightMatched(seg, k, b, s);
    var r, i := Tail(seg), LastStack(Tail(seg));
    SameAfter(s[..|s| - |r[i + 7..]|], r[k], r[k + 1..i], a, b);
  }

  lemma {:induction false} SameAfter(s: string, z: char, u: string, a: string, b: string)
    requires IdText(u) && IdText(a) && IdText(b) && !IsIdChar(z)
    requires HasSuffix(s, [z] + (u + a)) && HasSuffix(s, [z] + (u + b))
    ensures a == b
  {
    SameRunBackward(s, z, u + a, u + b);
    assert (u + a)[|u|..] == a && (u + b)[|u|..] == b;
  }

  // ---- two floating segments

  lemma {:induction false} FloatSubst(seg: string, id: string)
    requires Floating(seg)
    ensures var r := Tail(seg); Subst(r, id) == FloatText(seg) + id + r[LastStack(r) + 7..]
  {
    var r := Tail(seg);
    SubstAtLast(r, id);
    IdTextHasNoStack(FloatText(seg));
    SubstNothing(FloatText(seg), id);
  }

  /** q before a and q before a longer b end the same text: q survives what b has more. */
  lemma {:induction false} LongerId(s: string, q: string, a: string, b: string)
    requires HasSuffix(s, q + a) && HasSuffix(s, q + b) && |a| <= |b|
    ensures var c := b[..|b| - |a|]; b == c + a && HasSuffix(q + c, q)
  {
    SuffixOfLonger(s, q + a, q + b);
    var c := b[..|b| - |a|];
    assert (q + b)[|q + b| - |a|..] == (q + a)[|q|..];
    assert b == c + a;
    assert q + b == (q + c) + a;
    SuffixStrip((q + c) + a, q, a);
    assert ((q + c) + a)[..|q + c|] == q + c;
  }

  /** A floating segment matched for both ids: its text survives what the longer id has more. */
  lemma {:induction false} FloatCase(seg: string, a: string, b: string, s: string)
    requires Floating(seg) && IdText(a) && IdText(b) && |a| <= |b|
    requires Glob.Matches(Subst(seg, a), s) && Glob.Matches(Subst(seg, b), s)
    ensures var c := b[..|b| - |a|]; b == c + a && HasSuffix(FloatText(seg) + c, FloatText(seg))
  {
    var r := Tail(seg);
    var t := r[LastStack(r) + 7..];
    FloatSubst(seg, a);
    FloatSubst(seg, b);
    SuffixMatched(seg, a, s);
    SuffixMatched(seg, b, s);
    SuffixStrip(s, FloatText(seg) + a, t);
    SuffixStrip(s, FloatText(seg) + b, t);
    LongerId(s[..|s| - |t|], FloatText(seg), a, b);
  }

  function Times(c: string, n: nat): string {
    if n == 0 then "" else Times(c, n - 1) + c
  }

  lemma {:induction false} RepeatStep(q: string, c: string)
    requires HasSuffix(q + c, q) && |c| < |q|
    ensures var p := q[..|q| - |c|]; q == p + c && HasSuffix(p + c, p)
  {
    var p := q[..|q| - |c|];
    assert (q + c)[|q + c| - |q|..] == q[|c|..] + c;
    assert q == q[|c|..] + c;
    assert p == (q[|c|..] + c)[..|q| - |c|] == q[|c|..];
  }

  lemma {:induction false} RepeatEnd(q: string, c: string)
    requires HasSuffix(q + c, q) && |q| <= |c|
    ensures HasSuffix(c, q)
  {
    assert (q + c)[|q + c| - |q|..] == c[|c| - |q|..];
  }

  /** A text that survives having c appended is the end of a repetition of c. */
  lemma {:induction false} Repeats(q: string, c: string, n: nat)
    requires c != "" && HasSuffix(q + c, q) && n >= |q| && n > 0
    ensures HasSuffix(Times(c, n), q)
    decreases |q|
  {
    if |q| <= |c| {
      RepeatEnd(q, c);
      SuffixLead(Times(c, n - 1), c, q);
    } else {
      RepeatStep(q, c);
      Repeats(q[..|q| - |c|], c, n - 1);
      SuffixAppend(Times(c, n - 1), q[..|q| - |c|], c);
    }
  }

  /** Two texts that both survive the same ending end alike. */
  lemma {:induction false} SurvivorsComparable(x: string, y: string, c: string)
    requires c != "" && HasSuffix(x + c, x) && HasSuffix(y + c, y)
    ensures Comparable(x, y)
  {
    var n := |x| + |y| + 1;
    Repeats(x, c, n);
    Repeats(y, c, n);
    if |x| <= |y| { SuffixOfLonger(Times(c, n), x, y); } else { SuffixOfLonger(Times(c, n), y, x); }
  }

  // ---- without the condition, two stacks share a path

  /** A text the pattern matches: 'a' for each '*'. */
  function Fill(p: string): (s: string)
    ensures |s| == |p| && forall i :: 0 <= i < |p| ==> s[i] == if p[i] == '*' then 'a' else p[i]
  {
    seq(|p|, i requires 0 <= i < |p| => if p[i] == '*' then 'a' else p[i])
  }

  lemma {:induction false} FillMatches(p: string)
    ensures Glob.Matches(p, Fill(p))
  {
    if p != "" {
      FillMatches(p[1..]);
      assert Fill(p)[1..] == Fill(p[1..]);
      if p[0] == '*' {
        Glob.StarTakes(p[1..], [Fill(p)[0]], Fill(p[1..]));
        assert ['*'] + p[1..] == p && [Fill(p)[0]] + Fill(p[1..]) == Fill(p);
      }
    }
  }

  lemma {:induction false} FillSuffix(p: string, lit: string)
    requires HasSuffix(p, lit) && '*' !in lit
    ensures HasSuffix(Fill(p), lit)
  {
    var k := |p| - |lit|;
    forall i | 0 <= i < |lit| ensures Fill(p)[k..][i] == lit[i] {
      assert p[k + i] == p[k..][i] == lit[i];
      assert lit[i] in lit;
    }
  }

  lemma {:induction false} NoStackInPart(s: string, i: int, f: int)
    requires 0 <= f <= |s| && f <= i && forall k :: 0 <= k < i ==> !StackAt(s, k)
    ensures !HasStack(s[..f])
  {
    assert s == s[..f] + s[f..];
    forall k ensures !StackAt(s[..f], k) {
      if k <= |s[..f]| - 7 { StackAtAppend(s[..f], s[f..], k); }
    }
  }

  lemma {:induction false} IndexBefore(s: string, c: char, i: nat)
    requires i <= |s| && c in s[..i]
    ensures IndexByte(s, c) < i
  {
    var k :| 0 <= k < i && s[..i][k] == c;
    assert s[k] == c;
  }

  /** A segment that is not anchored, cut at its first '*'. */
  lemma {:induction false} FirstStar(seg: string) returns (f: nat)
    requires !LeftAnchored(seg) && HasStack(seg)
    ensures f < |seg| && seg[f] == '*' && !HasStack(seg[..f])
    ensures seg == seg[..f] + (['*'] + seg[f + 1..])
  {
    hide IndexOf, IndexByte, StackAt;
    var i := IndexOf(seg, STACK);
    NoneBefore(seg, i);
    assert i < |seg|;
    IndexBefore(seg, '*', i);
    f := IndexByte(seg, '*');
    NoStackInPart(seg, i, f);
  }

  lemma {:induction false} LongTail(q: string, more: string, t: string)
    requires HasSuffix(more, q)
    ensures HasSuffix(q + ("a" + more + "a") + t, q + "a" + t)
  {
    SuffixAppend(more, q, "a");
    SuffixLead(q + "a", more + "a", q + "a");
    SuffixAppend((q + "a") + (more + "a"), q + "a", t);
    assert (q + "a") + (more + "a") == q + ("a" + more + "a");
  }

  /** The end of the segment for the short id ends the one for the long id. */
  lemma {:induction false} TailsComparable(seg: string, more: string)
    requires !Isolating(seg)
    requires Floating(seg) ==> HasSuffix(more, FloatText(seg))
    ensures HasSuffix(Subst(Tail(seg), "a" + more + "a"), Subst(Tail(seg), "a"))
  {
    var r := Tail(seg);
    if LastStack(r) < 0 {
      assert !HasStack(r);
      SubstNothing(r, "a");
      SubstNothing(r, "a" + more + "a");
    } else {
      FloatSubst(seg, "a");
      FloatSubst(seg, "a" + more + "a");
      LongTail(FloatText(seg), more, r[LastStack(r) + 7..]);
    }
  }

  /** head*rest, where the '*' takes extra and the rest matches its own filling. */
  lemma {:induction false} LongSide(head: string, rest: string, extra: string)
    ensures Glob.Matches(head + (['*'] + rest), Fill(head) + (extra + Fill(rest)))
  {
    FillMatches(head);
    FillMatches(rest);
    Glob.StarTakes(rest, extra, Fill(rest));
    Glob.MatchConcat(head, ['*'] + rest, Fill(head), extra + Fill(rest));
  }

  lemma {:induction false} StarEnds(end: string, f: string)
    requires '*' !in end && HasSuffix(f, end)
    ensures Glob.Matches(['*'] + end, f)
  {
    Glob.LiteralMatches(end, end);
    Glob.StarTakes(end, f[..|f| - |end|], end);
    assert f == f[..|f| - |end|] + end;
  }

  /** head*mid*end, where the second '*' takes everything up to the common end. */
  lemma {:induction false} ShortSide(head: string, mid: string, end: string, f: string)
    requires '*' !in end && HasSuffix(f, end)
    ensures Glob.Matches(head + (['*'] + (mid + (['*'] + end))), Fill(head) + (Fill(mid) + f))
  {
    FillMatches(head);
    FillMatches(mid);
    StarEnds(end, f);
    Glob.MatchConcat(mid, ['*'] + end, Fill(mid), f);
    Glob.StarTakes(mid + (['*'] + end), "", Fill(mid) + f);
    assert "" + (Fill(mid) + f) == Fill(mid) + f;
    Glob.MatchConcat(head, ['*'] + (mid + (['*'] + end)), Fill(head), Fill(mid) + f);
  }

  /** head*end: the only '*' takes everything up to the common end. */
  lemma {:induction false} ShortSideOneStar(head: string, end: string, f: string)
    requires '*' !in end && HasSuffix(f, end)
    ensures Glob.Matches(head + (['*'] + end), Fill(head) + f)
  {
    FillMatches(head);
    StarEnds(end, f);
    Glob.MatchConcat(head, ['*'] + end, Fill(head), f);
  }

  ghost predicate SharedBy(seg: string, a: string, b: string, s: string) {
    '/' !in s && Glob.Matches(Subst(seg, a), s) && Glob.Matches(Subst(seg, b), s)
  }

  lemma {:induction false} SubstHeadStar(seg: string, f: nat, id: string)
    requires f < |seg| && seg[f] == '*' && !HasStack(seg[..f])
    ensures Subst(seg, id) == seg[..f] + (['*'] + Subst(seg[f + 1..], id))
  {
    assert seg == seg[..f] + (['*'] + seg[f + 1..]);
    SubstAcross(seg[..f], '*', seg[f + 1..], id);
    SubstNothing(seg[..f], id);
  }

  lemma {:induction false} SharedOneStar(seg: string, f: nat, a: string, b: string) returns (s: string)
    requires f < |seg| && seg[f] == '*' && !HasStack(seg[..f]) && '/' !in seg && IdText(a) && IdText(b)
    requires '*' !in seg[f + 1..]
    requires HasSuffix(Subst(seg[f + 1..], b), Subst(seg[f + 1..], a))
    ensures SharedBy(seg, a, b, s)
  {
    var r := seg[f + 1..];
    SubstHeadStar(seg, f, a);
    SubstHeadStar(seg, f, b);
    SubstStarFree(r, a);
    SubstStarFree(r, b);
    SubstSlashFree(r, b);
    var end := Fill(Subst(r, b));
    FillSuffix(Subst(r, b), Subst(r, a));
    s := Fill(seg[..f]) + end;
    ShortSideOneStar(seg[..f], Subst(r, a), end);
    LongSide(seg[..f], Subst(r, b), "");
    assert "" + end == end;
  }

  lemma {:induction false} SharedTwoStars(seg: string, f: nat, k: nat, a: string, b: string) returns (s: string)
    requires f < k < |seg| && seg[f] == '*' && seg[k] == '*' && !HasStack(seg[..f]) && '/' !in seg
    requires IdText(a) && IdText(b) && '*' !in seg[k + 1..]
    requires HasSuffix(Subst(seg[k + 1..], b), Subst(seg[k + 1..], a))
    ensures SharedBy(seg, a, b, s)
  {
    var head, mid, r := seg[..f], seg[f + 1..k], seg[k + 1..];
    TwoStars(seg, f, k, a);
    TwoStars(seg, f, k, b);
    SubstStarFree(r, a);
    SubstSlashFree(mid, a);
    SubstSlashFree(mid, b);
    SubstSlashFree(r, b);
    s := SharedTwoEnds(head, Subst(mid, a), Subst(r, a), Subst(mid, b), Subst(r, b));
  }

  lemma {:induction false} TwoStars(seg: string, f: nat, k: nat, id: string)
    requires f < k < |seg| && seg[f] == '*' && seg[k] == '*' && !HasStack(seg[..f])
    ensures Subst(seg, id) == seg[..f] + (['*'] + (Subst(seg[f + 1..k], id) + (['*'] + Subst(seg[k + 1..], id))))
  {
    SubstHeadStar(seg, f, id);
    assert seg[f + 1..] == seg[f + 1..k] + (['*'] + seg[k + 1..]);
    SubstAcross(seg[f + 1..k], '*', seg[k + 1..], id);
  }

  /** head*midA*endA and head*midB*endB share a text as soon as endA ends endB. */
  lemma {:induction false} SharedTwoEnds(head: string, midA: string, endA: string, midB: string, endB: string)
        returns (s: string)
    requires HasSuffix(endB, endA) && '*' !in endA
    requires '/' !in head && '/' !in midA && '/' !in midB && '/' !in endB
    ensures '/' !in s
    ensures Glob.Matches(head + (['*'] + (midA + (['*'] + endA))), s)
    ensures Glob.Matches(head + (['*'] + (midB + (['*'] + endB))), s)
  {
    var long := midB + (['*'] + endB);
    SuffixLead(['*'], endB, endA);
    SuffixLead(midB, ['*'] + endB, endA);
    FillSuffix(long, endA);
    s := Fill(head) + (Fill(midA) + Fill(long));
    ShortSide(head, midA, endA, Fill(long));
    LongSide(head, long, Fill(midA));
  }

  lemma {:induction false} LongId(more: string)
    requires IdText(more)
    ensures ValidStackID("a") && ValidStackID("a" + more + "a") && "a" != "a" + more + "a"
  {
  }

  lemma {:induction false} SharedSegment(seg: string, more: string) returns (s: string)
    requires !Isolating(seg) && IdText(more) && '/' !in seg
    requires Floating(seg) ==> HasSuffix(more, FloatText(seg))
    ensures SharedBy(seg, "a", "a" + more + "a", s)
  {
    hide Subst, Glob.Matches, HasStack, Fill, IdText, Floating, FloatText, IndexOf, LastStack;
    var a, b := "a", "a" + more + "a";
    LongId(more);
    if !HasStack(seg) {
      SubstNothing(seg, a);
      SubstNothing(seg, b);
      s := Fill(seg);
      FillMatches(seg);
    } else {
      var f := FirstStar(seg);
      TailsComparable(seg, more);
      TailCut(seg);
      var k := LastIndexByte(seg, '*');
      if k == f {
        s := SharedOneStar(seg, f, a, b);
      } else {
        s := SharedTwoStars(seg, f, k, a, b);
      }
    }
  }

  // ---- a shared text that can stand in a path

  predicate Plain(c: char) {
    CharProblemOf(c).None? && c != '{' && c != '}'
  }

  ghost predicate Nameable(s: string) {
    Refs.PlainSegment(s) && forall c :: c in s ==> Plain(c)
  }

  /** The text with an 'a' for every character no path has. */
  function Cleaned(s: string): (r: string)
    ensures |r| == |s| && forall i :: 0 <= i < |s| ==> r[i] == if Plain(s[i]) then s[i] else 'a'
  {
    seq(|s|, i requires 0 <= i < |s| => if Plain(s[i]) then s[i] else 'a')
  }

  lemma {:induction false} CleanedMatches(p: string, s: string)
    requires Glob.Matches(p, s) && forall c :: c in p ==> c == '*' || Plain(c)
    ensures Glob.Matches(p, Cleaned(s))
    decreases |p|, |s|
  {
    if p != "" {
      if s != "" { assert Cleaned(s)[1..] == Cleaned(s[1..]); }
      if p[0] == '*' {
        if Glob.Matches(p[1..], s) { CleanedMatches(p[1..], s); } else { CleanedMatches(p, s[1..]); }
      } else {
        CleanedMatches(p[1..], s[1..]);
      }
    }
  }

  lemma {:induction false} LiteralIsKept(p: string, s: string, c: char)
    requires Glob.Matches(p, s) && c in p && c != '*'
    ensures c in s
    decreases |p|, |s|
  {
    if p[0] == '*' {
      if Glob.Matches(p[1..], s) { LiteralIsKept(p[1..], s, c); } else { LiteralIsKept(p, s[1..], c); }
    } else if p[0] != c {
      LiteralIsKept(p[1..], s[1..], c);
    }
  }

  lemma {:induction false} ExpandedIsPlain(seg: string, id: string)
    requires GoodSegment(seg) && ValidStackID(id)
    ensures forall c :: c in Subst(seg, id) ==> c == '*' || Plain(c)
  {
    IdHasNone(id);
    BracesExact(seg, id);
    forall c | c in Subst(seg, id) ensures c == '*' || Plain(c) {
      SubstChars(seg, id, c);
    }
  }

  lemma {:induction false} HasA(s: string)
    requires 'a' in s
    ensures Refs.PlainSegment(s)
  {
  }

  /** With a {stack} in the segment, the shared text holds the short id. */
  lemma {:induction false} NamedWithStack(seg: string, b: string, s: string) returns (t: string)
    requires GoodSegment(seg) && HasStack(seg) && ValidStackID(b) && SharedBy(seg, "a", b, s)
    ensures SharedBy(seg, "a", b, t) && Nameable(t)
  {
    hide HasStack, GoodSegment, Glob.Matches;
    t := Cleaned(s);
    ExpandedIsPlain(seg, "a");
    ExpandedIsPlain(seg, b);
    CleanedMatches(Subst(seg, "a"), s);
    CleanedMatches(Subst(seg, b), s);
    Refs.SubstHoldsID(seg, "a");
    LiteralIsKept(Subst(seg, "a"), t, 'a');
    HasA(t);
  }

  lemma {:induction false} FilledIsNameable(seg: string)
    requires Refs.PlainSegment(seg) && (forall c :: c in seg ==> c == '*' || Plain(c)) && '/' !in seg
    ensures Nameable(Fill(seg)) && '/' !in Fill(seg)
  {
    var t := Fill(seg);
    forall c | c in t ensures Plain(c) && c != '/' {
      var i :| 0 <= i < |t| && t[i] == c;
      assert seg[i] in seg;
    }
    if '*' in seg {
      var i :| 0 <= i < |seg| && seg[i] == '*';
      assert t[i] == 'a';
      HasA(t);
    } else {
      assert t == seg;
    }
  }

  lemma {:induction false} NamedWithout(seg: string, b: string) returns (t: string)
    requires GoodSegment(seg) && !HasStack(seg) && '/' !in seg
    ensures SharedBy(seg, "a", b, t) && Nameable(t)
  {
    assert Refs.PlainSegment(seg);
    hide GoodSegment, Nameable, Refs.PlainSegment, Subst, Glob.Matches, HasStack, Fill, Plain;
    SubstNothing(seg, "a");
    SubstNothing(seg, b);
    ExpandedIsPlain(seg, "a");
    FilledIsNameable(seg);
    FillMatches(seg);
    t := Fill(seg);
  }

  lemma {:induction false} JoinChars(texts: seq<string>, c: char)
    requires |texts| >= 1 && c in Join(texts, '/')
    ensures c == '/' || exists i :: 0 <= i < |texts| && c in texts[i]
    decreases |texts|
  {
    if |texts| > 1 && c !in texts[0] && c != '/' {
      JoinChars(texts[1..], c);
      var i :| 0 <= i < |texts[1..]| && c in texts[1..][i];
      assert texts[i + 1] == texts[1..][i];
    }
  }

  lemma {:induction false} JoinedIsGood(texts: seq<string>)
    requires |texts| >= 1 && (forall i :: 0 <= i < |texts| ==> Nameable(texts[i]))
        && Split(Join(texts, '/'), '/') == texts
    ensures Refs.GoodPath(Join(texts, '/'))
  {
    hide Join, Split;
    var path := Join(texts, '/');
    forall c | c in path ensures Plain(c) {
      JoinChars(texts, c);
    }
    forall i | 0 <= i < |path| ensures Plain(path[i]) {
      assert path[i] in path;
    }
  }

  function LongestFloat(segs: seq<string>): string {
    if segs == [] then ""
    else
      var rest := LongestFloat(segs[1..]);
      if Floating(segs[0]) && |FloatText(segs[0])| > |rest| then FloatText(segs[0]) else rest
  }

  ghost predicate FloatsAgree(segs: seq<string>) {
    forall i, j :: 0 <= i < |segs| && 0 <= j < |segs| && Floating(segs[i]) && Floating(segs[j])
      ==> Comparable(FloatText(segs[i]), FloatText(segs[j]))
  }

  lemma {:induction false} LongestIsOne(segs: seq<string>)
    ensures IdText(LongestFloat(segs))
    ensures LongestFloat(segs) == ""
        || exists i :: 0 <= i < |segs| && Floating(segs[i]) && FloatText(segs[i]) == LongestFloat(segs)
    ensures forall i :: 0 <= i < |segs| && Floating(segs[i]) ==> |FloatText(segs[i])| <= |LongestFloat(segs)|
  {
    if segs != [] {
      var rest := segs[1..];
      assert forall i :: 0 <= i < |rest| ==> rest[i] == segs[i + 1];
      LongestIsOne(rest);
      if LongestFloat(rest) != "" {
        var m :| 0 <= m < |rest| && Floating(rest[m]) && FloatText(rest[m]) == LongestFloat(rest);
        assert segs[m + 1] == rest[m];
      }
      forall i | 0 <= i < |segs| && Floating(segs[i]) ensures |FloatText(segs[i])| <= |LongestFloat(segs)| {
        if i > 0 { assert rest[i - 1] == segs[i]; }
      }
    }
  }

  lemma {:induction false} LongestCovers(segs: seq<string>, i: nat)
    requires FloatsAgree(segs) && i < |segs| && Floating(segs[i])
    ensures HasSuffix(LongestFloat(segs), FloatText(segs[i]))
  {
    LongestIsOne(segs);
    var x, q := FloatText(segs[i]), LongestFloat(segs);
    if q != "" {
      var m :| 0 <= m < |segs| && Floating(segs[m]) && FloatText(segs[m]) == q;
      assert Comparable(x, q);
    }
  }

  /** Two stack ids and one path both may read, for a rule without the condition; for an
      accepted rule, a path that a reference can name. */
  lemma {:induction false} SharedPath(rule: string) returns (a: string, b: string, path: string)
    requires !IsolatesByShape(rule)
    ensures ValidStackID(a) && ValidStackID(b) && a != b
    ensures Covers(Subst(rule, a), path) && Covers(Subst(rule, b), path)
    ensures GoodRule(rule) ==> Refs.GoodPath(path)
  {
    hide IsolatesByShape, IdText, Nameable, GoodSegment, Subst, Floating, Isolating, Join;
    var segs := Split(rule, '/');
    ShapeFails(rule);
    LongestIsOne(segs);
    var more := LongestFloat(segs);
    LongId(more);
    a, b := "a", "a" + more + "a";
    AllSharable(segs);
    var texts := SharedTexts(segs, more);
    path := Join(texts, '/');
    SplitOfJoin(texts, '/');
    CoveredBySegments(rule, a, texts);
    CoveredBySegments(rule, b, texts);
    if GoodRule(rule) { JoinedIsGood(texts); }
  }

  lemma {:induction false} ShapeFails(rule: string)
    requires !IsolatesByShape(rule)
    ensures FloatsAgree(Split(rule, '/')) && NoneIsolating(Split(rule, '/'))
  {
  }

  ghost predicate NoneIsolating(segs: seq<string>) {
    forall i :: 0 <= i < |segs| ==> !Isolating(segs[i])
  }

  /** One text serves both ids in this segment. */
  ghost predicate Sharable(seg: string, more: string) {
    !Isolating(seg) && '/' !in seg && (Floating(seg) ==> HasSuffix(more, FloatText(seg)))
  }

  lemma {:induction false} SharedTexts(segs: seq<string>, more: string) returns (texts: seq<string>)
    requires IdText(more) && forall i :: 0 <= i < |segs| ==> Sharable(segs[i], more)
    ensures |texts| == |segs|
    ensures forall i :: 0 <= i < |texts| ==>
        SharedBy(segs[i], "a", "a" + more + "a", texts[i]) && (GoodSegment(segs[i]) ==> Nameable(texts[i]))
    decreases |segs|
  {
    hide IdText, SharedBy, Sharable, Nameable, GoodSegment;
    texts := [];
    if segs != [] {
      var n := |segs| - 1;
      var front := segs[..n];
      assert forall i :: 0 <= i < n ==> front[i] == segs[i];
      var rest := SharedTexts(front, more);
      var s := SharedLast(segs[n], more);
      texts := rest + [s];
    }
  }

  lemma {:induction false} SharedLast(seg: string, more: string) returns (s: string)
    requires IdText(more) && Sharable(seg, more)
    ensures SharedBy(seg, "a", "a" + more + "a", s) && (GoodSegment(seg) ==> Nameable(s))
  {
    hide SharedBy, GoodSegment, Nameable, HasStack, Subst, IdText;
    s := SharedSegment(seg, more);
    LongId(more);
    if GoodSegment(seg) && HasStack(seg) {
      s := NamedWithStack(seg, "a" + more + "a", s);
    } else if GoodSegment(seg) {
      s := NamedWithout(seg, "a" + more + "a");
    }
  }

  lemma {:induction false} AllSharable(segs: seq<string>)
    requires FloatsAgree(segs) && NoneIsolating(segs) && forall i :: 0 <= i < |segs| ==> '/' !in segs[i]
    ensures forall i :: 0 <= i < |segs| ==> Sharable(segs[i], LongestFloat(segs))
  {
    forall i | 0 <= i < |segs| ensures Sharable(segs[i], LongestFloat(segs)) {
      if Floating(segs[i]) { LongestCovers(segs, i); }
    }
  }

  lemma {:induction false} CoveredBySegments(rule: string, id: string, texts: seq<string>)
    requires ValidStackID(id) && |texts| == |Split(rule, '/')| && Split(Join(texts, '/'), '/') == texts
    requires forall i :: 0 <= i < |texts| ==> Glob.Matches(Subst(Split(rule, '/')[i], id), texts[i])
    ensures Covers(Subst(rule, id), Join(texts, '/'))
  {
    IdHasNone(id);
    SplitOfSubst(rule, id);
  }

  // ---- the exact condition

  lemma {:induction false} SegmentMatched(rule: string, id: string, path: string, i: nat)
    requires ValidStackID(id) && Covers(Subst(rule, id), path) && i < |Split(rule, '/')|
    ensures i < |Split(path, '/')| && Glob.Matches(Subst(Split(rule, '/')[i], id), Split(path, '/')[i])
  {
    IdHasNone(id);
    SplitOfSubst(rule, id);
  }

  lemma {:induction false} IsolatedSeparates(rule: string, a: string, b: string, path: string, i: nat)
    requires GoodRule(rule) && ValidStackID(a) && ValidStackID(b) && |a| <= |b|
    requires Covers(Subst(rule, a), path) && Covers(Subst(rule, b), path)
    requires i < |Split(rule, '/')| && Isolating(Split(rule, '/')[i])
    ensures a == b
  {
    SegmentMatched(rule, a, path, i);
    SegmentMatched(rule, b, path, i);
    AnchoredSeparates(Split(rule, '/')[i], a, b, Split(path, '/')[i]);
  }

  /** A floating segment matched for two ids: what the longer one has more comes from its text. */
  lemma {:induction false} FloatMatched(rule: string, a: string, b: string, path: string, i: nat)
    requires GoodRule(rule) && ValidStackID(a) && ValidStackID(b) && |a| <= |b|
    requires Covers(Subst(rule, a), path) && Covers(Subst(rule, b), path)
    requires i < |Split(rule, '/')| && Floating(Split(rule, '/')[i])
    ensures var c := b[..|b| - |a|]; var x := FloatText(Split(rule, '/')[i]);
            b == c + a && HasSuffix(x + c, x)
  {
    SegmentMatched(rule, a, path, i);
    SegmentMatched(rule, b, path, i);
    FloatCase(Split(rule, '/')[i], a, b, Split(path, '/')[i]);
  }

  lemma {:induction false} ShapeSeparates(rule: string, a: string, b: string, path: string)
    requires GoodRule(rule) && IsolatesByShape(rule) && ValidStackID(a) && ValidStackID(b) && |a| <= |b|
    requires Covers(Subst(rule, a), path) && Covers(Subst(rule, b), path)
    ensures a == b
  {
    hide GoodRule, Split, Covers, Subst, Isolating, Floating, FloatText, Comparable;
    var segs := Split(rule, '/');
    if i :| 0 <= i < |segs| && Isolating(segs[i]) {
      IsolatedSeparates(rule, a, b, path, i);
    } else if a != b {
      var i, j :| 0 <= i < |segs| && 0 <= j < |segs| && Floating(segs[i]) && Floating(segs[j])
                  && !Comparable(FloatText(segs[i]), FloatText(segs[j]));
      FloatMatched(rule, a, b, path, i);
      FloatMatched(rule, a, b, path, j);
      var c := b[..|b| - |a|];
      assert c == "" ==> c + a == a;
      SurvivorsComparable(FloatText(segs[i]), FloatText(segs[j]), c);
    }
  }

  /** An accepted rule keeps every two stacks apart, on any text or on the paths that
      references can name, exactly when it has the shape. */
  lemma {:induction false} IsolationExactly(rule: string)
    requires GoodRule(rule)
    ensures KeepsStacksApart(rule) <==> IsolatesByShape(rule)
    ensures KeepsNamedPathsApart(rule) <==> IsolatesByShape(rule)
  {
    hide GoodRule, IsolatesByShape, Covers, Subst, Refs.GoodPath;
    if IsolatesByShape(rule) {
      forall a, b, path | ValidStackID(a) && ValidStackID(b) && Covers(Subst(rule, a), path)
          && Covers(Subst(rule, b), path)
        ensures a == b
      {
        if |a| <= |b| { ShapeSeparates(rule, a, b, path); } else { ShapeSeparates(rule, b, a, path); }
      }
    } else {
      var a, b, path := SharedPath(rule);
    }
  }

  /** The case the code's comment has in mind: some segment's first {stack} is
      before any '*'. Then no path at any depth is allowed by both expansions. */
  lemma {:induction false} LeftAnchoredKeepsApart(rule: string, i: nat)
    requires GoodRule(rule) && i < |Split(rule, '/')| && LeftAnchored(Split(rule, '/')[i])
    ensures KeepsStacksApart(rule)
  {
    assert Isolating(Split(rule, '/')[i]);
    IsolationExactly(rule);
  }

  lemma {:induction false} StarStackSplits()
    ensures Split("*{stack}", '/') == ["*{stack}"]
    ensures forall i :: StackAt("*{stack}", i) <==> i == 1
  {
    var rule := "*{stack}";
    SplitAppend(rule, "", '/');
    assert rule + "" == rule;
    assert rule[1..8] == STACK;
    assert rule[0..7][0] == '*';
  }

  lemma {:induction false} StarStackNotLeft(rule: string)
    requires rule == "*{stack}"
    ensures !LeftAnchored(rule)
  {
    StarStackSplits();
    var i := IndexOf(rule, STACK);
    PrefixIsStackAt(rule, 1);
    ContainsAt(rule, STACK, 1);
    PrefixIsStackAt(rule, i);
    assert rule[..1][0] == '*';
  }

  lemma {:induction false} StarStackTail(rule: string)
    requires rule == "*{stack}"
    ensures Tail(rule) == STACK && LastStack(STACK) == 0
  {
    assert rule[0] == '*' && forall k :: 0 < k < |rule| ==> rule[k] != '*';
    assert LastIndexByte(rule, '*') == 0;
    assert STACK[0..7] == STACK;
  }

  lemma {:induction false} StarStackGood()
    ensures GoodSegment("*{stack}")
  {
    hide StackAt, Split;
    var rule := "*{stack}";
    StarStackSplits();
    assert StackAt(rule, 1);
    forall i | 0 <= i < |rule| && rule[i] == '{' ensures StackAt(rule, i) {
      assert i == 1;
    }
    forall i | 0 <= i < |rule| && rule[i] == '}' ensures StackAt(rule, i - 6) {
      assert i == 7;
    }
  }

  lemma {:induction false} OneSegmentShape(rule: string)
    requires Split(rule, '/') == [rule] && !Isolating(rule)
    ensures !IsolatesByShape(rule)
  {
    hide Split, Floating, FloatText, Isolating;
    if Floating(rule) {
      assert "" + FloatText(rule) == FloatText(rule);
      SuffixLead("", FloatText(rule), FloatText(rule));
    }
  }

  /** checkRule accepts a rule that lets two different stacks read the same path. */
  lemma {:induction false} AcceptedButShared()
    ensures GoodRule("*{stack}") && !KeepsStacksApart("*{stack}")
  {
    hide IndexOf, LastStack, LastIndexByte, Tail, StackAt, Split, GoodSegment, IsolatesByShape, KeepsStacksApart;
    StarStackGood();
    StarStackSplits();
    assert Split("*{stack}", '/')[0] == "*{stack}";
    StarStackNotLeft("*{stack}");
    StarStackTail("*{stack}");
    assert STACK[..0] == "";
    assert !Isolating("*{stack}");
    OneSegmentShape("*{stack}");
    IsolationExactly("*{stack}");
  }
}
