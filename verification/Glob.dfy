/** The one-segment wildcard matcher, and what it matches. */
module Glob {

  // The source's loop is greedy with a single backtrack point. It is proved equal to "the
  // text can be cut along the pattern".

  /** s can be consumed by p when each '*' takes any run of characters. */
  predicate Matches(p: string, s: string)
    decreases |p|, |s|
  {
    if p == "" then s == ""
    else if p[0] == '*' then Matches(p[1..], s) || (s != "" && Matches(p, s[1..]))
    else s != "" && s[0] == p[0] && Matches(p[1..], s[1..])
  }

  // ---- the meaning of a match, as a cut of the text

  function Concat(parts: seq<string>): string {
    if parts == [] then "" else parts[0] + Concat(parts[1..])
  }

  /** One piece of text per pattern character: anything for '*', the character itself otherwise. */
  predicate IsCut(p: string, parts: seq<string>) {
    |parts| == |p| && forall i :: 0 <= i < |p| ==> p[i] != '*' ==> parts[i] == [p[i]]
  }

  ghost predicate CanBeCut(p: string, s: string) {
    exists parts :: IsCut(p, parts) && Concat(parts) == s
  }

  lemma {:induction false} CutGivesMatch(p: string, parts: seq<string>)
    requires IsCut(p, parts)
    ensures Matches(p, Concat(parts))
  {
    if p != "" {
      CutGivesMatch(p[1..], parts[1..]);
      var tail := Concat(parts[1..]);
      if p[0] == '*' {
        StarTakes(p[1..], parts[0], tail);
        assert [p[0]] + p[1..] == p;
      } else {
        assert ([p[0]] + tail)[1..] == tail;
      }
    }
  }

  lemma {:induction false} MatchGivesCut(p: string, s: string) returns (parts: seq<string>)
    requires Matches(p, s)
    ensures IsCut(p, parts) && Concat(parts) == s
    decreases |p|, |s|
  {
    if p == "" {
      parts := [];
    } else if p[0] == '*' {
      if Matches(p[1..], s) {
        var rest := MatchGivesCut(p[1..], s);
        parts := [""] + rest;
      } else {
        var rest := MatchGivesCut(p, s[1..]);
        parts := [[s[0]] + rest[0]] + rest[1..];
        assert Concat(parts) == [s[0]] + rest[0] + Concat(rest[1..]);
        assert Concat(rest) == rest[0] + Concat(rest[1..]);
      }
    } else {
      var rest := MatchGivesCut(p[1..], s[1..]);
      parts := [[p[0]]] + rest;
    }
  }

  /** The matcher's specification is exactly the existence of a cut. */
  lemma {:induction false} MatchesIffCut(p: string, s: string)
    ensures Matches(p, s) <==> CanBeCut(p, s)
  {
    if Matches(p, s) {
      var parts := MatchGivesCut(p, s);
    }
    if CanBeCut(p, s) {
      var parts :| IsCut(p, parts) && Concat(parts) == s;
      CutGivesMatch(p, parts);
    }
  }

  // ---- laws of matching

  lemma {:induction false} StarTakes(q: string, run: string, s: string)
    requires Matches(q, s)
    ensures Matches("*" + q, run + s)
    decreases |run|
  {
    assert ("*" + q)[1..] == q;
    if run == "" {
      assert run + s == s;
    } else {
      StarTakes(q, run[1..], s);
      assert (run + s)[1..] == run[1..] + s;
    }
  }

  /** A '*' in front means: some suffix of the text matches the rest. */
  lemma {:induction false} StarFinds(q: string, s: string) returns (k: nat)
    requires Matches("*" + q, s)
    ensures k <= |s| && Matches(q, s[k..])
    decreases |s|
  {
    assert ("*" + q)[1..] == q;
    if Matches(q, s) {
      k := 0;
      assert s[0..] == s;
    } else {
      var j := StarFinds(q, s[1..]);
      k := j + 1;
      assert s[1..][j..] == s[k..];
    }
  }

  lemma {:induction false} MatchConcat(p: string, q: string, s: string, t: string)
    requires Matches(p, s) && Matches(q, t)
    ensures Matches(p + q, s + t)
    decreases |p|, |s|
  {
    if p == "" {
      assert p + q == q && s + t == t;
    } else {
      assert (p + q)[1..] == p[1..] + q;
      if p[0] == '*' && Matches(p[1..], s) {
        MatchConcat(p[1..], q, s, t);
      } else if p[0] == '*' {
        MatchConcat(p, q, s[1..], t);
        assert (s + t)[1..] == s[1..] + t;
      } else {
        MatchConcat(p[1..], q, s[1..], t);
        assert (s + t)[1..] == s[1..] + t;
      }
    }
  }

  /** A pattern cut in two cuts the text in two. */
  lemma {:induction false} MatchSplit(p: string, q: string, s: string) returns (k: nat)
    requires Matches(p + q, s)
    ensures k <= |s| && Matches(p, s[..k]) && Matches(q, s[k..])
    decreases |p|, |s|
  {
    if p == "" {
      assert p + q == q;
      k := 0;
      assert s[0..] == s;
    } else {
      assert (p + q)[1..] == p[1..] + q;
      if p[0] == '*' && Matches((p + q)[1..], s) {
        k := MatchSplit(p[1..], q, s);
      } else {
        var j := MatchSplit(if p[0] == '*' then p else p[1..], q, s[1..]);
        k := j + 1;
        assert s[1..][j..] == s[k..];
        assert s[..k][1..] == s[1..][..j];
      }
    }
  }

  /** A pattern without '*' matches itself and nothing else. */
  lemma {:induction false} LiteralMatches(p: string, s: string)
    requires '*' !in p
    ensures Matches(p, s) <==> p == s
  {
    if p != "" {
      if s != "" {
        LiteralMatches(p[1..], s[1..]);
        assert p == [p[0]] + p[1..] && s == [s[0]] + s[1..];
      }
    }
  }

  lemma {:induction false} LiteralPrefix(lit: string, q: string, s: string)
    requires '*' !in lit
    ensures Matches(lit + q, s) <==> |lit| <= |s| && s[..|lit|] == lit && Matches(q, s[|lit|..])
  {
    if Matches(lit + q, s) {
      var k := MatchSplit(lit, q, s);
      LiteralMatches(lit, s[..k]);
    }
    if |lit| <= |s| && s[..|lit|] == lit && Matches(q, s[|lit|..]) {
      LiteralMatches(lit, lit);
      MatchConcat(lit, q, lit, s[|lit|..]);
      assert lit + s[|lit|..] == s;
    }
  }

  lemma {:induction false} LiteralSuffix(q: string, lit: string, s: string)
    requires '*' !in lit && Matches(q + lit, s)
    ensures |lit| <= |s| && s[|s| - |lit|..] == lit
  {
    var k := MatchSplit(q, lit, s);
    LiteralMatches(lit, s[k..]);
  }

  /** Every character of the pattern other than '*' occurs in the text. */
  lemma {:induction false} LiteralOccurs(p: string, s: string, i: nat)
    requires Matches(p, s) && i < |p| && p[i] != '*'
    ensures p[i] in s
  {
    var k := MatchSplit(p[..i], p[i..], (assert p[..i] + p[i..] == p; s));
    assert s[k] == p[i];
  }

  // ---- the iterative matcher

  /** Some later start of the text after the last '*' would match. */
  ghost predicate LaterStart(p: string, s: string, star: int, mark: int)
    requires -1 <= star < |p|
  {
    star >= 0 && exists m :: mark < m <= |s| && 0 <= m && Matches(p[star + 1..], s[m..])
  }

  lemma {:induction false} StarStartsEarlier(q: string, s: string, sx: nat, at: nat)
    requires q != "" && q[0] == '*' && sx <= at <= |s| && Matches(q, s[at..])
    ensures Matches(q, s[sx..])
  {
    hide Matches;
    assert q == "*" + q[1..];
    var k := StarFinds(q[1..], s[at..]);
    assert s[at..][k..] == s[at + k..];
    StarTakes(q[1..], s[sx..at + k], s[at + k..]);
    assert s[sx..at + k] + s[at + k..] == s[sx..];
  }

  /** A second '*' makes the first one's other choices redundant: this is why a
      single backtrack point is enough. */
  lemma {:induction false} NewStarCovers(p: string, s: string, star: int, mark: int, px: nat, sx: nat)
    requires 0 <= star < px < |p| && 0 <= mark <= sx <= |s| && p[px] == '*'
    requires px - (star + 1) == sx - mark && '*' !in p[star + 1..px]
    requires LaterStart(p, s, star, mark)
    ensures Matches(p[px..], s[sx..])
  {
    var m :| mark < m <= |s| && 0 <= m && Matches(p[star + 1..], s[m..]);
    hide Matches, LaterStart;
    var lit := p[star + 1..px];
    assert p[star + 1..] == lit + p[px..];
    LiteralPrefix(lit, p[px..], s[m..]);
    var at := m + |lit|;
    assert s[m..][|lit|..] == s[at..];
    StarStartsEarlier(p[px..], s, sx, at);
  }

  /** What a fresh '*' at px leaves to try. */
  lemma {:induction false} FreshStar(p: string, s: string, px: nat, sx: nat)
    requires px < |p| && p[px] == '*' && sx <= |s|
    ensures Matches(p[px..], s[sx..]) <==> Matches(p[px + 1..], s[sx..]) || LaterStart(p, s, px, sx)
  {
    assert p[px..] == "*" + p[px + 1..];
    if Matches(p[px..], s[sx..]) {
      var k := StarFinds(p[px + 1..], s[sx..]);
      assert s[sx..][k..] == s[sx + k..];
      if k > 0 { assert sx < sx + k <= |s| && Matches(p[px + 1..], s[sx + k..]); }
    }
    if LaterStart(p, s, px, sx) {
      var m :| sx < m <= |s| && 0 <= m && Matches(p[px + 1..], s[m..]);
      StarTakes(p[px + 1..], s[sx..m], s[m..]);
      assert s[sx..m] + s[m..] == s[sx..];
    }
    if Matches(p[px + 1..], s[sx..]) {
      StarTakes(p[px + 1..], "", s[sx..]);
      assert "" + s[sx..] == s[sx..];
    }
  }

  /** Once the text is used up, starting later can only leave too little of it. */
  lemma {:induction false} NoLaterStartAtEnd(p: string, s: string, star: int, mark: int, px: nat)
    requires 0 <= star < px <= |p| && 0 <= mark <= |s|
    requires px - (star + 1) == |s| - mark && '*' !in p[star + 1..px]
    ensures !LaterStart(p, s, star, mark)
  {
    if LaterStart(p, s, star, mark) {
      var m :| mark < m <= |s| && 0 <= m && Matches(p[star + 1..], s[m..]);
      assert p[star + 1..] == p[star + 1..px] + p[px..];
      LiteralPrefix(p[star + 1..px], p[px..], s[m..]);
    }
  }

  lemma {:induction false} LiteralGrows(p: string, from: nat, to: nat)
    requires from <= to < |p| && '*' !in p[from..to] && p[to] != '*'
    ensures '*' !in p[from..to + 1]
  {
    assert p[from..to + 1] == p[from..to] + [p[to]];
  }

  /** The loop's state: everything between the last '*' and px has been matched
      literally, and the whole question is reduced to the current position or a
      later start after that '*'. */
  ghost predicate Searching(p: string, s: string, px: int, sx: int, star: int, mark: int) {
    && 0 <= px <= |p| && 0 <= sx <= |s| && -1 <= star < |p|
    && (star < 0 ==> mark == 0)
    && (star >= 0 ==> star < px && 0 <= mark <= sx && px - (star + 1) == sx - mark && '*' !in p[star + 1..px])
    && (Matches(p, s) <==> Matches(p[px..], s[sx..]) || LaterStart(p, s, star, mark))
  }

  lemma {:induction false} StepStar(p: string, s: string, px: nat, sx: nat, star: int, mark: int)
    requires Searching(p, s, px, sx, star, mark) && sx < |s| && px < |p| && p[px] == '*'
    ensures Searching(p, s, px + 1, sx, px, sx)
  {
    if LaterStart(p, s, star, mark) { NewStarCovers(p, s, star, mark, px, sx); }
    FreshStar(p, s, px, sx);
  }

  lemma {:induction false} StepChar(p: string, s: string, px: nat, sx: nat, star: int, mark: int)
    requires Searching(p, s, px, sx, star, mark) && sx < |s| && px < |p| && p[px] == s[sx] && p[px] != '*'
    ensures Searching(p, s, px + 1, sx + 1, star, mark)
  {
    assert p[px..][1..] == p[px + 1..] && s[sx..][1..] == s[sx + 1..];
    if star >= 0 { LiteralGrows(p, star + 1, px); }
  }

  lemma {:induction false} StepBack(p: string, s: string, px: nat, sx: nat, star: int, mark: int)
    requires Searching(p, s, px, sx, star, mark) && sx < |s| && star >= 0
    requires !(px < |p| && (p[px] == '*' || p[px] == s[sx]))
    ensures Searching(p, s, star + 1, mark + 1, star, mark + 1)
  {
    assert !Matches(p[px..], s[sx..]);
    assert LaterStart(p, s, star, mark) <==>
           Matches(p[star + 1..], s[mark + 1..]) || LaterStart(p, s, star, mark + 1) by {
      if LaterStart(p, s, star, mark) {
        var m :| mark < m <= |s| && 0 <= m && Matches(p[star + 1..], s[m..]);
        assert m == mark + 1 || m > mark + 1;
      }
    }
  }

  lemma {:induction false} AtStart(p: string, s: string)
    ensures Searching(p, s, 0, 0, -1, 0)
  {
    assert p[0..] == p && s[0..] == s;
  }

  /** No '*' to go back to, and the next characters differ. */
  lemma {:induction false} NoWayOn(p: string, s: string, px: nat, sx: nat, mark: int)
    requires Searching(p, s, px, sx, -1, mark) && sx < |s| && !(px < |p| && (p[px] == '*' || p[px] == s[sx]))
    ensures !Matches(p, s)
  {
  }

  lemma {:induction false} TextUsedUp(p: string, s: string, px: nat, star: int, mark: int)
    requires Searching(p, s, px, |s|, star, mark)
    ensures Matches(p, s) <==> Matches(p[px..], "")
  {
    if star >= 0 { NoLaterStartAtEnd(p, s, star, mark, px); }
    assert s[|s|..] == "";
  }

  lemma {:induction false} StarOnNothing(p: string, px: nat)
    requires px < |p| && p[px] == '*'
    ensures Matches(p[px..], "") <==> Matches(p[px + 1..], "")
  {
    assert p[px..][1..] == p[px + 1..];
  }

  lemma {:induction false} NothingLeft(p: string, px: nat)
    requires px <= |p| && (px < |p| ==> p[px] != '*')
    ensures Matches(p[px..], "") <==> px == |p|
  {
  }

  /** globSegment: terminates on every input and decides Matches exactly. */
  method GlobSegment(pattern: string, s: string) returns (matched: bool)
    ensures matched <==> Matches(pattern, s)
  {
    hide Matches, LaterStart, Searching;
    var px, sx := 0, 0;
    var star, mark := -1, 0;
    AtStart(pattern, s);
    while sx < |s|
      invariant 0 <= px <= |pattern| && 0 <= sx <= |s| && -1 <= star < |pattern| && star < px && 0 <= mark <= sx
      invariant Searching(pattern, s, px, sx, star, mark)
      decreases |pattern| - star, |s| - mark, |s| - sx
    {
      if px < |pattern| && pattern[px] == '*' {
        StepStar(pattern, s, px, sx, star, mark);
        star, mark := px, sx;
        px := px + 1;
      } else if px < |pattern| && pattern[px] == s[sx] {
        StepChar(pattern, s, px, sx, star, mark);
        px := px + 1;
        sx := sx + 1;
      } else if star >= 0 {
        StepBack(pattern, s, px, sx, star, mark);
        px := star + 1;
        mark := mark + 1;
        sx := mark;
      } else {
        NoWayOn(pattern, s, px, sx, mark);
        return false;
      }
    }
    TextUsedUp(pattern, s, px, star, mark);
    while px < |pattern| && pattern[px] == '*'
      invariant 0 <= px <= |pattern|
      invariant Matches(pattern, s) <==> Matches(pattern[px..], "")
    {
      StarOnNothing(pattern, px);
      px := px + 1;
    }
    NothingLeft(pattern, px);
    matched := px == |pattern|;
  }
}
