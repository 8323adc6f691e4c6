/** What path rules and references share: the {stack} placeholder and its replacement,
    the shape of a stack id, the characters a path may hold, and how a text is split
    after the placeholders in it were replaced. */
module PathText {
  import opened Strings

  const STACK := "{stack}"

  predicate IsIdChar(c: char) {
    'a' <= c <= 'z' || '0' <= c <= '9' || c == '-'
  }

  /** stackIDRe: ^[a-z0-9][a-z0-9-]*$ */
  predicate ValidStackID(id: string) {
    id != "" && id[0] != '-' && forall i :: 0 <= i < |id| ==> IsIdChar(id[i])
  }

  /** strings.ReplaceAll(s, "{stack}", put) */
  function Subst(s: string, put: string): string {
    if s == "" then ""
    else if HasPrefix(s, STACK) then put + Subst(s[|STACK|..], put)
    else [s[0]] + Subst(s[1..], put)
  }

  datatype CharProblem = PercentEncoding | HashSign | Backslash | SpaceOrControl

  function CharProblemOf(c: char): Option<CharProblem> {
    if c == '%' then Some(PercentEncoding)
    else if c == '#' then Some(HashSign)
    else if c == '\\' then Some(Backslash)
    else if c <= ' ' || c == 0x7f as char then Some(SpaceOrControl)
    else None
  }

  /** The first problem of a text, in reading order. */
  function CharsProblem(s: string): Option<CharProblem> {
    if s == "" then None
    else if CharProblemOf(s[0]).Some? then CharProblemOf(s[0])
    else CharsProblem(s[1..])
  }

  predicate PlainChars(s: string) {
    forall i :: 0 <= i < |s| ==> CharProblemOf(s[i]).None?
  }

  /** checkChars. */
  method CheckChars(s: string) returns (problem: Option<CharProblem>)
    ensures problem == CharsProblem(s)
    ensures problem.None? <==> PlainChars(s)
  {
    for i := 0 to |s|
      invariant CharsProblem(s) == CharsProblem(s[i..])
      invariant forall k :: 0 <= k < i ==> CharProblemOf(s[k]).None?
    {
      assert s[i..][1..] == s[i + 1..];
      if CharProblemOf(s[i]).Some? { return CharProblemOf(s[i]); }
    }
    problem := None;
  }

  lemma {:induction false} CharsProblemNone(s: string)
    ensures CharsProblem(s).None? <==> PlainChars(s)
  {
    if s != "" {
      CharsProblemNone(s[1..]);
      assert forall i :: 1 <= i < |s| ==> s[i] == s[1..][i - 1];
    }
  }

  /** What checkChars lets through: no '%', '#' or backslash, no space, nothing below it, no DEL. */
  lemma {:induction false} PlainExactly(s: string)
    ensures PlainChars(s) <==> forall c :: c in s ==> c > ' ' && c != '%' && c != '#' && c != '\\' && c != 127 as char
  {
    if PlainChars(s) {
      forall c | c in s ensures CharProblemOf(c).None? {
        var i :| 0 <= i < |s| && s[i] == c;
      }
    } else {
      var i :| 0 <= i < |s| && CharProblemOf(s[i]).Some?;
      assert s[i] in s;
    }
  }

  // ---- laws of the substitution

  lemma {:induction false} StackLetters()
    ensures |STACK| == 7 && STACK[0] == '{' && STACK[1] == 's' && STACK[2] == 't' && STACK[3] == 'a'
            && STACK[4] == 'c' && STACK[5] == 'k' && STACK[6] == '}'
  {
  }

  /** The placeholder starts at position i of s. */
  predicate StackAt(s: string, i: int) {
    0 <= i <= |s| - 7 && s[i..i + 7] == STACK
  }

  ghost predicate HasStack(s: string) {
    exists i :: StackAt(s, i)
  }

  lemma {:induction false} PrefixIsStackAt(s: string, i: nat)
    requires i <= |s|
    ensures HasPrefix(s[i..], STACK) <==> StackAt(s, i)
  {
    if i + 7 <= |s| { assert s[i..][..7] == s[i..i + 7]; }
  }

  lemma {:induction false} StackAtAppend(s: string, t: string, i: int)
    requires i <= |s| - 7
    ensures StackAt(s + t, i) <==> StackAt(s, i)
  {
    if i >= 0 { assert (s + t)[i..i + 7] == s[i..i + 7]; }
  }

  lemma {:induction false} StackAtShift(s: string, t: string, i: int)
    requires i >= 0
    ensures StackAt(s + t, |s| + i) <==> StackAt(t, i)
  {
    if i <= |t| - 7 { assert (s + t)[|s| + i..|s| + i + 7] == t[i..i + 7]; }
  }

  lemma {:induction false} SubstNothing(s: string, put: string)
    requires !HasStack(s)
    ensures Subst(s, put) == s
  {
    if s != "" {
      PrefixIsStackAt(s, 0);
      assert s[0..] == s;
      forall i ensures !StackAt(s[1..], i) {
        if i >= 0 { assert s == s[..1] + s[1..]; StackAtShift(s[..1], s[1..], i); }
      }
      SubstNothing(s[1..], put);
    }
  }

  lemma {:induction false} SubstNext(s: string, put: string)
    requires s != "" && !HasPrefix(s, STACK)
    ensures Subst(s, put) == [s[0]] + Subst(s[1..], put)
  {
  }

  lemma {:induction false} SubstPut(s: string, put: string)
    requires HasPrefix(s, STACK)
    ensures Subst(s, put) == put + Subst(s[7..], put)
  {
  }

  /** Substitution distributes over a cut that does not run through an occurrence. */
  lemma {:induction false} SubstConcat(s: string, t: string, put: string)
    requires forall i :: |s| - 7 < i < |s| ==> !StackAt(s + t, i)
    ensures Subst(s + t, put) == Subst(s, put) + Subst(t, put)
    decreases |s|
  {
    hide Subst;
    if s == "" {
      assert s + t == t;
      SubstNothing(s, put);
    } else if HasPrefix(s + t, STACK) {
      assert StackAt(s + t, 0) by { assert (s + t)[0..7] == (s + t)[..7]; }
      assert |s| >= 7;
      assert s[..7] == (s + t)[..7];
      CutOff(s, t, 7);
      SubstConcat(s[7..], t, put);
      SubstPut(s + t, put);
      SubstPut(s, put);
      assert put + (Subst(s[7..], put) + Subst(t, put)) == (put + Subst(s[7..], put)) + Subst(t, put);
    } else {
      assert |s| >= 7 ==> (s + t)[..7] == s[..7];
      CutOff(s, t, 1);
      SubstConcat(s[1..], t, put);
      SubstNext(s + t, put);
      SubstNext(s, put);
      assert [s[0]] + (Subst(s[1..], put) + Subst(t, put)) == ([s[0]] + Subst(s[1..], put)) + Subst(t, put);
    }
  }

  /** The cut between s and t stays clear when k characters go. */
  lemma {:induction false} CutOff(s: string, t: string, k: nat)
    requires 0 < k <= |s| && forall i :: |s| - 7 < i < |s| ==> !StackAt(s + t, i)
    ensures (s + t)[k..] == s[k..] + t
    ensures forall i :: |s[k..]| - 7 < i < |s[k..]| ==> !StackAt(s[k..] + t, i)
  {
    forall i | |s[k..]| - 7 < i < |s[k..]| ensures !StackAt(s[k..] + t, i) {
      if i >= 0 {
        assert s + t == s[..k] + (s[k..] + t);
        StackAtShift(s[..k], s[k..] + t, i);
      }
    }
  }

  /** A text around its first occurrence. */
  lemma {:induction false} SubstAround(pre: string, post: string, put: string)
    requires forall i :: 0 <= i < |pre| ==> !StackAt(pre + STACK + post, i)
    ensures Subst(pre + STACK + post, put) == pre + put + Subst(post, put)
  {
    var s := pre + STACK + post;
    assert s == pre + (STACK + post);
    SubstConcat(pre, STACK + post, put);
    forall i ensures !StackAt(pre, i) {
      if i <= |pre| - 7 { StackAtAppend(pre, STACK + post, i); }
    }
    SubstNothing(pre, put);
    assert (STACK + post)[7..] == post && (STACK + post)[..7] == STACK;
    assert pre + (put + Subst(post, put)) == pre + put + Subst(post, put);
  }

  /** Every character of a substituted text comes from the text or from what is put in. */
  lemma {:induction false} SubstChars(s: string, put: string, c: char)
    requires c in Subst(s, put)
    ensures c in s || c in put
  {
    if s != "" {
      if HasPrefix(s, STACK) {
        if c in Subst(s[|STACK|..], put) { SubstChars(s[|STACK|..], put, c); }
      } else if c in Subst(s[1..], put) {
        SubstChars(s[1..], put, c);
      }
    }
  }

  /** A character outside the placeholder's letters survives the substitution. */
  lemma {:induction false} SubstKeeps(s: string, put: string, c: char)
    requires c in s && c !in STACK
    ensures c in Subst(s, put)
  {
    if HasPrefix(s, STACK) {
      assert s == s[..7] + s[7..];
      SubstKeeps(s[7..], put, c);
    } else if s[0] != c {
      assert s == [s[0]] + s[1..];
      SubstKeeps(s[1..], put, c);
    }
  }

  /** Substituting, then splitting on '/', is splitting, then substituting in each segment. */
  function SubstEach(segs: seq<string>, put: string): (r: seq<string>)
    ensures |r| == |segs| && forall i :: 0 <= i < |segs| ==> r[i] == Subst(segs[i], put)
  {
    seq(|segs|, i requires 0 <= i < |segs| => Subst(segs[i], put))
  }

  lemma {:induction false} SplitOfSubst(s: string, put: string)
    requires '/' !in put
    ensures Split(Subst(s, put), '/') == SubstEach(Split(s, '/'), put)
  {
    if s == "" {
    } else if HasPrefix(s, STACK) {
      SplitOfSubst(s[7..], put);
      SplitAtStack(s, put);
    } else {
      SplitOfSubst(s[1..], put);
      if s[0] == '/' {
        assert ([s[0]] + Subst(s[1..], put))[1..] == Subst(s[1..], put);
      } else {
        SplitAtChar(s, put);
      }
    }
  }

  lemma {:induction false} SplitNext(s: string)
    requires s != "" && s[0] != '/'
    ensures var rest := Split(s[1..], '/'); Split(s, '/') == [[s[0]] + rest[0]] + rest[1..]
  {
  }

  lemma {:induction false} SplitAtStack(s: string, put: string)
    requires '/' !in put && HasPrefix(s, STACK)
    requires Split(Subst(s[7..], put), '/') == SubstEach(Split(s[7..], '/'), put)
    ensures Split(Subst(s, put), '/') == SubstEach(Split(s, '/'), put)
  {
    hide Subst, Split;
    var t := s[7..];
    assert s == STACK + t;
    SubstPut(s, put);
    SplitAppend(put, Subst(t, put), '/');
    SplitAppend(STACK, t, '/');
    var x := Split(t, '/')[0];
    assert (STACK + x)[7..] == x && (STACK + x)[..7] == STACK;
    SubstPut(STACK + x, put);
  }

  lemma {:induction false} SplitAtChar(s: string, put: string)
    requires s != "" && s[0] != '/' && !HasPrefix(s, STACK)
    requires Split(Subst(s[1..], put), '/') == SubstEach(Split(s[1..], '/'), put)
    ensures Split(Subst(s, put), '/') == SubstEach(Split(s, '/'), put)
  {
    hide Subst, Split;
    var t := s[1..];
    SubstNext(s, put);
    SplitNext(s);
    var u := [s[0]] + Subst(t, put);
    assert u[1..] == Subst(t, put);
    SplitNext(u);
    FirstSegmentIsPrefix(t);
    var x := [s[0]] + Split(t, '/')[0];
    assert x[1..] == Split(t, '/')[0];
    assert |x| >= 7 ==> s[..7] == x[..7];
    SubstNext(x, put);
  }

  lemma {:induction false} FirstSegmentIsPrefix(s: string)
    ensures HasPrefix(s, Split(s, '/')[0])
  {
    if s != "" && s[0] != '/' { FirstSegmentIsPrefix(s[1..]); }
  }

  /** No brace is left once the placeholders are gone: every brace was one of theirs. */
  lemma {:induction false} BracesExact(s: string, put: string)
    requires '{' !in put && '}' !in put
    ensures '{' !in Subst(s, put) && '}' !in Subst(s, put) <==>
            && (forall i :: 0 <= i < |s| && s[i] == '{' ==> StackAt(s, i))
            && (forall i :: 0 <= i < |s| && s[i] == '}' ==> StackAt(s, i - 6))
  {
    if s != "" {
      PrefixIsStackAt(s, 0);
      assert s[0..] == s;
      var k := if HasPrefix(s, STACK) then 7 else 1;
      var t := s[k..];
      BracesExact(t, put);
      assert s == s[..k] + t;
      forall i | i >= 0 ensures StackAt(s, k + i) <==> StackAt(t, i) {
        StackAtShift(s[..k], t, i);
      }
      if k == 7 {
        assert forall i :: 0 <= i < 7 ==> s[i] == STACK[i];
        forall i | 1 <= i < 7 ensures !StackAt(s, i) {
          if i + 7 <= |s| { assert s[i..i + 7][0] == s[i]; }
        }
      } else {
        if s[0] == '}' { assert !StackAt(s, -6); }
        assert !StackAt(s, 0);
      }
      BracesShift(s, k);
    }
  }

  /** The brace condition of a text, moved to what follows a whole placeholder or a single character. */
  lemma {:induction false} BracesShift(s: string, k: nat)
    requires 0 < k <= |s|
    requires forall i :: i >= 0 ==> (StackAt(s, k + i) <==> StackAt(s[k..], i))
    requires k == 7 ==> StackAt(s, 0) && forall i :: 0 <= i < 7 ==> s[i] == STACK[i]
    requires (k == 1 && !StackAt(s, 0)) || k == 7
    ensures OpensMatched(s) && ClosesMatched(s)
            <==> (k == 1 ==> s[0] != '{' && s[0] != '}') && OpensMatched(s[k..]) && ClosesMatched(s[k..])
  {
    forall j | 0 <= j < k ensures StackAt(s, j) ==> k == 7 && j == 0 {
      if j > 0 && j + 7 <= |s| { assert s[j..j + 7][0] == s[j]; }
    }
    assert !StackAt(s, -1) && forall j :: j < 0 ==> !StackAt(s, j) && !StackAt(s[k..], j);
    OpensShift(s, k);
    ClosesShift(s, k);
  }

  /** Every opening brace starts a placeholder. */
  ghost predicate OpensMatched(s: string) {
    forall i :: 0 <= i < |s| && s[i] == '{' ==> StackAt(s, i)
  }

  /** Every closing brace ends one. */
  ghost predicate ClosesMatched(s: string) {
    forall i :: 0 <= i < |s| && s[i] == '}' ==> StackAt(s, i - 6)
  }

  lemma {:induction false} OpensShift(s: string, k: nat)
    requires 0 < k <= |s| && (k == 1 || k == 7)
    requires forall i :: i >= 0 ==> (StackAt(s, k + i) <==> StackAt(s[k..], i))
    requires k == 7 ==> forall i :: 0 <= i < 7 ==> s[i] == STACK[i]
    requires forall j :: 0 <= j < k ==> (StackAt(s, j) <==> k == 7 && j == 0)
    ensures OpensMatched(s) <==> (k == 1 ==> s[0] != '{') && OpensMatched(s[k..])
  {
    hide StackAt;
    var t := s[k..];
    assert forall i :: 0 <= i < |t| ==> t[i] == s[k + i];
    if OpensMatched(s) {
      forall i | 0 <= i < |t| && t[i] == '{' ensures StackAt(t, i) {
        assert s[k + i] == '{';
      }
    }
    if (k == 1 ==> s[0] != '{') && OpensMatched(t) {
      forall i | 0 <= i < |s| && s[i] == '{' ensures StackAt(s, i) {
        if i >= k { assert t[i - k] == '{'; assert StackAt(s, k + (i - k)); }
      }
    }
  }

  lemma {:induction false} ClosesShift(s: string, k: nat)
    requires 0 < k <= |s| && (k == 1 || k == 7)
    requires forall i :: i >= 0 ==> (StackAt(s, k + i) <==> StackAt(s[k..], i))
    requires k == 7 ==> forall i :: 0 <= i < 7 ==> s[i] == STACK[i]
    requires forall j :: 0 <= j < k ==> (StackAt(s, j) <==> k == 7 && j == 0)
    requires forall j :: j < 0 ==> !StackAt(s, j) && !StackAt(s[k..], j)
    ensures ClosesMatched(s) <==> (k == 1 ==> s[0] != '}') && ClosesMatched(s[k..])
  {
    hide StackAt;
    var t := s[k..];
    assert forall i :: 0 <= i < |t| ==> t[i] == s[k + i];
    if ClosesMatched(s) {
      forall i | 0 <= i < |t| && t[i] == '}' ensures StackAt(t, i - 6) {
        assert s[k + i] == '}';
        assert StackAt(s, k + i - 6);
        assert i - 6 >= 0 ==> (StackAt(s, k + (i - 6)) <==> StackAt(t, i - 6));
      }
    }
    if (k == 1 ==> s[0] != '}') && ClosesMatched(t) {
      forall i | 0 <= i < |s| && s[i] == '}' ensures StackAt(s, i - 6) {
        if i >= k { assert t[i - k] == '}'; assert StackAt(t, i - k - 6); assert StackAt(s, k + (i - k - 6)); }
      }
    }
  }
}
