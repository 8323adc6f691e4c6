/** What a stack may read through a connection. */
module PathPermissions {
  import opened Strings
  import opened PathText
  import opened PathRules
  import Glob

  // Its own allowed paths, compared by whole segments, and the connection's path rules,
  // which silence a "*" path.

  // ---- allowed paths are segment-list prefixes

  lemma {:induction false} JoinAppend(a: seq<string>, b: seq<string>, sep: char)
    requires |a| >= 1 && |b| >= 1
    ensures Join(a + b, sep) == Join(a, sep) + [sep] + Join(b, sep)
  {
    if |a| == 1 {
      assert (a + b)[1..] == b;
    } else {
      assert (a + b)[1..] == a[1..] + b;
      JoinAppend(a[1..], b, sep);
    }
  }

  /** The textual test of the code is the comparison of segment lists. */
  lemma {:induction false} PrefixBySegments(p: string, path: string)
    ensures path == p || HasPrefix(path, p + "/") <==> Split(p, '/') <= Split(path, '/')
  {
    hide Split, Join;
    var a, b := Split(p, '/'), Split(path, '/');
    if HasPrefix(path, p + "/") {
      var more := path[|p| + 1..];
      assert path == p + ['/'] + more;
      SplitExtend(p, more, '/');
    }
    if a <= b {
      JoinOfSplit(p, '/');
      JoinOfSplit(path, '/');
      if |a| < |b| {
        assert b == a + b[|a|..];
        JoinAppend(a, b[|a|..], '/');
        assert path[..|p + "/"|] == p + "/";
      } else {
        assert a == b;
      }
    }
  }

  lemma {:induction false} StarAllows(prefixes: seq<string>, path: string)
    requires "*" in prefixes
    ensures exists p :: p in prefixes && PrefixAllows(p, path)
  {
    hide Split;
    assert PrefixAllows("*", path);
  }

  predicate PrefixAllows(p: string, path: string) {
    p == "*" || Split(p, '/') <= Split(path, '/')
  }

  method AnyPrefixAllows(prefixes: seq<string>, path: string) returns (allowed: bool)
    ensures allowed <==> exists p :: p in prefixes && PrefixAllows(p, path)
    ensures "*" in prefixes ==> allowed
  {
    if "*" in prefixes { StarAllows(prefixes, path); }
    for n := 0 to |prefixes|
      invariant forall k :: 0 <= k < n ==> !PrefixAllows(prefixes[k], path)
    {
      PrefixBySegments(prefixes[n], path);
      if prefixes[n] == "*" || path == prefixes[n] || HasPrefix(path, prefixes[n] + "/") {
        assert prefixes[n] in prefixes && PrefixAllows(prefixes[n], path);
        return true;
      }
    }
    allowed := false;
  }

  /** The decision: allowed by one of the stack's own paths or by a rule, where a
      connection that has rules makes a "*" path count for nothing. */
  ghost predicate Allows(prefixes: seq<string>, hasRules: bool, rules: seq<string>, path: string) {
    || (exists p :: p in prefixes && !(hasRules && p == "*") && PrefixAllows(p, path))
    || (exists rule :: rule in rules && Covers(rule, path))
  }

  method Decide(prefixes: seq<string>, hasRules: bool, rules: seq<string>, path: string) returns (allowed: bool)
    ensures allowed <==> Allows(prefixes, hasRules, rules, path)
  {
    var own := prefixes;
    if hasRules {
      own := [];
      for n := 0 to |prefixes|
        invariant forall p :: p in own <==> p in prefixes[..n] && p != "*"
      {
        assert prefixes[..n + 1] == prefixes[..n] + [prefixes[n]];
        if prefixes[n] != "*" { own := own + [prefixes[n]]; }
      }
      assert prefixes[..|prefixes|] == prefixes;
    }
    assert forall p :: p in own <==> p in prefixes && !(hasRules && p == "*");
    var byPath := AnyPrefixAllows(own, path);
    var byRule := RuleAllowed(rules, path);
    allowed := byPath || byRule;
  }

  /** A stack's resolved connection. */
  class Effective {
    var pathRules: string  // the connection's path_rules config value
    var prefixes: seq<string>
    var rules: seq<string>
    var hasRules: bool

    constructor (pathRules: string, prefixes: seq<string>)
      ensures this.pathRules == pathRules && this.prefixes == prefixes && rules == [] && !hasRules
    {
      this.pathRules := pathRules;
      this.prefixes := prefixes;
      rules := [];
      hasRules := false;
    }

    /** A rule that is not good leaves everything as it was; otherwise the rules are
        the connection's, expanded, and they count even when the id gets none. */
    method ApplyPathRules(stackID: string) returns (problem: Option<(string, RuleProblem)>)
      modifies this
      ensures pathRules == old(pathRules) && prefixes == old(prefixes)
      ensures problem.None? <==> AllGood(Candidates(pathRules))
      ensures problem.Some? ==> rules == old(rules) && hasRules == old(hasRules)
      ensures problem.None? ==>
        exists parsed :: ParsedFrom(parsed, Candidates(pathRules)) && AllGood(parsed)
                         && rules == Expanded(parsed, stackID) && (hasRules <==> Candidates(pathRules) != [])
    {
      var r := ParseRules(pathRules);
      if r.Err? { return Some(r.error); }
      hasRules := |r.value| > 0;
      if Candidates(pathRules) != [] { assert Candidates(pathRules)[0] in r.value; }
      if r.value != [] { assert r.value[0] in Candidates(pathRules); }
      rules := ExpandRules(r.value, stackID);
      problem := None;
    }

    method PathAllowed(path: string) returns (allowed: bool)
      ensures allowed <==> Allows(prefixes, hasRules, rules, path)
    {
      allowed := Decide(prefixes, hasRules, rules, path);
    }
  }

  // ---- laws of the decision

  /** The decision, part by part. Without rules a "*" allows every path, and otherwise a
      path is allowed exactly at or below an allowed one. With rules the "*" does nothing. */
  lemma {:induction false} DecisionMeans(prefixes: seq<string>, hasRules: bool, rules: seq<string>, path: string)
    ensures !hasRules && rules == [] && "*" in prefixes ==> Allows(prefixes, hasRules, rules, path)
    ensures !hasRules && rules == [] && "*" !in prefixes ==>
              (Allows(prefixes, hasRules, rules, path) <==> BelowOne(prefixes, path))
    ensures hasRules ==> (Allows(prefixes, hasRules, rules, path)
                          <==> BelowOne(prefixes, path) || exists rule :: rule in rules && Covers(rule, path))
  {
    forall p ensures p == "*" || (PrefixAllows(p, path) <==> path == p || HasPrefix(path, p + "/")) {
      PrefixBySegments(p, path);
    }
    hide Split, Covers, HasPrefix;
    if "*" in prefixes { assert PrefixAllows("*", path); }
  }

  /** The path is one of the allowed ones but "*", or lies below it. */
  ghost predicate BelowOne(prefixes: seq<string>, path: string) {
    exists p :: p in prefixes && p != "*" && (path == p || HasPrefix(path, p + "/"))
  }

  /** A rule without '*' allows what the same text would allow as a path. */
  lemma {:induction false} RuleWithoutStar(rule: string, path: string)
    requires '*' !in rule
    ensures Covers(rule, path) <==> PrefixAllows(rule, path)
  {
    var want, segs := Split(rule, '/'), Split(path, '/');
    forall i | 0 <= i < |want| && i < |segs| ensures Glob.Matches(want[i], segs[i]) <==> want[i] == segs[i] {
      SegmentChars(rule, i, '*');
      Glob.LiteralMatches(want[i], segs[i]);
    }
    if Covers(rule, path) {
      assert want == segs[..|want|];
    }
  }

  lemma {:induction false} SegmentChars(s: string, i: nat, c: char)
    requires i < |Split(s, '/')| && c !in s
    ensures c !in Split(s, '/')[i]
  {
    if s != "" {
      var rest := Split(s[1..], '/');
      if s[0] == '/' {
        if i > 0 { SegmentChars(s[1..], i - 1, c); }
      } else {
        if i == 0 { SegmentChars(s[1..], 0, c); } else { SegmentChars(s[1..], i, c); }
      }
    }
  }

  /** What is allowed stays allowed one level deeper, by a path or by a rule. */
  lemma {:induction false} DeeperAllowed(prefixes: seq<string>, hasRules: bool, rules: seq<string>, path: string,
        more: string)
    requires Allows(prefixes, hasRules, rules, path)
    ensures Allows(prefixes, hasRules, rules, path + "/" + more)
  {
    SplitExtend(path, more, '/');
    var segs, deep := Split(path, '/'), Split(path + "/" + more, '/');
    assert path + "/" + more == path + ['/'] + more;
    if p :| p in prefixes && !(hasRules && p == "*") && PrefixAllows(p, path) {
      assert p == "*" || Split(p, '/') <= deep;
      assert PrefixAllows(p, path + "/" + more);
    } else {
      var rule :| rule in rules && Covers(rule, path);
      assert forall i :: 0 <= i < |segs| ==> deep[i] == segs[i];
      assert Covers(rule, path + "/" + more);
    }
  }

  /** Once the connection has rules, a "*" among the allowed paths changes no decision. */
  lemma {:induction false} StarSilenced(prefixes: seq<string>, others: seq<string>, rules: seq<string>, path: string)
    requires forall p :: p != "*" ==> (p in prefixes <==> p in others)
    ensures Allows(prefixes, true, rules, path) <==> Allows(others, true, rules, path)
  {
    if p :| p in prefixes && p != "*" && PrefixAllows(p, path) { assert p in others; }
    if p :| p in others && p != "*" && PrefixAllows(p, path) { assert p in prefixes; }
  }

  // ---- no accepted rule is universal

  lemma {:induction false} PlainCharSurvives(seg: string, id: string, i: nat) returns (c: char)
    requires i < |seg| && seg[i] != '*' && id != "" && '*' !in id
    ensures c in Subst(seg, id) && c != '*'
    decreases |seg|
  {
    if HasPrefix(seg, STACK) {
      c := id[0];
    } else if seg[0] != '*' {
      c := seg[0];
    } else {
      assert seg[1..][i - 1] == seg[i];
      c := PlainCharSurvives(seg[1..], id, i - 1);
    }
  }

  lemma {:induction false} PlainCharOf(seg: string) returns (i: nat)
    requires GoodSegment(seg) && seg != "*"
    ensures i < |seg| && seg[i] != '*'
  {
    i := if seg[0] != '*' then 0 else 1;
    if |seg| == 1 { assert seg == [seg[0]]; }
  }

  /** A segment of the expanded rule that is not all '*' refuses one of two letters. */
  lemma {:induction false} RefusedLetter(seg: string, id: string) returns (d: char)
    requires GoodSegment(seg) && seg != "*" && ValidStackID(id)
    ensures d == 'a' || d == 'b'
    ensures !Glob.Matches(Subst(seg, id), [d])
  {
    var i := PlainCharOf(seg);
    var c := PlainCharSurvives(seg, id, i);
    d := if c == 'a' then 'b' else 'a';
    var e := Subst(seg, id);
    var k :| 0 <= k < |e| && e[k] == c;
    if Glob.Matches(e, [d]) { Glob.LiteralOccurs(e, [d], k); }
  }

  /** At every depth there is a path, with no empty segment, that the rule refuses. */
  lemma {:induction false} NoRuleIsUniversal(rule: string, id: string, n: nat) returns (path: string)
    requires GoodRule(rule) && ValidStackID(id) && n >= |Split(rule, '/')|
    ensures |Split(path, '/')| == n && forall i :: 0 <= i < n ==> Split(path, '/')[i] != ""
    ensures !Covers(Subst(rule, id), path)
  {
    var segs := Split(rule, '/');
    var i :| 0 <= i < |segs| && segs[i] != "*";
    var d := RefusedLetter(segs[i], id);
    var texts := seq(n, k requires 0 <= k < n => [d]);
    path := Join(texts, '/');
    SplitOfJoin(texts, '/');
    SplitOfSubst(rule, id);
    assert Split(path, '/')[i] == [d];
  }
}
