/** References ref+<scheme>://<path>#/<field>: the parser, the printer, and
    putting the deploying stack's id in the path. */
module Refs {
  import opened Strings
  import opened PathText

  datatype Ref = Ref(scheme: string, path: string, field: string)

  datatype PathProblem = EmptyPath | PathChars(problem: CharProblem) | StrayBrace | EmptySegment | DotSegment

  datatype RefProblem =
    | NotAReference
    | BadShape
    | MissingField
    | QueryParameters
    | BadPath(path: PathProblem)
    | NotOneField
    | FieldChars(problem: CharProblem)
    | FieldBraces

  function Print(r: Ref): string {
    "ref+" + r.scheme + "://" + r.path + "#/" + r.field
  }

  // ---- checkPath

  function SegmentsProblem(segs: seq<string>): Option<PathProblem> {
    if segs == [] then None
    else if segs[0] == "" then Some(EmptySegment)
    else if segs[0] == "." || segs[0] == ".." then Some(DotSegment)
    else SegmentsProblem(segs[1..])
  }

  function PathProblemOf(path: string): Option<PathProblem> {
    if path == "" then Some(EmptyPath)
    else
      match CharsProblem(path)
      case Some(p) => Some(PathChars(p))
      case None =>
        var rest := Subst(path, "");
        if '{' in rest || '}' in rest then Some(StrayBrace)
        else SegmentsProblem(Split(path, '/'))
  }

  predicate PlainSegment(seg: string) {
    seg != "" && seg != "." && seg != ".."
  }

  /** Every brace of s belongs to a whole {stack}. */
  ghost predicate OnlyStackBraces(s: string) {
    && (forall i :: 0 <= i < |s| && s[i] == '{' ==> StackAt(s, i))
    && (forall i :: 0 <= i < |s| && s[i] == '}' ==> StackAt(s, i - 6))
  }

  ghost predicate GoodPath(path: string) {
    && PlainChars(path)
    && OnlyStackBraces(path)
    && forall i :: 0 <= i < |Split(path, '/')| ==> PlainSegment(Split(path, '/')[i])
  }

  lemma {:induction false} SegmentsExact(segs: seq<string>)
    ensures SegmentsProblem(segs).None? <==> forall i :: 0 <= i < |segs| ==> PlainSegment(segs[i])
  {
    if segs != [] {
      SegmentsExact(segs[1..]);
      assert forall i :: 1 <= i < |segs| ==> segs[i] == segs[1..][i - 1];
    }
  }

  /** checkPath accepts exactly the good paths. */
  lemma {:induction false} PathExactly(path: string)
    ensures PathProblemOf(path).None? <==> GoodPath(path)
  {
    CharsProblemNone(path);
    BracesExact(path, "");
    SegmentsExact(Split(path, '/'));
    if path == "" { assert !PlainSegment(Split(path, '/')[0]); }
  }

  method CheckPath(path: string) returns (problem: Option<PathProblem>)
    ensures problem == PathProblemOf(path)
    ensures problem.None? <==> GoodPath(path)
  {
    PathExactly(path);
    if path == "" { return Some(EmptyPath); }
    var bad := CheckChars(path);
    if bad.Some? { return Some(PathChars(bad.value)); }
    var rest := Subst(path, "");
    if '{' in rest || '}' in rest { return Some(StrayBrace); }
    var segs := Split(path, '/');
    for i := 0 to |segs|
      invariant SegmentsProblem(segs) == SegmentsProblem(segs[i..])
    {
      assert segs[i..][1..] == segs[i + 1..];
      if segs[i] == "" { return Some(EmptySegment); }
      if segs[i] == "." || segs[i] == ".." { return Some(DotSegment); }
    }
    problem := None;
  }

  // ---- ParseRef

  /** schemeRe: ^[a-z][a-z0-9]*$ */
  predicate GoodScheme(s: string) {
    s != "" && 'a' <= s[0] <= 'z' && forall i :: 0 <= i < |s| ==> 'a' <= s[i] <= 'z' || '0' <= s[i] <= '9'
  }

  function ParseRef(s: string): Result<Ref, RefProblem> {
    if !HasPrefix(s, "ref+") then Err(NotAReference) else ParseSchemed(s[4..])
  }

  function ParseSchemed(s: string): Result<Ref, RefProblem> {
    var i := IndexOf(s, "://");
    if i == |s| || !GoodScheme(s[..i]) then Err(BadShape) else ParseLocated(s[..i], s[i + 3..])
  }

  function ParseLocated(scheme: string, s: string): Result<Ref, RefProblem> {
    var j := IndexOf(s, "#/");
    if j == |s| then Err(MissingField) else ParseParts(scheme, s[..j], s[j + 2..])
  }

  function ParseParts(scheme: string, path: string, field: string): Result<Ref, RefProblem> {
    if '?' in path || '?' in field then Err(QueryParameters)
    else if PathProblemOf(path).Some? then Err(BadPath(PathProblemOf(path).value))
    else if field == "" || '/' in field then Err(NotOneField)
    else if CharsProblem(field).Some? then Err(FieldChars(CharsProblem(field).value))
    else if '{' in field || '}' in field then Err(FieldBraces)
    else Ok(Ref(scheme, path, field))
  }

  ghost predicate WellFormed(r: Ref) {
    && GoodScheme(r.scheme)
    && GoodPath(r.path) && '?' !in r.path
    && r.field != "" && PlainChars(r.field)
    && '?' !in r.field && '/' !in r.field && '{' !in r.field && '}' !in r.field
  }

  lemma {:induction false} PartsExactly(scheme: string, path: string, field: string)
    requires GoodScheme(scheme)
    ensures ParseParts(scheme, path, field).Ok? <==> WellFormed(Ref(scheme, path, field))
    ensures ParseParts(scheme, path, field).Ok? ==> ParseParts(scheme, path, field).value == Ref(scheme, path, field)
  {
    PathExactly(path);
    CharsProblemNone(field);
  }

  lemma {:induction false} CutAround(s: string, sub: string, i: nat)
    requires sub != "" && i == IndexOf(s, sub) && i < |s|
    ensures i + |sub| <= |s| && s == s[..i] + sub + s[i + |sub|..]
  {
    assert s[i..] == sub + s[i + |sub|..];
  }

  /** A separator whose first character does not occur before it is found where it was put. */
  lemma {:induction false} FoundWhereWritten(pre: string, sub: string, post: string)
    requires sub != "" && sub[0] !in pre
    ensures IndexOf(pre + sub + post, sub) == |pre|
  {
    var s := pre + sub + post;
    assert s[|pre|..] == sub + post;
    ContainsAt(s, sub, |pre|);
    forall k | 0 <= k < |pre| ensures !HasPrefix(s[k..], sub) {
      assert s[k..][0] == pre[k] && pre[k] in pre;
    }
  }

  lemma {:induction false} LocatedOnly(scheme: string, s: string)
    requires GoodScheme(scheme) && ParseLocated(scheme, s).Ok?
    ensures var r := ParseLocated(scheme, s).value;
            WellFormed(r) && r.scheme == scheme && s == r.path + "#/" + r.field
  {
    var j := IndexOf(s, "#/");
    CutAround(s, "#/", j);
    PartsExactly(scheme, s[..j], s[j + 2..]);
  }

  lemma {:induction false} SchemedOnly(s: string)
    requires ParseSchemed(s).Ok?
    ensures var r := ParseSchemed(s).value;
            WellFormed(r) && s == r.scheme + "://" + (r.path + "#/" + r.field)
  {
    var i := IndexOf(s, "://");
    CutAround(s, "://", i);
    LocatedOnly(s[..i], s[i + 3..]);
  }

  lemma {:induction false} PrintParts(r: Ref)
    ensures Print(r) == "ref+" + (r.scheme + "://" + (r.path + "#/" + r.field))
  {
  }

  /** Whatever the parser accepts prints back to the very text it was read from. */
  lemma {:induction false} ParseThenPrint(s: string)
    requires ParseRef(s).Ok?
    ensures Print(ParseRef(s).value) == s && WellFormed(ParseRef(s).value)
  {
    SchemedOnly(s[4..]);
    PrintParts(ParseRef(s).value);
    assert s == "ref+" + s[4..];
  }

  lemma {:induction false} LocatedBack(r: Ref)
    requires WellFormed(r)
    ensures ParseLocated(r.scheme, r.path + "#/" + r.field) == Ok(r)
  {
    var s := r.path + "#/" + r.field;
    assert '#' !in r.path by { assert CharProblemOf('#').Some?; }
    FoundWhereWritten(r.path, "#/", r.field);
    assert s[..|r.path|] == r.path && s[|r.path| + 2..] == r.field;
    PartsExactly(r.scheme, r.path, r.field);
  }

  lemma {:induction false} SchemedBack(r: Ref)
    requires WellFormed(r)
    ensures ParseSchemed(r.scheme + "://" + (r.path + "#/" + r.field)) == Ok(r)
  {
    var rest := r.path + "#/" + r.field;
    var s := r.scheme + "://" + rest;
    FoundWhereWritten(r.scheme, "://", rest);
    assert s[..|r.scheme|] == r.scheme && s[|r.scheme| + 3..] == rest;
    LocatedBack(r);
  }

  /** A reference parses back from its own text exactly when it is well formed. */
  lemma {:induction false} PrintThenParse(r: Ref)
    ensures ParseRef(Print(r)) == Ok(r) <==> WellFormed(r)
  {
    if WellFormed(r) {
      PrintParts(r);
      SchemedBack(r);
      assert Print(r)[..4] == "ref+" && Print(r)[4..] == r.scheme + "://" + (r.path + "#/" + r.field);
    } else if ParseRef(Print(r)) == Ok(r) {
      ParseThenPrint(Print(r));
    }
  }

  // ---- ExpandStack

  datatype ExpandProblem = NotAStackID | ExpandedPath(problem: PathProblem)

  function ExpandStack(r: Ref, stackID: string): Result<Ref, ExpandProblem> {
    if !Contains(r.path, STACK) then Ok(r)
    else if !ValidStackID(stackID) then Err(NotAStackID)
    else
      var e := r.(path := Subst(r.path, stackID));
      if PathProblemOf(e.path).Some? then Err(ExpandedPath(PathProblemOf(e.path).value)) else Ok(e)
  }

  lemma {:induction false} ContainsStack(s: string)
    ensures Contains(s, STACK) <==> HasStack(s)
  {
    var i := IndexOf(s, STACK);
    if i < |s| { PrefixIsStackAt(s, i); }
    if HasStack(s) {
      var k :| StackAt(s, k);
      PrefixIsStackAt(s, k);
      ContainsAt(s, STACK, k);
    }
  }

  lemma {:induction false} SubstHoldsID(s: string, id: string)
    requires HasStack(s) && id != ""
    ensures id[0] in Subst(s, id)
  {
    var k :| StackAt(s, k);
    if !HasPrefix(s, STACK) {
      PrefixIsStackAt(s, 0);
      assert s[0..] == s && s == s[..1] + s[1..];
      StackAtShift(s[..1], s[1..], k - 1);
      SubstHoldsID(s[1..], id);
    }
  }

  lemma {:induction false} ExpandedSegment(seg: string, id: string)
    requires PlainSegment(seg) && ValidStackID(id)
    ensures PlainSegment(Subst(seg, id))
  {
    if HasStack(seg) { SubstHoldsID(seg, id); } else { SubstNothing(seg, id); }
  }

  /** The path of a well-formed reference stays a good path, without any brace,
      segment by segment. */
  lemma {:induction false} ExpandedPathIsGood(path: string, id: string)
    requires GoodPath(path) && ValidStackID(id)
    ensures GoodPath(Subst(path, id)) && '{' !in Subst(path, id) && '}' !in Subst(path, id)
    ensures Split(Subst(path, id), '/') == SubstEach(Split(path, '/'), id)
  {
    var e := Subst(path, id);
    SplitOfSubst(path, id);
    BracesExact(path, id);
    forall i | 0 <= i < |Split(path, '/')| ensures PlainSegment(Split(e, '/')[i]) {
      ExpandedSegment(Split(path, '/')[i], id);
    }
    forall i | 0 <= i < |e| ensures CharProblemOf(e[i]).None? {
      assert e[i] in e;
      SubstChars(path, id, e[i]);
    }
  }

  /** For a parsed reference, expansion fails only for want of a plain stack id.
      Otherwise the result has no placeholder left, keeps the shape of the path,
      and is itself a reference that parses back to itself. */
  lemma {:induction false} ExpansionOfParsed(r: Ref, id: string)
    requires WellFormed(r)
    ensures ExpandStack(r, id).Err? <==> HasStack(r.path) && !ValidStackID(id)
    ensures ExpandStack(r, id).Ok? ==>
              var e := ExpandStack(r, id).value;
              && e.scheme == r.scheme && e.field == r.field
              && '{' !in e.path && '}' !in e.path
              && |Split(e.path, '/')| == |Split(r.path, '/')|
              && ParseRef(Print(e)) == Ok(e)
  {
    ContainsStack(r.path);
    if !HasStack(r.path) {
      SubstNothing(r.path, "");
      BracesExact(r.path, "");
      PrintThenParse(r);
    } else if ValidStackID(id) {
      ExpandedPathIsGood(r.path, id);
      var e := r.(path := Subst(r.path, id));
      PathExactly(e.path);
      if '?' in e.path { SubstChars(r.path, id, '?'); }
      PrintThenParse(e);
    }
  }

  /** Expanding once is enough: another stack's id changes nothing any more. */
  lemma {:induction false} ExpandedIsFinal(r: Ref, id: string, other: string)
    requires WellFormed(r) && ExpandStack(r, id).Ok?
    ensures ExpandStack(ExpandStack(r, id).value, other) == ExpandStack(r, id)
  {
    ExpansionOfParsed(r, id);
    var e := ExpandStack(r, id).value;
    ContainsStack(e.path);
    forall i ensures !StackAt(e.path, i) {
      if 0 <= i && i + 7 <= |e.path| { assert e.path[i] == e.path[i..i + 7][0]; }
    }
  }
}
