/** Path rules of a secret connection. */
module PathRules {
  import opened Strings
  import opened PathText
  import Glob

  // Reading and checking them, putting a stack's id in, and deciding whether a path is
  // covered.

  datatype RuleProblem =
    | EmptySegment
    | DotSegment
    | DoubleStar
    | AfterStack(next: char)
    | StrayBrace
    | BadChar(problem: CharProblem)
    | OnlyStars

  // ---- what checkRule reports, segment by segment

  /** The character after a {stack} that is neither the end of the segment nor '_'. */
  function AfterStackProblem(s: string): Option<char> {
    if s == "" then None
    else if HasPrefix(s, STACK) then
      var after := s[|STACK|..];
      if after != "" && after[0] != '_' then Some(after[0]) else AfterStackProblem(after)
    else AfterStackProblem(s[1..])
  }

  function StarsToX(s: string): (r: string)
    ensures |r| == |s| && forall i :: 0 <= i < |s| ==> r[i] == if s[i] == '*' then 'x' else s[i]
  {
    seq(|s|, i requires 0 <= i < |s| => if s[i] == '*' then 'x' else s[i])
  }

  function SegmentProblem(seg: string): Option<RuleProblem> {
    if seg == "" then Some(EmptySegment)
    else if seg == "." || seg == ".." then Some(DotSegment)
    else if Contains(seg, "**") then Some(DoubleStar)
    else
      match AfterStackProblem(seg)
      case Some(next) => Some(AfterStack(next))
      case None =>
        var rest := Subst(seg, "x");
        if '{' in rest || '}' in rest then Some(StrayBrace)
        else
          match CharsProblem(StarsToX(rest))
          case Some(p) => Some(BadChar(p))
          case None => None
  }

  function SegmentsProblem(segs: seq<string>): Option<RuleProblem> {
    if segs == [] then None
    else if SegmentProblem(segs[0]).Some? then SegmentProblem(segs[0])
    else SegmentsProblem(segs[1..])
  }

  function ProblemOf(rule: string): Option<RuleProblem> {
    var segs := Split(rule, '/');
    if SegmentsProblem(segs).Some? then SegmentsProblem(segs)
    else if forall i :: 0 <= i < |segs| ==> segs[i] == "*" then Some(OnlyStars)
    else None
  }

  // ---- what an accepted rule is, said without the scan

  ghost predicate GoodSegment(seg: string) {
    && seg != "" && seg != "." && seg != ".."
    && PlainChars(seg)
    && (forall i :: 0 <= i < |seg| - 1 ==> !(seg[i] == '*' && seg[i + 1] == '*'))
    && (forall i :: StackAt(seg, i) ==> i + 7 == |seg| || seg[i + 7] == '_')
    && (forall i :: 0 <= i < |seg| && seg[i] == '{' ==> StackAt(seg, i))
    && (forall i :: 0 <= i < |seg| && seg[i] == '}' ==> StackAt(seg, i - 6))
  }

  ghost predicate GoodRule(rule: string) {
    var segs := Split(rule, '/');
    && (forall i :: 0 <= i < |segs| ==> GoodSegment(segs[i]))
    && (exists i :: 0 <= i < |segs| && segs[i] != "*")
  }

  lemma {:induction false} AfterStackExact(s: string)
    ensures AfterStackProblem(s).None? <==>
            forall i :: StackAt(s, i) ==> i + 7 == |s| || s[i + 7] == '_'
  {
    if s != "" {
      PrefixIsStackAt(s, 0);
      assert s[0..] == s;
      var k := if HasPrefix(s, STACK) then 7 else 1;
      AfterStackExact(s[k..]);
      assert s == s[..k] + s[k..];
      forall i | i >= 0 ensures StackAt(s, k + i) <==> StackAt(s[k..], i) {
        StackAtShift(s[..k], s[k..], i);
      }
      forall i | 0 < i < k ensures !StackAt(s, i) {
        if 0 < i && i + 7 <= |s| { assert s[i..i + 7][0] == s[i]; assert k == 7 ==> s[i] == s[..7][i]; }
      }
      if AfterStackProblem(s).None? {
        forall i | StackAt(s, i) ensures i + 7 == |s| || s[i + 7] == '_' {
          if i >= k { assert StackAt(s[k..], i - k); }
        }
      }
      if forall i :: StackAt(s, i) ==> i + 7 == |s| || s[i + 7] == '_' {
        forall i | StackAt(s[k..], i) ensures i + 7 == |s[k..]| || s[k..][i + 7] == '_' {
          assert StackAt(s, k + i);
        }
      }
    }
  }

  lemma {:induction false} PlainAfterSubst(s: string)
    ensures CharsProblem(StarsToX(Subst(s, "x"))).None? <==> PlainChars(s)
  {
    var r := Subst(s, "x");
    CharsProblemNone(StarsToX(r));
    if PlainChars(s) {
      forall i | 0 <= i < |r| ensures CharProblemOf(StarsToX(r)[i]).None? {
        assert r[i] in r;
        SubstChars(s, "x", r[i]);
      }
    }
    if PlainChars(StarsToX(r)) {
      forall i | 0 <= i < |s| ensures CharProblemOf(s[i]).None? {
        if s[i] !in STACK {
          SubstKeeps(s, "x", s[i]);
          var k :| 0 <= k < |r| && r[k] == s[i];
          assert CharProblemOf(StarsToX(r)[k]).None?;
        }
      }
    }
  }

  lemma {:induction false} DoubleStarExact(s: string)
    ensures Contains(s, "**") <==> exists i :: 0 <= i < |s| - 1 && s[i] == '*' && s[i + 1] == '*'
  {
    if Contains(s, "**") {
      var i := IndexOf(s, "**");
      assert s[i..][..2][0] == '*' && s[i..][..2][1] == '*';
      assert s[i] == '*' && s[i + 1] == '*';
    }
    if i :| 0 <= i < |s| - 1 && s[i] == '*' && s[i + 1] == '*' {
      assert s[i..][..2] == "**";
      ContainsAt(s, "**", i);
    }
  }

  lemma {:induction false} SegmentExact(seg: string)
    ensures SegmentProblem(seg).None? <==> GoodSegment(seg)
  {
    DoubleStarExact(seg);
    AfterStackExact(seg);
    BracesExact(seg, "x");
    PlainAfterSubst(seg);
  }

  lemma {:induction false} SegmentsExact(segs: seq<string>)
    ensures SegmentsProblem(segs).None? <==> forall i :: 0 <= i < |segs| ==> GoodSegment(segs[i])
  {
    if segs != [] {
      SegmentExact(segs[0]);
      SegmentsExact(segs[1..]);
      assert forall i :: 1 <= i < |segs| ==> segs[i] == segs[1..][i - 1];
    }
  }

  /** checkRule accepts exactly the good rules. */
  lemma {:induction false} AcceptedExactly(rule: string)
    ensures ProblemOf(rule).None? <==> GoodRule(rule)
  {
    SegmentsExact(Split(rule, '/'));
  }

  // ---- checkRule itself

  /** The scan's state: what is done holds no placeholder, what is to do decides the outcome. */
  ghost predicate CutState(seg: string, done: string, todo: string) {
    && (forall k :: 0 <= k < |done| ==> !StackAt(done + todo, k))
    && AfterStackProblem(seg) == AfterStackProblem(todo)
    && Subst(seg, "x") == done + Subst(todo, "x")
  }

  lemma {:induction false} CutEnd(seg: string, done: string, todo: string)
    requires CutState(seg, done, todo) && !HasStack(done + todo)
    ensures AfterStackProblem(seg).None? && Subst(seg, "x") == done + todo
  {
    NoneInTail(done, todo);
    NothingLeft(todo);
    SubstNothing(todo, "x");
  }

  lemma {:induction false} CutStep(seg: string, done: string, lead: string, tail: string)
    requires CutState(seg, done, lead + STACK + tail)
    requires forall k :: 0 <= k < |done| + |lead| ==> !StackAt(done + (lead + STACK + tail), k)
    ensures AfterStackProblem(seg) ==
            if tail != "" && tail[0] != '_' then Some(tail[0]) else AfterStackProblem(tail)
    ensures AfterStackProblem(seg) == AfterStackProblem(tail) ==> CutState(seg, done + lead + "x", tail)
  {
    hide Subst, AfterStackProblem, HasStack;
    var todo := lead + STACK + tail;
    assert todo == lead + (STACK + tail);
    LeadHasNone(done, lead, STACK + tail);
    SkipLead(lead, tail);
    SubstAround(lead, tail, "x");
    assert done + (lead + "x" + Subst(tail, "x")) == (done + lead + "x") + Subst(tail, "x");
    var before, i := done + todo, |done| + |lead|;
    assert before[..i] == done + lead && before[i + 7..] == tail;
    NoneInCut(before, done + lead + "x" + tail, i);
  }

  /** The inner loop of checkRule: cuts the placeholders out from the left,
      looking at what follows each of them. */
  method CutPlaceholders(seg: string) returns (after: Option<char>, rest: string)
    ensures after == AfterStackProblem(seg)
    ensures after.None? ==> rest == Subst(seg, "x")
  {
    rest := seg;
    ghost var done, todo := "", seg;
    assert done + todo == seg;
    while true
      invariant rest == done + todo && CutState(seg, done, todo)
      decreases |todo|
    {
      var i := IndexOf(rest, STACK);
      NoneBefore(rest, i);
      if i == |rest| {
        CutEnd(seg, done, todo);
        return None, rest;
      }
      PrefixIsStackAt(rest, i);
      var tail := rest[i + |STACK|..];
      ghost var lead := rest[|done|..i];
      CutAt(rest, done, todo, i);
      CutStep(seg, done, lead, tail);
      if tail != "" && tail[0] != '_' {
        return Some(tail[0]), rest;
      }
      rest := rest[..i] + "x" + tail;
      done, todo := done + lead + "x", tail;
    }
  }

  lemma {:induction false} CutAt(rest: string, done: string, todo: string, i: nat)
    requires rest == done + todo && StackAt(rest, i)
    requires forall k :: 0 <= k < |done| ==> !StackAt(rest, k)
    ensures |done| <= i && todo == rest[|done|..i] + STACK + rest[i + 7..]
    ensures rest[..i] == done + rest[|done|..i]
  {
    assert i >= |done|;
    assert rest == rest[..i] + rest[i..i + 7] + rest[i + 7..];
    assert todo == rest[|done|..];
  }

  lemma {:induction false} NoneBefore(s: string, i: nat)
    requires i == IndexOf(s, STACK)
    ensures forall k :: 0 <= k < i ==> !StackAt(s, k)
    ensures i == |s| ==> !HasStack(s)
  {
    forall k | 0 <= k < i ensures !StackAt(s, k) {
      PrefixIsStackAt(s, k);
    }
  }

  lemma {:induction false} NoneInTail(done: string, todo: string)
    requires !HasStack(done + todo)
    ensures !HasStack(todo)
  {
    forall i ensures !StackAt(todo, i) {
      if i >= 0 { StackAtShift(done, todo, i); }
    }
  }

  lemma {:induction false} NothingLeft(s: string)
    requires !HasStack(s)
    ensures AfterStackProblem(s).None?
  {
    AfterStackExact(s);
  }

  lemma {:induction false} LeadHasNone(done: string, lead: string, tail: string)
    requires forall k :: 0 <= k < |done| + |lead| ==> !StackAt(done + (lead + tail), k)
    ensures forall k :: 0 <= k < |lead| ==> !StackAt(lead + tail, k)
  {
    forall k | 0 <= k < |lead| ensures !StackAt(lead + tail, k) {
      StackAtShift(done, lead + tail, k);
    }
  }

  lemma {:induction false} SkipLead(lead: string, tail: string)
    requires forall k :: 0 <= k < |lead| ==> !StackAt(lead + STACK + tail, k)
    ensures AfterStackProblem(lead + STACK + tail) ==
            if tail != "" && tail[0] != '_' then Some(tail[0]) else AfterStackProblem(tail)
  {
    var s := lead + STACK + tail;
    if lead == "" {
      assert s == STACK + tail;
      assert s[7..] == tail && s[..7] == STACK;
    } else {
      PrefixIsStackAt(s, 0);
      assert s[0..] == s;
      var next := lead[1..] + STACK + tail;
      assert s[1..] == next && s == s[..1] + next;
      forall k | 0 <= k < |lead[1..]| ensures !StackAt(next, k) {
        StackAtShift(s[..1], next, k);
      }
      SkipLead(lead[1..], tail);
    }
  }

  lemma {:induction false} NoneInCut(before: string, cut: string, i: nat)
    requires i + 7 <= |before| && cut == before[..i] + "x" + before[i + 7..]
    requires forall k :: 0 <= k < i ==> !StackAt(before, k)
    ensures forall k :: 0 <= k <= i ==> !StackAt(cut, k)
  {
    assert forall j :: 0 <= j < 7 ==> STACK[j] != 'x' by { StackLetters(); }
    forall k | 0 <= k <= i ensures !StackAt(cut, k) {
      if k + 7 <= i {
        assert !StackAt(before, k);
        assert cut[k..k + 7] == before[k..k + 7];
      } else if k + 7 <= |cut| {
        assert cut[k..k + 7][i - k] == 'x';
      }
    }
  }

  method CheckRule(rule: string) returns (problem: Option<RuleProblem>)
    ensures problem == ProblemOf(rule)
    ensures problem.None? <==> GoodRule(rule)
  {
    AcceptedExactly(rule);
    var segments := Split(rule, '/');
    var allWild := true;
    for n := 0 to |segments|
      invariant SegmentsProblem(segments) == SegmentsProblem(segments[n..])
      invariant allWild <==> forall i :: 0 <= i < n ==> segments[i] == "*"
    {
      var seg := segments[n];
      assert segments[n..][0] == seg && segments[n..][1..] == segments[n + 1..];
      if seg == "" { return Some(EmptySegment); }
      if seg == "." || seg == ".." { return Some(DotSegment); }
      if seg != "*" { allWild := false; }
      if Contains(seg, "**") { return Some(DoubleStar); }
      var after, rest := CutPlaceholders(seg);
      if after.Some? { return Some(AfterStack(after.value)); }
      if '{' in rest || '}' in rest { return Some(StrayBrace); }
      var bad := CheckChars(StarsToX(rest));
      if bad.Some? { return Some(BadChar(bad.value)); }
    }
    problem := if allWild then Some(OnlyStars) else None;
  }

  // ---- ParseRules

  function FieldsAcc(input: string, current: string): seq<string> {
    if input == "" then (if current == "" then [] else [current])
    else if input[0] == '\n' || input[0] == '\r' then
      (if current == "" then [] else [current]) + FieldsAcc(input[1..], "")
    else FieldsAcc(input[1..], current + [input[0]])
  }

  /** strings.FieldsFunc on line ends. */
  function Lines(input: string): seq<string> {
    FieldsAcc(input, "")
  }

  function Trimmed(lines: seq<string>): seq<string> {
    seq(|lines|, i requires 0 <= i < |lines| => TrimSpace(lines[i]))
  }

  function NonEmpty(texts: seq<string>): seq<string> {
    if texts == [] then []
    else if texts[0] == "" then NonEmpty(texts[1..])
    else [texts[0]] + NonEmpty(texts[1..])
  }

  /** The rules of the input, as written: its lines, trimmed, without the blank ones. */
  function Candidates(input: string): seq<string> {
    NonEmpty(Trimmed(Lines(input)))
  }

  predicate IsLineEnd(c: char) {
    c == '\n' || c == '\r'
  }

  lemma {:induction false} OneField(t: string, current: string)
    requires forall c :: c in t ==> !IsLineEnd(c)
    ensures FieldsAcc(t, current) == if current + t == "" then [] else [current + t]
    decreases |t|
  {
    if t == "" {
      assert current + t == current;
    } else {
      assert !IsLineEnd(t[0]);
      assert current + t == (current + [t[0]]) + t[1..];
      OneField(t[1..], current + [t[0]]);
    }
  }

  lemma {:induction false} FieldsJoin(a: string, c: char, b: string, current: string)
    requires IsLineEnd(c)
    ensures FieldsAcc(a + [c] + b, current) == FieldsAcc(a, current) + FieldsAcc(b, "")
    decreases |a|
  {
    if a == "" {
      assert a + [c] + b == [c] + b && ([c] + b)[1..] == b;
    } else {
      assert (a + [c] + b)[0] == a[0] && (a + [c] + b)[1..] == a[1..] + [c] + b;
      if IsLineEnd(a[0]) {
        FieldsJoin(a[1..], c, b, "");
        var first := if current == "" then [] else [current];
        assert (first + FieldsAcc(a[1..], "")) + FieldsAcc(b, "") == first + (FieldsAcc(a[1..], "") + FieldsAcc(b, ""));
      } else {
        FieldsJoin(a[1..], c, b, current + [a[0]]);
      }
    }
  }

  lemma {:induction false} NonEmptyAppend(a: seq<string>, b: seq<string>)
    ensures NonEmpty(a + b) == NonEmpty(a) + NonEmpty(b)
    decreases |a|
  {
    if a == [] {
      assert a + b == b;
    } else {
      assert (a + b)[1..] == a[1..] + b;
      NonEmptyAppend(a[1..], b);
    }
  }

  /** One line: the rule is the line without the white space around it, if anything is left. */
  lemma {:induction false} CandidateOfLine(t: string)
    requires forall c :: c in t ==> !IsLineEnd(c)
    ensures Candidates(t) == if TrimSpace(t) == "" then [] else [TrimSpace(t)]
  {
    hide TrimSpace;
    OneField(t, "");
    assert "" + t == t;
    if t == "" {
      BlankIsNothing();
      assert Trimmed([]) == [];
    } else {
      assert Lines(t) == [t];
      assert Trimmed([t]) == [TrimSpace(t)];
      OneText(TrimSpace(t));
    }
  }

  lemma {:induction false} OneText(text: string)
    ensures NonEmpty([text]) == if text == "" then [] else [text]
  {
    assert [text][1..] == [];
  }

  lemma {:induction false} BlankIsNothing()
    ensures TrimSpace("") == ""
  {
  }

  /** Lines are read one after the other, whichever line end is between them. */
  lemma {:induction false} CandidatesJoin(a: string, c: char, b: string)
    requires IsLineEnd(c)
    ensures Candidates(a + [c] + b) == Candidates(a) + Candidates(b)
  {
    hide TrimSpace;
    FieldsJoin(a, c, b, "");
    assert Trimmed(Lines(a) + Lines(b)) == Trimmed(Lines(a)) + Trimmed(Lines(b));
    NonEmptyAppend(Trimmed(Lines(a)), Trimmed(Lines(b)));
  }

  /** So the rules of any lines written one below the other are those lines, trimmed,
      without the blank ones. */
  lemma {:induction false} CandidatesOfLines(lines: seq<string>)
    requires |lines| >= 1 && forall i, c :: 0 <= i < |lines| && c in lines[i] ==> !IsLineEnd(c)
    ensures Candidates(Join(lines, '\n')) == NonEmpty(Trimmed(lines))
    decreases |lines|
  {
    hide TrimSpace, Candidates;
    CandidateOfLine(lines[0]);
    assert Trimmed(lines)[0] == TrimSpace(lines[0]);
    if |lines| > 1 {
      CandidatesJoin(lines[0], '\n', Join(lines[1..], '\n'));
      CandidatesOfLines(lines[1..]);
      assert Trimmed(lines)[1..] == Trimmed(lines[1..]);
    } else {
      assert Trimmed(lines)[1..] == [];
    }
  }

  predicate NoDuplicates(s: seq<string>) {
    forall i, j :: 0 <= i < j < |s| ==> s[i] != s[j]
  }

  /** a occurs in from before b does. */
  ghost predicate MetBefore(from: seq<string>, a: string, b: string) {
    exists m :: 0 <= m < |from| && from[m] == a && b !in from[..m]
  }

  /** out lists its members in the order in which from first has them. */
  ghost predicate FirstMeetingOrder(out: seq<string>, from: seq<string>) {
    forall i, j :: 0 <= i < j < |out| ==> MetBefore(from, out[i], out[j])
  }

  ghost predicate ParsedFrom(out: seq<string>, from: seq<string>) {
    && NoDuplicates(out)
    && (forall rule :: rule in out <==> rule in from)
    && FirstMeetingOrder(out, from)
  }

  /** Every distinct line once, in the order first met, each a good rule; or the
      first line that is not one. */
  method ParseRules(input: string) returns (r: Result<seq<string>, (string, RuleProblem)>)
    ensures r.Ok? <==> AllGood(Candidates(input))
    ensures r.Ok? ==> ParsedFrom(r.value, Candidates(input)) && AllGood(r.value)
    ensures r.Err? ==> FirstBad(Candidates(input), r.error.0, r.error.1)
  {
    hide NonEmpty, ParsedFrom, AllGood, FirstBad, GoodRule, ProblemOf, TrimSpace;
    var out: seq<string> := [];
    var seen: set<string> := {};
    var lines := Lines(input);
    ghost var texts := Trimmed(lines);
    ghost var taken: seq<string> := [];
    NothingRead(texts);
    for n := 0 to |lines|
      invariant Reading(texts, n, taken, out, seen)
    {
      var rule := TrimSpace(lines[n]);
      assert texts[n] == rule;
      if rule == "" {
        SkipText(texts, n, taken, out, seen);
      } else {
        var problem := CheckRule(rule);
        if problem.Some? {
          BadText(texts, n, taken, out, seen, problem.value);
          return Err((rule, problem.value));
        }
        TakeText(texts, n, taken, out, seen);
        if rule !in seen {
          seen := seen + {rule};
          out := out + [rule];
        }
        taken := taken + [rule];
      }
    }
    AllTaken(texts, taken, out, seen);
    r := Ok(out);
  }

  /** The state of the reading loop: taken are the rules among the texts before n. */
  ghost predicate Reading(texts: seq<string>, n: int, taken: seq<string>, out: seq<string>, seen: set<string>) {
    && 0 <= n <= |texts|
    && NonEmpty(texts) == taken + NonEmpty(texts[n..])
    && ParsedFrom(out, taken)
    && (forall rule :: rule in out <==> rule in seen)
    && AllGood(taken)
  }

  lemma {:induction false} NothingRead(texts: seq<string>)
    ensures Reading(texts, 0, [], [], {})
  {
    assert texts[0..] == texts && [] + NonEmpty(texts) == NonEmpty(texts);
  }

  lemma {:induction false} NextText(texts: seq<string>, n: nat)
    requires n < |texts|
    ensures NonEmpty(texts[n..]) == (if texts[n] == "" then [] else [texts[n]]) + NonEmpty(texts[n + 1..])
  {
    assert texts[n..][1..] == texts[n + 1..] && texts[n..][0] == texts[n];
  }

  lemma {:induction false} SkipText(texts: seq<string>, n: nat, taken: seq<string>, out: seq<string>, seen: set<string>)
    requires n < |texts| && Reading(texts, n, taken, out, seen) && texts[n] == ""
    ensures Reading(texts, n + 1, taken, out, seen)
  {
    hide NonEmpty, ParsedFrom, AllGood;
    NextText(texts, n);
  }

  lemma {:induction false} TakeText(texts: seq<string>, n: nat, taken: seq<string>, out: seq<string>, seen: set<string>)
    requires n < |texts| && Reading(texts, n, taken, out, seen) && texts[n] != "" && GoodRule(texts[n])
    ensures var rule := texts[n];
            Reading(texts, n + 1, taken + [rule],
                    if rule in seen then out else out + [rule], if rule in seen then seen else seen + {rule})
  {
    hide NonEmpty, ParsedFrom, GoodRule;
    var rule, rest := texts[n], NonEmpty(texts[n + 1..]);
    NextText(texts, n);
    assert (taken + [rule]) + rest == taken + ([rule] + rest);
    SeenGrows(out, taken, seen, rule);
    TakeOne(out, taken, rule);
  }

  lemma {:induction false} SeenGrows(out: seq<string>, taken: seq<string>, seen: set<string>, rule: string)
    requires ParsedFrom(out, taken) && forall r :: r in out <==> r in seen
    ensures rule in seen <==> rule in taken
    ensures forall r :: r in (if rule in seen then out else out + [rule]) <==> r in seen + {rule}
  {
  }

  lemma {:induction false} BadText(texts: seq<string>, n: nat, taken: seq<string>, out: seq<string>,
        seen: set<string>, p: RuleProblem)
    requires n < |texts| && Reading(texts, n, taken, out, seen) && texts[n] != "" && ProblemOf(texts[n]) == Some(p)
    ensures FirstBad(NonEmpty(texts), texts[n], p) && !AllGood(NonEmpty(texts))
  {
    hide NonEmpty, ParsedFrom, GoodRule, ProblemOf;
    var all, rest := NonEmpty(texts), NonEmpty(texts[n + 1..]);
    NextText(texts, n);
    AcceptedExactly(texts[n]);
    assert all == taken + ([texts[n]] + rest);
    assert all[|taken|] == texts[n] && all[..|taken|] == taken;
  }

  lemma {:induction false} AllTaken(texts: seq<string>, taken: seq<string>, out: seq<string>, seen: set<string>)
    requires Reading(texts, |texts|, taken, out, seen)
    ensures ParsedFrom(out, NonEmpty(texts)) && AllGood(NonEmpty(texts)) && AllGood(out)
  {
    assert NonEmpty(texts) == taken;
    forall i | 0 <= i < |out| ensures GoodRule(out[i]) {
      assert out[i] in taken;
    }
  }

  ghost predicate AllGood(rules: seq<string>) {
    forall i :: 0 <= i < |rules| ==> GoodRule(rules[i])
  }

  /** rule is the first of all that is not a good rule, and p is what is wrong with it. */
  ghost predicate FirstBad(all: seq<string>, rule: string, p: RuleProblem) {
    ProblemOf(rule) == Some(p) &&
    exists k :: 0 <= k < |all| && all[k] == rule && AllGood(all[..k])
  }

  lemma {:induction false} TakeOne(out: seq<string>, taken: seq<string>, rule: string)
    requires ParsedFrom(out, taken)
    ensures ParsedFrom(if rule in taken then out else out + [rule], taken + [rule])
  {
    var next := if rule in taken then out else out + [rule];
    assert forall r :: r in next <==> r in taken + [rule];
    TakeKeepsOrder(out, taken, rule);
    if rule !in taken {
      assert rule !in out;
    }
  }

  lemma {:induction false} TakeKeepsOrder(out: seq<string>, taken: seq<string>, rule: string)
    requires ParsedFrom(out, taken)
    ensures FirstMeetingOrder(if rule in taken then out else out + [rule], taken + [rule])
  {
    var more := taken + [rule];
    var next := if rule in taken then out else out + [rule];
    forall i, j | 0 <= i < j < |next|
      ensures MetBefore(more, next[i], next[j])
    {
      assert next[i] == out[i] && out[i] in taken;
      var m: nat;
      if j < |out| {
        m :| 0 <= m < |taken| && taken[m] == out[i] && out[j] !in taken[..m];
      } else {
        m :| 0 <= m < |taken| && taken[m] == out[i];
      }
      assert more[..m] == taken[..m] && more[m] == next[i];
    }
  }

  // ---- expanding and matching

  /** What a stack's rules are: the id put in each, or none for an id that is not one. */
  function Expanded(rules: seq<string>, id: string): (r: seq<string>)
    ensures ValidStackID(id) ==> |r| == |rules| && forall i :: 0 <= i < |rules| ==> r[i] == Subst(rules[i], id)
    ensures !ValidStackID(id) ==> r == []
  {
    if ValidStackID(id) then seq(|rules|, i requires 0 <= i < |rules| => Subst(rules[i], id)) else []
  }

  method ExpandRules(rules: seq<string>, stackID: string) returns (out: seq<string>)
    ensures out == Expanded(rules, stackID)
  {
    if !ValidStackID(stackID) { return []; }
    out := [];
    for i := 0 to |rules|
      invariant |out| == i && forall k :: 0 <= k < i ==> out[k] == Subst(rules[k], stackID)
    {
      out := out + [Subst(rules[i], stackID)];
    }
  }

  /** An (expanded) rule covers what it names and everything below it. */
  ghost predicate Covers(rule: string, path: string) {
    CoversSegments(Split(rule, '/'), Split(path, '/'))
  }

  ghost predicate CoversSegments(want: seq<string>, segs: seq<string>) {
    |want| <= |segs| && forall i :: 0 <= i < |want| ==> Glob.Matches(want[i], segs[i])
  }

  method RuleAllowed(rules: seq<string>, path: string) returns (allowed: bool)
    ensures allowed <==> exists rule :: rule in rules && Covers(rule, path)
  {
    var segs := Split(path, '/');
    for n := 0 to |rules|
      invariant forall k :: 0 <= k < n ==> !Covers(rules[k], path)
    {
      var want := Split(rules[n], '/');
      if |segs| >= |want| {
        var ok := true;
        for i := 0 to |want|
          invariant ok && forall k :: 0 <= k < i ==> Glob.Matches(want[k], segs[k])
        {
          ok := Glob.GlobSegment(want[i], segs[i]);
          if !ok { break; }
        }
        if ok {
          assert Covers(rules[n], path);
          return true;
        }
      }
    }
    allowed := false;
  }
}
