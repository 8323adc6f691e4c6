/** Vulnerability findings: sorted without duplicates, and counted per distinct id. */
module Findings {
  import opened Strings
  import opened Sorting

  /** The normalized severities, which are all a report holds. */
  datatype Severity = Critical | High | Medium | Low | Unknown

  datatype Finding = Finding(id: string, severity: Severity, package: string, installed: string, fixedIn: string,
        title: string)

  datatype Counts = Counts(critical: nat, high: nat, medium: nat, low: nat, unknown: nat, fixableCritical: nat,
        fixableHigh: nat)

  function Rank(s: Severity): nat {
    match s
    case Critical => 0
    case High => 1
    case Medium => 2
    case Low => 3
    case Unknown => 4
  }

  // ---- Sort

  predicate Before(a: Finding, b: Finding) {
    if Rank(a.severity) != Rank(b.severity) then Rank(a.severity) < Rank(b.severity)
    else if a.id != b.id then Less(a.id, b.id)
    else Less(a.package, b.package)
  }

  /** a may stand before b: it is more severe, or as severe with a smaller id, or the same
      id with a package that is not greater. */
  predicate InOrder(a: Finding, b: Finding) {
    || Worse(a.severity, b.severity)
    || (a.severity == b.severity && Less(a.id, b.id))
    || (a.severity == b.severity && a.id == b.id && !Less(b.package, a.package))
  }

  predicate Worse(a: Severity, b: Severity) {
    match a
    case Critical => !b.Critical?
    case High => b.Medium? || b.Low? || b.Unknown?
    case Medium => b.Low? || b.Unknown?
    case Low => b.Unknown?
    case Unknown => false
  }

  lemma {:induction false} NotBeforeMeans(a: Finding, b: Finding)
    ensures !Before(b, a) ==> InOrder(a, b)
  {
    hide Less;
    LessTotal(a.id, b.id);
  }

  lemma {:induction false} BeforeOrders()
    ensures StrictWeak(Before)
  {
    forall a: Finding, b: Finding ensures !(Before(a, b) && Before(b, a)) {
      LessTotal(a.id, b.id);
      LessTotal(a.package, b.package);
    }
    forall a: Finding, b: Finding, c: Finding | !Before(b, a) && !Before(c, b) ensures !Before(c, a) {
      NotLessTransitive(a.id, b.id, c.id);
      NotLessTransitive(a.package, b.package, c.package);
      LessTotal(a.id, b.id);
      LessTotal(b.id, c.id);
      LessTotal(a.id, c.id);
      LessTotal(a.package, a.package);
    }
  }

  ghost predicate NoRepeats(fs: seq<Finding>) {
    forall i, j :: 0 <= i < j < |fs| ==> fs[i] != fs[j]
  }

  function Members(fs: seq<Finding>): set<Finding> {
    set f | f in fs
  }

  /** The distinct findings, most severe first, then by id and package. */
  method SortFindings(findings: seq<Finding>) returns (out: seq<Finding>)
    ensures Members(out) == Members(findings) && NoRepeats(out)
    ensures Sorted(out, Before)
    ensures forall i, j :: 0 <= i < j < |out| ==> InOrder(out[i], out[j])
  {
    var seen: set<Finding> := {};
    out := [];
    for i := 0 to |findings|
      invariant NoRepeats(out)
      invariant Members(out) == seen == Members(findings[..i])
    {
      var f := findings[i];
      assert findings[..i + 1] == findings[..i] + [f];
      if f !in seen {
        seen := seen + {f};
        out := out + [f];
      }
    }
    assert findings[..|findings|] == findings;
    BeforeOrders();
    var sorted := Sort(out, Before);
    SameMembers(out, sorted);
    StillDistinct(out, sorted);
    out := sorted;
    forall i, j | 0 <= i < j < |out| ensures InOrder(out[i], out[j]) {
      NotBeforeMeans(out[i], out[j]);
    }
  }

  lemma {:induction false} DistinctByCount(fs: seq<Finding>)
    ensures NoRepeats(fs) <==> |Members(fs)| == |fs|
    ensures |Members(fs)| <= |fs|
    decreases |fs|
  {
    if fs != [] {
      var n := |fs| - 1;
      var front, f := fs[..n], fs[n];
      assert fs == front + [f];
      DistinctByCount(front);
      assert Members(fs) == Members(front) + {f};
      if NoRepeats(fs) {
        assert f !in Members(front);
      } else if NoRepeats(front) {
        assert f in Members(front);
      }
    } else {
      assert Members(fs) == {};
    }
  }

  lemma {:induction false} StillDistinct(a: seq<Finding>, b: seq<Finding>)
    requires NoRepeats(a) && multiset(a) == multiset(b)
    ensures NoRepeats(b)
  {
    SameMembers(a, b);
    assert Members(a) == Members(b);
    DistinctByCount(a);
    DistinctByCount(b);
  }

  // ---- what is to be counted

  function Ids(fs: set<Finding>): set<string> {
    set f | f in fs :: f.id
  }

  predicate Has(fs: set<Finding>, id: string, s: Severity) {
    exists f | f in fs :: f.id == id && f.severity == s
  }

  /** The worst severity any finding gives the id. */
  predicate Worst(fs: set<Finding>, id: string, s: Severity) {
    Has(fs, id, s) && forall f | f in fs :: f.id == id ==> Rank(s) <= Rank(f.severity)
  }

  /** Some finding of the id names a version with a fix. */
  predicate Fixable(fs: set<Finding>, id: string) {
    exists f | f in fs :: f.id == id && f.fixedIn != ""
  }

  function IdsAt(fs: set<Finding>, s: Severity): set<string> {
    set id | id in Ids(fs) && Worst(fs, id, s)
  }

  function FixableAt(fs: set<Finding>, s: Severity): set<string> {
    set id | id in IdsAt(fs, s) && Fixable(fs, id)
  }

  /** Each distinct id once, at its worst severity. */
  function CountsOf(fs: set<Finding>): Counts {
    Counts(|IdsAt(fs, Critical)|, |IdsAt(fs, High)|, |IdsAt(fs, Medium)|, |IdsAt(fs, Low)|, |IdsAt(fs, Unknown)|,
           |FixableAt(fs, Critical)|, |FixableAt(fs, High)|)
  }

  /** The worst severity of an id, from the severities its findings have. */
  lemma {:induction false} WorstMeans(fs: set<Finding>, id: string)
    ensures Worst(fs, id, Critical) <==> Has(fs, id, Critical)
    ensures Worst(fs, id, High) <==> Has(fs, id, High) && !Has(fs, id, Critical)
    ensures Worst(fs, id, Medium) <==> Has(fs, id, Medium) && !Has(fs, id, Critical) && !Has(fs, id, High)
    ensures Worst(fs, id, Low) <==>
              Has(fs, id, Low) && !Has(fs, id, Critical) && !Has(fs, id, High) && !Has(fs, id, Medium)
    ensures Worst(fs, id, Unknown) <==>
              && Has(fs, id, Unknown) && !Has(fs, id, Critical) && !Has(fs, id, High)
              && !Has(fs, id, Medium) && !Has(fs, id, Low)
  {
  }

  function WithSeverity(fs: set<Finding>, s: Severity): set<string> {
    set f | f in fs && f.severity == s :: f.id
  }

  function WithFix(fs: set<Finding>): set<string> {
    set f | f in fs && f.fixedIn != "" :: f.id
  }

  /** So an id counts as high, say, exactly if it has a high finding and no critical one. */
  lemma {:induction false} CountsMean(fs: set<Finding>)
    ensures var c := CountsOf(fs);
            var critical := WithSeverity(fs, Critical);
            var high := WithSeverity(fs, High) - critical;
            var medium := WithSeverity(fs, Medium) - critical - high;
            var low := WithSeverity(fs, Low) - critical - high - medium;
            && c.critical == |critical| && c.high == |high| && c.medium == |medium| && c.low == |low|
            && c.unknown == |Ids(fs) - critical - high - medium - low|
            && c.fixableCritical == |critical * WithFix(fs)| && c.fixableHigh == |high * WithFix(fs)|
  {
    var critical := WithSeverity(fs, Critical);
    var high := WithSeverity(fs, High) - critical;
    var medium := WithSeverity(fs, Medium) - critical - high;
    var low := WithSeverity(fs, Low) - critical - high - medium;
    hide WithSeverity, WithFix, Worst, Has, IdsAt, FixableAt, Fixable, Ids;
    forall id
      ensures id in IdsAt(fs, Critical) <==> id in critical
      ensures id in IdsAt(fs, High) <==> id in high
      ensures id in IdsAt(fs, Medium) <==> id in medium
      ensures id in IdsAt(fs, Low) <==> id in low
      ensures id in IdsAt(fs, Unknown) <==> id in Ids(fs) - critical - high - medium - low
      ensures id in FixableAt(fs, Critical) <==> id in critical * WithFix(fs)
      ensures id in FixableAt(fs, High) <==> id in high * WithFix(fs)
    {
      IdsAtMean(fs, id);
      HasIs(fs, id);
      FixIs(fs, id);
    }
    assert IdsAt(fs, Critical) == critical && IdsAt(fs, High) == high && IdsAt(fs, Medium) == medium;
    assert IdsAt(fs, Low) == low && IdsAt(fs, Unknown) == Ids(fs) - critical - high - medium - low;
    assert FixableAt(fs, Critical) == critical * WithFix(fs) && FixableAt(fs, High) == high * WithFix(fs);
  }

  lemma {:induction false} HasIs(fs: set<Finding>, id: string)
    ensures forall s :: Has(fs, id, s) <==> id in WithSeverity(fs, s)
    ensures id in Ids(fs) <==>
              || Has(fs, id, Critical) || Has(fs, id, High) || Has(fs, id, Medium)
              || Has(fs, id, Low) || Has(fs, id, Unknown)
  {
    if id in Ids(fs) {
      var f :| f in fs && f.id == id;
      assert Has(fs, id, f.severity);
    }
  }

  lemma {:induction false} FixIs(fs: set<Finding>, id: string)
    ensures forall s :: id in FixableAt(fs, s) <==> id in IdsAt(fs, s) && id in WithFix(fs)
  {
    hide IdsAt;
  }

  ghost predicate AtMeans(fs: set<Finding>, id: string) {
    && (id in IdsAt(fs, Critical) <==> Has(fs, id, Critical))
    && (id in IdsAt(fs, High) <==> Has(fs, id, High) && !Has(fs, id, Critical))
    && (id in IdsAt(fs, Medium) <==> Has(fs, id, Medium) && !Has(fs, id, Critical) && !Has(fs, id, High))
    && (id in IdsAt(fs, Low) <==>
          Has(fs, id, Low) && !Has(fs, id, Critical) && !Has(fs, id, High) && !Has(fs, id, Medium))
    && (id in IdsAt(fs, Unknown) <==>
          && Has(fs, id, Unknown) && !Has(fs, id, Critical) && !Has(fs, id, High)
          && !Has(fs, id, Medium) && !Has(fs, id, Low))
  }

  lemma {:induction false} IdsAtMean(fs: set<Finding>, id: string)
    ensures AtMeans(fs, id)
  {
    WorstMeans(fs, id);
    hide Worst;
  }

  lemma {:induction false} HasWorst(fs: set<Finding>, f: Finding)
    requires f in fs
    ensures exists s :: Worst(fs, f.id, s)
    decreases Rank(f.severity)
  {
    if exists g :: g in fs && g.id == f.id && Rank(g.severity) < Rank(f.severity) {
      var g :| g in fs && g.id == f.id && Rank(g.severity) < Rank(f.severity);
      HasWorst(fs, g);
    } else {
      assert Worst(fs, f.id, f.severity);
    }
  }

  lemma {:induction false} OneWorst(fs: set<Finding>, id: string, s: Severity, t: Severity)
    ensures Worst(fs, id, s) && Worst(fs, id, t) ==> s == t
  {
    if Worst(fs, id, s) && Worst(fs, id, t) {
      var f :| f in fs && f.id == id && f.severity == s;
      var g :| g in fs && g.id == id && g.severity == t;
      assert Rank(s) == Rank(t);
    }
  }

  lemma {:induction false} DisjointUnion(a: set<string>, b: set<string>)
    requires a !! b
    ensures |a + b| == |a| + |b|
  {
  }

  lemma {:induction false} IdsAtDisjoint(fs: set<Finding>, s: Severity, t: Severity)
    requires s != t
    ensures IdsAt(fs, s) !! IdsAt(fs, t)
  {
    forall id ensures !(Worst(fs, id, s) && Worst(fs, id, t)) {
      OneWorst(fs, id, s, t);
    }
  }

  function AnyWorst(fs: set<Finding>): set<string> {
    (((IdsAt(fs, Critical) + IdsAt(fs, High)) + IdsAt(fs, Medium)) + IdsAt(fs, Low)) + IdsAt(fs, Unknown)
  }

  lemma {:induction false} EveryIdSomewhere(fs: set<Finding>)
    ensures Ids(fs) == AnyWorst(fs)
  {
    forall id | id in Ids(fs) ensures id in AnyWorst(fs) {
      var f :| f in fs && f.id == id;
      HasWorst(fs, f);
      var s :| Worst(fs, id, s);
      assert id in IdsAt(fs, s);
    }
  }

  /** The counts add up to the number of distinct ids, and no more can be fixed than there are. */
  lemma {:induction false} CountsAddUp(fs: set<Finding>)
    ensures var c := CountsOf(fs);
            && c.critical + c.high + c.medium + c.low + c.unknown == |Ids(fs)|
            && c.fixableCritical <= c.critical && c.fixableHigh <= c.high
  {
    var c, h, m, l, u := IdsAt(fs, Critical), IdsAt(fs, High), IdsAt(fs, Medium), IdsAt(fs, Low), IdsAt(fs, Unknown);
    EveryIdSomewhere(fs);
    IdsAtDisjoint(fs, Critical, High);
    IdsAtDisjoint(fs, Critical, Medium);
    IdsAtDisjoint(fs, High, Medium);
    IdsAtDisjoint(fs, Critical, Low);
    IdsAtDisjoint(fs, High, Low);
    IdsAtDisjoint(fs, Medium, Low);
    IdsAtDisjoint(fs, Critical, Unknown);
    IdsAtDisjoint(fs, High, Unknown);
    IdsAtDisjoint(fs, Medium, Unknown);
    IdsAtDisjoint(fs, Low, Unknown);
    DisjointUnion(c, h);
    DisjointUnion(c + h, m);
    DisjointUnion((c + h) + m, l);
    DisjointUnion(((c + h) + m) + l, u);
    SubsetSize(FixableAt(fs, Critical), c);
    SubsetSize(FixableAt(fs, High), h);
  }

  lemma {:induction false} SubsetSize(a: set<string>, b: set<string>)
    requires a <= b
    ensures |a| <= |b|
  {
    assert b == a + (b - a);
    DisjointUnion(a, b - a);
  }

  // ---- Summarize

  datatype Seen = Seen(severity: Severity, fixable: bool)

  /** The map after reading some findings: an id's first severity, and whether any has a fix. */
  ghost predicate Gathered(fs: seq<Finding>, byId: map<string, Seen>) {
    && (forall id :: id in byId <==> exists f :: f in fs && f.id == id)
    && (forall id :: id in byId ==> First(fs, id, byId[id].severity))
    && (forall id :: id in byId ==> (byId[id].fixable <==> exists f :: f in fs && f.id == id && f.fixedIn != ""))
  }

  ghost predicate First(fs: seq<Finding>, id: string, s: Severity) {
    exists i :: 0 <= i < |fs| && fs[i].id == id && fs[i].severity == s && forall j :: 0 <= j < i ==> fs[j].id != id
  }

  lemma {:induction false} FirstStays(fs: seq<Finding>, f: Finding, id: string, s: Severity)
    requires First(fs, id, s)
    ensures First(fs + [f], id, s)
  {
    var i :| 0 <= i < |fs| && fs[i].id == id && fs[i].severity == s && forall j :: 0 <= j < i ==> fs[j].id != id;
    var all := fs + [f];
    assert all[i] == fs[i] && forall j :: 0 <= j < i ==> all[j] == fs[j];
  }

  lemma {:induction false} FirstIsNew(fs: seq<Finding>, f: Finding)
    requires forall g :: g in fs ==> g.id != f.id
    ensures First(fs + [f], f.id, f.severity)
  {
    var all := fs + [f];
    assert all[|fs|] == f;
    forall j | 0 <= j < |fs| ensures all[j].id != f.id { assert fs[j] in fs; }
  }

  lemma {:induction false} GatherNext(fs: seq<Finding>, f: Finding, byId: map<string, Seen>)
    requires Gathered(fs, byId)
    ensures var entry := if f.id in byId then byId[f.id] else Seen(f.severity, false);
            Gathered(fs + [f], byId[f.id := if f.fixedIn != "" then entry.(fixable := true) else entry])
  {
    hide First;
    var all := fs + [f];
    assert forall x :: x in all <==> x in fs || x == f;
    forall id | id in byId ensures First(all, id, byId[id].severity) {
      FirstStays(fs, f, id, byId[id].severity);
    }
    if f.id !in byId {
      FirstIsNew(fs, f);
    }
  }

  /** What the entries counted so far come to. */
  ghost predicate Tallied(byId: map<string, Seen>, done: set<string>, c: Counts) {
    && c.critical == |At(byId, done, Critical)| && c.high == |At(byId, done, High)|
        && c.medium == |At(byId, done, Medium)|
    && c.low == |At(byId, done, Low)| && c.unknown == |At(byId, done, Unknown)|
    && c.fixableCritical == |FixAt(byId, done, Critical)| && c.fixableHigh == |FixAt(byId, done, High)|
  }

  function At(byId: map<string, Seen>, done: set<string>, s: Severity): set<string> {
    set id | id in done && id in byId && byId[id].severity == s
  }

  function FixAt(byId: map<string, Seen>, done: set<string>, s: Severity): set<string> {
    set id | id in done && id in byId && byId[id].severity == s && byId[id].fixable
  }

  function Tally(c: Counts, s: Seen): Counts {
    match s.severity
    case Critical => c.(critical := c.critical + 1, fixableCritical := c.fixableCritical + if s.fixable then 1 else 0)
    case High => c.(high := c.high + 1, fixableHigh := c.fixableHigh + if s.fixable then 1 else 0)
    case Medium => c.(medium := c.medium + 1)
    case Low => c.(low := c.low + 1)
    case Unknown => c.(unknown := c.unknown + 1)
  }

  lemma {:induction false} AtNext(byId: map<string, Seen>, done: set<string>, id: string, s: Severity)
    requires id in byId && id !in done
    ensures |At(byId, done + {id}, s)| == |At(byId, done, s)| + if byId[id].severity == s then 1 else 0
  {
    if byId[id].severity == s {
      assert At(byId, done + {id}, s) == At(byId, done, s) + {id};
    } else {
      assert At(byId, done + {id}, s) == At(byId, done, s);
    }
  }

  lemma {:induction false} FixAtNext(byId: map<string, Seen>, done: set<string>, id: string, s: Severity)
    requires id in byId && id !in done
    ensures |FixAt(byId, done + {id}, s)|
            == |FixAt(byId, done, s)| + if byId[id].severity == s && byId[id].fixable then 1 else 0
  {
    if byId[id].severity == s && byId[id].fixable {
      assert FixAt(byId, done + {id}, s) == FixAt(byId, done, s) + {id};
    } else {
      assert FixAt(byId, done + {id}, s) == FixAt(byId, done, s);
    }
  }

  lemma {:induction false} TallyNext(byId: map<string, Seen>, done: set<string>, id: string, c: Counts)
    requires Tallied(byId, done, c) && id in byId && id !in done
    ensures Tallied(byId, done + {id}, Tally(c, byId[id]))
  {
    AtNext(byId, done, id, Critical);
    AtNext(byId, done, id, High);
    AtNext(byId, done, id, Medium);
    AtNext(byId, done, id, Low);
    AtNext(byId, done, id, Unknown);
    FixAtNext(byId, done, id, Critical);
    FixAtNext(byId, done, id, High);
  }

  /** In sorted findings an id's first severity is its worst. */
  lemma {:induction false} FirstIsWorst(fs: seq<Finding>, id: string, s: Severity)
    requires Sorted(fs, Before) && First(fs, id, s)
    ensures Worst(Members(fs), id, s)
  {
    var i :| 0 <= i < |fs| && fs[i].id == id && fs[i].severity == s && forall j :: 0 <= j < i ==> fs[j].id != id;
    assert fs[i] in Members(fs);
    forall f | f in Members(fs) && f.id == id ensures Rank(s) <= Rank(f.severity) {
      var j :| 0 <= j < |fs| && fs[j] == f;
      if i < j { assert !Before(fs[j], fs[i]); }
    }
  }

  lemma {:induction false} TalliedIsCounts(fs: seq<Finding>, byId: map<string, Seen>, c: Counts)
    requires Sorted(fs, Before) && Gathered(fs, byId) && Tallied(byId, byId.Keys, c)
    ensures c == CountsOf(Members(fs))
  {
    hide Sorted, First, Worst, Fixable;
    var all := Members(fs);
    forall id | id in byId ensures forall s :: Worst(all, id, s) <==> byId[id].severity == s {
      FirstIsWorst(fs, id, byId[id].severity);
      forall s | Worst(all, id, s) ensures s == byId[id].severity { OneWorst(all, id, s, byId[id].severity); }
    }
    assert Ids(all) == byId.Keys;
    forall id | id in byId ensures Fixable(all, id) <==> byId[id].fixable { FixableIs(fs, id); }
    forall s ensures IdsAt(all, s) == At(byId, byId.Keys, s) && FixableAt(all, s) == FixAt(byId, byId.Keys, s) {}
  }

  lemma {:induction false} FixableIs(fs: seq<Finding>, id: string)
    ensures Fixable(Members(fs), id) <==> exists f :: f in fs && f.id == id && f.fixedIn != ""
  {
    assert forall f :: f in Members(fs) <==> f in fs;
  }

  /** The counts of a sorted report are those of the set of its findings: each id once, at
      its worst severity, fixable if any of its findings has a fix. */
  method Summarize(findings: seq<Finding>) returns (c: Counts)
    ensures Sorted(findings, Before) ==> c == CountsOf(Members(findings))
  {
    var byId: map<string, Seen> := map[];
    for i := 0 to |findings|
      invariant Gathered(findings[..i], byId)
    {
      var f := findings[i];
      assert findings[..i + 1] == findings[..i] + [f];
      GatherNext(findings[..i], f, byId);
      var s := if f.id in byId then byId[f.id] else Seen(f.severity, false);
      if f.fixedIn != "" {
        s := s.(fixable := true);
      }
      byId := byId[f.id := s];
    }
    assert findings[..|findings|] == findings;
    c := Counts(0, 0, 0, 0, 0, 0, 0);
    var done: set<string> := {};
    while done != byId.Keys
      invariant done <= byId.Keys && Tallied(byId, done, c)
      decreases byId.Keys - done
    {
      var id :| id in byId.Keys && id !in done;
      TallyNext(byId, done, id, c);
      c := Tally(c, byId[id]);
      done := done + {id};
    }
    if Sorted(findings, Before) { TalliedIsCounts(findings, byId, c); }
  }

  /** A scan's counts: they depend on the set of findings only, not on their order or on
      repeats, and add up to the number of distinct ids. */
  method CountScan(findings: seq<Finding>) returns (sorted: seq<Finding>, c: Counts)
    ensures c == CountsOf(Members(findings))
    ensures c.critical + c.high + c.medium + c.low + c.unknown == |Ids(Members(findings))|
    ensures c.fixableCritical <= c.critical && c.fixableHigh <= c.high
  {
    sorted := SortFindings(findings);
    c := Summarize(sorted);
    CountsAddUp(Members(findings));
  }

  /** Counting before sorting would not do: the first finding of an id decides. */
  lemma {:induction false} UnsortedFirstIsNotWorst()
    ensures var low, high := Finding("CVE-1", Low, "a", "", "", ""), Finding("CVE-1", High, "b", "", "", "");
            First([low, high], "CVE-1", Low) && !Worst(Members([low, high]), "CVE-1", Low)
  {
    var low, high := Finding("CVE-1", Low, "a", "", "", ""), Finding("CVE-1", High, "b", "", "", "");
    assert [low, high][0] == low;
    assert high in Members([low, high]);
  }
}
