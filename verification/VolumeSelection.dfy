/** Which volumes a backup job covers: the union of ticked volumes, whole stacks and
    label rules, less what it excludes. */
module VolumeSelection {
  import opened Strings
  import opened Sorting

  /** A named volume of the job's host, with what its selection depends on. */
  datatype Choice = Choice(name: string, project: string, labels: map<string, string>)

  datatype Job = Job(volumes: seq<string>, stacks: seq<string>, labelRules: seq<string>, excluded: seq<string>)

  datatype Selected = Selected(name: string, why: seq<string>)

  datatype Selection = Selection(volumes: seq<Selected>, excluded: seq<string>)

  // ---- label rules

  /** What a rule asks for: a label, or a label with one value. */
  datatype Rule = HasLabel(key: string) | LabelIs(key: string, value: string)

  function RuleText(r: Rule): string {
    match r
    case HasLabel(k) => k
    case LabelIs(k, v) => k + "=" + v
  }

  predicate Satisfies(r: Rule, labels: map<string, string>) {
    r.key in labels && (r.LabelIs? ==> labels[r.key] == r.value)
  }

  predicate LabelRuleMatches(rule: string, labels: map<string, string>) {
    var i := IndexByte(rule, '=');
    var key := rule[..i];
    key in labels && (i < |rule| ==> labels[key] == rule[i + 1..])
  }

  /** The text of a rule is read back as that rule, whatever its value contains. */
  lemma {:induction false} LabelRuleMeans(r: Rule, labels: map<string, string>)
    requires '=' !in r.key
    ensures LabelRuleMatches(RuleText(r), labels) <==> Satisfies(r, labels)
  {
    var text := RuleText(r);
    assert text[..|r.key|] == r.key;
    var i := IndexByte(text, '=');
    if r.LabelIs? {
      assert text[|r.key|] == '=' && text[|r.key| + 1..] == r.value;
      assert i >= |r.key| by {
        assert forall k :: 0 <= k < |r.key| ==> text[k] == r.key[k] && text[k] != '=';
      }
    } else {
      assert forall k :: 0 <= k < |text| ==> text[k] in r.key;
    }
  }

  // ---- what a job takes

  /** Why a reported volume is selected, in the order the job's page lists it. */
  function Reasons(job: Job, c: Choice): seq<string> {
    (if c.name in job.volumes then ["ticked"] else [])
    + ((if c.project != "" && c.project in job.stacks then ["stack " + c.project] else [])
       + LabelReasons(job.labelRules, c.labels))
  }

  function LabelReasons(rules: seq<string>, labels: map<string, string>): seq<string> {
    if rules == [] then []
    else
      var n := |rules| - 1;
      LabelReasons(rules[..n], labels) + (if LabelRuleMatches(rules[n], labels) then ["label " + rules[n]] else [])
  }

  predicate Takes(job: Job, c: Choice) {
    || c.name in job.volumes
    || (c.project != "" && c.project in job.stacks)
    || exists rule | rule in job.labelRules :: LabelRuleMatches(rule, c.labels)
  }

  predicate Reported(choices: seq<Choice>, name: string) {
    exists c | c in choices :: c.name == name
  }

  /** The job covers the volume: something selects it and nothing excludes it. */
  predicate Covers(job: Job, choices: seq<Choice>, name: string) {
    && name !in job.excluded
    && ((exists c | c in choices :: c.name == name && Takes(job, c))
        || (name in job.volumes && !Reported(choices, name)))
  }

  /** What a job covers: every volume it ticks, and every reported one of a chosen stack or
      with a label it asks for, but none it excludes. A volume of no stack is of none. */
  lemma {:induction false} CoversMeans(job: Job, choices: seq<Choice>, name: string)
    ensures Covers(job, choices, name) <==>
              && name !in job.excluded
              && (name in job.volumes || exists c :: c in choices && c.name == name && Asked(job, c))
  {
    forall c ensures Takes(job, c) <==> c.name in job.volumes || Asked(job, c) {
      AskedMeans(job, c);
    }
  }

  /** The volume is of a chosen stack, or has a label that some rule asks for. */
  ghost predicate Asked(job: Job, c: Choice) {
    || (c.project in job.stacks && c.project != "")
    || exists r: Rule :: '=' !in r.key && RuleText(r) in job.labelRules && Satisfies(r, c.labels)
  }

  lemma {:induction false} AskedMeans(job: Job, c: Choice)
    ensures (exists rule :: rule in job.labelRules && LabelRuleMatches(rule, c.labels))
            <==> exists r: Rule :: '=' !in r.key && RuleText(r) in job.labelRules && Satisfies(r, c.labels)
  {
    if rule :| rule in job.labelRules && LabelRuleMatches(rule, c.labels) {
      var r := RuleOf(rule);
      LabelRuleMeans(r, c.labels);
    }
    if r: Rule :| '=' !in r.key && RuleText(r) in job.labelRules && Satisfies(r, c.labels) {
      LabelRuleMeans(r, c.labels);
    }
  }

  /** Every text is some rule's. */
  lemma {:induction false} RuleOf(text: string) returns (r: Rule)
    ensures '=' !in r.key && RuleText(r) == text
  {
    var i := IndexByte(text, '=');
    if i == |text| {
      r := HasLabel(text);
    } else {
      r := LabelIs(text[..i], text[i + 1..]);
      assert text == text[..i] + "=" + text[i + 1..];
    }
  }

  lemma {:induction false} LabelReasonsEmpty(rules: seq<string>, labels: map<string, string>)
    ensures LabelReasons(rules, labels) == [] <==> forall rule :: rule in rules ==> !LabelRuleMatches(rule, labels)
    decreases |rules|
  {
    if rules != [] {
      LabelReasonsEmpty(rules[..|rules| - 1], labels);
      assert forall rule :: rule in rules <==> rule in rules[..|rules| - 1] || rule == rules[|rules| - 1];
    }
  }

  lemma {:induction false} TakesForAReason(job: Job, c: Choice)
    ensures Takes(job, c) <==> Reasons(job, c) != []
  {
    LabelReasonsEmpty(job.labelRules, c.labels);
  }

  // ---- sort.Slice by name

  predicate NameLess(a: Selected, b: Selected) {
    Less(a.name, b.name)
  }

  lemma {:induction false} NamesOrdered()
    ensures StrictWeak(NameLess)
  {
    forall a: Selected, b: Selected ensures !(NameLess(a, b) && NameLess(b, a)) {
      LessTotal(a.name, b.name);
    }
    forall a: Selected, b: Selected, c: Selected | !NameLess(b, a) && !NameLess(c, b) ensures !NameLess(c, a) {
      NotLessTransitive(a.name, b.name, c.name);
    }
  }

  // ---- resolveSelection

  ghost predicate Names(vs: seq<Selected>, name: string) {
    exists v :: v in vs && v.name == name
  }

  ghost predicate EachOnce(vs: seq<Selected>) {
    forall i, j :: 0 <= i < j < |vs| ==> vs[i].name != vs[j].name
  }

  ghost predicate DistinctReports(choices: seq<Choice>) {
    forall i, j :: 0 <= i < j < |choices| ==> choices[i].name != choices[j].name
  }

  ghost predicate DistinctTicks(names: seq<string>) {
    forall i, j :: 0 <= i < j < |names| ==> names[i] != names[j]
  }

  lemma {:induction false} TwiceCounted(b: seq<Selected>, i: nat, j: nat)
    requires i < j < |b| && b[i] == b[j]
    ensures multiset(b)[b[i]] >= 2
  {
    assert b == b[..j] + b[j..];
    assert b[i] in b[..j] && b[j] in b[j..] by {
      assert b[..j][i] == b[i] && b[j..][0] == b[j];
    }
    assert multiset(b)[b[i]] == multiset(b[..j])[b[i]] + multiset(b[j..])[b[i]];
  }

  lemma {:induction false} OnceCounted(a: seq<Selected>, k: nat)
    requires k < |a| && EachOnce(a)
    ensures multiset(a)[a[k]] == 1
  {
    var x := a[k];
    assert a == a[..k] + [x] + a[k + 1..];
    assert x !in a[..k] && x !in a[k + 1..];
    assert multiset(a)[x] == multiset(a[..k])[x] + 1 + multiset(a[k + 1..])[x];
  }

  lemma {:induction false} ReorderedOnce(a: seq<Selected>, b: seq<Selected>)
    requires multiset(a) == multiset(b) && EachOnce(a)
    ensures EachOnce(b)
  {
    SameMembers(a, b);
    forall i, j | 0 <= i < j < |b| ensures b[i].name != b[j].name {
      assert b[i] in a && b[j] in a;
      var k :| 0 <= k < |a| && a[k] == b[i];
      var l :| 0 <= l < |a| && a[l] == b[j];
      if k == l {
        TwiceCounted(b, i, j);
        OnceCounted(a, k);
      }
    }
  }

  /** Every volume listed says exactly why: a reported one all its reasons, another that
      it was ticked. */
  ghost predicate WellFounded(job: Job, choices: seq<Choice>, v: Selected) {
    || (exists c :: c in choices && c.name == v.name && v.why == Reasons(job, c) && v.why != [])
    || (!Reported(choices, v.name) && v.name in job.volumes && v.why == ["ticked"])
  }

  /** The first loop after reading some choices. */
  ghost predicate PickedSoFar(job: Job, done: seq<Choice>, sel: Selection) {
    && (forall v :: v in sel.volumes <==>
          exists c :: c in done && v == Selected(c.name, Reasons(job, c)) && v.why != [] && c.name !in job.excluded)
    && (forall name :: name in sel.excluded <==>
          exists c :: c in done && c.name == name && Takes(job, c) && name in job.excluded)
  }

  lemma {:induction false} PickNext(job: Job, done: seq<Choice>, c: Choice, sel: Selection)
    requires PickedSoFar(job, done, sel)
    ensures var why := Reasons(job, c);
            PickedSoFar(job, done + [c],
                        if why == [] then sel
                        else if c.name in job.excluded then sel.(excluded := sel.excluded + [c.name])
                        else sel.(volumes := sel.volumes + [Selected(c.name, why)]))
  {
    TakesForAReason(job, c);
    assert forall x :: x in done + [c] <==> x in done || x == c;
  }

  method ResolveSelection(job: Job, choices: seq<Choice>) returns (sel: Selection)
    ensures forall name :: Names(sel.volumes, name) <==> Covers(job, choices, name)
    ensures forall v :: v in sel.volumes ==> WellFounded(job, choices, v)
    ensures Sorted(sel.volumes, NameLess)
    ensures forall i, j :: 0 <= i < j < |sel.volumes| ==> !Less(sel.volumes[j].name, sel.volumes[i].name)
    ensures DistinctReports(choices) && DistinctTicks(job.volumes) ==> EachOnce(sel.volumes)
    ensures forall name :: name in sel.excluded <==>
              exists c :: c in choices && c.name == name && Takes(job, c) && name in job.excluded
  {
    var picked, seen := PickReported(job, choices);
    var all := AddTicked(job, choices, picked.volumes, seen);
    CoversExactly(job, choices, picked, all);
    NamesOrdered();
    sel := picked.(volumes := Sort(all, NameLess));
    SameMembers(all, sel.volumes);
    if EachOnce(all) {
      ReorderedOnce(all, sel.volumes);
    }
    assert forall name :: Names(sel.volumes, name) <==> Names(all, name);
  }

  /** The loop over the reported volumes. */
  method PickReported(job: Job, choices: seq<Choice>) returns (sel: Selection, seen: set<string>)
    ensures PickedSoFar(job, choices, sel)
    ensures DistinctReports(choices) ==> EachOnce(sel.volumes)
    ensures forall name :: name in seen <==> Reported(choices, name)
  {
    sel := Selection([], []);
    seen := {};
    for i := 0 to |choices|
      invariant PickedSoFar(job, choices[..i], sel)
      invariant DistinctReports(choices) ==> EachOnce(sel.volumes)
      invariant forall name :: name in seen <==> Reported(choices[..i], name)
    {
      var c := choices[i];
      assert choices[..i + 1] == choices[..i] + [c];
      SeenNext(choices[..i], c);
      seen := seen + {c.name};
      var why := WhyTaken(job, c);
      PickNext(job, choices[..i], c, sel);
      NotYetPicked(job, choices, i, sel);
      if why == [] {
      } else if c.name in job.excluded {
        sel := sel.(excluded := sel.excluded + [c.name]);
      } else {
        sel := sel.(volumes := sel.volumes + [Selected(c.name, why)]);
      }
    }
    assert choices[..|choices|] == choices;
  }

  lemma {:induction false} NotYetPicked(job: Job, choices: seq<Choice>, i: nat, sel: Selection)
    requires i < |choices| && PickedSoFar(job, choices[..i], sel)
    ensures DistinctReports(choices) ==> !Names(sel.volumes, choices[i].name)
  {
    forall v | v in sel.volumes ensures DistinctReports(choices) ==> v.name != choices[i].name {
      var c :| c in choices[..i] && v == Selected(c.name, Reasons(job, c));
      var k :| 0 <= k < i && choices[k] == c;
    }
  }

  lemma {:induction false} SeenNext(done: seq<Choice>, c: Choice)
    ensures forall name :: Reported(done + [c], name) <==> Reported(done, name) || name == c.name
  {
    assert forall x :: x in done + [c] <==> x in done || x == c;
    assert c in done + [c];
  }

  /** The loop that keeps ticked volumes the host no longer reports. */
  method AddTicked(job: Job, choices: seq<Choice>, picked: seq<Selected>, seen: set<string>)
        returns (all: seq<Selected>)
    requires forall name :: name in seen <==> Reported(choices, name)
    requires forall v :: v in picked ==> v.name in seen
    ensures EachOnce(picked) && DistinctTicks(job.volumes) ==> EachOnce(all)
    ensures forall v :: v in all <==> v in picked || StillTicked(job, choices, job.volumes, v)
  {
    all := picked;
    for i := 0 to |job.volumes|
      invariant forall v :: v in all <==> v in picked || StillTicked(job, choices, job.volumes[..i], v)
      invariant EachOnce(picked) && DistinctTicks(job.volumes) ==> EachOnce(all)
    {
      var name := job.volumes[i];
      assert forall x :: x in job.volumes[..i + 1] <==> x in job.volumes[..i] || x == name;
      if name !in seen && name !in job.excluded {
        all := all + [Selected(name, ["ticked"])];
      }
    }
    assert job.volumes[..|job.volumes|] == job.volumes;
  }

  /** The inner loop over the job's label rules. */
  method AddLabels(why: seq<string>, rules: seq<string>, labels: map<string, string>) returns (all: seq<string>)
    ensures all == why + LabelReasons(rules, labels)
  {
    hide LabelRuleMatches;
    all := why;
    for i := 0 to |rules|
      invariant all == why + LabelReasons(rules[..i], labels)
    {
      assert rules[..i + 1][..i] == rules[..i];
      LabelNext(why, rules, labels, i);
      if LabelRuleMatches(rules[i], labels) {
        all := all + ["label " + rules[i]];
      }
    }
    assert rules[..|rules|] == rules;
  }

  lemma {:induction false} LabelNext(why: seq<string>, rules: seq<string>, labels: map<string, string>, i: nat)
    requires i < |rules|
    ensures why + LabelReasons(rules[..i + 1], labels)
            == (why + LabelReasons(rules[..i], labels))
               + (if LabelRuleMatches(rules[i], labels) then ["label " + rules[i]] else [])
  {
    hide LabelRuleMatches;
    assert rules[..i + 1][..i] == rules[..i];
  }

  /** Why the volume is taken, in the order the job's page lists it. */
  method WhyTaken(job: Job, c: Choice) returns (why: seq<string>)
    ensures why == Reasons(job, c)
  {
    hide LabelReasons;
    why := [];
    if c.name in job.volumes {
      why := ["ticked"];
    }
    if c.project != "" && c.project in job.stacks {
      why := why + ["stack " + c.project];
    }
    why := AddLabels(why, job.labelRules, c.labels);
  }

  ghost predicate StillTicked(job: Job, choices: seq<Choice>, ticked: seq<string>, v: Selected) {
    v.name in ticked && !Reported(choices, v.name) && v.name !in job.excluded && v.why == ["ticked"]
  }

  lemma {:induction false} CoversExactly(job: Job, choices: seq<Choice>, sel: Selection, all: seq<Selected>)
    requires PickedSoFar(job, choices, sel)
    requires forall v :: v in all <==> v in sel.volumes || StillTicked(job, choices, job.volumes, v)
    ensures forall name :: Names(all, name) <==> Covers(job, choices, name)
    ensures forall v :: v in all ==> WellFounded(job, choices, v)
  {
    forall name ensures Names(all, name) <==> Covers(job, choices, name) {
      if Covers(job, choices, name) {
        if exists c :: c in choices && c.name == name && Takes(job, c) {
          var c :| c in choices && c.name == name && Takes(job, c);
          TakesForAReason(job, c);
          assert Selected(name, Reasons(job, c)) in sel.volumes;
        } else {
          assert Selected(name, ["ticked"]) in all;
        }
      }
      if Names(all, name) {
        var v :| v in all && v.name == name;
        if v in sel.volumes {
          var c :| c in choices && v == Selected(c.name, Reasons(job, c)) && v.why != [];
          TakesForAReason(job, c);
        }
      }
    }
  }

  // ---- restorableVolumes

  /** What one past run reported about one volume. */
  datatype Outcome = Outcome(volume: string, snapshot: string)

  datatype PastRun = PastRun(backup: bool, results: seq<Outcome>)

  /** ^[A-Za-z0-9][A-Za-z0-9_.-]*$ */
  predicate SafeVolumeName(s: string) {
    s != "" && Alnum(s[0]) && forall c :: c in s ==> Alnum(c) || c in "_.-"
  }

  predicate Alnum(c: char) {
    'A' <= c <= 'Z' || 'a' <= c <= 'z' || '0' <= c <= '9'
  }

  predicate Kept(r: PastRun, name: string) {
    r.backup && SafeVolumeName(name) && exists o | o in r.results :: o.volume == name && o.snapshot != ""
  }

  /** A restore can be asked for what the job covers, what it ticked, and what it has a snapshot of. */
  predicate Restorable(job: Job, choices: seq<Choice>, runs: seq<PastRun>, name: string) {
    Covers(job, choices, name) || name in job.volumes || exists r | r in runs :: Kept(r, name)
  }

  method RestorableVolumes(job: Job, choices: seq<Choice>, runs: seq<PastRun>) returns (out: seq<string>)
    ensures forall name :: name in out <==> Restorable(job, choices, runs, name)
    ensures forall i, j :: 0 <= i < j < |out| ==> Less(out[i], out[j])
  {
    var sel := ResolveSelection(job, choices);
    var seen := set v | v in sel.volumes :: v.name;
    assert forall name :: name in seen <==> Names(sel.volumes, name);
    for i := 0 to |job.volumes|
      invariant forall name :: name in seen <==> Covers(job, choices, name) || name in job.volumes[..i]
    {
      seen := seen + {job.volumes[i]};
    }
    assert job.volumes[..|job.volumes|] == job.volumes;
    for i := 0 to |runs|
      invariant forall name :: name in seen <==> Restorable(job, choices, runs[..i], name)
    {
      assert runs[..i + 1] == runs[..i] + [runs[i]];
      assert forall r :: r in runs[..i + 1] <==> r in runs[..i] || r == runs[i];
      if runs[i].backup {
        var kept := KeptNames(runs[i]);
        seen := seen + kept;
      }
    }
    assert runs[..|runs|] == runs;
    out := SortNames(seen);
  }

  method KeptNames(r: PastRun) returns (names: set<string>)
    requires r.backup
    ensures forall name :: name in names <==> Kept(r, name)
  {
    names := {};
    for i := 0 to |r.results|
      invariant forall name :: name in names <==> Kept(PastRun(true, r.results[..i]), name)
    {
      var o := r.results[i];
      assert forall x :: x in r.results[..i + 1] <==> x in r.results[..i] || x == o;
      if o.snapshot != "" && SafeVolumeName(o.volume) {
        names := names + {o.volume};
      }
    }
    assert r.results[..|r.results|] == r.results;
  }
}
