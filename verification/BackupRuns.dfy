/** Which backup and restore runs may overlap, and how each ends. */
module BackupRuns {
  import opened Strings
  import opened VolumeSelection

  // Starting a run is a series of steps under one mutex; agents' reports and the hourly
  // sweep for lost runs come in between. Jobs and reported volumes stay as they are.

  /** A job's host and selection, and what that host reports. */
  datatype JobOnHost = JobOnHost(host: string, job: Job)

  datatype World = World(jobs: map<string, JobOnHost>, reports: map<string, seq<Choice>>)

  datatype Kind = Backup | Restore(volume: string)

  datatype Status = Running | Success | Warned | Failed

  /** A row of backup_runs, in rowid order. kind carries the volume the agent is asked to
      restore; admitted says that the overlap check let the run through. */
  datatype Run = Run(id: string, job: string, kind: Kind, status: Status, code: string, started: int, admitted: bool)

  function ChoicesOf(w: World, host: string): seq<Choice> {
    if host in w.reports then w.reports[host] else []
  }

  /** What a job covers now. */
  function Footprint(w: World, job: string): set<string>
    requires job in w.jobs
  {
    var j, choices := w.jobs[job].job, ChoicesOf(w, w.jobs[job].host);
    (set c | c in choices && Covers(j, choices, c.name) :: c.name)
      + (set v | v in j.volumes && Covers(j, choices, v) :: v)
  }

  lemma {:induction false} FootprintMeans(w: World, job: string)
    requires job in w.jobs
    ensures forall v :: v in Footprint(w, job) <==> Covers(w.jobs[job].job, ChoicesOf(w, w.jobs[job].host), v)
  {
  }

  function WorksOn(w: World, job: string, kind: Kind): set<string>
    requires job in w.jobs
  {
    match kind
    case Backup => Footprint(w, job)
    case Restore(v) => {v}
  }

  /** The volumes a run works on. */
  function VolumesOf(w: World, r: Run): set<string>
    requires r.job in w.jobs
  {
    WorksOn(w, r.job, r.kind)
  }

  predicate SameHost(w: World, a: string, b: string) {
    a in w.jobs && b in w.jobs && w.jobs[a].host == w.jobs[b].host
  }

  /** No volume has an empty name: Docker gives none, and the restore form refuses one. */
  predicate NamedVolumes(w: World) {
    forall j | j in w.jobs :: "" !in Footprint(w, j)
  }

  // ---- overlapsRunning

  function NameSet(names: seq<string>): set<string> {
    set v | v in names
  }

  ghost predicate Clashes(w: World, other: Run, job: string, volumes: set<string>) {
    other.status.Running? && SameHost(w, other.job, job) && !(volumes !! Footprint(w, other.job))
  }

  /** The run is under way on the job's host, and its own job covers the volume. */
  ghost predicate UsesVolume(w: World, other: Run, job: string, volume: string) {
    other.status.Running? && SameHost(w, other.job, job) && volume in Footprint(w, other.job)
  }

  method OverlapsRunning(w: World, runs: seq<Run>, job: string, volumes: seq<string>) returns (busy: string)
    requires job in w.jobs
    ensures busy == "" ==> (forall r :: r in runs ==> !Clashes(w, r, job, NameSet(volumes)))
                           || ("" in volumes && exists r :: r in runs && UsesVolume(w, r, job, ""))
    ensures busy != "" ==> busy in volumes && exists r :: r in runs && UsesVolume(w, r, job, busy)
    ensures busy != "" ==> exists r :: r in runs && Clashes(w, r, job, NameSet(volumes))
  {
    for i := 0 to |runs|
      invariant forall r :: r in runs[..i] ==> !Clashes(w, r, job, NameSet(volumes))
    {
      var other := runs[i];
      if other.status.Running? && other.job in w.jobs && w.jobs[other.job].host == w.jobs[job].host {
        var covered := Footprint(w, other.job);
        for k := 0 to |volumes|
          invariant forall v :: v in volumes[..k] ==> v !in covered
        {
          if volumes[k] in covered {
            assert volumes[k] in NameSet(volumes) * covered;
            assert other in runs;
            assert Clashes(w, other, job, NameSet(volumes));
            return volumes[k];
          }
        }
        assert volumes[..|volumes|] == volumes;
        assert NameSet(volumes) !! covered;
      }
      assert !Clashes(w, other, job, NameSet(volumes));
      assert forall r :: r in runs[..i + 1] <==> r in runs[..i] || r == other;
    }
    assert runs[..|runs|] == runs;
    busy := "";
  }

  // ---- the statements on backup_runs

  /** FinishBackupRun: only a run that is still running. */
  function Finish(runs: seq<Run>, id: string, status: Status, code: string): (r: seq<Run>)
    ensures |r| == |runs|
    ensures forall i :: 0 <= i < |runs| ==>
              r[i] == if runs[i].id == id && runs[i].status.Running? then runs[i].(status := status, code := code)
                      else runs[i]
  {
    seq(|runs|, i requires 0 <= i < |runs| =>
      if runs[i].id == id && runs[i].status.Running? then runs[i].(status := status, code := code) else runs[i])
  }

  /** FailStaleBackupRuns: running since before the cutoff. */
  function FailStale(runs: seq<Run>, cutoff: int): (r: seq<Run>)
    ensures |r| == |runs|
    ensures forall i :: 0 <= i < |runs| ==>
              r[i] == if runs[i].status.Running? && runs[i].started < cutoff
                      then runs[i].(status := Failed, code := "LOST") else runs[i]
  {
    seq(|runs|, i requires 0 <= i < |runs| =>
      if runs[i].status.Running? && runs[i].started < cutoff then runs[i].(status := Failed, code := "LOST")
      else runs[i])
  }

  // ---- starting a run, one step at a time

  /** Where the holder of startMu is. */
  datatype Starter =
    | Free
    | Cleared(run: Run)
    | Refusing(run: Run, code: string)
    | Refused(run: Run, code: string)
    | Handing(run: Run)

  datatype State = State(runs: seq<Run>, starter: Starter, now: int)

  /** lands says whether a write reaches the database; the source ignores a failed one. */
  datatype Action =
    | Begin(job: string, kind: Kind, id: string)
    | Precheck(code: string)
    | RecordRefusal(lands: bool)
    | FinishRefusal(lands: bool)
    | Record(lands: bool)
    | Hand(ok: bool, lands: bool)
    | Report(id: string, status: Status, code: string)
    | Sweep(cutoff: int)
    | Tick(d: nat)
    | Restart

  const START := State([], Free, 0)

  ghost function DoBegin(w: World, s: State, job: string, kind: Kind, id: string): State {
    if !s.starter.Free? || job !in w.jobs || kind == Restore("") || (exists r :: r in s.runs && r.id == id) then s
    else
      var run := Run(id, job, kind, Running, "", s.now, false);
      var volumes := VolumesOf(w, run);
      if kind.Backup? && volumes == {} then s.(starter := Refusing(run, "VALIDATION"))
      else if exists r :: r in s.runs && Clashes(w, r, job, volumes) then s.(starter := Refusing(run, "CONCURRENCY"))
      else s.(starter := Cleared(run))
  }

  ghost function DoStart(w: World, s: State, a: Action): State {
    match a
    case Begin(job, kind, id) => DoBegin(w, s, job, kind, id)
    case Precheck(code) => if s.starter.Cleared? then s.(starter := Refusing(s.starter.run, code)) else s
    case RecordRefusal(lands) =>
      if !s.starter.Refusing? then s
      else if lands then
        s.(runs := s.runs + [s.starter.run.(started := s.now)], starter := Refused(s.starter.run, s.starter.code))
      else s.(starter := Free)
    case FinishRefusal(lands) =>
      if !s.starter.Refused? then s
      else
        var runs := if lands then Finish(s.runs, s.starter.run.id, Failed, s.starter.code) else s.runs;
        s.(runs := runs, starter := Free)
    case Record(lands) =>
      if !s.starter.Cleared? then s
      else if lands then
        s.(runs := s.runs + [s.starter.run.(admitted := true, started := s.now)], starter := Handing(s.starter.run))
      else s.(starter := Free)
    case Hand(ok, lands) =>
      if !s.starter.Handing? then s
      else
        var runs := if !ok && lands then Finish(s.runs, s.starter.run.id, Failed, "AGENT") else s.runs;
        s.(runs := runs, starter := Free)
    case _ => s
  }

  ghost function DoRest(s: State, a: Action): State {
    match a
    case Report(id, status, code) => if status.Running? then s else s.(runs := Finish(s.runs, id, status, code))
    case Sweep(cutoff) => s.(runs := FailStale(s.runs, cutoff))
    case Tick(d) => s.(now := s.now + d)
    case Restart => s.(starter := Free)
    case _ => s
  }

  ghost function Do(w: World, s: State, a: Action): State {
    if a.Report? || a.Sweep? || a.Tick? || a.Restart? then DoRest(s, a) else DoStart(w, s, a)
  }

  ghost function RunAll(w: World, s: State, actions: seq<Action>): State
    decreases |actions|
  {
    if actions == [] then s else RunAll(w, Do(w, s, actions[0]), actions[1..])
  }

  // ---- a run ends once

  /** Rows are only added, and one that has ended stays as it is. */
  ghost predicate Settled(before: seq<Run>, after: seq<Run>) {
    && |before| <= |after|
    && forall i :: 0 <= i < |before| ==>
         && after[i] == before[i].(status := after[i].status, code := after[i].code)
         && (before[i].status.Running? || after[i] == before[i])
  }

  lemma {:induction false} StepSettles(w: World, s: State, a: Action)
    ensures Settled(s.runs, Do(w, s, a).runs)
  {
  }

  /** A run leaves 'running' once: whatever duplicate reports, failed starts and sweeps
      follow, the outcome recorded first is the one that stays. */
  lemma {:induction false} OutcomeStays(w: World, s: State, actions: seq<Action>)
    ensures Settled(s.runs, RunAll(w, s, actions).runs)
    decreases |actions|
  {
    if actions != [] {
      StepSettles(w, s, actions[0]);
      OutcomeStays(w, Do(w, s, actions[0]), actions[1..]);
    }
  }

  /** Only a report makes a run a success, or one with warnings. */
  lemma {:induction false} OutcomeStep(w: World, s: State, a: Action, r: Run)
    requires r in Do(w, s, a).runs && (r.status.Success? || r.status.Warned?)
    requires !s.starter.Free? ==> s.starter.run.status.Running?
    ensures r in s.runs || a == Report(r.id, r.status, r.code)
  {
    hide Footprint, Clashes, WorksOn;
    var i :| 0 <= i < |Do(w, s, a).runs| && Do(w, s, a).runs[i] == r;
    if i < |s.runs| { assert s.runs[i] in s.runs; }
  }

  lemma {:induction false} StarterRuns(w: World, s: State, a: Action)
    requires !s.starter.Free? ==> s.starter.run.status.Running?
    ensures !Do(w, s, a).starter.Free? ==> Do(w, s, a).starter.run.status.Running?
  {
    hide Footprint, Clashes, WorksOn;
  }

  /** In every run of the program, a row that says success, or success with warnings, was
      reported so by the agent: no refused start, sweep or duplicate makes one. */
  lemma {:induction false} SuccessIsReported(w: World, actions: seq<Action>, r: Run)
    requires r in RunAll(w, START, actions).runs && (r.status.Success? || r.status.Warned?)
    ensures Report(r.id, r.status, r.code) in actions
  {
    SuccessAfter(w, START, actions, r);
  }

  lemma {:induction false} SuccessAfter(w: World, s: State, actions: seq<Action>, r: Run)
    requires !s.starter.Free? ==> s.starter.run.status.Running?
    requires r in RunAll(w, s, actions).runs && (r.status.Success? || r.status.Warned?)
    ensures r in s.runs || Report(r.id, r.status, r.code) in actions
    decreases |actions|
  {
    hide Do;
    if actions != [] {
      StarterRuns(w, s, actions[0]);
      SuccessAfter(w, Do(w, s, actions[0]), actions[1..], r);
      if r in Do(w, s, actions[0]).runs { OutcomeStep(w, s, actions[0], r); }
    }
  }

  /** A refused start whose two writes land leaves one row more, failed for the reason
      given; so does a run that the agent refuses. Without the second write it stays. */
  lemma {:induction false} RefusalIsRecorded(w: World, s: State, lands: bool)
    requires s.starter.Refusing? && s.starter.run.status.Running?
    requires forall r :: r in s.runs ==> r.id != s.starter.run.id
    ensures var after := Do(w, Do(w, s, RecordRefusal(true)), FinishRefusal(lands));
            && after.starter.Free? && |after.runs| == |s.runs| + 1 && s.runs <= after.runs
            && var r := after.runs[|s.runs|];
               && r.id == s.starter.run.id && r.job == s.starter.run.job && r.kind == s.starter.run.kind
               && r.started == s.now
               && (if lands then r.status.Failed? && r.code == s.starter.code else r.status.Running?)
  {
    assert forall i :: 0 <= i < |s.runs| ==> s.runs[i] in s.runs;
  }

  lemma {:induction false} AgentRefusalIsRecorded(w: World, s: State, lands: bool)
    requires s.starter.Cleared? && s.starter.run.status.Running? && forall r :: r in s.runs ==> r.id != s.starter.run.id
    ensures var after := Do(w, Do(w, s, Record(true)), Hand(false, lands));
            && after.starter.Free? && |after.runs| == |s.runs| + 1 && s.runs <= after.runs
            && var r := after.runs[|s.runs|];
               && r.id == s.starter.run.id && r.job == s.starter.run.job && r.kind == s.starter.run.kind && r.admitted
               && (if lands then r.status.Failed? && r.code == "AGENT" else r.status.Running?)
  {
    assert forall i :: 0 <= i < |s.runs| ==> s.runs[i] in s.runs;
  }

  // ---- runs that go on together do not meet

  /** r was created while other was running, and was let through. */
  ghost predicate Apart(w: World, other: Run, r: Run) {
    other.status.Running? && r.status.Running? && r.admitted && SameHost(w, other.job, r.job)
    ==> VolumesOf(w, r) !! Footprint(w, other.job)
  }

  ghost predicate Exclusive(w: World, runs: seq<Run>) {
    && (forall i :: 0 <= i < |runs| ==> runs[i].job in w.jobs)
    && (forall i, j :: 0 <= i < j < |runs| ==> Apart(w, runs[i], runs[j]))
  }

  /** The check behind a cleared run still stands: runs only end in the meantime. */
  ghost predicate StillClear(w: World, s: State) {
    && (!s.starter.Free? ==> s.starter.run.job in w.jobs && s.starter.run.status.Running? && !s.starter.run.admitted)
    && (s.starter.Cleared? ==>
          forall i :: 0 <= i < |s.runs| ==> !Clashes(w, s.runs[i], s.starter.run.job, VolumesOf(w, s.starter.run)))
  }

  ghost predicate Sound(w: World, s: State) {
    Exclusive(w, s.runs) && StillClear(w, s)
  }

  lemma {:induction false} SettledExclusive(w: World, before: seq<Run>, after: seq<Run>)
    requires Exclusive(w, before) && Settled(before, after) && |before| == |after|
    ensures Exclusive(w, after)
  {
    forall i, j | 0 <= i < j < |after| ensures Apart(w, after[i], after[j]) {
      assert Apart(w, before[i], before[j]);
    }
  }

  lemma {:induction false} SettledClear(w: World, s: State, after: seq<Run>)
    requires StillClear(w, s) && Settled(s.runs, after) && |s.runs| == |after|
    ensures StillClear(w, s.(runs := after))
  {
    if s.starter.Cleared? {
      forall i | 0 <= i < |after| ensures !Clashes(w, after[i], s.starter.run.job, VolumesOf(w, s.starter.run)) {
        assert !Clashes(w, s.runs[i], s.starter.run.job, VolumesOf(w, s.starter.run));
      }
    }
  }

  lemma {:induction false} AppendExclusive(w: World, runs: seq<Run>, r: Run)
    requires Exclusive(w, runs) && r.job in w.jobs
    requires r.admitted ==> forall i :: 0 <= i < |runs| ==> !Clashes(w, runs[i], r.job, VolumesOf(w, r))
    ensures Exclusive(w, runs + [r])
  {
    forall i | 0 <= i < |runs| ensures Apart(w, runs[i], r) {
      if r.admitted { assert !Clashes(w, runs[i], r.job, VolumesOf(w, r)); }
    }
  }

  lemma {:induction false} BeginSound(w: World, s: State, job: string, kind: Kind, id: string)
    requires Sound(w, s)
    ensures Sound(w, DoBegin(w, s, job, kind, id))
  {
    assert forall i :: 0 <= i < |s.runs| ==> s.runs[i] in s.runs;
  }

  lemma {:induction false} StartSound(w: World, s: State, a: Action)
    requires Sound(w, s)
    ensures Sound(w, DoStart(w, s, a))
  {
    match a
    case Begin(job, kind, id) => BeginSound(w, s, job, kind, id);
    case RecordRefusal(lands) =>
      if s.starter.Refusing? { AppendExclusive(w, s.runs, s.starter.run.(started := s.now)); }
    case FinishRefusal(lands) =>
      if s.starter.Refused? { SettledExclusive(w, s.runs, Finish(s.runs, s.starter.run.id, Failed, s.starter.code)); }
    case Record(lands) =>
      if s.starter.Cleared? {
        var r := s.starter.run.(admitted := true, started := s.now);
        assert VolumesOf(w, r) == VolumesOf(w, s.starter.run);
        AppendExclusive(w, s.runs, r);
      }
    case Hand(ok, lands) =>
      if s.starter.Handing? { SettledExclusive(w, s.runs, Finish(s.runs, s.starter.run.id, Failed, "AGENT")); }
    case _ =>
  }

  lemma {:induction false} RestSound(w: World, s: State, a: Action)
    requires Sound(w, s)
    ensures Sound(w, DoRest(s, a))
  {
    var after := DoRest(s, a).runs;
    assert Settled(s.runs, after);
    SettledExclusive(w, s.runs, after);
    SettledClear(w, s, after);
  }

  lemma {:induction false} RunSound(w: World, s: State, actions: seq<Action>)
    requires Sound(w, s)
    ensures Sound(w, RunAll(w, s, actions))
    decreases |actions|
  {
    if actions != [] {
      StartSound(w, s, actions[0]);
      RestSound(w, s, actions[0]);
      RunSound(w, Do(w, s, actions[0]), actions[1..]);
    }
  }

  /** In every interleaving: of two runs under way on one host, the later one let through,
      its volumes are disjoint from what the earlier one's job covers. So backups never
      share a volume, and neither do restores with anything, of volumes their job covers. */
  lemma {:induction false} EveryRun(w: World, actions: seq<Action>, i: nat, j: nat)
    requires var runs := RunAll(w, START, actions).runs;
             && i < j < |runs| && runs[i].status.Running? && runs[j].status.Running?
             && runs[j].admitted && SameHost(w, runs[i].job, runs[j].job)
    ensures var runs := RunAll(w, START, actions).runs;
            && VolumesOf(w, runs[j]) !! Footprint(w, runs[i].job)
            && (runs[i].kind.Backup? ==> VolumesOf(w, runs[j]) !! VolumesOf(w, runs[i]))
            && (runs[i].kind.Restore? && runs[i].kind.volume in Footprint(w, runs[i].job) ==>
                VolumesOf(w, runs[j]) !! VolumesOf(w, runs[i]))
  {
    RunSound(w, START, actions);
    var runs := RunAll(w, START, actions).runs;
    assert Apart(w, runs[i], runs[j]);
  }

  /** A restore is let through exactly if no run under way on the host is of a job that
      covers the volume now. What the runs under way work on does not count. */
  lemma {:induction false} RestoreCleared(w: World, s: State, job: string, volume: string, id: string)
    requires s.starter.Free? && job in w.jobs && volume != "" && forall q :: q in s.runs ==> q.id != id
    ensures var next := DoBegin(w, s, job, Restore(volume), id).starter;
            var taken := exists q :: q in s.runs && UsesVolume(w, q, job, volume);
            && (next.Cleared? <==> !taken)
            && (next.Refusing? && next.code == "CONCURRENCY" <==> taken)
  {
    forall q | q in s.runs ensures Clashes(w, q, job, {volume}) <==> UsesVolume(w, q, job, volume) {
      if SameHost(w, q.job, job) {
        assert {volume} !! Footprint(w, q.job) <==> volume !in Footprint(w, q.job);
      }
    }
  }

  /** A restore of the volume is under way, and a run of the given kind that came after it. */
  ghost predicate RestoreMeets(w: World, actions: seq<Action>, first: string, volume: string,
        second: string, kind: Kind) {
    var runs := RunAll(w, START, actions).runs;
    exists i, j :: 0 <= i < j < |runs| && UnderWay(runs[i], first, Restore(volume)) && UnderWay(runs[j], second, kind)
  }

  predicate UnderWay(r: Run, job: string, kind: Kind) {
    r.status.Running? && r.admitted && r.job == job && r.kind == kind
  }

  /** A run that works on a volume can be under way beside an earlier restore of it, in
      some run of the program, exactly if the restore's job covers nothing it works on. */
  lemma {:induction false} AfterRestore(w: World, first: string, volume: string, second: string, kind: Kind)
    requires SameHost(w, first, second) && volume != "" && kind != Restore("") && volume in WorksOn(w, second, kind)
    ensures (exists actions :: RestoreMeets(w, actions, first, volume, second, kind))
            <==> WorksOn(w, second, kind) !! Footprint(w, first)
  {
    hide DoBegin, DoStart, Footprint;
    forall actions | RestoreMeets(w, actions, first, volume, second, kind)
      ensures WorksOn(w, second, kind) !! Footprint(w, first)
    {
      var runs := RunAll(w, START, actions).runs;
      var i, j :| 0 <= i < j < |runs| && UnderWay(runs[i], first, Restore(volume)) && UnderWay(runs[j], second, kind);
      EveryRun(w, actions, i, j);
    }
    if WorksOn(w, second, kind) !! Footprint(w, first) {
      BothStart(w, first, volume, second, kind);
    }
  }

  /** So two restores of one volume can be under way together exactly if the job of the
      first does not cover it. */
  lemma {:induction false} SecondRestore(w: World, first: string, second: string, volume: string)
    requires SameHost(w, first, second) && volume != ""
    ensures (exists actions :: RestoreMeets(w, actions, first, volume, second, Restore(volume)))
            <==> volume !in Footprint(w, first)
  {
    hide Footprint;
    AfterRestore(w, first, volume, second, Restore(volume));
    assert {volume} !! Footprint(w, first) <==> volume !in Footprint(w, first);
  }

  lemma {:induction false} BothStart(w: World, first: string, volume: string, second: string, kind: Kind)
    requires SameHost(w, first, second) && volume != "" && kind != Restore("") && volume in WorksOn(w, second, kind)
    requires WorksOn(w, second, kind) !! Footprint(w, first)
    ensures exists actions :: RestoreMeets(w, actions, first, volume, second, kind)
  {
    hide Footprint, Do;
    var r1 := Run("1", first, Restore(volume), Running, "", 0, true);
    var r2 := Run("2", second, kind, Running, "", 0, true);
    var one := [Begin(first, Restore(volume), "1"), Record(true), Hand(true, true)];
    var two := [Begin(second, kind, "2"), Record(true)];
    FirstStarts(w, first, volume);
    SecondStarts(w, r1, second, kind);
    AllAppend(w, START, one, two);
    var runs := RunAll(w, START, one + two).runs;
    assert runs == [r1, r2];
    assert UnderWay(runs[0], first, Restore(volume)) && UnderWay(runs[1], second, kind);
    assert RestoreMeets(w, one + two, first, volume, second, kind);
  }

  lemma {:induction false} FirstStarts(w: World, job: string, volume: string)
    requires job in w.jobs && volume != ""
    ensures RunAll(w, START, [Begin(job, Restore(volume), "1"), Record(true), Hand(true, true)])
            == State([Run("1", job, Restore(volume), Running, "", 0, true)], Free, 0)
  {
    hide Footprint;
    var run := Run("1", job, Restore(volume), Running, "", 0, false);
    var actions := [Begin(job, Restore(volume), "1"), Record(true), Hand(true, true)];
    assert actions[1..] == [Record(true), Hand(true, true)];
    assert actions[1..][1..] == [Hand(true, true)];
    RestoreCleared(w, START, job, volume, "1");
    var s1 := Do(w, START, actions[0]);
    assert s1 == State([], Cleared(run), 0);
    var s2 := Do(w, s1, Record(true));
    assert s2 == State([run.(admitted := true)], Handing(run), 0);
    assert Do(w, s2, Hand(true, true)) == State(s2.runs, Free, 0);
    assert RunAll(w, s2, [Hand(true, true)]) == State(s2.runs, Free, 0) by { assert [Hand(true, true)][1..] == []; }
    assert RunAll(w, s1, actions[1..]) == RunAll(w, s2, [Hand(true, true)]);
  }

  lemma {:induction false} SecondStarts(w: World, r1: Run, second: string, kind: Kind)
    requires SameHost(w, r1.job, second) && r1.id != "2" && kind != Restore("")
    requires WorksOn(w, second, kind) != {} && WorksOn(w, second, kind) !! Footprint(w, r1.job)
    ensures RunAll(w, State([r1], Free, 0), [Begin(second, kind, "2"), Record(true)]).runs
            == [r1, Run("2", second, kind, Running, "", 0, true)]
  {
    hide Footprint, WorksOn;
    var s0 := State([r1], Free, 0);
    var run := Run("2", second, kind, Running, "", 0, false);
    var actions := [Begin(second, kind, "2"), Record(true)];
    assert actions[1..] == [Record(true)];
    var s1 := Do(w, s0, actions[0]);
    assert s1 == State([r1], Cleared(run), 0);
    assert RunAll(w, s1, [Record(true)]) == Do(w, s1, Record(true)) by { assert [Record(true)][1..] == []; }
    assert Do(w, s1, Record(true)).runs == [r1] + [run.(admitted := true)];
  }

  lemma {:induction false} AllAppend(w: World, s: State, a: seq<Action>, b: seq<Action>)
    ensures RunAll(w, s, a + b) == RunAll(w, RunAll(w, s, a), b)
    decreases |a|
  {
    hide Do;
    if a == [] {
      assert a + b == b;
    } else {
      assert (a + b)[1..] == a[1..] + b;
      AllAppend(w, Do(w, s, a[0]), a[1..], b);
    }
  }

  // ---- the same under one lock, as a method

  /** How the rest of a start goes: a check after the overlap check that fails, and which
      writes reach the database. */
  datatype Outlook = Outlook(precheck: Option<string>, createLands: bool, agentStarts: bool, finishLands: bool)

  datatype Answer = Started | Denied(code: string) | Unrecorded | AgentRefused

  /** What a start comes to, with these runs under way. */
  ghost function Verdict(w: World, runs: seq<Run>, run: Run, look: Outlook): Answer
    requires run.job in w.jobs
  {
    if run.kind.Backup? && VolumesOf(w, run) == {} then Denied("VALIDATION")
    else if exists r :: r in runs && Clashes(w, r, run.job, VolumesOf(w, run)) then Denied("CONCURRENCY")
    else if look.precheck.Some? then Denied(look.precheck.value)
    else if !look.createLands then Unrecorded
    else if !look.agentStarts then AgentRefused
    else Started
  }

  /** The row a start leaves in the history. */
  function Trace(run: Run, answer: Answer, look: Outlook): seq<Run> {
    match answer
    case Started => [run.(admitted := true)]
    case Denied(code) =>
      if !look.createLands then [] else if look.finishLands then [run.(status := Failed, code := code)] else [run]
    case Unrecorded => []
    case AgentRefused =>
      [if look.finishLands then run.(admitted := true, status := Failed, code := "AGENT") else run.(admitted := true)]
  }

  /** The history after a start: what was there, and the start's own row if it could be
      recorded. It runs, or it failed with the reason; it is never a success. */
  ghost predicate LeavesRow(before: seq<Run>, after: seq<Run>, run: Run, answer: Answer, look: Outlook) {
    && before <= after && |after| == |before| + (if look.createLands then 1 else 0)
    && (look.createLands ==>
          var r := after[|before|];
          && r.id == run.id && r.job == run.job && r.kind == run.kind && r.started == run.started
          && (r.admitted <==> answer.Started? || answer.AgentRefused?)
          && (r.status.Running? || r.status.Failed?)
          && (r.status.Failed? <==> look.finishLands && (answer.Denied? || answer.AgentRefused?))
          && (r.status.Failed? ==> r.code == if answer.Denied? then answer.code else "AGENT"))
  }

  lemma {:induction false} TraceLeaves(runs: seq<Run>, run: Run, answer: Answer, look: Outlook)
    requires run.status.Running? && !run.admitted
    requires answer.Started? || answer.AgentRefused? ==> look.createLands
    requires answer.Unrecorded? ==> !look.createLands
    ensures LeavesRow(runs, runs + Trace(run, answer, look), run, answer, look)
  {
  }

  /** When a start is answered how, condition by condition. */
  lemma {:induction false} VerdictMeans(w: World, runs: seq<Run>, run: Run, look: Outlook)
    requires run.job in w.jobs
    ensures var answer := Verdict(w, runs, run, look);
            var nothing := run.kind.Backup? && Footprint(w, run.job) == {};
            var taken := exists r :: && r in runs && r.status.Running? && SameHost(w, r.job, run.job)
                                     && !(WorksOn(w, run.job, run.kind) !! Footprint(w, r.job));
            && (nothing ==> answer == Denied("VALIDATION"))
            && (!nothing && taken ==> answer == Denied("CONCURRENCY"))
            && (!nothing && !taken && look.precheck.Some? ==> answer == Denied(look.precheck.value))
            && (answer.Denied? <==> nothing || taken || look.precheck.Some?)
            && (answer.Unrecorded? <==> !answer.Denied? && !look.createLands)
            && (answer.Started? <==> !answer.Denied? && look.createLands && look.agentStarts)
            && (answer.AgentRefused? <==> !answer.Denied? && look.createLands && !look.agentStarts)
  {
    assert forall r :: Clashes(w, r, run.job, VolumesOf(w, run)) <==>
             && r.status.Running? && SameHost(w, r.job, run.job)
             && !(WorksOn(w, run.job, run.kind) !! Footprint(w, r.job));
  }

  lemma {:induction false} FinishLast(runs: seq<Run>, run: Run, code: string)
    requires run.status.Running? && forall r :: r in runs ==> r.id != run.id
    ensures Finish(runs + [run], run.id, Failed, code) == runs + [run.(status := Failed, code := code)]
  {
    assert forall i :: 0 <= i < |runs| ==> runs[i] in runs;
  }

  class Runs {
    var runs: seq<Run>
    var now: int

    ghost predicate Valid(w: World)
      reads this
    {
      Exclusive(w, runs) && NamedVolumes(w)
    }

    constructor (w: World)
      requires NamedVolumes(w)
      ensures Valid(w) && runs == []
    {
      runs, now := [], 0;
    }

    /** fail: recorded as running, then finished; a write that does not land is ignored. */
    method Fail(w: World, run: Run, code: string, look: Outlook) returns (answer: Answer)
      requires Valid(w) && run.job in w.jobs && run.status.Running? && !run.admitted
      requires forall r :: r in runs ==> r.id != run.id
      modifies this`runs
      ensures Valid(w) && answer == Denied(code) && runs == old(runs) + Trace(run, answer, look)
      ensures LeavesRow(old(runs), runs, run, answer, look)
    {
      answer := Denied(code);
      TraceLeaves(runs, run, answer, look);
      if look.createLands {
        AppendExclusive(w, runs, run);
        FinishLast(runs, run, code);
        runs := runs + [run];
        if look.finishLands {
          SettledExclusive(w, runs, Finish(runs, run.id, Failed, code));
          runs := Finish(runs, run.id, Failed, code);
        }
      }
    }

    /** One start under startMu: the verdict, and the one row it leaves. */
    method StartVolumeAction(w: World, job: string, kind: Kind, id: string, look: Outlook) returns (answer: Answer)
      requires Valid(w) && job in w.jobs && kind != Restore("")
      requires forall r :: r in runs ==> r.id != id
      modifies this`runs
      ensures Valid(w)
      ensures var run := Run(id, job, kind, Running, "", now, false);
              && answer == Verdict(w, old(runs), run, look) && runs == old(runs) + Trace(run, answer, look)
              && LeavesRow(old(runs), runs, run, answer, look)
    {
      hide Exclusive, NamedVolumes, Footprint, Clashes, Covers, LeavesRow;
      var run := Run(id, job, kind, Running, "", now, false);
      var sel := ResolveSelection(w.jobs[job].job, ChoicesOf(w, w.jobs[job].host));
      var volumes := seq(|sel.volumes|, i requires 0 <= i < |sel.volumes| => sel.volumes[i].name);
      NamesAre(w, job, sel, volumes);
      if kind.Restore? {
        volumes := [kind.volume];
      } else if |volumes| == 0 {
        answer := Fail(w, run, "VALIDATION", look);
        return;
      }
      assert NameSet(volumes) == VolumesOf(w, run) != {} by { assert volumes[0] in NameSet(volumes); }
      var busy := OverlapsRunning(w, runs, job, volumes);
      if busy != "" {
        answer := Fail(w, run, "CONCURRENCY", look);
        return;
      }
      if look.precheck.Some? {
        answer := Fail(w, run, look.precheck.value, look);
        return;
      }
      if !look.createLands {
        TraceLeaves(runs, run, Unrecorded, look);
        return Unrecorded;
      }
      TraceLeaves(runs, run, if look.agentStarts then Started else AgentRefused, look);
      answer := HandOver(w, run.(admitted := true), look);
    }

    /** A run that was let through: recorded, then handed to the agent. */
    method HandOver(w: World, run: Run, look: Outlook) returns (answer: Answer)
      requires Valid(w) && run.job in w.jobs && run.status.Running? && run.admitted && look.createLands
      requires forall r :: r in runs ==> r.id != run.id && !Clashes(w, r, run.job, VolumesOf(w, run))
      modifies this`runs
      ensures Valid(w) && answer == (if look.agentStarts then Started else AgentRefused)
      ensures runs == old(runs) + Trace(run, answer, look)
    {
      assert forall i :: 0 <= i < |runs| ==> runs[i] in runs;
      AppendExclusive(w, runs, run);
      FinishLast(runs, run, "AGENT");
      runs := runs + [run];
      if look.agentStarts {
        return Started;
      }
      if look.finishLands {
        SettledExclusive(w, runs, Finish(runs, run.id, Failed, "AGENT"));
        runs := Finish(runs, run.id, Failed, "AGENT");
      }
      answer := AgentRefused;
    }

    /** volumeBackupReportHandler, and the sweep; changed says a running run ended. */
    method FinishBackupRun(w: World, id: string, status: Status, code: string) returns (changed: bool)
      requires Valid(w) && !status.Running?
      modifies this`runs
      ensures Valid(w) && runs == Finish(old(runs), id, status, code) && Settled(old(runs), runs)
      ensures changed <==> exists r :: r in old(runs) && r.id == id && r.status.Running?
      ensures !changed ==> runs == old(runs)
      ensures forall r :: r in runs && r.id == id ==> !r.status.Running?
      ensures |runs| == |old(runs)|
      ensures forall i :: 0 <= i < |runs| ==>
                runs[i] == if old(runs)[i].id == id && old(runs)[i].status.Running?
                           then old(runs)[i].(status := status, code := code) else old(runs)[i]
    {
      changed := exists r | r in runs :: r.id == id && r.status.Running?;
      SettledExclusive(w, runs, Finish(runs, id, status, code));
      if !changed {
        assert forall i :: 0 <= i < |runs| ==> runs[i] in runs;
        assert Finish(runs, id, status, code) == runs;
      }
      runs := Finish(runs, id, status, code);
    }

    method FailStaleBackupRuns(w: World, cutoff: int)
      requires Valid(w)
      modifies this`runs
      ensures Valid(w) && Settled(old(runs), runs) && runs == FailStale(old(runs), cutoff)
      ensures forall r :: r in runs && r.status.Running? ==> r.started >= cutoff
      ensures |runs| == |old(runs)|
      ensures forall i :: 0 <= i < |runs| ==>
                runs[i] == if old(runs)[i].status.Running? && old(runs)[i].started < cutoff
                           then old(runs)[i].(status := Failed, code := "LOST") else old(runs)[i]
    {
      SettledExclusive(w, runs, FailStale(runs, cutoff));
      runs := FailStale(runs, cutoff);
    }
  }

  lemma {:induction false} NamesAre(w: World, job: string, sel: Selection, volumes: seq<string>)
    requires job in w.jobs && NamedVolumes(w) && |volumes| == |sel.volumes|
    requires forall i :: 0 <= i < |volumes| ==> volumes[i] == sel.volumes[i].name
    requires forall name :: Names(sel.volumes, name) <==> Covers(w.jobs[job].job, ChoicesOf(w, w.jobs[job].host), name)
    ensures NameSet(volumes) == Footprint(w, job) && "" !in volumes
  {
    FootprintMeans(w, job);
    forall name ensures name in volumes <==> Names(sel.volumes, name) {
      if Names(sel.volumes, name) {
        var v :| v in sel.volumes && v.name == name;
        var i :| 0 <= i < |sel.volumes| && sel.volumes[i] == v;
        assert volumes[i] == name;
      }
    }
  }
}
