/** When interleaved requests keep what rotation promises: who announces, and what is accepted. */
module RotationRuns {
  import opened Strings
  import opened HostStore
  import opened EnrollmentRuns

  // ---- runs, step by step

  ghost predicate Throughout(p: State -> bool, actions: seq<Action>) {
    forall n :: 0 <= n <= |actions| ==> p(Run(START, actions[..n]))
  }

  ghost predicate EachCall(q: (State, Action) -> bool, actions: seq<Action>) {
    forall n :: 0 <= n < |actions| ==> q(Run(START, actions[..n]), actions[n])
  }

  lemma {:induction false} NextPrefix(actions: seq<Action>, n: nat)
    requires n < |actions|
    ensures Run(START, actions[..n + 1]) == Do(Run(START, actions[..n]), actions[n])
  {
    hide Do;
    assert actions[..n + 1] == actions[..n] + [actions[n]];
    RunAppend(START, actions[..n], [actions[n]]);
    assert [actions[n]][1..] == [];
  }

  // ---- the record of retired certificates

  ghost predicate HoldsNow(hosts: Hosts, id: string, fp: string) {
    id in hosts && Holds(hosts[id], fp)
  }

  /** No host is found by a certificate retired for it. */
  ghost predicate RetiredOut(hosts: Hosts, retired: Retirements) {
    forall id, fp :: fp in At(retired, id) ==> !HoldsNow(hosts, id, fp)
  }

  /** The host holds the certificate, or held it and gave it up. */
  ghost predicate KnownAs(hosts: Hosts, retired: Retirements, id: string, fp: string) {
    HoldsNow(hosts, id, fp) || fp in At(retired, id)
  }

  /** How one store call changes a host's pair of certificates. */
  ghost predicate Rotates(before: Host, after: Host) {
    || (after.cert == before.cert && after.next == before.next)
    || (after.cert == before.cert && after.next != "")
    || (after.cert == before.next != "" && after.next == "")
  }

  ghost predicate Moves(before: Hosts, after: Hosts) {
    && (forall i :: i in before && i in after ==> Rotates(before[i], after[i]))
    && (forall i :: i in after && i !in before ==> after[i].next == "")
  }

  lemma {:induction false} StatementsMove(hosts: Hosts, id: string, fp: string)
    ensures Moves(hosts, hosts) && Moves(hosts, Promote(hosts, id, fp))
    ensures fp != "" ==> Moves(hosts, Announce(hosts, id, fp).0)
  {
    hide UsedElsewhere;
  }

  lemma {:induction false} RowsMove(hosts: Hosts, id: string, name: string, fp: string, who: string, now: int)
    ensures id !in hosts ==> Moves(hosts, Insert(hosts, id, name, fp, now))
    ensures Moves(hosts, Touch(hosts, id, now)) && Moves(hosts, Approve(hosts, id, who))
  {
  }

  lemma {:induction false} EnrollMoves(s: State, a: Action)
    ensures Moves(s.hosts, DoEnroll(s, a).hosts)
  {
    hide Moves, Find, Consume, Insert, Touch, Approve;
    StatementsMove(s.hosts, "", "");
    match a
    case EnrollUpsert(t, name, id) =>
      if ThreadOf(s, t).EnrollReady? {
        var fp := ThreadOf(s, t).fp;
        RowsMove(s.hosts, id, name, fp, "", s.now);
        if Find(s.hosts, fp).Some? { RowsMove(s.hosts, Find(s.hosts, fp).value, name, fp, "", s.now); }
      }
    case EnrollApprove(t) =>
      if ThreadOf(s, t).EnrollCreated? { RowsMove(s.hosts, ThreadOf(s, t).id, "", "", "enrollment-token", 0); }
    case _ =>
  }

  lemma {:induction false} AuthMoves(s: State, a: Action)
    ensures Moves(s.hosts, DoAuth(s, a).hosts)
  {
    hide Moves, Find, Promote, Announce;
    StatementsMove(s.hosts, "", "");
    match a
    case AuthPromote(t) =>
      if ThreadOf(s, t).AuthFound? { StatementsMove(s.hosts, ThreadOf(s, t).id, ThreadOf(s, t).fp); }
    case RotateAnnounce(t, newFp) =>
      if ThreadOf(s, t).RotateFound? { StatementsMove(s.hosts, ThreadOf(s, t).id, newFp); }
    case VerifyPromote(t) =>
      if ThreadOf(s, t).VerifyMatched? { StatementsMove(s.hosts, ThreadOf(s, t).id, ThreadOf(s, t).fp); }
    case _ =>
  }

  lemma {:induction false} FewerMove(hosts: Hosts, id: string, cutoff: int)
    ensures Moves(hosts, Reject(hosts, id)) && Moves(hosts, PurgePending(hosts, cutoff))
  {
  }

  lemma {:induction false} AdminMoves(s: State, a: Action)
    ensures Moves(s.hosts, DoAdmin(s, a).hosts)
  {
    hide Moves, Approve, Reject, PurgePending;
    StatementsMove(s.hosts, "", "");
    match a
    case AdminApprove(id) => RowsMove(s.hosts, id, "", "", "admin", 0);
    case AdminReject(id) => FewerMove(s.hosts, id, 0);
    case Purge(cutoff) => FewerMove(s.hosts, "", cutoff);
    case _ =>
  }

  lemma {:induction false} CallMoves(s: State, a: Action)
    ensures Moves(s.hosts, Do(s, a).hosts)
  {
    hide DoEnroll, DoAuth, Retire, Moves, Approve, Reject, PurgePending;
    EnrollMoves(s, a);
    AuthMoves(s, a);
    AdminMoves(s, a);
  }

  lemma {:induction false} RetireKeeps(before: Hosts, after: Hosts, retired: Retirements)
    requires WellKept(before) && WellKept(after) && Moves(before, after) && RetiredOut(before, retired)
    ensures RetiredOut(after, Retire(before, after, retired))
  {
    forall id, fp | fp in At(Retire(before, after, retired), id) ensures !HoldsNow(after, id, fp) {
      if fp in At(retired, id) {
        assert !HoldsNow(before, id, fp);
      }
    }
  }

  lemma {:induction false} KnownStays(before: Hosts, after: Hosts, retired: Retirements, id: string, fp: string)
    requires KnownAs(before, retired, id, fp) && fp != ""
    ensures KnownAs(after, Retire(before, after, retired), id, fp)
  {
    if before != after && !HoldsNow(after, id, fp) {
      assert fp !in HeldBy(after, id) && fp !in GivenTo(before, after, id);
      assert id in before.Keys + after.Keys + retired.Keys;
    }
  }

  // ---- what the requests under way know

  ghost predicate CallKnows(hosts: Hosts, retired: Retirements, th: Thread) {
    match th
    case AuthFound(id, fp) => fp != "" && id in hosts && hosts[id].status.Connected? && KnownAs(hosts, retired, id, fp)
    case EnrollCreated(id, fp, _) => fp != "" && KnownAs(hosts, retired, id, fp)
    case VerifyMissed(_, fp) => fp != ""
    case VerifyMatched(id, fp) => fp != "" && KnownAs(hosts, retired, id, fp)
    case _ => true
  }

  ghost predicate Kept(s: State) {
    Sound(s) && RetiredOut(s.hosts, s.retired) && forall t :: CallKnows(s.hosts, s.retired, ThreadOf(s, t))
  }

  lemma {:induction false} FindCallerLearns(s: State, t: nat, fp: string, u: nat)
    requires CallKnows(s.hosts, s.retired, ThreadOf(s, u))
    ensures CallKnows(s.hosts, s.retired, ThreadOf(FindCaller(s, t, fp), u))
  {
    hide Find;
    if Find(s.hosts, fp).Some? {
      assert HoldsNow(s.hosts, Find(s.hosts, fp).value, fp);
    }
  }

  lemma {:induction false} CheckAnnouncedLearns(s: State, t: nat, u: nat)
    requires CallKnows(s.hosts, s.retired, ThreadOf(s, t)) && CallKnows(s.hosts, s.retired, ThreadOf(s, u))
    ensures CallKnows(s.hosts, s.retired, ThreadOf(CheckAnnounced(s, t), u))
  {
  }

  /** A call learns only what the table says when it asks. */
  lemma {:induction false} LookupLearns(s: State, a: Action, u: nat)
    requires forall t :: CallKnows(s.hosts, s.retired, ThreadOf(s, t))
    ensures CallKnows(s.hosts, s.retired, ThreadOf(DoAuth(s, a), u))
  {
    hide Find, Promote, Announce, FindCaller, CheckAnnounced, KnownAs;
    if a.AuthLookup? {
      FindCallerLearns(s, a.t, a.fp, u);
    } else if a.VerifyNext? {
      CheckAnnouncedLearns(s, a.t, u);
    }
  }

  /** No call of an enrollment looks a host up for the other handlers; one that has just
      inserted a row knows the certificate it pinned to it. */
  lemma {:induction false} EnrollThreads(s: State, a: Action, u: nat)
    requires ThreadsSound(s)
    ensures var s' := DoEnroll(s, a);
            var th := ThreadOf(s', u);
            || th == ThreadOf(s, u) || th.Idle? || th.EnrollNew? || th.EnrollReady?
            || (th.EnrollCreated? && th.fp != "" && HoldsNow(s'.hosts, th.id, th.fp))
  {
    hide Find, Approve, Insert, Touch, Consume, UpsertRow, TakeToken, HoldsNow;
    if a.EnrollUpsert? {
      UpsertThreads(s, a.t, a.name, a.id, u);
    } else if a.EnrollToken? {
      TokenThreads(s, a.t, a.hash, u);
    }
  }

  lemma {:induction false} UpsertThreads(s: State, t: nat, name: string, id: string, u: nat)
    ensures var s' := UpsertRow(s, t, name, id);
            var th := ThreadOf(s', u);
            || th == ThreadOf(s, u) || th.Idle?
            || (th.EnrollCreated? && ThreadOf(s, t).EnrollReady? && th.fp == ThreadOf(s, t).fp
                && HoldsNow(s'.hosts, th.id, th.fp))
  {
    hide Touch;
  }

  lemma {:induction false} TokenThreads(s: State, t: nat, hash: string, u: nat)
    ensures var th := ThreadOf(TakeToken(s, t, hash), u); th == ThreadOf(s, u) || th.Idle? || th.EnrollReady?
  {
    hide Consume;
  }

  lemma {:induction false} LearnsNow(s: State, a: Action, u: nat)
    requires ThreadsSound(s) && forall t :: CallKnows(s.hosts, s.retired, ThreadOf(s, t))
    ensures var s' := Do(s, a);
            var th := ThreadOf(s', u);
            || CallKnows(s.hosts, s.retired, th)
            || (th.EnrollCreated? && th.fp != "" && HoldsNow(s'.hosts, th.id, th.fp))
  {
    hide DoEnroll, DoAuth, KnownAs, HoldsNow, ThreadsSound, Retire, Approve, Reject, PurgePending, PurgeTokens;
    LookupLearns(s, a, u);
    EnrollThreads(s, a, u);
  }

  lemma {:induction false} CallStays(before: Hosts, after: Hosts, retired: Retirements, th: Thread)
    requires CallKnows(before, retired, th) && KeepsConnected(before, after)
    ensures CallKnows(after, Retire(before, after, retired), th)
  {
    hide Retire;
    if th.AuthFound? || th.VerifyMatched? || th.EnrollCreated? {
      KnownStays(before, after, retired, th.id, th.fp);
    }
  }

  lemma {:induction false} KnowsAfter(s: State, a: Action, u: nat)
    requires Kept(s) && KeepsConnected(s.hosts, Do(s, a).hosts)
    ensures CallKnows(Do(s, a).hosts, Do(s, a).retired, ThreadOf(Do(s, a), u))
  {
    var after, th := Do(s, a), ThreadOf(Do(s, a), u);
    hide Sound, Retire, RetiredOut, HoldsNow, StoreCall, Do, ThreadsSound, WellKept;
    SoundHosts(s);
    LearnsNow(s, a, u);
    RetiredIs(s, a);
    if CallKnows(s.hosts, s.retired, th) { CallStays(s.hosts, after.hosts, s.retired, th); }
  }

  lemma {:induction false} StepKept(s: State, a: Action)
    requires Kept(s)
    ensures Kept(Do(s, a))
  {
    var after := Do(s, a).hosts;
    StepSound(s, a);
    CallMoves(s, a);
    SoundHosts(s);
    SoundHosts(Do(s, a));
    RetiredIs(s, a);
    hide Sound, Retire, RetiredOut, CallKnows, Do, Moves, WellKept, KeepsConnected;
    RetireKeeps(s.hosts, after, s.retired);
    forall u ensures CallKnows(after, Do(s, a).retired, ThreadOf(Do(s, a), u)) {
      KnowsAfter(s, a, u);
    }
  }

  lemma {:induction false} SoundHosts(s: State)
    requires Sound(s)
    ensures WellKept(s.hosts) && ThreadsSound(s)
  {
  }

  lemma {:induction false} RetiredIs(s: State, a: Action)
    ensures Do(s, a).retired == Retire(s.hosts, Do(s, a).hosts, s.retired)
  {
    hide StoreCall, Retire;
  }

  lemma {:induction false} RunKept(actions: seq<Action>)
    ensures Kept(Run(START, actions))
    decreases |actions|
  {
    hide Do;
    if actions == [] {
      assert forall t :: ThreadOf(START, t) == Idle;
    } else {
      var n := |actions| - 1;
      assert actions[..n + 1] == actions;
      RunKept(actions[..n]);
      NextPrefix(actions, n);
      StepKept(Run(START, actions[..n]), actions[n]);
    }
  }

  /** A property that a call keeps exactly if q holds of it lasts exactly if q holds of
      every call. */
  lemma {:induction false} LastsExactly(p: State -> bool, q: (State, Action) -> bool, actions: seq<Action>)
    requires p(START)
    requires forall s, a :: Kept(s) && p(s) ==> (p(Do(s, a)) <==> q(s, a))
    ensures Throughout(p, actions) <==> EachCall(q, actions)
  {
    hide Do, Kept;
    assert actions[..0] == [];
    forall n | 0 <= n < |actions| && p(Run(START, actions[..n]))
      ensures p(Run(START, actions[..n + 1])) <==> q(Run(START, actions[..n]), actions[n])
    {
      NextPrefix(actions, n);
      RunKept(actions[..n]);
    }
    if EachCall(q, actions) {
      for n := 0 to |actions|
        invariant forall m :: 0 <= m <= n ==> p(Run(START, actions[..m]))
      {
        assert q(Run(START, actions[..n]), actions[n]);
      }
    } else if Throughout(p, actions) {
      forall n | 0 <= n < |actions| ensures q(Run(START, actions[..n]), actions[n]) {
        assert p(Run(START, actions[..n])) && p(Run(START, actions[..n + 1]));
      }
    }
  }

  // ---- replaced certificates

  /** A promotion that some earlier lookup decided on. */
  ghost predicate Promoting(s: State, a: Action, id: string, fp: string) {
    || (a.AuthPromote? && ThreadOf(s, a.t) == AuthFound(id, fp))
    || (a.VerifyPromote? && ThreadOf(s, a.t) == VerifyMatched(id, fp))
  }

  /** The call registers the certificate as the host's next one. */
  ghost predicate Announcing(s: State, a: Action, id: string, fp: string) {
    && a.RotateAnnounce? && a.newFp == fp != "" && ThreadOf(s, a.t) == RotateFound(id)
    && Announce(s.hosts, id, fp).1.Registered?
  }

  /** In every interleaving, no query finds a host by a certificate retired for it, and no
      call accepts one, but for promotions already under way. */
  lemma {:induction false} ReplacedIsRefused(actions: seq<Action>, a: Action, id: string, fp: string)
    requires fp in At(Run(START, actions).retired, id)
    ensures var s := Run(START, actions);
            && !HoldsNow(s.hosts, id, fp) && Find(s.hosts, fp) != Some(id)
            && (id in Do(s, a).accepted && Do(s, a).accepted[id] == fp && !Promoting(s, a, id, fp)
                ==> id in s.accepted && s.accepted[id] == fp)
  {
    hide Sound, CallKnows, Retire;
    RunKept(actions);
    if !Promoting(Run(START, actions), a, id, fp) {
      AcceptsHeld(Run(START, actions), a, id, fp);
    }
  }

  lemma {:induction false} EnrollAcceptsNothing(s: State, a: Action, id: string)
    ensures id in DoEnroll(s, a).accepted ==> id in s.accepted && DoEnroll(s, a).accepted[id] == s.accepted[id]
  {
    hide Find, Consume, UpsertRow, TakeToken, Approve;
    if a.EnrollUpsert? {
      UpsertAcceptsNothing(s, a.t, a.name, a.id, id);
    } else if a.EnrollToken? {
      TokenAcceptsNothing(s, a.t, a.hash);
    }
  }

  lemma {:induction false} UpsertAcceptsNothing(s: State, t: nat, name: string, row: string, id: string)
    ensures var s' := UpsertRow(s, t, name, row);
            id in s'.accepted ==> id in s.accepted && s'.accepted[id] == s.accepted[id]
  {
    hide Insert, Touch;
  }

  lemma {:induction false} TokenAcceptsNothing(s: State, t: nat, hash: string)
    ensures TakeToken(s, t, hash).accepted == s.accepted
  {
    hide Consume;
  }

  lemma {:induction false} AcceptsHeld(s: State, a: Action, id: string, fp: string)
    requires !HoldsNow(s.hosts, id, fp) && !Promoting(s, a, id, fp)
    ensures id in Do(s, a).accepted && Do(s, a).accepted[id] == fp ==> id in s.accepted && s.accepted[id] == fp
  {
    hide DoAuth, DoEnroll, Retire, Approve, Reject, PurgePending, PurgeTokens;
    AuthAcceptsHeld(s, a, id, fp);
    EnrollAcceptsNothing(s, a, id);
  }

  lemma {:induction false} FinderAcceptsHeld(s: State, t: nat, seen: string, id: string, fp: string)
    requires !HoldsNow(s.hosts, id, fp)
    ensures var s' := FindCaller(s, t, seen);
            id in s'.accepted && s'.accepted[id] == fp ==> id in s.accepted && s.accepted[id] == fp
  {
  }

  lemma {:induction false} AuthAcceptsHeld(s: State, a: Action, id: string, fp: string)
    requires !HoldsNow(s.hosts, id, fp) && !Promoting(s, a, id, fp)
    ensures var s' := DoAuth(s, a);
            id in s'.accepted && s'.accepted[id] == fp ==> id in s.accepted && s.accepted[id] == fp
  {
    hide Find, Promote, Announce, FindCaller, FindRotating, AnnounceNext, CheckAnnounced;
    if a.AuthLookup? {
      FinderAcceptsHeld(s, a.t, a.fp, id, fp);
    } else if a.RotateLookup? || a.RotateAnnounce? || a.VerifyNext? {
      OthersAcceptNothing(s, a);
    }
  }

  lemma {:induction false} OthersAcceptNothing(s: State, a: Action)
    requires a.RotateLookup? || a.RotateAnnounce? || a.VerifyNext?
    ensures DoAuth(s, a).accepted == s.accepted
  {
    hide Find, Announce;
  }

  /** A retired certificate stands for the host again only once the host announces it,
      or enrolls anew with it. */
  lemma {:induction false} OnlyGivenAgain(actions: seq<Action>, a: Action, id: string, fp: string)
    requires var s := Run(START, actions); fp in At(s.retired, id) && fp !in At(Do(s, a).retired, id) && fp != ""
    ensures Announcing(Run(START, actions), a, id, fp) || Enrolling(Run(START, actions), a, id, fp)
  {
    hide Run, StoreCall;
    var s := Run(START, actions);
    RetiredIs(s, a);
    assert fp in GivenTo(s.hosts, Do(s, a).hosts, id);
    GivenBy(s, a, id, fp);
  }

  /** The call inserts a row for the id and pins the certificate to it. */
  ghost predicate Enrolling(s: State, a: Action, id: string, fp: string) {
    a.EnrollUpsert? && a.id == id && id !in s.hosts && ThreadOf(s, a.t).EnrollReady? && ThreadOf(s, a.t).fp == fp
  }

  lemma {:induction false} GivenBy(s: State, a: Action, id: string, fp: string)
    requires fp in GivenTo(s.hosts, Do(s, a).hosts, id) && fp != ""
    ensures Announcing(s, a, id, fp) || Enrolling(s, a, id, fp)
  {
    hide DoEnroll, DoAuth, Announcing, Enrolling;
    if fp in GivenTo(s.hosts, DoEnroll(s, a).hosts, id) { EnrollGives(s, a, id, fp); }
    if fp in GivenTo(s.hosts, DoAuth(s, a).hosts, id) { AnnounceGives(s, a, id, fp); }
  }

  lemma {:induction false} EnrollGives(s: State, a: Action, id: string, fp: string)
    requires fp in GivenTo(s.hosts, DoEnroll(s, a).hosts, id)
    ensures Enrolling(s, a, id, fp)
  {
    hide Consume, Find, GivenTo, UpsertRow, Approve;
    NothingGiven(s.hosts, id);
    if a.EnrollUpsert? {
      UpsertGives(s, a.t, a.name, a.id, id, fp);
    } else if a.EnrollApprove? && ThreadOf(s, a.t).EnrollCreated? {
      RowGivesNothing(s.hosts, ThreadOf(s, a.t).id, "enrollment-token", s.now, id);
    }
  }

  lemma {:induction false} NothingGiven(hosts: Hosts, id: string)
    ensures GivenTo(hosts, hosts, id) == {}
  {
  }

  lemma {:induction false} RowGivesNothing(hosts: Hosts, row: string, who: string, now: int, id: string)
    ensures GivenTo(hosts, Approve(hosts, row, who), id) == {} && GivenTo(hosts, Touch(hosts, row, now), id) == {}
  {
  }

  lemma {:induction false} UpsertGives(s: State, t: nat, name: string, row: string, id: string, fp: string)
    requires fp in GivenTo(s.hosts, UpsertRow(s, t, name, row).hosts, id)
    ensures row == id && id !in s.hosts && ThreadOf(s, t).EnrollReady? && ThreadOf(s, t).fp == fp
  {
    hide Find, Touch;
    NothingGiven(s.hosts, id);
    if ThreadOf(s, t).EnrollReady? {
      var known := Find(s.hosts, ThreadOf(s, t).fp);
      if known.Some? { RowGivesNothing(s.hosts, known.value, "", s.now, id); }
    }
  }

  lemma {:induction false} PromotionGivesNothing(hosts: Hosts, row: string, cert: string, id: string)
    ensures GivenTo(hosts, Promote(hosts, row, cert), id) <= {""}
  {
  }

  lemma {:induction false} AnnouncementGives(s: State, t: nat, newFp: string, id: string, fp: string)
    requires fp in GivenTo(s.hosts, AnnounceNext(s, t, newFp).hosts, id)
    ensures newFp == fp && fp != "" && ThreadOf(s, t) == RotateFound(id) && Announce(s.hosts, id, fp).1.Registered?
  {
    hide UsedElsewhere;
  }

  lemma {:induction false} AnnounceGives(s: State, a: Action, id: string, fp: string)
    requires fp in GivenTo(s.hosts, DoAuth(s, a).hosts, id) && fp != ""
    ensures Announcing(s, a, id, fp)
  {
    hide Find, Announce, Promote, AnnounceNext, GivenTo;
    NothingGiven(s.hosts, id);
    if a.RotateAnnounce? {
      AnnouncementGives(s, a.t, a.newFp, id, fp);
    } else if (a.AuthPromote? && ThreadOf(s, a.t).AuthFound?) || (a.VerifyPromote? && ThreadOf(s, a.t).VerifyMatched?) {
      PromotionGivesNothing(s.hosts, ThreadOf(s, a.t).id, ThreadOf(s, a.t).fp, id);
    }
  }

  /** What a promotion under way may still accept: its certificate is accepted either way,
      and is the pinned one afterwards exactly if it was not retired since the lookup. */
  lemma {:induction false} LateAcceptance(actions: seq<Action>, a: Action, id: string, fp: string)
    requires Promoting(Run(START, actions), a, id, fp)
    ensures var s := Run(START, actions);
            && id in Do(s, a).accepted && Do(s, a).accepted[id] == fp
            && (fp in At(s.retired, id) <==> !(id in Do(s, a).hosts && Do(s, a).hosts[id].cert == fp))
  {
    hide Sound, Run, Retire;
    RunKept(actions);
    var s := Run(START, actions);
    assert CallKnows(s.hosts, s.retired, ThreadOf(s, a.t));
    assert fp in At(s.retired, id) <==> !HoldsNow(s.hosts, id, fp);
  }

  /** An approval by token approves the certificate it was presented with exactly if the
      row inserted for it did not give that up in the meantime: was neither removed, nor
      pinned to another one. */
  lemma {:induction false} TokenApproves(actions: seq<Action>, t: nat)
    requires var s := Run(START, actions); var th := ThreadOf(s, t);
             th.EnrollCreated? && th.token.Some? && th.id in s.hosts
    ensures var s := Run(START, actions); var th := ThreadOf(s, t); var after := Do(s, EnrollApprove(t));
            && th.token.value in after.approvedWith && th.token.value in s.consumed
            && th.id in after.hosts && after.hosts[th.id].status.Connected?
            && (Holds(after.hosts[th.id], th.fp) <==> th.fp !in At(s.retired, th.id))
  {
    hide Run, Retire;
    RunKept(actions);
    ApprovesHeld(Run(START, actions), t);
  }

  lemma {:induction false} ApprovesHeld(s: State, t: nat)
    requires Kept(s) && ThreadOf(s, t).EnrollCreated? && ThreadOf(s, t).token.Some? && ThreadOf(s, t).id in s.hosts
    ensures var th := ThreadOf(s, t); var after := Do(s, EnrollApprove(t));
            && th.token.value in after.approvedWith && th.token.value in s.consumed
            && th.id in after.hosts && after.hosts[th.id].status.Connected?
            && (Holds(after.hosts[th.id], th.fp) <==> th.fp !in At(s.retired, th.id))
  {
    hide Retire, TokensSound, ThreadsSound, WellKept;
    var th := ThreadOf(s, t);
    assert Carried(s, t) == th.token;
    assert CallKnows(s.hosts, s.retired, th);
    assert th.fp in At(s.retired, th.id) <==> !HoldsNow(s.hosts, th.id, th.fp);
  }

  // ---- the last accepted certificate

  ghost predicate AcceptedPinned(s: State) {
    forall i :: i in s.hosts && i in s.accepted ==> s.hosts[i].cert == s.accepted[i]
  }

  /** A promotion finds its certificate still held by its host, if the host is there. */
  ghost predicate Timely(s: State, a: Action) {
    forall id, fp :: Promoting(s, a, id, fp) && id in s.hosts ==> Holds(s.hosts[id], fp)
  }

  /** Promoting and accepting a certificate leaves it pinned exactly if the host held it. */
  lemma {:induction false} PromotedPinned(s: State, s': State, id: string, fp: string)
    requires AcceptedPinned(s) && fp != ""
    requires s'.hosts == Promote(s.hosts, id, fp) && s'.accepted == s.accepted[id := fp]
    ensures AcceptedPinned(s') <==> (id in s.hosts ==> Holds(s.hosts[id], fp))
  {
    if id in s.hosts && !Holds(s.hosts[id], fp) {
      assert s'.hosts[id].cert != s'.accepted[id];
    }
  }

  predicate HeldIfThere(hosts: Hosts, id: string, fp: string) {
    id in hosts ==> Holds(hosts[id], fp)
  }

  lemma {:induction false} CallerPinned(s: State, t: nat)
    requires AcceptedPinned(s) && (ThreadOf(s, t).AuthFound? ==> ThreadOf(s, t).fp != "")
    ensures AcceptedPinned(PromoteCaller(s, t))
            <==> (ThreadOf(s, t).AuthFound? ==> HeldIfThere(s.hosts, ThreadOf(s, t).id, ThreadOf(s, t).fp))
  {
    hide AcceptedPinned, Promote;
    var th := ThreadOf(s, t);
    if th.AuthFound? { PromotedPinned(s, PromoteCaller(s, t), th.id, th.fp); }
  }

  lemma {:induction false} MatchedPinned(s: State, t: nat)
    requires AcceptedPinned(s) && (ThreadOf(s, t).VerifyMatched? ==> ThreadOf(s, t).fp != "")
    ensures AcceptedPinned(PromoteMatched(s, t))
            <==> (ThreadOf(s, t).VerifyMatched? ==> HeldIfThere(s.hosts, ThreadOf(s, t).id, ThreadOf(s, t).fp))
  {
    hide AcceptedPinned, Promote;
    var th := ThreadOf(s, t);
    if th.VerifyMatched? { PromotedPinned(s, PromoteMatched(s, t), th.id, th.fp); }
  }

  lemma {:induction false} TimelyIs(s: State, a: Action)
    ensures a.AuthPromote? ==>
              (Timely(s, a) <==> (ThreadOf(s, a.t).AuthFound? ==>
                                    HeldIfThere(s.hosts, ThreadOf(s, a.t).id, ThreadOf(s, a.t).fp)))
    ensures a.VerifyPromote? ==>
              (Timely(s, a) <==> (ThreadOf(s, a.t).VerifyMatched? ==>
                                    HeldIfThere(s.hosts, ThreadOf(s, a.t).id, ThreadOf(s, a.t).fp)))
  {
    if a.AuthPromote? && ThreadOf(s, a.t).AuthFound? {
      assert Promoting(s, a, ThreadOf(s, a.t).id, ThreadOf(s, a.t).fp);
    } else if a.VerifyPromote? && ThreadOf(s, a.t).VerifyMatched? {
      assert Promoting(s, a, ThreadOf(s, a.t).id, ThreadOf(s, a.t).fp);
    }
  }

  lemma {:induction false} SamePinned(s: State, s': State)
    requires AcceptedPinned(s) && s'.hosts == s.hosts && s'.accepted == s.accepted
    ensures AcceptedPinned(s')
  {
  }

  /** Recording what was retired changes nothing else. */
  lemma {:induction false} RetiringOnly(s: State, a: Action)
    ensures Do(s, a).hosts == StoreCall(s, a).hosts && Do(s, a).accepted == StoreCall(s, a).accepted
  {
    hide StoreCall, Retire;
  }

  lemma {:induction false} KnowsSome(s: State, t: nat)
    requires Kept(s) && (ThreadOf(s, t).AuthFound? || ThreadOf(s, t).VerifyMatched?)
    ensures ThreadOf(s, t).fp != ""
  {
    hide Sound, RetiredOut, KnownAs;
    assert CallKnows(s.hosts, s.retired, ThreadOf(s, t));
  }

  lemma {:induction false} PromotionIs(s: State, a: Action)
    ensures a.AuthPromote? ==> StoreCall(s, a) == PromoteCaller(s, a.t)
    ensures a.VerifyPromote? ==> StoreCall(s, a) == PromoteMatched(s, a.t)
  {
    hide PromoteCaller, PromoteMatched, FindCaller, FindRotating, AnnounceNext, CheckPinned, CheckAnnounced;
  }

  lemma {:induction false} PromotionAccepts(s: State, a: Action)
    requires Kept(s) && AcceptedPinned(s) && (a.AuthPromote? || a.VerifyPromote?)
    ensures AcceptedPinned(Do(s, a)) <==> Timely(s, a)
  {
    hide Kept, Do, StoreCall, HeldIfThere, AcceptedPinned, Timely, PromoteCaller, PromoteMatched;
    var after, th := StoreCall(s, a), ThreadOf(s, a.t);
    if th.AuthFound? || th.VerifyMatched? { KnowsSome(s, a.t); }
    PromotionIs(s, a);
    RetiringOnly(s, a);
    if AcceptedPinned(after) { SamePinned(after, Do(s, a)); }
    if AcceptedPinned(Do(s, a)) { SamePinned(Do(s, a), after); }
    TimelyIs(s, a);
    if a.AuthPromote? { CallerPinned(s, a.t); } else { MatchedPinned(s, a.t); }
  }

  lemma {:induction false} EnrollAccepts(s: State, a: Action)
    requires AcceptedPinned(s)
    ensures AcceptedPinned(DoEnroll(s, a))
  {
    hide Consume, Find;
  }

  lemma {:induction false} LookupAccepts(s: State, a: Action)
    requires AcceptedPinned(s) && !a.AuthPromote? && !a.VerifyPromote?
    ensures AcceptedPinned(DoAuth(s, a))
  {
    hide Find, UsedElsewhere;
  }

  lemma {:induction false} CallAccepts(s: State, a: Action)
    requires Kept(s) && AcceptedPinned(s)
    ensures AcceptedPinned(Do(s, a)) <==> Timely(s, a)
  {
    hide Kept, DoEnroll, DoAuth, Retire;
    if a.AuthPromote? || a.VerifyPromote? {
      PromotionAccepts(s, a);
    } else {
      EnrollAccepts(s, a);
      LookupAccepts(s, a);
    }
  }

  /** The certificate last accepted for a host is its pinned one, at every moment of a
      run, exactly if every promotion of the run finds its certificate still held. */
  lemma {:induction false} AcceptedIsPinned(actions: seq<Action>)
    ensures Throughout(s => AcceptedPinned(s), actions) <==> EachCall((s, a) => Timely(s, a), actions)
  {
    hide Do, Kept, AcceptedPinned, Timely;
    forall s, a | Kept(s) && AcceptedPinned(s) ensures AcceptedPinned(Do(s, a)) <==> Timely(s, a) {
      CallAccepts(s, a);
    }
    NothingAccepted();
    LastsExactly(s => AcceptedPinned(s), (s, a) => Timely(s, a), actions);
  }

  lemma {:induction false} NothingAccepted()
    ensures AcceptedPinned(START) && OnlyConnectedAnnounce(START.hosts) && RotatorsConnected(START)
  {
  }

  // ---- who announces

  /** A certificate is announced for an approved host only. */
  ghost predicate ForApproved(s: State, a: Action) {
    forall id, fp :: Announcing(s, a, id, fp) ==> s.hosts[id].status.Connected?
  }

  lemma {:induction false} AnnounceAccepts(s: State, a: Action)
    requires Sound(s) && OnlyConnectedAnnounce(s.hosts) && a.RotateAnnounce?
    ensures OnlyConnectedAnnounce(Do(s, a).hosts) <==> ForApproved(s, a)
  {
    hide Sound, Retire, UsedElsewhere;
    var th := ThreadOf(s, a.t);
    if th.RotateFound? && a.newFp != "" && Announce(s.hosts, th.id, a.newFp).1.Registered? {
      assert Announcing(s, a, th.id, a.newFp);
      assert Do(s, a).hosts[th.id].next == a.newFp;
    }
  }

  lemma {:induction false} RowsQuiet(hosts: Hosts, id: string, name: string, fp: string, now: int)
    requires OnlyConnectedAnnounce(hosts)
    ensures OnlyConnectedAnnounce(Touch(hosts, id, now)) && OnlyConnectedAnnounce(Approve(hosts, id, name))
    ensures OnlyConnectedAnnounce(Insert(hosts, id, name, fp, now))
  {
  }

  lemma {:induction false} EnrollQuiet(s: State, a: Action)
    requires OnlyConnectedAnnounce(s.hosts)
    ensures OnlyConnectedAnnounce(DoEnroll(s, a).hosts)
  {
    hide Consume, Find, Insert, Touch, Approve, OnlyConnectedAnnounce;
    if a.EnrollUpsert? && ThreadOf(s, a.t).EnrollReady? {
      var fp := ThreadOf(s, a.t).fp;
      RowsQuiet(s.hosts, a.id, a.name, fp, s.now);
      if Find(s.hosts, fp).Some? { RowsQuiet(s.hosts, Find(s.hosts, fp).value, "", fp, s.now); }
    } else if a.EnrollApprove? && ThreadOf(s, a.t).EnrollCreated? {
      RowsQuiet(s.hosts, ThreadOf(s, a.t).id, "enrollment-token", "", s.now);
    }
  }

  lemma {:induction false} PromotionQuiet(hosts: Hosts, id: string, fp: string)
    requires OnlyConnectedAnnounce(hosts)
    ensures OnlyConnectedAnnounce(Promote(hosts, id, fp))
  {
  }

  lemma {:induction false} LookupQuiet(s: State, a: Action)
    requires OnlyConnectedAnnounce(s.hosts) && !a.RotateAnnounce?
    ensures OnlyConnectedAnnounce(DoAuth(s, a).hosts)
  {
    hide Find, Promote, AnnounceNext, OnlyConnectedAnnounce;
    if (a.AuthPromote? && ThreadOf(s, a.t).AuthFound?) || (a.VerifyPromote? && ThreadOf(s, a.t).VerifyMatched?) {
      PromotionQuiet(s.hosts, ThreadOf(s, a.t).id, ThreadOf(s, a.t).fp);
    }
  }

  lemma {:induction false} CallAnnounces(s: State, a: Action)
    requires Kept(s) && OnlyConnectedAnnounce(s.hosts)
    ensures OnlyConnectedAnnounce(Do(s, a).hosts) <==> ForApproved(s, a)
  {
    hide Sound, DoEnroll, DoAuth, Retire;
    if a.RotateAnnounce? {
      AnnounceAccepts(s, a);
    } else {
      EnrollQuiet(s, a);
      LookupQuiet(s, a);
    }
  }

  /** Only approved hosts hold an announced certificate, at every moment of a run, exactly
      if every registered announcement of the run is for a host approved by then. */
  lemma {:induction false} AnnouncersExactly(actions: seq<Action>)
    ensures Throughout((s: State) => OnlyConnectedAnnounce(s.hosts), actions) <==>
        EachCall((s, a) => ForApproved(s, a), actions)
  {
    hide Do, Kept, OnlyConnectedAnnounce, ForApproved;
    forall s, a | Kept(s) && OnlyConnectedAnnounce(s.hosts)
        ensures OnlyConnectedAnnounce(Do(s, a).hosts) <==> ForApproved(s, a) {
      CallAnnounces(s, a);
    }
    NothingAccepted();
    LastsExactly((s: State) => OnlyConnectedAnnounce(s.hosts), (s, a) => ForApproved(s, a), actions);
  }

  /** The guard rotateHandler lacks: the host it finds is approved. */
  ghost predicate FindsApproved(s: State, a: Action) {
    a.RotateLookup? && ThreadOf(s, a.t).AuthPassed? && Find(s.hosts, ThreadOf(s, a.t).fp).Some? ==>
      s.hosts[Find(s.hosts, ThreadOf(s, a.t).fp).value].status.Connected?
  }

  ghost predicate RotatorsConnected(s: State) {
    forall t :: ThreadOf(s, t).RotateFound? ==>
                  ThreadOf(s, t).id in s.hosts && s.hosts[ThreadOf(s, t).id].status.Connected?
  }

  lemma {:induction false} RotatingIsFound(s: State, t: nat, u: nat)
    requires RotatorsConnected(s) && FindsApproved(s, RotateLookup(t))
    ensures var th := ThreadOf(FindRotating(s, t), u);
            th.RotateFound? ==> th.id in s.hosts && s.hosts[th.id].status.Connected?
  {
    var known := ThreadOf(s, u);
  }

  lemma {:induction false} RotatorFrom(s: State, a: Action, t: nat)
    requires RotatorsConnected(s) && FindsApproved(s, a)
    ensures var th := ThreadOf(DoAuth(s, a), t);
            th.RotateFound? ==> th.id in s.hosts && s.hosts[th.id].status.Connected?
  {
    var known := ThreadOf(s, t);
    assert known.RotateFound? ==> known.id in s.hosts && s.hosts[known.id].status.Connected?;
    hide Promote, Announce, Find, FindRotating, RotatorsConnected, FindsApproved;
    if a.RotateLookup? { RotatingIsFound(s, a.t, t); }
  }

  /** Only agentAuth's calls look a host up to rotate. */
  lemma {:induction false} NoOtherRotators(s: State, a: Action, t: nat)
    requires ThreadsSound(s)
    ensures ThreadOf(Do(s, a), t).RotateFound? ==>
              ThreadOf(Do(s, a), t) == ThreadOf(s, t) || ThreadOf(Do(s, a), t) == ThreadOf(DoAuth(s, a), t)
  {
    hide DoEnroll, DoAuth, ThreadsSound, HoldsNow, Retire, Approve, Reject, PurgePending, PurgeTokens;
    EnrollThreads(s, a, t);
  }

  lemma {:induction false} AnnouncingIs(s: State, a: Action)
    requires RotatorsConnected(s)
    ensures ForApproved(s, a)
  {
    hide Announce, StoreCall;
  }

  lemma {:induction false} RotatorsStay(s: State, a: Action)
    requires Sound(s) && RotatorsConnected(s) && FindsApproved(s, a)
    ensures RotatorsConnected(Do(s, a)) && ForApproved(s, a)
  {
    hide Sound, ThreadsSound, DoAuth, DoEnroll, DoAdmin, Do, Find;
    SoundHosts(s);
    StepSound(s, a);
    AnnouncingIs(s, a);
    forall t ensures var th := ThreadOf(Do(s, a), t);
                     th.RotateFound? ==> th.id in s.hosts && s.hosts[th.id].status.Connected?
    {
      RotatorFrom(s, a, t);
      NoOtherRotators(s, a, t);
    }
  }

  /** With that guard, only approved hosts ever hold an announced certificate. */
  lemma {:induction false} GuardSuffices(actions: seq<Action>)
    requires EachCall((s, a) => FindsApproved(s, a), actions)
    ensures Throughout((s: State) => OnlyConnectedAnnounce(s.hosts), actions)
  {
    hide Do, Sound, FindsApproved, ForApproved, RotatorsConnected, OnlyConnectedAnnounce;
    NothingAccepted();
    for n := 0 to |actions|
      invariant RotatorsConnected(Run(START, actions[..n]))
      invariant forall m :: 0 <= m < n ==> ForApproved(Run(START, actions[..m]), actions[m])
    {
      RunKept(actions[..n]);
      assert FindsApproved(Run(START, actions[..n]), actions[n]);
      RotatorsStay(Run(START, actions[..n]), actions[n]);
      NextPrefix(actions, n);
    }
    AnnouncersExactly(actions);
  }
}
