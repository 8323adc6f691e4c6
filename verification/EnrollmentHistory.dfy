/** What earlier calls lie behind the state of a run: consumed tokens, and callers let through. */
module EnrollmentHistory {
  import opened Strings
  import opened HostStore
  import opened EnrollmentRuns
  import opened RotationRuns

  // ---- tokens are consumed before they expire

  /** Action i minted the token, to expire then. */
  ghost predicate MintedAt(actions: seq<Action>, i: int, hash: string, expires: int) {
    && 0 <= i < |actions| && actions[i].Mint? && actions[i].hash == hash
    && Run(START, actions[..i]).now + actions[i].ttl == expires
  }

  /** Action j consumed the token, at a time before it expired. */
  ghost predicate ConsumedAt(actions: seq<Action>, j: int, hash: string, expires: int) {
    && 0 <= j < |actions| && actions[j].EnrollToken? && actions[j].hash == hash
    && Run(START, actions[..j]).now < expires
    && hash !in Run(START, actions[..j]).consumed && hash in Run(START, actions[..j + 1]).consumed
  }

  lemma {:induction false} EnrollKeepsTokens(s: State, a: Action, hash: string)
    requires hash in DoEnroll(s, a).tokens
    ensures hash in s.tokens && DoEnroll(s, a).tokens[hash].expires == s.tokens[hash].expires
  {
    hide Find, UpsertRow, Approve;
    if a.EnrollUpsert? { UpsertKeepsTokens(s, a.t, a.name, a.id); }
  }

  lemma {:induction false} UpsertKeepsTokens(s: State, t: nat, name: string, id: string)
    ensures UpsertRow(s, t, name, id).tokens == s.tokens && UpsertRow(s, t, name, id).consumed == s.consumed
  {
    hide Insert, Touch;
  }

  lemma {:induction false} AuthKeepsTokens(s: State, a: Action)
    ensures DoAuth(s, a).tokens == s.tokens && DoAuth(s, a).consumed == s.consumed
  {
    hide Find, Promote, Announce, FindCaller, FindRotating;
    if a.AuthLookup? {
      FinderKeepsTokens(s, a.t, a.fp);
    } else if a.RotateLookup? {
      RotatingKeepsTokens(s, a.t);
    }
  }

  lemma {:induction false} FinderKeepsTokens(s: State, t: nat, fp: string)
    ensures FindCaller(s, t, fp).tokens == s.tokens && FindCaller(s, t, fp).consumed == s.consumed
  {
    hide Find;
  }

  lemma {:induction false} RotatingKeepsTokens(s: State, t: nat)
    ensures FindRotating(s, t).tokens == s.tokens && FindRotating(s, t).consumed == s.consumed
  {
    hide Find;
  }

  lemma {:induction false} TokenStep(s: State, a: Action, hash: string)
    requires hash in Do(s, a).tokens
    ensures || (hash in s.tokens && Do(s, a).tokens[hash].expires == s.tokens[hash].expires)
            || (a.Mint? && a.hash == hash && Do(s, a).tokens[hash].expires == s.now + a.ttl)
  {
    hide DoEnroll, DoAuth, Retire, Approve, Reject, PurgePending;
    AuthKeepsTokens(s, a);
    if hash in DoEnroll(s, a).tokens { EnrollKeepsTokens(s, a, hash); }
  }

  lemma {:induction false} ConsumedByEnroll(s: State, a: Action, hash: string)
    requires hash in DoEnroll(s, a).consumed && hash !in s.consumed
    ensures a.EnrollToken? && a.hash == hash && hash in s.tokens && s.now < s.tokens[hash].expires
  {
    hide Find, UpsertRow, Approve;
    if a.EnrollUpsert? { UpsertKeepsTokens(s, a.t, a.name, a.id); }
  }

  lemma {:induction false} ConsumedStep(s: State, a: Action, hash: string)
    requires hash in Do(s, a).consumed && hash !in s.consumed
    ensures a.EnrollToken? && a.hash == hash && hash in s.tokens && s.now < s.tokens[hash].expires
  {
    hide DoEnroll, DoAuth, Retire, Approve, Reject, PurgePending, PurgeTokens;
    AuthKeepsTokens(s, a);
    if hash in DoEnroll(s, a).consumed { ConsumedByEnroll(s, a, hash); }
  }

  lemma {:induction false} EveryTokenWasMinted(actions: seq<Action>, hash: string)
    requires hash in Run(START, actions).tokens
    ensures exists i :: MintedAt(actions, i, hash, Run(START, actions).tokens[hash].expires)
    decreases |actions|
  {
    hide Do;
    if actions != [] {
      var m := |actions| - 1;
      var front := actions[..m];
      var s := Run(START, front);
      assert actions[..m + 1] == actions;
      NextPrefix(actions, m);
      TokenStep(s, actions[m], hash);
      var expires := Run(START, actions).tokens[hash].expires;
      if hash in s.tokens && s.tokens[hash].expires == expires {
        EveryTokenWasMinted(front, hash);
        var i :| MintedAt(front, i, hash, expires);
        assert actions[..i] == front[..i];
        assert MintedAt(actions, i, hash, expires);
      } else {
        assert MintedAt(actions, m, hash, expires);
      }
    }
  }

  /** In every interleaving, each token consumed was minted with some lifetime, and
      consumed before that was over. */
  lemma {:induction false} ConsumedInTime(actions: seq<Action>, hash: string)
    requires hash in Run(START, actions).consumed
    ensures exists i, j, expires ::
              i < j && MintedAt(actions, i, hash, expires) && ConsumedAt(actions, j, hash, expires)
    decreases |actions|
  {
    hide Do;
    if actions != [] {
      var m := |actions| - 1;
      var front := actions[..m];
      var s := Run(START, front);
      assert actions[..m + 1] == actions;
      NextPrefix(actions, m);
      if hash in s.consumed {
        ConsumedInTime(front, hash);
        var i, j, expires :| i < j && MintedAt(front, i, hash, expires) && ConsumedAt(front, j, hash, expires);
        assert actions[..i] == front[..i] && actions[..j] == front[..j] && actions[..j + 1] == front[..j + 1];
        assert MintedAt(actions, i, hash, expires) && ConsumedAt(actions, j, hash, expires);
      } else {
        ConsumedStep(s, actions[m], hash);
        EveryTokenWasMinted(front, hash);
        var expires := s.tokens[hash].expires;
        var i :| MintedAt(front, i, hash, expires);
        assert actions[..i] == front[..i];
        assert MintedAt(actions, i, hash, expires) && ConsumedAt(actions, m, hash, expires);
      }
    }
  }

  // ---- callers let through

  /** At action n, a call by the certificate found a host that holds it and is approved. */
  ghost predicate LookedUpAt(actions: seq<Action>, n: int, t: nat, fp: string) {
    && 0 <= n < |actions| && actions[n] == AuthLookup(t, fp)
    && exists id :: id in Run(START, actions[..n]).hosts && Holds(Run(START, actions[..n]).hosts[id], fp)
                    && Run(START, actions[..n]).hosts[id].status.Connected?
  }

  /** A call that agentAuth has let through, or is about to. */
  predicate PastLookup(th: Thread) {
    th.AuthFound? || th.AuthPassed?
  }

  lemma {:induction false} FinderFinds(s: State, t: nat, fp: string, u: nat)
    requires PastLookup(ThreadOf(FindCaller(s, t, fp), u)) && ThreadOf(FindCaller(s, t, fp), u) != ThreadOf(s, u)
    ensures u == t && ThreadOf(FindCaller(s, t, fp), u).fp == fp
    ensures exists id :: id in s.hosts && Holds(s.hosts[id], fp) && s.hosts[id].status.Connected?
  {
  }

  lemma {:induction false} PassedStep(s: State, a: Action, u: nat)
    requires PastLookup(ThreadOf(DoAuth(s, a), u))
    ensures var fp := ThreadOf(DoAuth(s, a), u).fp;
            || (PastLookup(ThreadOf(s, u)) && ThreadOf(s, u).fp == fp)
            || (a == AuthLookup(u, fp)
                && exists id :: id in s.hosts && Holds(s.hosts[id], fp) && s.hosts[id].status.Connected?)
  {
    hide Find, Promote, Announce, FindCaller, FindRotating;
    if a.AuthLookup? {
      if ThreadOf(DoAuth(s, a), u) != ThreadOf(s, u) { FinderFinds(s, a.t, a.fp, u); }
    } else if a.RotateLookup? {
      RotatingPasses(s, a.t, u);
    }
  }

  lemma {:induction false} RotatingPasses(s: State, t: nat, u: nat)
    requires PastLookup(ThreadOf(FindRotating(s, t), u))
    ensures ThreadOf(FindRotating(s, t), u) == ThreadOf(s, u)
  {
  }

  lemma {:induction false} OnlyAuthPasses(s: State, a: Action, u: nat)
    requires PastLookup(ThreadOf(Do(s, a), u)) && ThreadsSound(s)
    ensures ThreadOf(Do(s, a), u) == ThreadOf(s, u) || ThreadOf(Do(s, a), u) == ThreadOf(DoAuth(s, a), u)
  {
    hide DoEnroll, DoAuth, ThreadsSound, HoldsNow, Retire, Approve, Reject, PurgePending, PurgeTokens;
    EnrollThreads(s, a, u);
  }

  /** In every interleaving, a call is let through by agentAuth only for a certificate whose
      holder was approved when the call looked it up. */
  lemma {:induction false} PassedWasApproved(actions: seq<Action>, t: nat)
    requires PastLookup(ThreadOf(Run(START, actions), t))
    ensures exists n :: LookedUpAt(actions, n, t, ThreadOf(Run(START, actions), t).fp)
    decreases |actions|
  {
    hide Do;
    if actions != [] {
      var m := |actions| - 1;
      var front := actions[..m];
      var s := Run(START, front);
      var fp := ThreadOf(Run(START, actions), t).fp;
      assert actions[..m + 1] == actions;
      NextPrefix(actions, m);
      RunKept(front);
      SoundHosts(s);
      hide Kept, Sound;
      OnlyAuthPasses(s, actions[m], t);
      if ThreadOf(Do(s, actions[m]), t) == ThreadOf(DoAuth(s, actions[m]), t) { PassedStep(s, actions[m], t); }
      if PastLookup(ThreadOf(s, t)) && ThreadOf(s, t).fp == fp {
        PassedWasApproved(front, t);
        var n :| LookedUpAt(front, n, t, fp);
        assert actions[..n] == front[..n];
        assert LookedUpAt(actions, n, t, fp);
      } else {
        assert LookedUpAt(actions, m, t, fp);
      }
    }
  }

  // ---- who is asked for a token

  /** At action n, a call to enroll found nobody holding its certificate. */
  ghost predicate UnknownAt(actions: seq<Action>, n: int, t: nat, fp: string) {
    && 0 <= n < |actions| && actions[n] == EnrollLookup(t, fp)
    && forall id :: id in Run(START, actions[..n]).hosts ==> !Holds(Run(START, actions[..n]).hosts[id], fp)
  }

  lemma {:induction false} NewcomerByEnroll(s: State, a: Action, u: nat)
    requires ThreadOf(DoEnroll(s, a), u).EnrollNew?
    ensures var th := ThreadOf(DoEnroll(s, a), u);
            || th == ThreadOf(s, u)
            || (a == EnrollLookup(u, th.fp) && forall id :: id in s.hosts ==> !Holds(s.hosts[id], th.fp))
  {
    hide Approve, Insert, Touch, Consume, UpsertRow, TakeToken;
    if a.EnrollUpsert? {
      UpsertThreads(s, a.t, a.name, a.id, u);
    } else if a.EnrollToken? {
      TokenThreads(s, a.t, a.hash, u);
    }
  }

  lemma {:induction false} AuthMakesNoNewcomer(s: State, a: Action, u: nat)
    requires ThreadOf(DoAuth(s, a), u).EnrollNew?
    ensures ThreadOf(DoAuth(s, a), u) == ThreadOf(s, u)
  {
    hide Find, Promote, Announce;
  }

  lemma {:induction false} NewcomerStep(s: State, a: Action, u: nat)
    requires ThreadOf(Do(s, a), u).EnrollNew?
    ensures var th := ThreadOf(Do(s, a), u);
            || th == ThreadOf(s, u)
            || (a == EnrollLookup(u, th.fp) && forall id :: id in s.hosts ==> !Holds(s.hosts[id], th.fp))
  {
    hide DoEnroll, DoAuth, Retire, Approve, Reject, PurgePending, PurgeTokens;
    if ThreadOf(DoEnroll(s, a), u).EnrollNew? { NewcomerByEnroll(s, a, u); }
    if ThreadOf(DoAuth(s, a), u).EnrollNew? { AuthMakesNoNewcomer(s, a, u); }
  }

  /** In every interleaving, only a call whose certificate nobody held when it was looked
      up goes on to the token, or to the row that is made without one. */
  lemma {:induction false} NewcomerWasUnknown(actions: seq<Action>, t: nat)
    requires ThreadOf(Run(START, actions), t).EnrollNew?
    ensures exists n :: UnknownAt(actions, n, t, ThreadOf(Run(START, actions), t).fp)
    decreases |actions|
  {
    hide Do;
    if actions != [] {
      var m := |actions| - 1;
      var front := actions[..m];
      var s := Run(START, front);
      var th := ThreadOf(Run(START, actions), t);
      assert actions[..m + 1] == actions;
      NextPrefix(actions, m);
      NewcomerStep(s, actions[m], t);
      if ThreadOf(s, t) == th {
        NewcomerWasUnknown(front, t);
        var n :| UnknownAt(front, n, t, th.fp);
        assert actions[..n] == front[..n];
        assert UnknownAt(actions, n, t, th.fp);
      } else {
        assert UnknownAt(actions, m, t, th.fp);
      }
    }
  }

  // ---- how a host comes to be approved

  /** The call approves the host: the admin's click, or a token's in its place. */
  ghost predicate ApprovesHost(s: State, a: Action, id: string) {
    || a == AdminApprove(id)
    || (a.EnrollApprove? && ThreadOf(s, a.t).EnrollCreated? && ThreadOf(s, a.t).id == id
        && ThreadOf(s, a.t).token.Some?)
  }

  ghost predicate ConnectedIn(hosts: Hosts, id: string) {
    id in hosts && hosts[id].status.Connected?
  }

  lemma {:induction false} RowsConnectNobody(hosts: Hosts, row: string, name: string, fp: string, now: int, id: string)
    ensures ConnectedIn(Touch(hosts, row, now), id) ==> ConnectedIn(hosts, id)
    ensures ConnectedIn(Insert(hosts, row, name, fp, now), id) ==> ConnectedIn(hosts, id)
    ensures ConnectedIn(Promote(hosts, row, fp), id) ==> ConnectedIn(hosts, id)
    ensures ConnectedIn(Announce(hosts, row, fp).0, id) ==> ConnectedIn(hosts, id)
    ensures ConnectedIn(Reject(hosts, row), id) ==> ConnectedIn(hosts, id)
    ensures ConnectedIn(PurgePending(hosts, now), id) ==> ConnectedIn(hosts, id)
  {
    hide UsedElsewhere;
  }

  lemma {:induction false} ApproveConnectsOne(hosts: Hosts, row: string, who: string, id: string)
    ensures ConnectedIn(Approve(hosts, row, who), id) ==> ConnectedIn(hosts, id) || id == row
  {
  }

  lemma {:induction false} EnrollConnects(s: State, a: Action, id: string)
    requires ConnectedIn(DoEnroll(s, a).hosts, id) && !ConnectedIn(s.hosts, id)
    ensures ApprovesHost(s, a, id)
  {
    hide Find, Consume, Insert, Touch, Approve, ConnectedIn;
    if a.EnrollUpsert? && ThreadOf(s, a.t).EnrollReady? {
      var fp := ThreadOf(s, a.t).fp;
      RowsConnectNobody(s.hosts, a.id, a.name, fp, s.now, id);
      if Find(s.hosts, fp).Some? { RowsConnectNobody(s.hosts, Find(s.hosts, fp).value, "", fp, s.now, id); }
    } else if a.EnrollApprove? && ThreadOf(s, a.t).EnrollCreated? {
      ApproveConnectsOne(s.hosts, ThreadOf(s, a.t).id, "enrollment-token", id);
    }
  }

  lemma {:induction false} AuthConnectsNobody(s: State, a: Action, id: string)
    ensures ConnectedIn(DoAuth(s, a).hosts, id) ==> ConnectedIn(s.hosts, id)
  {
    hide Find, Promote, Announce, ConnectedIn, FindCaller, FindRotating;
    if a.AuthLookup? {
      FinderKeepsHosts(s, a.t, a.fp);
    } else if a.RotateLookup? {
      RotatingKeepsHosts(s, a.t);
    } else if (a.AuthPromote? && ThreadOf(s, a.t).AuthFound?) || (a.VerifyPromote? && ThreadOf(s, a.t).VerifyMatched?) {
      RowsConnectNobody(s.hosts, ThreadOf(s, a.t).id, "", ThreadOf(s, a.t).fp, 0, id);
    } else if a.RotateAnnounce? && ThreadOf(s, a.t).RotateFound? {
      RowsConnectNobody(s.hosts, ThreadOf(s, a.t).id, "", a.newFp, 0, id);
    }
  }

  lemma {:induction false} FinderKeepsHosts(s: State, t: nat, fp: string)
    ensures FindCaller(s, t, fp).hosts == s.hosts
  {
    hide Find;
  }

  lemma {:induction false} RotatingKeepsHosts(s: State, t: nat)
    ensures FindRotating(s, t).hosts == s.hosts
  {
    hide Find;
  }

  lemma {:induction false} AdminConnects(s: State, a: Action, id: string)
    requires ConnectedIn(DoAdmin(s, a).hosts, id) && !ConnectedIn(s.hosts, id)
    ensures ApprovesHost(s, a, id)
  {
    hide ConnectedIn, Approve, Reject, PurgePending, PurgeTokens;
    match a
    case AdminApprove(row) => ApproveConnectsOne(s.hosts, row, "admin", id);
    case AdminReject(row) => RowsConnectNobody(s.hosts, row, "", "", 0, id);
    case Purge(cutoff) => RowsConnectNobody(s.hosts, "", "", "", cutoff, id);
    case _ =>
  }

  lemma {:induction false} ConnectStep(s: State, a: Action, id: string)
    requires ConnectedIn(Do(s, a).hosts, id) && !ConnectedIn(s.hosts, id)
    ensures ApprovesHost(s, a, id)
  {
    hide DoEnroll, DoAuth, DoAdmin, Retire, ConnectedIn, ApprovesHost;
    if ConnectedIn(DoEnroll(s, a).hosts, id) { EnrollConnects(s, a, id); }
    AuthConnectsNobody(s, a, id);
    if ConnectedIn(DoAdmin(s, a).hosts, id) { AdminConnects(s, a, id); }
  }

  /** In every interleaving, each connected host was approved: by the admin, or by a token
      that the call which made its row had consumed. */
  lemma {:induction false} EveryHostWasApproved(actions: seq<Action>, id: string)
    requires ConnectedIn(Run(START, actions).hosts, id)
    ensures exists n :: 0 <= n < |actions| && ApprovesHost(Run(START, actions[..n]), actions[n], id)
    decreases |actions|
  {
    hide Do, ApprovesHost;
    if actions != [] {
      var m := |actions| - 1;
      var front := actions[..m];
      assert actions[..m + 1] == actions;
      NextPrefix(actions, m);
      if ConnectedIn(Run(START, front).hosts, id) {
        EveryHostWasApproved(front, id);
        var n :| 0 <= n < |front| && ApprovesHost(Run(START, front[..n]), front[n], id);
        assert actions[..n] == front[..n];
        assert ApprovesHost(Run(START, actions[..n]), actions[n], id);
      } else {
        ConnectStep(Run(START, front), actions[m], id);
      }
    }
  }

  // ---- whom a rotation is for

  /** At action n, a call let through with a certificate found the host that holds it. */
  ghost predicate RotatesOwnAt(actions: seq<Action>, n: int, t: nat, id: string) {
    && 0 <= n < |actions| && actions[n] == RotateLookup(t)
    && var s := Run(START, actions[..n]);
       ThreadOf(s, t).AuthPassed? && HoldsNow(s.hosts, id, ThreadOf(s, t).fp)
  }

  lemma {:induction false} RotatingFindsOwn(s: State, t: nat, u: nat)
    requires ThreadOf(FindRotating(s, t), u).RotateFound? && ThreadOf(FindRotating(s, t), u) != ThreadOf(s, u)
    ensures u == t && ThreadOf(s, t).AuthPassed?
    ensures HoldsNow(s.hosts, ThreadOf(FindRotating(s, t), u).id, ThreadOf(s, t).fp)
  {
  }

  lemma {:induction false} RotatorStep(s: State, a: Action, u: nat)
    requires ThreadOf(DoAuth(s, a), u).RotateFound?
    ensures var th := ThreadOf(DoAuth(s, a), u);
            || th == ThreadOf(s, u)
            || (a == RotateLookup(u) && ThreadOf(s, u).AuthPassed? && HoldsNow(s.hosts, th.id, ThreadOf(s, u).fp))
  {
    hide Find, Promote, Announce, FindRotating, HoldsNow;
    if a.RotateLookup? && ThreadOf(DoAuth(s, a), u) != ThreadOf(s, u) { RotatingFindsOwn(s, a.t, u); }
  }

  /** In every interleaving, a certificate is announced only for the host that the caller's
      own certificate stood for when it was looked up. */
  lemma {:induction false} RotatesOwn(actions: seq<Action>, t: nat)
    requires ThreadOf(Run(START, actions), t).RotateFound?
    ensures exists n :: RotatesOwnAt(actions, n, t, ThreadOf(Run(START, actions), t).id)
    decreases |actions|
  {
    hide Do;
    if actions != [] {
      var m := |actions| - 1;
      var front := actions[..m];
      var s := Run(START, front);
      var th := ThreadOf(Run(START, actions), t);
      assert actions[..m + 1] == actions;
      NextPrefix(actions, m);
      RunKept(front);
      SoundHosts(s);
      hide Kept, Sound, HoldsNow;
      NoOtherRotators(s, actions[m], t);
      if th == ThreadOf(DoAuth(s, actions[m]), t) { RotatorStep(s, actions[m], t); }
      if th == ThreadOf(s, t) {
        RotatesOwn(front, t);
        var n :| RotatesOwnAt(front, n, t, th.id);
        assert actions[..n] == front[..n];
        assert RotatesOwnAt(actions, n, t, th.id);
      } else {
        assert RotatesOwnAt(actions, m, t, th.id);
      }
    }
  }
}
