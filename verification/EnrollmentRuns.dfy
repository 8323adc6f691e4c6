/** The agent channel with its requests interleaved at store-call granularity: any number
    of handlers, each advancing one store call at a time, beside the admin's actions and
    the purges. Enrollment has the same requests one after the other; what holds there and
    not here is shown at the end, and RotationRuns says exactly when it does. */
module EnrollmentRuns {
  import opened Strings
  import opened HostStore

  /** Where a handler is between two store calls. */
  datatype Thread =
    | Idle
    | EnrollNew(fp: string)
    | EnrollReady(fp: string, token: Option<string>)
    | EnrollCreated(id: string, fp: string, token: Option<string>)
    | AuthFound(id: string, fp: string)
    | AuthPassed(fp: string)
    | RotateFound(id: string)
    | VerifyMissed(id: string, fp: string)
    | VerifyMatched(id: string, fp: string)

  datatype State = State(
    hosts: Hosts,
    tokens: Tokens,
    now: int,
    threads: map<nat, Thread>,
    minted: set<string>,           // every token hash ever created
    consumed: seq<string>,         // token hashes, in the order they were consumed
    approvedWith: set<string>,     // tokens that stood for an approval
    approvals: nat,                // how many approvals a token stood for
    accepted: map<string, string>, // per host, the certificate last accepted
    retired: Retirements           // per host, what it gave up and was not given again since
  )

  type Retirements = map<string, set<string>>

  function At(retired: Retirements, id: string): set<string> {
    if id in retired then retired[id] else {}
  }

  /** One store call, with what the environment chooses. */
  datatype Action =
    | EnrollLookup(t: nat, fp: string)
    | EnrollToken(t: nat, hash: string)
    | EnrollNoToken(t: nat)
    | EnrollUpsert(t: nat, name: string, id: string)
    | EnrollApprove(t: nat)
    | AuthLookup(t: nat, fp: string)
    | AuthPromote(t: nat)
    | RotateLookup(t: nat)
    | RotateAnnounce(t: nat, newFp: string)
    | VerifyGet(t: nat, id: string, fp: string)
    | VerifyNext(t: nat)
    | VerifyPromote(t: nat)
    | AdminApprove(id: string)
    | AdminReject(id: string)
    | Purge(cutoff: int)
    | Mint(hash: string, ttl: int)
    | PurgeExpired(cutoff: int)
    | Tick(d: nat)

  const START := State(map[], map[], 0, map[], {}, [], {}, 0, map[], map[])

  function ThreadOf(s: State, t: nat): Thread {
    if t in s.threads then s.threads[t] else Idle
  }

  function Goto(s: State, t: nat, th: Thread): State {
    s.(threads := s.threads[t := th])
  }

  ghost function Find(hosts: Hosts, fp: string): (r: Option<string>)
    ensures r.Some? ==> r.value in hosts && Holds(hosts[r.value], fp)
    ensures r.None? ==> forall i :: i in hosts ==> !Holds(hosts[i], fp)
  {
    if exists i :: i in hosts && Holds(hosts[i], fp) then
      var i :| i in hosts && Holds(hosts[i], fp);
      Some(i)
    else None
  }

  /** With one holder per certificate, the row a query happens to return is the only one. */
  lemma {:induction false} FindIs(hosts: Hosts, id: string, fp: string)
    requires OneHolder(hosts) && id in hosts && Holds(hosts[id], fp)
    ensures Find(hosts, fp) == Some(id)
  {
  }

  function Accept(s: State, t: nat, id: string, fp: string): State {
    Goto(s, t, AuthPassed(fp)).(accepted := s.accepted[id := fp])
  }

  // ---- the store calls of enrollCreateHandler

  ghost function LookUpNewcomer(s: State, t: nat, fp: string): State {
    if ThreadOf(s, t) != Idle || fp == "" then s
    else if Find(s.hosts, fp).Some? then Goto(s, t, EnrollReady(fp, None))
    else Goto(s, t, EnrollNew(fp))
  }

  function TakeToken(s: State, t: nat, hash: string): State {
    if !ThreadOf(s, t).EnrollNew? then s
    else
      var (tokens, won) := Consume(s.tokens, hash, s.now, "");
      if won then
        Goto(s, t, EnrollReady(ThreadOf(s, t).fp, Some(hash))).(tokens := tokens, consumed := s.consumed + [hash])
      else Goto(s, t, Idle)
  }

  function SkipToken(s: State, t: nat): State {
    if !ThreadOf(s, t).EnrollNew? then s else Goto(s, t, EnrollReady(ThreadOf(s, t).fp, None))
  }

  ghost function UpsertRow(s: State, t: nat, name: string, id: string): State {
    if !ThreadOf(s, t).EnrollReady? then s
    else
      var th := ThreadOf(s, t);
      match Find(s.hosts, th.fp)
      case Some(known) => Goto(s, t, Idle).(hosts := Touch(s.hosts, known, s.now))
      case None =>
        if id in s.hosts then s
        else
          Goto(s, t, EnrollCreated(id, th.fp, th.token)).(hosts := Insert(s.hosts, id, name, th.fp, s.now),
                                                   accepted := s.accepted - {id})
  }

  function ApproveRow(s: State, t: nat): State {
    if !ThreadOf(s, t).EnrollCreated? then s
    else
      var th := ThreadOf(s, t);
      if th.token.None? || th.id !in s.hosts then Goto(s, t, Idle)
      else Goto(s, t, Idle).(hosts := Approve(s.hosts, th.id, "enrollment-token"),
                             approvedWith := s.approvedWith + {th.token.value}, approvals := s.approvals + 1)
  }

  ghost function DoEnroll(s: State, a: Action): State {
    match a
    case EnrollLookup(t, fp) => LookUpNewcomer(s, t, fp)
    case EnrollToken(t, hash) => TakeToken(s, t, hash)
    case EnrollNoToken(t) => SkipToken(s, t)
    case EnrollUpsert(t, name, id) => UpsertRow(s, t, name, id)
    case EnrollApprove(t) => ApproveRow(s, t)
    case _ => s
  }

  // ---- the store calls of agentAuth, rotateHandler and verifyCaller

  ghost function FindCaller(s: State, t: nat, fp: string): State {
    if ThreadOf(s, t) != Idle || fp == "" then s
    else
      match Find(s.hosts, fp)
      case None => s
      case Some(id) =>
        if !s.hosts[id].status.Connected? then s
        else if s.hosts[id].cert == fp then Accept(s, t, id, fp)
        else Goto(s, t, AuthFound(id, fp))
  }

  function PromoteCaller(s: State, t: nat): State {
    if !ThreadOf(s, t).AuthFound? then s
    else
      var th := ThreadOf(s, t);
      Accept(s, t, th.id, th.fp).(hosts := Promote(s.hosts, th.id, th.fp))
  }

  ghost function FindRotating(s: State, t: nat): State {
    if !ThreadOf(s, t).AuthPassed? then s
    else
      match Find(s.hosts, ThreadOf(s, t).fp)
      case None => Goto(s, t, Idle)
      case Some(id) => Goto(s, t, RotateFound(id))
  }

  function AnnounceNext(s: State, t: nat, newFp: string): State {
    if !ThreadOf(s, t).RotateFound? || newFp == "" then s
    else Goto(s, t, Idle).(hosts := Announce(s.hosts, ThreadOf(s, t).id, newFp).0)
  }

  function CheckPinned(s: State, t: nat, id: string, fp: string): State {
    if ThreadOf(s, t) != Idle || fp == "" || id !in s.hosts then s
    else if s.hosts[id].cert == fp then s.(accepted := s.accepted[id := fp])
    else Goto(s, t, VerifyMissed(id, fp))
  }

  function CheckAnnounced(s: State, t: nat): State {
    if !ThreadOf(s, t).VerifyMissed? then s
    else
      var th := ThreadOf(s, t);
      if th.id in s.hosts && s.hosts[th.id].next == th.fp then Goto(s, t, VerifyMatched(th.id, th.fp))
      else Goto(s, t, Idle)
  }

  function PromoteMatched(s: State, t: nat): State {
    if !ThreadOf(s, t).VerifyMatched? then s
    else
      var th := ThreadOf(s, t);
      Goto(s, t, Idle).(hosts := Promote(s.hosts, th.id, th.fp), accepted := s.accepted[th.id := th.fp])
  }

  ghost function DoAuth(s: State, a: Action): State {
    match a
    case AuthLookup(t, fp) => FindCaller(s, t, fp)
    case AuthPromote(t) => PromoteCaller(s, t)
    case RotateLookup(t) => FindRotating(s, t)
    case RotateAnnounce(t, newFp) => AnnounceNext(s, t, newFp)
    case VerifyGet(t, id, fp) => CheckPinned(s, t, id, fp)
    case VerifyNext(t) => CheckAnnounced(s, t)
    case VerifyPromote(t) => PromoteMatched(s, t)
    case _ => s
  }

  function DoAdmin(s: State, a: Action): State {
    match a
    case AdminApprove(id) => s.(hosts := Approve(s.hosts, id, "admin"))
    case AdminReject(id) => s.(hosts := Reject(s.hosts, id))
    case Purge(cutoff) => s.(hosts := PurgePending(s.hosts, cutoff))
    case Mint(hash, ttl) =>
      if hash in s.minted then s
      else s.(tokens := s.tokens[hash := Token(s.now + ttl, false, "")], minted := s.minted + {hash})
    case PurgeExpired(cutoff) => s.(tokens := PurgeTokens(s.tokens, cutoff))
    case Tick(d) => s.(now := s.now + d)
    case _ => s
  }

  /** The certificates that stand for a host. */
  function HeldBy(hosts: Hosts, id: string): set<string> {
    if id !in hosts then {} else {hosts[id].cert} + if hosts[id].next == "" then {} else {hosts[id].next}
  }

  /** What a host was given: the certificate it enrolled with, or one it announced. */
  function GivenTo(before: Hosts, after: Hosts, id: string): set<string> {
    if id !in after then {}
    else if id !in before then {after[id].cert}
    else if after[id].next != before[id].next then {after[id].next}
    else {}
  }

  /** A certificate a host no longer holds is retired for it, until it is given it again. */
  function Retire(before: Hosts, after: Hosts, retired: Retirements): Retirements {
    if before == after then retired
    else map id | id in before.Keys + after.Keys + retired.Keys ::
           At(retired, id) + (HeldBy(before, id) - HeldBy(after, id)) - GivenTo(before, after, id)
  }

  ghost function Do(s: State, a: Action): State {
    var next := StoreCall(s, a);
    next.(retired := Retire(s.hosts, next.hosts, s.retired))
  }

  ghost function StoreCall(s: State, a: Action): State {
    if a.EnrollLookup? || a.EnrollToken? || a.EnrollNoToken? || a.EnrollUpsert? || a.EnrollApprove? then DoEnroll(s, a)
    else if a.AdminApprove? || a.AdminReject? || a.Purge? || a.Mint? || a.PurgeExpired? || a.Tick? then DoAdmin(s, a)
    else DoAuth(s, a)
  }

  ghost function Run(s: State, actions: seq<Action>): State
    decreases |actions|
  {
    if actions == [] then s else Run(Do(s, actions[0]), actions[1..])
  }

  // ---- what every store call keeps

  function TokenOf(th: Thread): Option<string> {
    if th.EnrollReady? || th.EnrollCreated? then th.token else None
  }

  /** The token a handler is working with. */
  function Carried(s: State, t: nat): Option<string> {
    TokenOf(ThreadOf(s, t))
  }

  /** Tokens: none consumed twice, each consumed one approves at most one host, and
      the one a handler still holds has approved none. */
  ghost predicate TokensSound(s: State) {
    && (forall i, j :: 0 <= i < j < |s.consumed| ==> s.consumed[i] != s.consumed[j])
    && (forall h :: h in s.consumed ==> h in s.minted && (h in s.tokens ==> s.tokens[h].used))
    && (forall h :: h in s.tokens ==> h in s.minted)
    && (forall h :: h in s.approvedWith ==> h in s.consumed)
    && s.approvals == |s.approvedWith|
  }

  ghost predicate CarriersSound(s: State) {
    && (forall t :: Carried(s, t).Some? ==> Carried(s, t).value in s.consumed && Carried(s, t).value !in s.approvedWith)
    && (forall t, u :: t != u && Carried(s, t).Some? ==> Carried(s, t) != Carried(s, u))
  }

  ghost predicate ThreadsSound(s: State) {
    forall t :: match ThreadOf(s, t)
                case EnrollNew(fp) => fp != ""
                case EnrollReady(fp, _) => fp != ""
                case _ => true
  }

  ghost predicate Sound(s: State) {
    WellKept(s.hosts) && TokensSound(s) && CarriersSound(s) && ThreadsSound(s)
  }

  /** Moving a handler on without giving it a token. */
  lemma {:induction false} GotoSound(s: State, t: nat, th: Thread)
    requires TokensSound(s) && CarriersSound(s) && ThreadsSound(s)
    requires TokenOf(th).None? || TokenOf(th) == Carried(s, t)
    requires th.EnrollNew? || th.EnrollReady? ==> th.fp != ""
    ensures TokensSound(Goto(s, t, th)) && CarriersSound(Goto(s, t, th)) && ThreadsSound(Goto(s, t, th))
  {
    var s' := Goto(s, t, th);
    assert forall u :: u != t ==> ThreadOf(s', u) == ThreadOf(s, u);
    assert forall u :: u != t ==> Carried(s', u) == Carried(s, u);
    assert Carried(s', t) == TokenOf(th);
  }

  /** Only the hosts, the clock and the record of accepted certificates differ. */
  ghost predicate SameHandlers(s: State, s': State) {
    && s'.threads == s.threads && s'.tokens == s.tokens && s'.minted == s.minted
    && s'.consumed == s.consumed && s'.approvedWith == s.approvedWith && s'.approvals == s.approvals
  }

  lemma {:induction false} HandlersSound(s: State, s': State)
    requires TokensSound(s) && CarriersSound(s) && ThreadsSound(s) && SameHandlers(s, s')
    ensures TokensSound(s') && CarriersSound(s') && ThreadsSound(s')
  {
    assert forall t :: ThreadOf(s', t) == ThreadOf(s, t);
    assert forall t :: Carried(s', t) == Carried(s, t);
  }

  lemma {:induction false} ConsumeSound(s: State, t: nat, hash: string)
    requires Sound(s) && ThreadOf(s, t).EnrollNew? && Consume(s.tokens, hash, s.now, "").1
    ensures Sound(DoEnroll(s, EnrollToken(t, hash)))
  {
    var s' := DoEnroll(s, EnrollToken(t, hash));
    assert hash !in s.consumed;
    assert forall h :: h in s'.consumed <==> h in s.consumed || h == hash;
    assert TokensSound(s');
    assert forall u :: u != t ==> ThreadOf(s', u) == ThreadOf(s, u);
    assert forall u :: u != t ==> Carried(s', u) == Carried(s, u);
    assert Carried(s', t) == Some(hash);
  }

  /** The token a handler spends on an approval has approved nobody before. */
  lemma {:induction false} SpendSound(s: State, t: nat, hash: string, s': State)
    requires TokensSound(s) && CarriersSound(s) && Carried(s, t) == Some(hash)
    requires s' == Goto(s, t, Idle).(hosts := s'.hosts, approvedWith := s.approvedWith + {hash},
                                     approvals := s.approvals + 1)
    ensures TokensSound(s') && CarriersSound(s')
  {
    assert forall u :: u != t ==> ThreadOf(s', u) == ThreadOf(s, u);
    assert forall u :: u != t ==> Carried(s', u) == Carried(s, u);
    assert Carried(s', t) == None;
  }

  lemma {:induction false} ApproveSound(s: State, t: nat)
    requires Sound(s) && ThreadOf(s, t).EnrollCreated? && ThreadOf(s, t).token.Some? && ThreadOf(s, t).id in s.hosts
    ensures Sound(DoEnroll(s, EnrollApprove(t)))
  {
    hide WellKept, Approve, TokensSound, CarriersSound;
    var th := ThreadOf(s, t);
    ApproveKeeps(s.hosts, th.id, "enrollment-token");
    var s' := DoEnroll(s, EnrollApprove(t));
    assert Carried(s, t) == th.token;
    SpendSound(s, t, th.token.value, s');
    assert forall u :: u != t ==> ThreadOf(s', u) == ThreadOf(s, u);
  }

  lemma {:induction false} NewcomerSound(s: State, t: nat, fp: string)
    requires Sound(s)
    ensures Sound(DoEnroll(s, EnrollLookup(t, fp))) && DoEnroll(s, EnrollLookup(t, fp)).hosts == s.hosts
  {
    hide WellKept, TokensSound, CarriersSound, ThreadsSound, Find;
    if fp != "" {
      GotoSound(s, t, EnrollReady(fp, None));
      GotoSound(s, t, EnrollNew(fp));
    }
  }

  lemma {:induction false} TokenSound(s: State, t: nat, hash: string)
    requires Sound(s)
    ensures Sound(DoEnroll(s, EnrollToken(t, hash))) && DoEnroll(s, EnrollToken(t, hash)).hosts == s.hosts
  {
    if ThreadOf(s, t).EnrollNew? && Consume(s.tokens, hash, s.now, "").1 { ConsumeSound(s, t, hash); }
    GotoSound(s, t, Idle);
  }

  lemma {:induction false} EnrollSound(s: State, a: Action)
    requires Sound(s)
    ensures Sound(DoEnroll(s, a)) && KeepsConnected(s.hosts, DoEnroll(s, a).hosts)
  {
    hide WellKept, TokensSound, CarriersSound, Approve, Consume, Insert, Touch, Find;
    match a
    case EnrollLookup(t, fp) => NewcomerSound(s, t, fp);
    case EnrollToken(t, hash) => TokenSound(s, t, hash);
    case EnrollNoToken(t) =>
      if ThreadOf(s, t).EnrollNew? { GotoSound(s, t, EnrollReady(ThreadOf(s, t).fp, None)); }
    case EnrollUpsert(t, name, id) => UpsertSound(s, t, name, id);
    case EnrollApprove(t) =>
      if ThreadOf(s, t).EnrollCreated? && ThreadOf(s, t).token.Some? && ThreadOf(s, t).id in s.hosts {
        ApproveSound(s, t);
        ApproveKeeps(s.hosts, ThreadOf(s, t).id, "enrollment-token");
      }
      GotoSound(s, t, Idle);
    case _ =>
  }

  lemma {:induction false} UpsertSound(s: State, t: nat, name: string, id: string)
    requires Sound(s)
    ensures var s' := DoEnroll(s, EnrollUpsert(t, name, id)); Sound(s') && KeepsConnected(s.hosts, s'.hosts)
  {
    hide TokensSound, CarriersSound, Insert, Touch;
    if ThreadOf(s, t).EnrollReady? {
      var th := ThreadOf(s, t);
      var known := Find(s.hosts, th.fp);
      if known.Some? {
        GotoSound(s, t, Idle);
        HandlersSound(Goto(s, t, Idle), DoEnroll(s, EnrollUpsert(t, name, id)));
        TouchKeeps(s.hosts, known.value, s.now);
      } else if id !in s.hosts {
        GotoSound(s, t, EnrollCreated(id, th.fp, th.token));
        HandlersSound(Goto(s, t, EnrollCreated(id, th.fp, th.token)), DoEnroll(s, EnrollUpsert(t, name, id)));
        InsertKeeps(s.hosts, id, name, th.fp, s.now);
      }
    }
  }

  lemma {:induction false} LookupSound(s: State, t: nat, fp: string)
    requires Sound(s)
    ensures Sound(DoAuth(s, AuthLookup(t, fp))) && DoAuth(s, AuthLookup(t, fp)).hosts == s.hosts
  {
    hide WellKept, TokensSound, CarriersSound, ThreadsSound, Find;
    var id := Find(s.hosts, fp);
    if id.Some? {
      GotoSound(s, t, AuthFound(id.value, fp));
      GotoSound(s, t, AuthPassed(fp));
      HandlersSound(Goto(s, t, AuthPassed(fp)), Accept(s, t, id.value, fp));
    }
  }

  /** A step that promotes and moves its handler on. */
  lemma {:induction false} PromoteSound(s: State, t: nat, th: Thread, id: string, fp: string)
    requires Sound(s) && TokenOf(th).None? && !th.EnrollNew? && !th.EnrollReady?
    ensures var s' := Goto(s, t, th).(hosts := Promote(s.hosts, id, fp), accepted := s.accepted[id := fp]);
            Sound(s') && KeepsConnected(s.hosts, s'.hosts)
  {
    hide WellKept, TokensSound, CarriersSound, ThreadsSound, Promote, KeepsConnected;
    GotoSound(s, t, th);
    PromoteKeeps(s.hosts, id, fp);
    HandlersSound(Goto(s, t, th), Goto(s, t, th).(hosts := Promote(s.hosts, id, fp), accepted := s.accepted[id := fp]));
  }

  lemma {:induction false} RotateSound(s: State, a: Action)
    requires Sound(s) && (a.RotateLookup? || a.RotateAnnounce?)
    ensures Sound(DoAuth(s, a)) && KeepsConnected(s.hosts, DoAuth(s, a).hosts)
  {
    hide WellKept, TokensSound, CarriersSound, ThreadsSound, Find, Announce, KeepsConnected;
    var t := a.t;
    StaysKept(s.hosts);
    GotoSound(s, t, Idle);
    if a.RotateLookup? {
      if ThreadOf(s, t).AuthPassed? && Find(s.hosts, ThreadOf(s, t).fp).Some? {
        GotoSound(s, t, RotateFound(Find(s.hosts, ThreadOf(s, t).fp).value));
      }
    } else if ThreadOf(s, t).RotateFound? && a.newFp != "" {
      AnnounceKeeps(s.hosts, ThreadOf(s, t).id, a.newFp);
      HandlersSound(Goto(s, t, Idle), DoAuth(s, a));
    }
  }

  lemma {:induction false} VerifyGetSound(s: State, t: nat, id: string, fp: string)
    requires Sound(s)
    ensures Sound(DoAuth(s, VerifyGet(t, id, fp))) && DoAuth(s, VerifyGet(t, id, fp)).hosts == s.hosts
  {
    hide WellKept, TokensSound, CarriersSound, ThreadsSound;
    GotoSound(s, t, VerifyMissed(id, fp));
    HandlersSound(s, s.(accepted := s.accepted[id := fp]));
  }

  lemma {:induction false} VerifyNextSound(s: State, t: nat)
    requires Sound(s)
    ensures Sound(DoAuth(s, VerifyNext(t))) && DoAuth(s, VerifyNext(t)).hosts == s.hosts
  {
    hide WellKept, TokensSound, CarriersSound, ThreadsSound;
    GotoSound(s, t, Idle);
    if ThreadOf(s, t).VerifyMissed? { GotoSound(s, t, VerifyMatched(ThreadOf(s, t).id, ThreadOf(s, t).fp)); }
  }

  lemma {:induction false} AuthSound(s: State, a: Action)
    requires Sound(s)
    ensures Sound(DoAuth(s, a)) && KeepsConnected(s.hosts, DoAuth(s, a).hosts)
  {
    hide Sound, Promote, Announce, Find, Carried;
    match a
    case AuthLookup(t, fp) => LookupSound(s, t, fp);
    case AuthPromote(t) =>
      if ThreadOf(s, t).AuthFound? {
        var fp := ThreadOf(s, t).fp;
        PromoteSound(s, t, AuthPassed(fp), ThreadOf(s, t).id, fp);
      }
    case RotateLookup(t) => RotateSound(s, a);
    case RotateAnnounce(t, newFp) => RotateSound(s, a);
    case VerifyGet(t, id, fp) => VerifyGetSound(s, t, id, fp);
    case VerifyNext(t) => VerifyNextSound(s, t);
    case VerifyPromote(t) =>
      if ThreadOf(s, t).VerifyMatched? { PromoteSound(s, t, Idle, ThreadOf(s, t).id, ThreadOf(s, t).fp); }
    case _ =>
  }

  lemma {:induction false} AdminSound(s: State, a: Action)
    requires Sound(s)
    ensures Sound(DoAdmin(s, a)) && KeepsConnected(s.hosts, DoAdmin(s, a).hosts)
  {
    hide WellKept, CarriersSound, ThreadsSound, KeepsConnected, Approve, Reject, PurgePending;
    AdminTokens(s, a);
    AdminThreads(s, a);
    StaysKept(s.hosts);
    match a
    case AdminApprove(id) => ApproveKeeps(s.hosts, id, "admin");
    case AdminReject(id) => RejectKeeps(s.hosts, id);
    case Purge(cutoff) => PurgeKeeps(s.hosts, cutoff);
    case _ =>
  }

  lemma {:induction false} StaysKept(hosts: Hosts)
    ensures KeepsConnected(hosts, hosts)
  {
  }

  lemma {:induction false} AdminTokens(s: State, a: Action)
    requires TokensSound(s)
    ensures TokensSound(DoAdmin(s, a))
  {
    hide Approve, Reject, PurgePending;
  }

  lemma {:induction false} AdminThreads(s: State, a: Action)
    requires CarriersSound(s) && ThreadsSound(s)
    ensures CarriersSound(DoAdmin(s, a)) && ThreadsSound(DoAdmin(s, a))
  {
    hide Approve, Reject, PurgePending, PurgeTokens;
    var s' := DoAdmin(s, a);
    assert forall t :: ThreadOf(s', t) == ThreadOf(s, t);
    assert forall t :: Carried(s', t) == Carried(s, t);
  }

  lemma {:induction false} RetiringSound(s: State, a: Action)
    requires Sound(StoreCall(s, a))
    ensures Sound(Do(s, a)) && Do(s, a).hosts == StoreCall(s, a).hosts
  {
    hide StoreCall, Retire, WellKept;
    HandlersSound(StoreCall(s, a), Do(s, a));
  }

  lemma {:induction false} StepSound(s: State, a: Action)
    requires Sound(s)
    ensures Sound(Do(s, a)) && KeepsConnected(s.hosts, Do(s, a).hosts)
  {
    hide Sound, DoEnroll, DoAuth, DoAdmin, KeepsConnected, Retire;
    EnrollSound(s, a);
    AuthSound(s, a);
    AdminSound(s, a);
    RetiringSound(s, a);
  }

  lemma {:induction false} RunSound(s: State, actions: seq<Action>)
    requires Sound(s)
    ensures Sound(Run(s, actions)) && KeepsConnected(s.hosts, Run(s, actions).hosts)
    decreases |actions|
  {
    if actions != [] {
      StepSound(s, actions[0]);
      RunSound(Do(s, actions[0]), actions[1..]);
    }
  }

  lemma {:induction false} DistinctMembers(s: seq<string>, m: set<string>)
    requires forall h :: h in m ==> h in s
    ensures |m| <= |s|
  {
    if s == [] {
      assert m == {};
    } else {
      DistinctMembers(s[1..], m - {s[0]});
      assert |m - {s[0]}| >= |m| - 1;
    }
  }

  /** In every interleaving: one holder per certificate; a token approves at most one
      host and is consumed at most once, so approvals never outnumber the distinct
      tokens consumed. */
  lemma {:induction false} EveryRun(actions: seq<Action>)
    ensures var s := Run(START, actions);
            && OneHolder(s.hosts)
            && (forall i, j :: 0 <= i < j < |s.consumed| ==> s.consumed[i] != s.consumed[j])
            && s.approvals <= |s.consumed|
  {
    RunSound(START, actions);
    var s := Run(START, actions);
    DistinctMembers(s.consumed, s.approvedWith);
  }

  lemma {:induction false} RunAppend(s: State, a: seq<Action>, b: seq<Action>)
    ensures Run(s, a + b) == Run(Run(s, a), b)
    decreases |a|
  {
    if a == [] {
      assert a + b == b;
    } else {
      assert (a + b)[1..] == a[1..] + b;
      RunAppend(Do(s, a[0]), a[1..], b);
    }
  }

  /** In every interleaving, once a host is connected it stays, and stays connected. */
  lemma {:induction false} ConnectedForGood(before: seq<Action>, after: seq<Action>, id: string)
    requires id in Run(START, before).hosts && Run(START, before).hosts[id].status.Connected?
    ensures id in Run(START, before + after).hosts && Run(START, before + after).hosts[id].status.Connected?
  {
    RunSound(START, before);
    RunSound(Run(START, before), after);
    RunAppend(START, before, after);
  }

  // ---- runs in which the requests get in each other's way

  function OneHost(cert: string, next: string): Hosts {
    map["h1" := Host("h", Connected, cert, next, "admin", 0, 0)]
  }

  lemma {:induction false} OneHostFinds(cert: string, next: string)
    requires cert != "" && next != cert
    ensures WellKept(OneHost(cert, next))
    ensures Find(OneHost(cert, next), cert) == Some("h1")
    ensures next != "" ==> Find(OneHost(cert, next), next) == Some("h1")
    ensures forall fp :: fp != cert && fp != next ==> Find(OneHost(cert, next), fp) == None
    ensures forall fp :: !UsedElsewhere(OneHost(cert, next), "h1", fp)
  {
    var hosts := OneHost(cert, next);
    FindIs(hosts, "h1", cert);
    if next != "" { FindIs(hosts, "h1", next); }
  }

  /** Some run ends in s. */
  ghost predicate Reached(s: State) {
    exists actions :: Run(START, actions) == s
  }

  lemma {:induction false} DoIs(s: State, a: Action)
    ensures Do(s, a) == StoreCall(s, a).(retired := Retire(s.hosts, StoreCall(s, a).hosts, s.retired))
  {
    hide StoreCall, Retire;
  }

  /** A step that leaves the hosts alone retires nothing. */
  lemma {:induction false} NothingRetired(s: State, a: Action)
    ensures StoreCall(s, a).hosts == s.hosts ==> Do(s, a) == StoreCall(s, a).(retired := s.retired)
  {
    hide StoreCall;
  }

  lemma {:induction false} Then(s: State, a: Action)
    requires Reached(s)
    ensures Reached(Do(s, a)) && (StoreCall(s, a).hosts == s.hosts ==>
        Do(s, a) == StoreCall(s, a).(retired := s.retired))
  {
    hide StoreCall, Do;
    NothingRetired(s, a);
    var actions :| Run(START, actions) == s;
    RunAppend(START, actions, [a]);
    assert [a][1..] == [];
    assert Run(START, actions + [a]) == Do(s, a);
  }

  /** A certificate nobody holds enrolls as a pending host, without a token. */
  lemma {:induction false} EnrollsPending(s0: State, t: nat, fp: string, name: string, id: string) returns (s: State)
    requires Reached(s0)
    requires ThreadOf(s0, t) == Idle && fp != "" && Find(s0.hosts, fp) == None && id !in s0.hosts
    ensures Reached(s) && s.hosts == Insert(s0.hosts, id, name, fp, s0.now) && s.now == s0.now
    ensures s.consumed == s0.consumed
    ensures forall u :: ThreadOf(s, u) == ThreadOf(s0, u)
  {
    hide Reached, Insert, Retire, Run, WellKept;
    Then(s0, EnrollLookup(t, fp));
    var s1 := Goto(s0, t, EnrollNew(fp));
    Then(s1, EnrollNoToken(t));
    var s2 := Goto(s1, t, EnrollReady(fp, None));
    s := EnrollsReady(s2, t, fp, name, id);
  }

  lemma {:induction false} EnrollsReady(s0: State, t: nat, fp: string, name: string, id: string) returns (s: State)
    requires Reached(s0)
    requires ThreadOf(s0, t) == EnrollReady(fp, None) && Find(s0.hosts, fp) == None && id !in s0.hosts
    ensures Reached(s) && s.hosts == Insert(s0.hosts, id, name, fp, s0.now) && s.now == s0.now
    ensures s.consumed == s0.consumed
    ensures forall u :: ThreadOf(s, u) == if u == t then Idle else ThreadOf(s0, u)
  {
    hide Reached, Find, Insert, Retire, Do;
    Then(s0, EnrollUpsert(t, name, id));
    var s1 := Do(s0, EnrollUpsert(t, name, id));
    DoIs(s0, EnrollUpsert(t, name, id));
    assert ThreadOf(s1, t) == EnrollCreated(id, fp, None);
    Then(s1, EnrollApprove(t));
    DoIs(s1, EnrollApprove(t));
    s := Do(s1, EnrollApprove(t));
  }

  lemma {:induction false} Approves(s0: State, id: string) returns (s: State)
    requires Reached(s0)
    ensures Reached(s) && s.hosts == Approve(s0.hosts, id, "admin") && s.threads == s0.threads
  {
    Then(s0, AdminApprove(id));
    s := Do(s0, AdminApprove(id));
  }

  /** An authenticated call by an approved host's pinned certificate. */
  lemma {:induction false} CallsPinned(s0: State, t: nat, fp: string, id: string) returns (s: State)
    requires Reached(s0) && ThreadOf(s0, t) == Idle && fp != "" && Find(s0.hosts, fp) == Some(id)
    requires s0.hosts[id].status.Connected? && s0.hosts[id].cert == fp
    ensures Reached(s) && s == Accept(s0, t, id, fp)
  {
    Then(s0, AuthLookup(t, fp));
    s := Accept(s0, t, id, fp);
  }

  /** agentAuth has found the host by the certificate it announced. */
  lemma {:induction false} FindsAnnounced(s0: State, t: nat, fp: string, id: string) returns (s: State)
    requires Reached(s0) && ThreadOf(s0, t) == Idle && fp != "" && Find(s0.hosts, fp) == Some(id)
    requires s0.hosts[id].status.Connected? && s0.hosts[id].cert != fp
    ensures Reached(s) && s == Goto(s0, t, AuthFound(id, fp))
  {
    Then(s0, AuthLookup(t, fp));
    s := Goto(s0, t, AuthFound(id, fp));
  }

  lemma {:induction false} Promotes(s0: State, t: nat, id: string, fp: string) returns (s: State)
    requires Reached(s0) && ThreadOf(s0, t) == AuthFound(id, fp)
    ensures Reached(s) && s.hosts == Promote(s0.hosts, id, fp) && s.threads == Goto(s0, t, AuthPassed(fp)).threads
    ensures s.accepted == s0.accepted[id := fp] && (s.hosts == s0.hosts ==> s.retired == s0.retired)
  {
    hide Reached, Run, Do, Promote;
    DoIs(s0, AuthPromote(t));
    Then(s0, AuthPromote(t));
    s := Do(s0, AuthPromote(t));
  }

  lemma {:induction false} GivenUp(before: Hosts, after: Hosts, retired: Retirements, id: string, fp: string)
    requires id in before && id in after && fp in HeldBy(before, id) && fp !in HeldBy(after, id)
    requires after[id].next != "" && fp != after[id].next
    ensures fp in At(Retire(before, after, retired), id)
  {
    assert id in before.Keys + after.Keys + retired.Keys;
  }

  /** Announcing newFp takes another announced certificate's place. */
  predicate GaveUp(h: Host, newFp: string) {
    h.next != "" && h.next != newFp && h.next != h.cert
  }

  lemma {:induction false} Announces(s0: State, t: nat, id: string, newFp: string) returns (s: State)
    requires Reached(s0) && ThreadOf(s0, t) == RotateFound(id) && id in s0.hosts && newFp != ""
    requires !UsedElsewhere(s0.hosts, id, newFp) && s0.hosts[id].cert != newFp
    ensures Reached(s) && s.hosts == s0.hosts[id := s0.hosts[id].(next := newFp)]
    ensures s.accepted == s0.accepted && s.threads == s0.threads[t := Idle]
    ensures GaveUp(s0.hosts[id], newFp) ==> s0.hosts[id].next in At(s.retired, id)
  {
    hide Retire, UsedElsewhere;
    Then(s0, RotateAnnounce(t, newFp));
    s := Do(s0, RotateAnnounce(t, newFp));
    if GaveUp(s0.hosts[id], newFp) {
      GivenUp(s0.hosts, s.hosts, s0.retired, id, s0.hosts[id].next);
    }
  }

  /** The rest of a rotation, by whoever passed agentAuth with fp. */
  lemma {:induction false} RotatesTo(s0: State, t: nat, fp: string, id: string, newFp: string) returns (s: State)
    requires Reached(s0) && ThreadOf(s0, t) == AuthPassed(fp) && Find(s0.hosts, fp) == Some(id) && newFp != ""
    requires !UsedElsewhere(s0.hosts, id, newFp) && s0.hosts[id].cert != newFp
    ensures Reached(s) && s.hosts == s0.hosts[id := s0.hosts[id].(next := newFp)]
    ensures s.accepted == s0.accepted
    ensures GaveUp(s0.hosts[id], newFp) ==> s0.hosts[id].next in At(s.retired, id)
    ensures forall u :: ThreadOf(s, u) == if u == t then Idle else ThreadOf(s0, u)
  {
    hide Retire, UsedElsewhere, Reached, Run, Do;
    Then(s0, RotateLookup(t));
    s := Announces(Goto(s0, t, RotateFound(id)), t, id, newFp);
  }

  lemma {:induction false} ApprovedReachable() returns (s: State)
    ensures Reached(s) && s.hosts == OneHost("a", "")
    ensures forall t :: ThreadOf(s, t) == Idle
  {
    assert Run(START, []) == START;
    var s1 := EnrollsPending(START, 0, "a", "h", "h1");
    s := Approves(s1, "h1");
    assert s.hosts == OneHost("a", "");
    assert forall t :: ThreadOf(s, t) == ThreadOf(s1, t);
  }

  /** An approved host that announced "b" while pinned to "a" is reachable. */
  lemma {:induction false} AnnouncedReachable() returns (s: State)
    ensures Reached(s) && s.hosts == OneHost("a", "b")
    ensures forall t :: ThreadOf(s, t) == Idle
  {
    hide Retire, Find, UsedElsewhere, Reached, WellKept, Do, Run;
    var s0 := ApprovedReachable();
    OneHostFinds("a", "");
    assert ThreadOf(s0, 0) == Idle;
    var s1 := CallsPinned(s0, 0, "a", "h1");
    s := RotatesTo(s1, 0, "a", "h1", "b");
    assert s.hosts == OneHost("a", "b");
    assert forall t :: t != 0 ==> ThreadOf(s1, t) == ThreadOf(s0, t);
  }

  /** agentAuth has found the host by "b", which the host has replaced by "c" since. */
  lemma {:induction false} OvertakenReachable() returns (s: State)
    ensures Reached(s) && s.hosts == OneHost("a", "c") && "b" in At(s.retired, "h1")
    ensures ThreadOf(s, 1) == AuthFound("h1", "b")
  {
    hide Retire, Find, UsedElsewhere, Reached, WellKept, Do, Run;
    var s0 := AnnouncedReachable();
    OneHostFinds("a", "b");
    assert ThreadOf(s0, 1) == ThreadOf(s0, 2) == Idle;
    var s1 := FindsAnnounced(s0, 1, "b", "h1");
    var s2 := CallsPinned(s1, 2, "a", "h1");
    s := RotatesTo(s2, 2, "a", "h1", "c");
    assert ThreadOf(s2, 1) == ThreadOf(s, 1);
    assert s.hosts == OneHost("a", "c");
  }

  /** Interleaved requests can leave a host's last accepted certificate unpinned, and
      retired: the announcement changes between agentAuth's lookup and its promotion. */
  lemma {:induction false} AcceptedUnpinned() returns (s: State)
    ensures Reached(s)
    ensures "h1" in s.hosts && "h1" in s.accepted && s.accepted["h1"] == "b" && s.hosts["h1"].cert == "a"
    ensures "b" in At(s.retired, "h1")
  {
    hide Retire;
    var s3 := OvertakenReachable();
    s := Promotes(s3, 1, "h1", "b");
  }

  /** One call is past agentAuth with the pinned certificate, another has found the host
      by the announced one. */
  lemma {:induction false} BothFoundReachable() returns (s: State)
    ensures Reached(s) && s.hosts == OneHost("a", "b")
    ensures ThreadOf(s, 1) == AuthPassed("a") && ThreadOf(s, 2) == AuthFound("h1", "b") && ThreadOf(s, 3) == Idle
  {
    hide Retire, Find, UsedElsewhere, Reached, WellKept, Do, Run;
    var s0 := AnnouncedReachable();
    OneHostFinds("a", "b");
    assert ThreadOf(s0, 1) == ThreadOf(s0, 2) == ThreadOf(s0, 3) == Idle;
    var s1 := CallsPinned(s0, 1, "a", "h1");
    s := FindsAnnounced(s1, 2, "b", "h1");
  }

  /** A call that passed agentAuth with the old certificate, which another call's
      promotion has replaced since. */
  lemma {:induction false} ReplacedReachable() returns (s: State)
    ensures Reached(s) && s.hosts == OneHost("b", "")
    ensures ThreadOf(s, 1) == AuthPassed("a") && ThreadOf(s, 3) == Idle
  {
    hide Retire, Find, UsedElsewhere, Reached, WellKept, Do, Run;
    var s0 := BothFoundReachable();
    s := Promotes(s0, 2, "h1", "b");
    assert s.hosts == OneHost("b", "");
  }

  /** Interleaved requests can leave a pending host with an announced certificate:
      the caller's old certificate enrolls again between agentAuth and the handler. */
  lemma {:induction false} PendingAnnounces() returns (s: State)
    ensures Reached(s)
    ensures "h2" in s.hosts && s.hosts["h2"].status.Pending? && s.hosts["h2"].next == "c"
  {
    hide Retire, Reached, Do, Run, Find;
    var s3 := ReplacedReachable();
    OneHostFinds("b", "");
    var s4 := EnrollsPending(s3, 3, "a", "x", "h2");
    InsertKeeps(s3.hosts, "h2", "x", "a", s3.now);
    FindIs(s4.hosts, "h2", "a");
    assert ThreadOf(s4, 1) == AuthPassed("a");
    s := RotatesTo(s4, 1, "a", "h2", "c");
  }

  lemma {:induction false} NewcomerReachable() returns (s: State)
    ensures Reached(s) && s.hosts == map[] && s.consumed == [] && s.now == 0
    ensures s.tokens == map["k" := Token(1, false, "")]
    ensures ThreadOf(s, 0) == EnrollNew("a") && ThreadOf(s, 1) == Idle
  {
    hide Retire, Reached, Do, Run;
    StartReached();
    Then(START, Mint("k", 1));
    var s1 := StoreCall(START, Mint("k", 1));
    Then(s1, EnrollLookup(0, "a"));
    s := Goto(s1, 0, EnrollNew("a"));
  }

  /** A token "k" is consumed for the certificate "a", whose row is inserted as "web" and
      still to be approved. */
  lemma {:induction false} TokenSpentReachable() returns (s: State)
    ensures Reached(s) && s.hosts == map["web" := Host("web", Pending, "a", "", "", 0, 0)] && s.consumed == ["k"]
    ensures ThreadOf(s, 0) == EnrollCreated("web", "a", Some("k")) && ThreadOf(s, 1) == Idle
  {
    hide Retire, Reached, Do, Run, Find;
    var s2 := NewcomerReachable();
    assert Find(s2.hosts, "a") == None;
    Then(s2, EnrollToken(0, "k"));
    var s3 := TakeToken(s2, 0, "k");
    assert ThreadOf(s3, 0) == EnrollReady("a", Some("k")) && ThreadOf(s3, 1) == Idle && s3.hosts == s2.hosts;
    Then(s3, EnrollUpsert(0, "web", "web"));
    s := Do(s3, EnrollUpsert(0, "web", "web"));
    DoIs(s3, EnrollUpsert(0, "web", "web"));
  }

  lemma {:induction false} StartReached()
    ensures Reached(START)
  {
    assert Run(START, []) == START;
  }

  /** Before it is, that row is rejected, and "b" enrolls under the same name: the id comes
      from the name the agent gives, so it is "web" again. */
  lemma {:induction false} RowReplacedReachable() returns (s: State)
    ensures Reached(s) && s.consumed == ["k"]
    ensures s.hosts == map["web" := Host("web", Pending, "b", "", "", s.now, s.now)]
    ensures ThreadOf(s, 0) == EnrollCreated("web", "a", Some("k"))
  {
    hide Retire, Reached, Do, Run, Find;
    var s0 := TokenSpentReachable();
    Then(s0, AdminReject("web"));
    var s1 := Do(s0, AdminReject("web"));
    DoIs(s0, AdminReject("web"));
    assert s1.hosts == map[];
    assert forall u :: ThreadOf(s1, u) == ThreadOf(s0, u);
    assert Find(s1.hosts, "b") == None;
    s := EnrollsPending(s1, 1, "b", "web", "web");
  }

  /** Interleaved requests can make a token that was presented with one certificate stand
      for the approval of another. */
  lemma {:induction false} ForeignApproved() returns (s: State)
    ensures Reached(s) && ThreadOf(s, 0) == EnrollCreated("web", "a", Some("k")) && s.consumed == ["k"]
    ensures var after := Do(s, EnrollApprove(0)).hosts;
            && "web" in after && after["web"].status.Connected? && after["web"].approvedBy == "enrollment-token"
            && after["web"].cert == "b" && !Holds(after["web"], "a")
  {
    hide Retire, Reached, Do, Run;
    s := RowReplacedReachable();
    DoIs(s, EnrollApprove(0));
  }
}
