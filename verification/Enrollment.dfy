/** The agent channel's protocol, one request at a time: enrolling, polling,
    calling as an enrolled host, and changing certificate in two phases. What every
    request keeps is Valid; so it holds after any run of requests. */
module Enrollment {
  import opened Strings
  import opened HostStore

  datatype EnrollReply =
    | BadToken
    | TokenRequired
    | TooManyPending
    | NoFreeID
    | Enrolled(id: string, created: bool)

  datatype RotateReply = UnknownCaller | FingerprintTaken | SameCertificate | Announced(id: string)

  datatype StatusReply = UnknownID | WrongCertificate | Known(status: Status)

  ghost function At(m: map<string, set<string>>, id: string): set<string> {
    if id in m then m[id] else {}
  }

  type Accepts = map<string, string>
  type Retirements = map<string, set<string>>

  /** The protocol's invariant: one holder per certificate, announcements only on
      connected hosts, the certificate last accepted for a host pinned, and a
      replaced certificate refused unless announced again. */
  ghost predicate Sound(hosts: Hosts, accepted: Accepts, retired: Retirements) {
    && WellKept(hosts)
    && OnlyConnectedAnnounce(hosts)
    && (forall i :: i in hosts && i in accepted ==> hosts[i].cert == accepted[i])
    && (forall i, fp :: i in hosts && fp in At(retired, i) ==> !Holds(hosts[i], fp))
  }

  lemma {:induction false} SoundIsKept(hosts: Hosts, accepted: Accepts, retired: Retirements)
    requires Sound(hosts, accepted, retired)
    ensures WellKept(hosts) && KeepsConnected(hosts, hosts)
  {
  }

  /** A new row, as inserted and as approved: the others are as before. */
  lemma {:induction false} NewRowIs(hosts: Hosts, id: string, name: string, fp: string, now: int)
    requires id !in hosts
    ensures var row := Insert(hosts, id, name, fp, now);
            && id in row && row[id].cert == fp && row[id].status.Pending? && row - {id} == hosts
            && id in Approve(row, id, "enrollment-token") && Approve(row, id, "enrollment-token")[id].cert == fp
            && Approve(row, id, "enrollment-token")[id].status.Connected?
                && Approve(row, id, "enrollment-token") - {id} == hosts
  {
  }

  lemma {:induction false} PurgeSound(hosts: Hosts, accepted: Accepts, retired: Retirements, cutoff: int)
    requires Sound(hosts, accepted, retired)
    ensures Sound(PurgePending(hosts, cutoff), accepted, retired) && KeepsConnected(hosts, PurgePending(hosts, cutoff))
  {
    PurgeKeeps(hosts, cutoff);
  }

  lemma {:induction false} PinnedSound(hosts: Hosts, accepted: Accepts, retired: Retirements, id: string)
    requires Sound(hosts, accepted, retired) && id in hosts
    ensures Promote(hosts, id, hosts[id].cert) == hosts && Sound(hosts, accepted[id := hosts[id].cert], retired)
  {
    assert hosts[id].next != hosts[id].cert;
    hide WellKept;
  }

  lemma {:induction false} AnnouncedSound(hosts: Hosts, accepted: Accepts, retired: Retirements, id: string)
    requires Sound(hosts, accepted, retired) && id in hosts && hosts[id].next != ""
    ensures var fp, pinned := hosts[id].next, hosts[id].cert;
            Sound(Promote(hosts, id, fp), accepted[id := fp], retired[id := At(retired, id) + {pinned}])
  {
    assert hosts[id].next != hosts[id].cert;
    PromoteKeeps(hosts, id, hosts[id].next);
    hide WellKept, KeepsConnected;
  }

  lemma {:induction false} PresentSound(hosts: Hosts, accepted: Accepts, retired: Retirements, id: string, fp: string)
    requires Sound(hosts, accepted, retired) && fp != "" && id in hosts && Holds(hosts[id], fp)
    ensures var pinned := hosts[id].cert;
            Sound(Promote(hosts, id, fp), accepted[id := fp],
                  if pinned == fp then retired else retired[id := At(retired, id) + {pinned}])
    ensures Promote(hosts, id, fp)[id].cert == fp && Promote(hosts, id, fp)[id].status == hosts[id].status
  {
    hide Sound;
    if hosts[id].cert == fp {
      PinnedSound(hosts, accepted, retired, id);
    } else {
      AnnouncedSound(hosts, accepted, retired, id);
    }
  }

  lemma {:induction false} AnnounceSound(hosts: Hosts, accepted: Accepts, retired: Retirements, id: string, fp: string)
    requires Sound(hosts, accepted, retired) && fp != "" && id in hosts && hosts[id].status.Connected?
    ensures Announce(hosts, id, fp).1.Registered? ==>
              Sound(Announce(hosts, id, fp).0, accepted, retired[id := At(retired, id) - {fp}])
  {
    AnnounceKeeps(hosts, id, fp);
  }

  lemma {:induction false} InsertSound(hosts: Hosts, accepted: Accepts, retired: Retirements, id: string,
        name: string, fp: string, now: int)
    requires Sound(hosts, accepted, retired) && id !in hosts && fp != ""
    requires forall i :: i in hosts ==> !Holds(hosts[i], fp)
    ensures Sound(Insert(hosts, id, name, fp, now), accepted - {id}, retired - {id})
  {
    InsertKeeps(hosts, id, name, fp, now);
  }

  lemma {:induction false} RowSound(hosts: Hosts, accepted: Accepts, retired: Retirements, id: string, h: Host)
    requires Sound(hosts, accepted, retired) && id in hosts && h.cert == hosts[id].cert && h.next == hosts[id].next
    requires hosts[id].status.Connected? ==> h.status.Connected?
    ensures Sound(hosts[id := h], accepted, retired)
  {
    RowUpdateKeeps(hosts, id, h);
    assert forall fp :: Holds(h, fp) <==> Holds(hosts[id], fp);
  }

  lemma {:induction false} KeepsTwice(a: Hosts, b: Hosts, c: Hosts)
    requires KeepsConnected(a, b) && KeepsConnected(b, c)
    ensures KeepsConnected(a, c)
  {
  }

  class AgentChannel {
    const store: Store
    /** Per host, the certificate last accepted for it by AgentAuth or VerifyCaller. */
    ghost var accepted: Accepts
    /** Per host, the certificates that were replaced and not announced again since. */
    ghost var retired: Retirements

    ghost predicate Valid()
      reads this, store
    {
      Sound(store.hosts, accepted, retired)
    }

    constructor ()
      ensures Valid() && fresh(store) && store.hosts == map[]
    {
      store := new Store();
      accepted, retired := map[], map[];
    }

    /** The caller's certificate must resolve to an approved host; presenting the
        announced certificate makes it the pinned one. */
    method AgentAuth(fp: string) returns (r: Option<string>)
      requires Valid() && fp != ""
      modifies this, store`hosts
      ensures Valid() && KeepsConnected(old(store.hosts), store.hosts)
      ensures r.Some? <==> exists i :: Caller(old(store.hosts), i, fp)
      ensures r.None? ==> store.hosts == old(store.hosts) && accepted == old(accepted) && retired == old(retired)
      ensures r.Some? ==> Holder(old(store.hosts), r.value, fp) && fp !in old(At(retired, r.value))
      ensures r.Some? ==> store.hosts == Promote(old(store.hosts), r.value, fp)
      ensures r.Some? ==> Accepted(r.value, fp) && store.hosts[r.value].status.Connected?
      ensures r.Some? && old(store.hosts)[r.value].cert != fp ==> old(store.hosts)[r.value].cert in At(retired, r.value)
    {
      var h := store.GetHostByFingerprint(fp);
      if h.None? { return None; }
      if !store.hosts[h.value].status.Connected? { return None; }
      assert Caller(store.hosts, h.value, fp);
      Present(h.value, fp);
      r := h;
    }

    /** id was the host holding the certificate. */
    ghost predicate Holder(hosts: Hosts, id: string, fp: string) {
      id in hosts && Holds(hosts[id], fp)
    }

    /** The certificate is the one pinned to the host, and the last accepted for it. */
    ghost predicate Accepted(id: string, fp: string)
      reads this, store
    {
      id in store.hosts && store.hosts[id].cert == fp && store.hosts[id].next != fp && id in accepted
        && accepted[id] == fp
    }

    /** What accepting a certificate does: promote it when it is the announced one. */
    method Present(id: string, fp: string)
      requires Valid() && fp != "" && Holder(store.hosts, id, fp)
      modifies this, store`hosts
      ensures Valid() && KeepsConnected(old(store.hosts), store.hosts)
      ensures store.hosts == Promote(old(store.hosts), id, fp) && Accepted(id, fp)
      ensures store.hosts[id].status == old(store.hosts)[id].status
      ensures old(store.hosts)[id].cert != fp ==> old(store.hosts)[id].cert in At(retired, id)
      ensures forall i :: i != id ==> At(retired, i) == old(At(retired, i))
    {
      var pinned := store.hosts[id].cert;
      PresentSound(store.hosts, accepted, retired, id, fp);
      PromoteKeeps(store.hosts, id, fp);
      if pinned != fp {
        store.PromoteFingerprint(id, fp);
        retired := retired[id := At(retired, id) + {pinned}];
      }
      accepted := accepted[id := fp];
    }

    /** verifyCaller: the certificate must be this host's pinned or announced one. */
    method VerifyCaller(fp: string, id: string) returns (ok: bool)
      requires Valid() && fp != ""
      modifies this, store`hosts
      ensures Valid() && KeepsConnected(old(store.hosts), store.hosts)
      ensures ok <==> Holder(old(store.hosts), id, fp)
      ensures !ok ==> store.hosts == old(store.hosts) && accepted == old(accepted) && retired == old(retired)
      ensures ok ==> fp !in old(At(retired, id)) && Accepted(id, fp)
      ensures ok ==> store.hosts == Promote(old(store.hosts), id, fp)
      ensures ok && old(store.hosts)[id].cert != fp ==> old(store.hosts)[id].cert in At(retired, id)
    {
      if id !in store.hosts { return false; }
      if store.hosts[id].cert == fp || (store.hosts[id].next != "" && store.hosts[id].next == fp) {
        Present(id, fp);
        return true;
      }
      ok := false;
    }

    /** Whom the caller's certificate stands for, if that host is approved. */
    ghost predicate Caller(hosts: Hosts, id: string, fp: string) {
      Holder(hosts, id, fp) && hosts[id].status.Connected?
    }

    static lemma {:induction false} RotateAnswers(hosts: Hosts, id: string, fp: string, newFp: string)
      requires WellKept(hosts) && fp != "" && id in hosts && Holds(hosts[id], fp)
      ensures UsedElsewhere(Promote(hosts, id, fp), id, newFp) <==> UsedElsewhere(hosts, id, newFp)
      ensures newFp == fp ==> !UsedElsewhere(hosts, id, newFp)
    {
      assert forall j :: j in hosts && j != id ==> !Holds(hosts[j], fp);
      assert forall j :: j in hosts && j != id ==> Promote(hosts, id, fp)[j] == hosts[j];
    }

    /** rotateHandler behind agentAuth: announces the certificate the caller will switch to. */
    method Rotate(fp: string, newFp: string) returns (r: RotateReply)
      requires Valid() && fp != "" && newFp != ""
      modifies this, store`hosts
      ensures Valid() && KeepsConnected(old(store.hosts), store.hosts)
      ensures r.UnknownCaller? <==> !(exists i :: Caller(old(store.hosts), i, fp))
      ensures r.Announced? ==>
                && Holder(old(store.hosts), r.id, fp) && r.id in store.hosts
                && store.hosts[r.id].cert == fp && store.hosts[r.id].next == newFp
                && newFp !in At(retired, r.id)
      ensures r.FingerprintTaken? <==>
          exists i :: Caller(old(store.hosts), i, fp) && UsedElsewhere(old(store.hosts), i, newFp)
      ensures r.SameCertificate? <==> !r.UnknownCaller? && newFp == fp
      ensures !r.Announced? ==>
                forall i :: i in store.hosts && store.hosts[i].next != "" ==>
                  i in old(store.hosts) && store.hosts[i].next == old(store.hosts)[i].next
    {
      var caller := AgentAuth(fp);
      if caller.None? { return UnknownCaller; }
      var host := store.GetHostByFingerprint(fp);
      assert host == caller by {
        assert Holds(store.hosts[caller.value], fp);
      }
      AnnounceSound(store.hosts, accepted, retired, host.value, newFp);
      RotateAnswers(old(store.hosts), host.value, fp, newFp);
      label asked:
      var announced := store.SetNextFingerprint(host.value, newFp);
      KeepsTwice(old(store.hosts), old@asked(store.hosts), store.hosts);
      match announced
      case InUse => r := FingerprintTaken;
      case NotFound => r := SameCertificate;
      case Registered =>
        retired := retired[host.value := At(retired, host.value) - {newFp}];
        r := RotateReply.Announced(host.value);
    }

    method EnrollStatus(fp: string, id: string) returns (r: StatusReply)
      requires Valid() && fp != ""
      modifies this, store`hosts
      ensures Valid() && KeepsConnected(old(store.hosts), store.hosts)
      ensures r.UnknownID? <==> id !in old(store.hosts)
      ensures r.Known? <==> Holder(old(store.hosts), id, fp)
      ensures r.Known? ==> r.status == old(store.hosts)[id].status && Accepted(id, fp)
    {
      if id !in store.hosts { return UnknownID; }
      var ok := VerifyCaller(fp, id);
      if !ok { return WrongCertificate; }
      var _ := store.TouchHost(id);
      r := Known(store.hosts[id].status);
    }

    /** Nobody holds the certificate. */
    ghost predicate Newcomer(hosts: Hosts, fp: string) {
      forall i :: i in hosts ==> !Holds(hosts[i], fp)
    }

    /** A known certificate is a reconnect: no token, no cap, nothing new. A new one
        needs a valid single-use token, which stands for the approval, or, where that
        is not required, room among the pending hosts. */
    method EnrollCreate(fp: string, name: string, candidates: seq<string>, token: Option<string>, tokenRequired: bool,
          maxPending: nat)
      returns (r: EnrollReply)
      requires Valid() && fp != "" && |candidates| == 5
      modifies this, store`hosts, store`tokens
      ensures Valid() && KeepsConnected(old(store.hosts), store.hosts)
      ensures (exists i :: i in old(store.hosts) && Holds(old(store.hosts)[i], fp)) ==>
                r.Enrolled? && !r.created && Holder(old(store.hosts), r.id, fp)
                && store.hosts == Touch(old(store.hosts), r.id, store.now) && store.tokens == old(store.tokens)
      ensures r.BadToken? || r.TokenRequired? || r.TooManyPending? ==>
                store.hosts == old(store.hosts) && store.tokens == old(store.tokens)
      ensures r.BadToken? <==> && Newcomer(old(store.hosts), fp) && token.Some?
                               && !Usable(old(store.tokens), token.value, store.now)
      ensures r.TokenRequired? <==> Newcomer(old(store.hosts), fp) && token.None? && tokenRequired
      ensures r.TooManyPending? <==> && Newcomer(old(store.hosts), fp) && token.None? && !tokenRequired
                                     && 0 < maxPending <= CountPending(old(store.hosts))
      ensures r.Enrolled? && r.created ==>
                r.id !in old(store.hosts) && r.id in store.hosts && store.hosts[r.id].cert == fp
                && store.hosts - {r.id} == old(store.hosts)
                && (store.hosts[r.id].status.Connected? <==> token.Some?)
                && (token.None? ==> !tokenRequired && (maxPending > 0 ==> CountPending(old(store.hosts)) < maxPending))
                && (token.Some? ==> Usable(old(store.tokens), token.value, store.now))
                && (token.Some? ==> token.value in store.tokens && store.tokens[token.value].used)
                && (token.Some? ==> store.tokens[token.value].usedBy == r.id)
      ensures r.NoFreeID? ==>
                && store.hosts == old(store.hosts) && (forall c :: c in candidates ==> c in store.hosts)
                && (token.Some? ==> store.tokens == Consume(old(store.tokens), token.value, store.now, "").0)
                && (token.Some? ==> Usable(old(store.tokens), token.value, store.now))
      ensures forall h :: h in old(store.tokens) && old(store.tokens)[h].used ==>
          h in store.tokens && store.tokens[h].used
      ensures token.None? ==> store.tokens == old(store.tokens)
    {
      hide Sound, WellKept, KeepsConnected, Approve, Insert, CountPending;
      SoundIsKept(store.hosts, accepted, retired);
      var existing := store.GetHostByFingerprint(fp);
      var tokenUsed := false;
      if existing.None? {
        var refusal := AdmitNew(token, tokenRequired, maxPending);
        if refusal.Some? { return refusal.value; }
        tokenUsed := token.Some?;
      }
      var upserted := store.UpsertHostByFingerprint(name, fp, candidates);
      if upserted.None? { return NoFreeID; }
      var (id, created) := upserted.value;
      if !created {
        RowSound(old(store.hosts), accepted, retired, id, old(store.hosts)[id].(seen := store.now));
        return Enrolled(id, false);
      }
      InsertSound(old(store.hosts), accepted, retired, id, name, fp, store.now);
      NewRowIs(old(store.hosts), id, name, fp, store.now);
      accepted, retired := accepted - {id}, retired - {id};
      if tokenUsed {
        ghost var inserted := store.hosts;
        ApproveNew(token.value, id);
        KeepsTwice(old(store.hosts), inserted, store.hosts);
      }
      r := Enrolled(id, true);
    }

    /** The checks a brand new identity goes through: its token is consumed, or it is
        refused and nothing changes. */
    method AdmitNew(token: Option<string>, tokenRequired: bool, maxPending: nat) returns (refusal: Option<EnrollReply>)
      requires Valid()
      modifies store`tokens
      ensures Valid()
      ensures refusal.None? <==>
                (if token.Some? then Usable(old(store.tokens), token.value, store.now)
                 else !tokenRequired && (maxPending > 0 ==> CountPending(store.hosts) < maxPending))
      ensures refusal.Some? ==>
                refusal.value == (if token.Some? then BadToken else if tokenRequired then TokenRequired
                  else TooManyPending)
      ensures store.tokens == if token.Some? && refusal.None?
                              then Consume(old(store.tokens), token.value, store.now, "").0 else old(store.tokens)
    {
      refusal := None;
      if token.Some? {
        var won := store.ConsumeEnrollmentToken(token.value, "");
        if !won { return Some(BadToken); }
      } else if tokenRequired {
        return Some(TokenRequired);
      } else if maxPending > 0 {
        var n := CountPending(store.hosts);
        if n >= maxPending { return Some(TooManyPending); }
      }
    }

    /** A valid single-use token stands in for the approval of the host it enrolled. */
    method ApproveNew(token: string, id: string)
      requires Valid() && id in store.hosts && token in store.tokens
      modifies store`hosts, store`tokens
      ensures Valid() && KeepsConnected(old(store.hosts), store.hosts)
      ensures store.hosts == Approve(old(store.hosts), id, "enrollment-token")
      ensures store.tokens == old(store.tokens)[token := old(store.tokens)[token].(usedBy := id)]
    {
      RowSound(store.hosts, accepted, retired, id,
        store.hosts[id].(status := Connected, approvedBy := "enrollment-token"));
      var _ := store.ApproveHost(id, "enrollment-token");
      store.SetEnrollmentTokenHost(token, id);
    }

    method AdminApprove(id: string, who: string) returns (found: bool)
      requires Valid()
      modifies store`hosts
      ensures Valid() && KeepsConnected(old(store.hosts), store.hosts)
      ensures found <==> id in old(store.hosts)
      ensures found ==> id in store.hosts && store.hosts[id].status.Connected?
    {
      found := store.ApproveHost(id, who);
    }

    method AdminReject(id: string) returns (found: bool)
      requires Valid()
      modifies store`hosts
      ensures Valid() && KeepsConnected(old(store.hosts), store.hosts)
      ensures found <==> id in old(store.hosts) && old(store.hosts)[id].status.Pending?
      ensures found ==> id !in store.hosts
    {
      found := store.RejectPendingHost(id);
    }

    method PurgeHosts(ttl: int)
      requires Valid()
      modifies store`hosts
      ensures Valid() && KeepsConnected(old(store.hosts), store.hosts)
      ensures store.hosts == PurgePending(old(store.hosts), store.now - ttl)
    {
      hide Sound, WellKept, KeepsConnected, PurgePending;
      SoundIsKept(store.hosts, accepted, retired);
      PurgeSound(store.hosts, accepted, retired, store.now - ttl);
      var _ := store.PurgeStalePending(ttl);
    }

    method PurgePass(ttl: int, week: int)
      requires Valid()
      modifies store`hosts, store`tokens
      ensures Valid() && KeepsConnected(old(store.hosts), store.hosts)
      ensures store.hosts == if ttl > 0 then PurgePending(old(store.hosts), store.now - ttl) else old(store.hosts)
      ensures store.tokens == PurgeTokens(old(store.tokens), store.now - week)
    {
      hide Sound, WellKept, KeepsConnected, PurgePending, PurgeTokens;
      SoundIsKept(store.hosts, accepted, retired);
      if ttl > 0 { PurgeHosts(ttl); }
      store.PurgeEnrollmentTokens(week);
    }
  }
}
