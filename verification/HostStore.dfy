/** The hosts and enrollment_tokens tables, one method per store call. Each call is
    one atomic step; what it does to the tables is a function of their old content, and
    every such function keeps one holder per certificate. */
module HostStore {
  import opened Strings

  datatype Status = Pending | Connected

  /** A row of hosts; next is the announced fingerprint, "" when no rotation is in flight. */
  datatype Host = Host(name: string, status: Status, cert: string, next: string, approvedBy: string, created: int,
        seen: int)

  type Hosts = map<string, Host>

  /** A row of enrollment_tokens, keyed by the token's hash. */
  datatype Token = Token(expires: int, used: bool, usedBy: string)

  type Tokens = map<string, Token>

  /** The certificate is pinned to the host, or announced for it. */
  predicate Holds(h: Host, fp: string) {
    h.cert == fp || (h.next != "" && h.next == fp)
  }

  /** No fingerprint is pinned or announced by two hosts, so that looking a
      certificate up is a function. */
  ghost predicate OneHolder(hosts: Hosts) {
    forall i, j, fp :: i in hosts && j in hosts && Holds(hosts[i], fp) && Holds(hosts[j], fp) ==> i == j
  }

  ghost predicate WellKept(hosts: Hosts) {
    && OneHolder(hosts)
    && forall i :: i in hosts ==> hosts[i].cert != "" && hosts[i].next != hosts[i].cert
  }

  ghost predicate OnlyConnectedAnnounce(hosts: Hosts) {
    forall i :: i in hosts && hosts[i].next != "" ==> hosts[i].status.Connected?
  }

  /** A connected host is never removed nor returned to pending. */
  ghost predicate KeepsConnected(before: Hosts, after: Hosts) {
    forall i :: i in before && before[i].status.Connected? ==> i in after && after[i].status.Connected?
  }

  /** A token can be consumed up to the moment it expires, once. */
  predicate Usable(tokens: Tokens, hash: string, now: int) {
    hash in tokens && now < tokens[hash].expires && !tokens[hash].used
  }

  // ---- what each statement does

  function Insert(hosts: Hosts, id: string, name: string, fp: string, now: int): Hosts {
    hosts[id := Host(name, Pending, fp, "", "", now, now)]
  }

  function Touch(hosts: Hosts, id: string, now: int): Hosts {
    if id in hosts then hosts[id := hosts[id].(seen := now)] else hosts
  }

  function Approve(hosts: Hosts, id: string, who: string): Hosts {
    if id in hosts then hosts[id := hosts[id].(status := Connected, approvedBy := who)] else hosts
  }

  function Reject(hosts: Hosts, id: string): Hosts {
    if id in hosts && hosts[id].status.Pending? then hosts - {id} else hosts
  }

  function PurgePending(hosts: Hosts, cutoff: int): Hosts {
    map id | id in hosts && !(hosts[id].status.Pending? && hosts[id].created < cutoff) :: hosts[id]
  }

  predicate UsedElsewhere(hosts: Hosts, id: string, fp: string) {
    exists j | j in hosts :: j != id && (hosts[j].cert == fp || hosts[j].next == fp)
  }

  datatype Announced = Registered | InUse | NotFound

  function Announce(hosts: Hosts, id: string, fp: string): (Hosts, Announced) {
    if UsedElsewhere(hosts, id, fp) then (hosts, InUse)
    else if id in hosts && hosts[id].cert != fp then (hosts[id := hosts[id].(next := fp)], Registered)
    else (hosts, NotFound)
  }

  function Promote(hosts: Hosts, id: string, fp: string): Hosts {
    if id in hosts && hosts[id].next == fp && fp != "" then hosts[id := hosts[id].(cert := fp, next := "")] else hosts
  }

  function Consume(tokens: Tokens, hash: string, now: int, host: string): (Tokens, bool) {
    if hash in tokens && !tokens[hash].used && tokens[hash].expires > now
    then (tokens[hash := tokens[hash].(used := true, usedBy := host)], true)
    else (tokens, false)
  }

  function PurgeTokens(tokens: Tokens, cutoff: int): Tokens {
    map h | h in tokens && !(tokens[h].expires < cutoff) :: tokens[h]
  }

  function CountPending(hosts: Hosts): nat {
    |set id | id in hosts && hosts[id].status.Pending?|
  }

  // ---- each of them keeps one holder per fingerprint, and connected hosts

  lemma {:induction false} InsertKeeps(hosts: Hosts, id: string, name: string, fp: string, now: int)
    requires WellKept(hosts) && id !in hosts && fp != "" && forall i :: i in hosts ==> !Holds(hosts[i], fp)
    ensures WellKept(Insert(hosts, id, name, fp, now)) && KeepsConnected(hosts, Insert(hosts, id, name, fp, now))
  {
  }

  lemma {:induction false} RowUpdateKeeps(hosts: Hosts, id: string, h: Host)
    requires WellKept(hosts) && id in hosts && h.cert == hosts[id].cert && h.next == hosts[id].next
    requires hosts[id].status.Connected? ==> h.status.Connected?
    ensures WellKept(hosts[id := h]) && KeepsConnected(hosts, hosts[id := h])
  {
    assert forall fp :: Holds(h, fp) <==> Holds(hosts[id], fp);
  }

  lemma {:induction false} TouchKeeps(hosts: Hosts, id: string, now: int)
    requires WellKept(hosts)
    ensures WellKept(Touch(hosts, id, now)) && KeepsConnected(hosts, Touch(hosts, id, now))
  {
    if id in hosts { RowUpdateKeeps(hosts, id, hosts[id].(seen := now)); }
  }

  lemma {:induction false} ApproveKeeps(hosts: Hosts, id: string, who: string)
    requires WellKept(hosts)
    ensures WellKept(Approve(hosts, id, who)) && KeepsConnected(hosts, Approve(hosts, id, who))
  {
    if id in hosts { RowUpdateKeeps(hosts, id, hosts[id].(status := Connected, approvedBy := who)); }
  }

  lemma {:induction false} RejectKeeps(hosts: Hosts, id: string)
    requires WellKept(hosts)
    ensures WellKept(Reject(hosts, id)) && KeepsConnected(hosts, Reject(hosts, id))
  {
  }

  lemma {:induction false} PurgeKeeps(hosts: Hosts, cutoff: int)
    requires WellKept(hosts)
    ensures WellKept(PurgePending(hosts, cutoff)) && KeepsConnected(hosts, PurgePending(hosts, cutoff))
  {
  }

  lemma {:induction false} AnnounceKeeps(hosts: Hosts, id: string, fp: string)
    requires WellKept(hosts) && fp != ""
    ensures WellKept(Announce(hosts, id, fp).0) && KeepsConnected(hosts, Announce(hosts, id, fp).0)
  {
    var after := Announce(hosts, id, fp).0;
    if after != hosts {
      forall i, j, f | i in after && j in after && Holds(after[i], f) && Holds(after[j], f) ensures i == j {
        if f != fp {
          assert Holds(hosts[i], f) && Holds(hosts[j], f);
        } else {
          assert i != id ==> hosts[i].cert == fp || hosts[i].next == fp;
          assert j != id ==> hosts[j].cert == fp || hosts[j].next == fp;
        }
      }
    }
  }

  lemma {:induction false} PromoteKeeps(hosts: Hosts, id: string, fp: string)
    requires WellKept(hosts)
    ensures WellKept(Promote(hosts, id, fp)) && KeepsConnected(hosts, Promote(hosts, id, fp))
  {
    var after := Promote(hosts, id, fp);
    if after != hosts {
      assert forall f :: Holds(after[id], f) ==> Holds(hosts[id], f);
      forall i, j, f | i in after && j in after && Holds(after[i], f) && Holds(after[j], f) ensures i == j {
        assert Holds(hosts[i], f) && Holds(hosts[j], f);
      }
    }
  }

  // ---- the store

  class Store {
    var hosts: Hosts
    var tokens: Tokens
    var now: int

    constructor ()
      ensures hosts == map[] && tokens == map[]
    {
      hosts, tokens, now := map[], map[], 0;
    }

    method GetHostByFingerprint(fp: string) returns (id: Option<string>)
      ensures id.Some? ==> id.value in hosts && Holds(hosts[id.value], fp)
      ensures id.None? ==> forall i :: i in hosts ==> !Holds(hosts[i], fp)
    {
      if i :| i in hosts && Holds(hosts[i], fp) {
        return Some(i);
      }
      id := None;
    }

    /** A known fingerprint is a reconnect; a new one is inserted as pending under
        the first of five candidate ids that is free. */
    method UpsertHostByFingerprint(name: string, fp: string, candidates: seq<string>)
          returns (r: Option<(string, bool)>)
      requires WellKept(hosts) && fp != "" && |candidates| == 5
      modifies `hosts
      ensures WellKept(hosts) && KeepsConnected(old(hosts), hosts)
      ensures (exists i :: i in old(hosts) && Holds(old(hosts)[i], fp)) ==>
                r.Some? && !r.value.1 && r.value.0 in old(hosts) && Holds(old(hosts)[r.value.0], fp)
                && hosts == Touch(old(hosts), r.value.0, now)
      ensures r.Some? && r.value.1 ==>
                r.value.0 in candidates && r.value.0 !in old(hosts)
                && (forall i :: i in old(hosts) ==> !Holds(old(hosts)[i], fp))
                && hosts == Insert(old(hosts), r.value.0, name, fp, now)
      ensures r.Some? ==> r.value.0 in hosts && hosts[r.value.0].seen == now
      ensures r.Some? ==> hosts - {r.value.0} == old(hosts) - {r.value.0}
      ensures r.Some? && r.value.1 ==> hosts[r.value.0] == Host(name, Pending, fp, "", "", now, now)
      ensures r.Some? && !r.value.1 ==>
                r.value.0 in old(hosts) && hosts[r.value.0] == old(hosts)[r.value.0].(seen := now)
      ensures r.None? ==> hosts == old(hosts) && forall k :: 0 <= k < 5 ==> candidates[k] in hosts
      ensures r.Some? && !r.value.1 ==> exists i :: i in old(hosts) && Holds(old(hosts)[i], fp)
    {
      var existing := GetHostByFingerprint(fp);
      if existing.Some? {
        TouchKeeps(hosts, existing.value, now);
        hosts := Touch(hosts, existing.value, now);
        return Some((existing.value, false));
      }
      for attempt := 0 to 5
        invariant hosts == old(hosts) && forall k :: 0 <= k < attempt ==> candidates[k] in hosts
      {
        var candidate := candidates[attempt];
        if candidate !in hosts {
          InsertKeeps(hosts, candidate, name, fp, now);
          hosts := Insert(hosts, candidate, name, fp, now);
          return Some((candidate, true));
        }
      }
      r := None;
    }

    method ApproveHost(id: string, who: string) returns (found: bool)
      requires WellKept(hosts)
      modifies `hosts
      ensures hosts == Approve(old(hosts), id, who) && (found <==> id in old(hosts))
      ensures found ==> id in hosts && hosts[id] == old(hosts)[id].(status := Connected, approvedBy := who)
      ensures hosts - {id} == old(hosts) - {id} && (!found ==> id !in hosts)
      ensures WellKept(hosts) && KeepsConnected(old(hosts), hosts)
    {
      ApproveKeeps(hosts, id, who);
      found := id in hosts;
      if found { hosts := hosts[id := hosts[id].(status := Connected, approvedBy := who)]; }
    }

    method RejectPendingHost(id: string) returns (found: bool)
      requires WellKept(hosts)
      modifies `hosts
      ensures hosts == Reject(old(hosts), id) && (found <==> id in old(hosts) && old(hosts)[id].status.Pending?)
      ensures hosts == if found then old(hosts) - {id} else old(hosts)
      ensures WellKept(hosts) && KeepsConnected(old(hosts), hosts)
    {
      RejectKeeps(hosts, id);
      found := id in hosts && hosts[id].status.Pending?;
      if found { hosts := hosts - {id}; }
    }

    method PurgeStalePending(ttl: int) returns (n: nat)
      requires WellKept(hosts)
      modifies `hosts
      ensures hosts == PurgePending(old(hosts), now - ttl)
      ensures forall i :: i in hosts <==>
                i in old(hosts) && (old(hosts)[i].status.Connected? || old(hosts)[i].created + ttl >= now)
      ensures forall i :: i in hosts ==> hosts[i] == old(hosts)[i]
      ensures WellKept(hosts) && KeepsConnected(old(hosts), hosts)
      ensures hosts.Keys <= old(hosts).Keys && n == |old(hosts).Keys - hosts.Keys|
    {
      PurgeKeeps(hosts, now - ttl);
      var kept := PurgePending(hosts, now - ttl);
      n := |hosts.Keys - kept.Keys|;
      hosts := kept;
    }

    method TouchHost(id: string) returns (found: bool)
      requires WellKept(hosts)
      modifies `hosts
      ensures hosts == Touch(old(hosts), id, now) && (found <==> id in old(hosts))
      ensures hosts == if found then old(hosts)[id := old(hosts)[id].(seen := now)] else old(hosts)
      ensures WellKept(hosts) && KeepsConnected(old(hosts), hosts)
    {
      TouchKeeps(hosts, id, now);
      found := id in hosts;
      hosts := Touch(hosts, id, now);
    }

    method SetNextFingerprint(id: string, fp: string) returns (r: Announced)
      requires WellKept(hosts) && fp != ""
      modifies `hosts
      ensures (hosts, r) == Announce(old(hosts), id, fp)
      ensures r.InUse? <==> exists i :: i in old(hosts) && i != id && Holds(old(hosts)[i], fp)
      ensures r.Registered? <==> !r.InUse? && id in old(hosts) && old(hosts)[id].cert != fp
      ensures hosts == if r.Registered? then old(hosts)[id := old(hosts)[id].(next := fp)] else old(hosts)
      ensures WellKept(hosts) && KeepsConnected(old(hosts), hosts)
    {
      AnnounceKeeps(hosts, id, fp);
      if UsedElsewhere(hosts, id, fp) { return InUse; }
      if id in hosts && hosts[id].cert != fp {
        hosts := hosts[id := hosts[id].(next := fp)];
        return Registered;
      }
      r := NotFound;
    }

    method PromoteFingerprint(id: string, fp: string)
      requires WellKept(hosts)
      modifies `hosts
      ensures hosts == Promote(old(hosts), id, fp)
      ensures hosts == (if id in old(hosts) && fp != "" && old(hosts)[id].next == fp
                        then old(hosts)[id := old(hosts)[id].(cert := fp, next := "")] else old(hosts))
      ensures WellKept(hosts) && KeepsConnected(old(hosts), hosts)
    {
      PromoteKeeps(hosts, id, fp);
      if id in hosts && hosts[id].next == fp && fp != "" {
        hosts := hosts[id := hosts[id].(cert := fp, next := "")];
      }
    }

    method CreateEnrollmentToken(hash: string, ttl: int)
      requires hash !in tokens
      modifies `tokens
      ensures tokens == old(tokens)[hash := Token(now + ttl, false, "")]
    {
      tokens := tokens[hash := Token(now + ttl, false, "")];
    }

    method ConsumeEnrollmentToken(hash: string, host: string) returns (won: bool)
      modifies `tokens
      ensures (tokens, won) == Consume(old(tokens), hash, now, host)
      ensures won <==> Usable(old(tokens), hash, now)
      ensures won ==> hash in tokens && tokens[hash].used && tokens[hash].usedBy == host
      ensures won ==> forall later, other :: !Consume(tokens, hash, later, other).1
      ensures !won ==> tokens == old(tokens)
      ensures tokens.Keys == old(tokens).Keys && forall h :: h in tokens && h != hash ==> tokens[h] == old(tokens)[h]
    {
      won := hash in tokens && !tokens[hash].used && tokens[hash].expires > now;
      if won { tokens := tokens[hash := tokens[hash].(used := true, usedBy := host)]; }
    }

    method SetEnrollmentTokenHost(hash: string, host: string)
      modifies `tokens
      ensures tokens == if hash in old(tokens) then old(tokens)[hash := old(tokens)[hash].(usedBy := host)]
                        else old(tokens)
    {
      if hash in tokens { tokens := tokens[hash := tokens[hash].(usedBy := host)]; }
    }

    method PurgeEnrollmentTokens(week: int)
      modifies `tokens
      ensures tokens == PurgeTokens(old(tokens), now - week)
      ensures forall h :: h in tokens <==> h in old(tokens) && old(tokens)[h].expires + week >= now
      ensures forall h :: h in tokens ==> tokens[h] == old(tokens)[h]
    {
      tokens := PurgeTokens(tokens, now - week);
    }
  }
}
