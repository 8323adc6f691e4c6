/** Requests and replies over one agent's tunnel. */
module Tunnel {
  import opened Strings

  // Any number of callers, each advancing one step at a time, beside the read loop.
  // Looking a reply's channel up and sending to it are two steps, as in the source.

  datatype Message = Message(id: string, body: string)

  datatype Outcome = Reply(message: Message) | WriteFailed | TimedOut | Cancelled

  /** A call of sendWithin: its request id is in flight from registering to cleaning up. */
  datatype Sender =
    | Registered(id: string)
    | Waiting(id: string)
    | Leaving(id: string, outcome: Outcome)
    | Returned(id: string, outcome: Outcome)

  /** The read loop: between reads, holding a reply, or about to send it to a channel. */
  datatype Reader = Reading | Got(message: Message) | Sending(message: Message, channel: nat)

  /** Each sender has its own one-slot channel, named by the sender's number. */
  datatype State = State(
    pending: map<string, nat>,
    senders: map<nat, Sender>,
    slots: map<nat, Message>,
    reader: Reader,
    owner: map<string, nat>,     // every request id ever used, and by whom
    heard: set<Message>,         // every reply read so far
    read: multiset<string>,      // their request ids
    dropped: multiset<string>    // request ids of replies that found no channel
  )

  datatype Action =
    | Register(t: nat, id: string)
    | Write(t: nat, ok: bool)
    | Receive(t: nat)
    | TimeOut(t: nat)
    | Cancel(t: nat)
    | CleanUp(t: nat)
    | Read(message: Message)
    | LookUp
    | Send

  const START := State(map[], map[], map[], Reading, map[], {}, multiset{}, multiset{})

  /** sendWithin. Request ids are 64 random bits; a repeated one is left out. */
  function DoSender(s: State, a: Action): State {
    match a
    case Register(t, id) =>
      if t in s.senders || id in s.owner then s
      else s.(pending := s.pending[id := t], senders := s.senders[t := Registered(id)], owner := s.owner[id := t])
    case Write(t, ok) =>
      if t !in s.senders || !s.senders[t].Registered? then s
      else
        var id := s.senders[t].id;
        s.(senders := s.senders[t := if ok then Waiting(id) else Leaving(id, WriteFailed)])
    case Receive(t) =>
      if t !in s.senders || !s.senders[t].Waiting? || t !in s.slots then s
      else s.(senders := s.senders[t := Leaving(s.senders[t].id, Reply(s.slots[t]))], slots := s.slots - {t})
    case TimeOut(t) =>
      if t !in s.senders || !s.senders[t].Waiting? then s
      else s.(senders := s.senders[t := Leaving(s.senders[t].id, TimedOut)])
    case Cancel(t) =>
      if t !in s.senders || !s.senders[t].Waiting? then s
      else s.(senders := s.senders[t := Leaving(s.senders[t].id, Cancelled)])
    case CleanUp(t) =>
      if t !in s.senders || !s.senders[t].Leaving? then s
      else
        var id := s.senders[t].id;
        s.(senders := s.senders[t := Returned(id, s.senders[t].outcome)], pending := s.pending - {id})
    case _ => s
  }

  /** The read loop of tunnelHandler; a send to a full channel does not happen yet. */
  function DoReader(s: State, a: Action): State {
    match a
    case Read(m) =>
      if s.reader != Reading then s
      else s.(reader := Got(m), heard := s.heard + {m}, read := s.read + multiset{m.id})
    case LookUp =>
      if !s.reader.Got? then s
      else if s.reader.message.id in s.pending then
        s.(reader := Sending(s.reader.message, s.pending[s.reader.message.id]))
      else s.(reader := Reading, dropped := s.dropped + multiset{s.reader.message.id})
    case Send =>
      if !s.reader.Sending? || s.reader.channel in s.slots then s
      else s.(slots := s.slots[s.reader.channel := s.reader.message], reader := Reading)
    case _ => s
  }

  function Do(s: State, a: Action): State {
    if a.Read? || a.LookUp? || a.Send? then DoReader(s, a) else DoSender(s, a)
  }

  function Run(s: State, actions: seq<Action>): State
    decreases |actions|
  {
    if actions == [] then s else Run(Do(s, actions[0]), actions[1..])
  }

  // ---- what every step keeps

  predicate InFlight(s: State, t: nat) {
    t in s.senders && !s.senders[t].Returned?
  }

  /** Every sender owns its id alone, and the pending map holds exactly the ids in flight. */
  ghost predicate PendingExact(s: State) {
    && (forall t :: t in s.senders ==> s.senders[t].id in s.owner && s.owner[s.senders[t].id] == t)
    && (forall id :: id in s.owner ==> s.owner[id] in s.senders && s.senders[s.owner[id]].id == id)
    && (forall id :: id in s.pending <==> id in s.owner && InFlight(s, s.owner[id]))
    && (forall id :: id in s.pending ==> s.pending[id] == s.owner[id])
  }

  predicate Holds(s: State, t: nat, m: Message) {
    t in s.senders && s.senders[t].id == m.id && m in s.heard
  }

  predicate Answered(s: State, t: nat) {
    t in s.senders && (s.senders[t].Leaving? || s.senders[t].Returned?) && s.senders[t].outcome.Reply?
  }

  /** A reply only ever moves towards the sender of its own request. */
  ghost predicate RepliesRouted(s: State) {
    && (forall t :: t in s.slots ==> Holds(s, t, s.slots[t]))
    && (forall t :: Answered(s, t) ==> Holds(s, t, s.senders[t].outcome.message))
    && (s.reader.Got? ==> s.reader.message in s.heard)
    && (s.reader.Sending? ==> Holds(s, s.reader.channel, s.reader.message))
  }

  /** Replies to a request that are with the reader, in the sender's channel, or returned. */
  function InHand(s: State, id: string): nat {
    if s.reader != Reading && s.reader.message.id == id then 1 else 0
  }

  function Landed(s: State, id: string): nat {
    if id !in s.owner then 0
    else (if s.owner[id] in s.slots then 1 else 0) + (if Answered(s, s.owner[id]) then 1 else 0)
  }

  /** Every reply read is somewhere: no request in flight loses one. */
  ghost predicate Conserved(s: State) {
    forall id :: s.read[id] == s.dropped[id] + InHand(s, id) + Landed(s, id)
  }

  ghost predicate Sound(s: State) {
    PendingExact(s) && RepliesRouted(s) && Conserved(s)
  }

  lemma {:induction false} RegisterOwns(s: State, s': State, t: nat, id: string)
    requires PendingExact(s) && t !in s.senders && id !in s.owner
    requires s'.pending == s.pending[id := t] && s'.owner == s.owner[id := t]
    requires s'.senders == s.senders[t := Registered(id)]
    ensures forall u :: u in s'.senders ==> s'.senders[u].id in s'.owner && s'.owner[s'.senders[u].id] == u
    ensures forall i :: i in s'.owner ==> s'.owner[i] in s'.senders && s'.senders[s'.owner[i]].id == i
  {
  }

  lemma {:induction false} RegisterPends(s: State, s': State, t: nat, id: string)
    requires PendingExact(s) && t !in s.senders && id !in s.owner
    requires s'.pending == s.pending[id := t] && s'.owner == s.owner[id := t]
    requires s'.senders == s.senders[t := Registered(id)]
    ensures forall i :: i in s'.pending <==> i in s'.owner && InFlight(s', s'.owner[i])
    ensures forall i :: i in s'.pending ==> s'.pending[i] == s'.owner[i]
  {
    assert forall u :: InFlight(s', u) <==> InFlight(s, u) || u == t;
  }

  lemma {:induction false} RegisterExact(s: State, s': State, t: nat, id: string)
    requires PendingExact(s) && t !in s.senders && id !in s.owner
    requires s'.pending == s.pending[id := t] && s'.owner == s.owner[id := t]
    requires s'.senders == s.senders[t := Registered(id)]
    ensures PendingExact(s')
  {
    RegisterOwns(s, s', t, id);
    RegisterPends(s, s', t, id);
    hide InFlight;
  }

  lemma {:induction false} RegisterRouted(s: State, t: nat, id: string)
    requires RepliesRouted(s) && t !in s.senders && id !in s.owner
    ensures RepliesRouted(DoSender(s, Register(t, id)))
  {
    var s' := DoSender(s, Register(t, id));
    assert forall u, m :: Holds(s, u, m) ==> Holds(s', u, m);
    assert forall u :: Answered(s', u) ==> Answered(s, u);
  }

  /** A sender moves on with its request still in flight. */
  lemma {:induction false} MoveExact(s: State, s': State, t: nat, next: Sender)
    requires PendingExact(s) && InFlight(s, t) && next.id == s.senders[t].id && !next.Returned?
    requires s'.pending == s.pending && s'.owner == s.owner && s'.senders == s.senders[t := next]
    ensures PendingExact(s')
  {
    assert forall u :: InFlight(s', u) <==> InFlight(s, u);
  }

  lemma {:induction false} MoveRouted(s: State, s': State, t: nat, next: Sender)
    requires RepliesRouted(s) && t in s.senders && next.id == s.senders[t].id
    requires s'.heard == s.heard && s'.reader == s.reader && s'.senders == s.senders[t := next]
    requires s'.slots == s.slots || s'.slots == s.slots - {t}
    requires Answered(s', t) ==> Holds(s, t, next.outcome.message)
    ensures RepliesRouted(s')
  {
    assert forall u, m :: Holds(s, u, m) <==> Holds(s', u, m);
    assert forall u :: u != t ==> (Answered(s', u) <==> Answered(s, u));
  }

  lemma {:induction false} CleanUpExact(s: State, t: nat)
    requires PendingExact(s) && t in s.senders && s.senders[t].Leaving?
    ensures PendingExact(DoSender(s, CleanUp(t)))
  {
    var s' := DoSender(s, CleanUp(t));
    assert forall u :: InFlight(s', u) <==> InFlight(s, u) && u != t;
  }

  lemma {:induction false} ReceiveRouted(s: State, t: nat)
    requires RepliesRouted(s)
    ensures RepliesRouted(DoSender(s, Receive(t)))
  {
    var s' := DoSender(s, Receive(t));
    if s' != s { MoveRouted(s, s', t, s'.senders[t]); }
  }

  lemma {:induction false} SenderSound(s: State, a: Action)
    requires PendingExact(s) && RepliesRouted(s)
    ensures PendingExact(DoSender(s, a)) && RepliesRouted(DoSender(s, a))
  {
    hide PendingExact, RepliesRouted, Holds;
    var s' := DoSender(s, a);
    if s' != s {
      match a
      case Register(t, id) =>
        RegisterExact(s, s', t, id);
        RegisterRouted(s, t, id);
      case CleanUp(t) =>
        CleanUpExact(s, t);
        CleanUpRouted(s, t);
      case Write(t, ok) =>
        MoveExact(s, s', t, s'.senders[t]);
        MoveRouted(s, s', t, s'.senders[t]);
      case Receive(t) =>
        MoveExact(s, s', t, s'.senders[t]);
        ReceiveRouted(s, t);
      case TimeOut(t) =>
        MoveExact(s, s', t, s'.senders[t]);
        MoveRouted(s, s', t, s'.senders[t]);
      case Cancel(t) =>
        MoveExact(s, s', t, s'.senders[t]);
        MoveRouted(s, s', t, s'.senders[t]);
    }
  }

  lemma {:induction false} CleanUpRouted(s: State, t: nat)
    requires RepliesRouted(s)
    ensures RepliesRouted(DoSender(s, CleanUp(t)))
  {
    var s' := DoSender(s, CleanUp(t));
    if s' != s { MoveRouted(s, s', t, s'.senders[t]); }
  }

  /** What landed with a sender is not lost by its moving on. */
  lemma {:induction false} MoveLands(s: State, s': State, t: nat, next: Sender)
    requires PendingExact(s) && Conserved(s) && t in s.senders
    requires s' == s.(senders := s.senders[t := next], slots := s'.slots, pending := s'.pending)
    requires s'.slots == s.slots || s'.slots == s.slots - {t}
    requires (if t in s'.slots then 1 else 0) + (if Answered(s', t) then 1 else 0)
             == (if t in s.slots then 1 else 0) + (if Answered(s, t) then 1 else 0)
    ensures Conserved(s')
  {
    forall id ensures Landed(s', id) == Landed(s, id) && InHand(s', id) == InHand(s, id) {
      if id in s.owner && s.owner[id] != t {
        assert Answered(s', s.owner[id]) == Answered(s, s.owner[id]);
      }
    }
  }

  lemma {:induction false} RegisterConserves(s: State, t: nat, id: string)
    requires PendingExact(s) && RepliesRouted(s) && Conserved(s) && t !in s.senders && id !in s.owner
    ensures Conserved(DoSender(s, Register(t, id)))
  {
    var s' := DoSender(s, Register(t, id));
    assert forall u :: u in s.slots ==> u in s.senders;
    hide RepliesRouted;
    forall i ensures Landed(s', i) == Landed(s, i) && InHand(s', i) == InHand(s, i) {
      if i in s.owner { assert Answered(s', s.owner[i]) == Answered(s, s.owner[i]); }
    }
  }

  lemma {:induction false} SenderConserves(s: State, a: Action)
    requires PendingExact(s) && RepliesRouted(s) && Conserved(s)
    ensures Conserved(DoSender(s, a))
  {
    hide PendingExact, RepliesRouted, Conserved;
    var s' := DoSender(s, a);
    if s' != s {
      match a
      case Register(t, id) => RegisterConserves(s, t, id);
      case CleanUp(t) => MoveLands(s, s', t, s'.senders[t]);
      case Write(t, ok) => MoveLands(s, s', t, s'.senders[t]);
      case Receive(t) => MoveLands(s, s', t, s'.senders[t]);
      case TimeOut(t) => MoveLands(s, s', t, s'.senders[t]);
      case Cancel(t) => MoveLands(s, s', t, s'.senders[t]);
    }
  }

  lemma {:induction false} SameSenders(s: State, s': State)
    requires PendingExact(s) && s'.senders == s.senders && s'.owner == s.owner && s'.pending == s.pending
    ensures PendingExact(s')
  {
    assert forall t :: InFlight(s', t) == InFlight(s, t);
  }

  /** The reader does not touch the senders. */
  lemma {:induction false} ReaderExact(s: State, a: Action)
    requires PendingExact(s)
    ensures PendingExact(DoReader(s, a))
  {
    hide PendingExact;
    SameSenders(s, DoReader(s, a));
  }

  lemma {:induction false} LookUpRouted(s: State)
    requires PendingExact(s) && RepliesRouted(s)
    ensures RepliesRouted(DoReader(s, LookUp))
  {
    var s' := DoReader(s, LookUp);
    assert forall u, m :: Holds(s, u, m) ==> Holds(s', u, m);
    assert forall u :: Answered(s', u) == Answered(s, u);
    if s.reader.Got? && s.reader.message.id in s.pending {
      assert Holds(s, s.pending[s.reader.message.id], s.reader.message);
    }
  }

  lemma {:induction false} ReadRouted(s: State, a: Action)
    requires RepliesRouted(s) && (a.Read? || a.Send?)
    ensures RepliesRouted(DoReader(s, a))
  {
    var s' := DoReader(s, a);
    assert forall u, m :: Holds(s, u, m) ==> Holds(s', u, m);
    assert forall u :: Answered(s', u) == Answered(s, u);
  }

  lemma {:induction false} ReaderRouted(s: State, a: Action)
    requires PendingExact(s) && RepliesRouted(s)
    ensures PendingExact(DoReader(s, a)) && RepliesRouted(DoReader(s, a))
  {
    ReaderExact(s, a);
    if a.LookUp? {
      LookUpRouted(s);
    } else if a.Read? || a.Send? {
      ReadRouted(s, a);
    }
  }

  lemma {:induction false} ReadConserves(s: State, m: Message)
    requires Conserved(s)
    ensures Conserved(DoReader(s, Read(m)))
  {
    var s' := DoReader(s, Read(m));
    forall id ensures s'.read[id] == s'.dropped[id] + InHand(s', id) + Landed(s', id) {
      assert s.read[id] == s.dropped[id] + InHand(s, id) + Landed(s, id);
      assert Landed(s', id) == Landed(s, id);
    }
  }

  lemma {:induction false} SameLanded(s: State, s': State, id: string)
    requires s'.owner == s.owner && s'.slots == s.slots && s'.senders == s.senders
    ensures Landed(s', id) == Landed(s, id)
  {
  }

  lemma {:induction false} LookUpConserves(s: State)
    requires Conserved(s)
    ensures Conserved(DoReader(s, LookUp))
  {
    hide Landed;
    var s' := DoReader(s, LookUp);
    var gone := s.reader.Got? && s.reader.message.id !in s.pending;
    forall id ensures s'.read[id] == s'.dropped[id] + InHand(s', id) + Landed(s', id) {
      assert s.read[id] == s.dropped[id] + InHand(s, id) + Landed(s, id);
      SameLanded(s, s', id);
      if gone {
        assert s'.dropped[id] == s.dropped[id] + if id == s.reader.message.id then 1 else 0;
      }
    }
  }

  lemma {:induction false} SendConserves(s: State)
    requires PendingExact(s) && RepliesRouted(s) && Conserved(s)
    ensures Conserved(DoReader(s, Send))
  {
    var s' := DoReader(s, Send);
    if s' != s {
      var t, m := s.reader.channel, s.reader.message;
      assert Holds(s, t, m) && s.owner[m.id] == t;
      forall id ensures s'.read[id] == s'.dropped[id] + InHand(s', id) + Landed(s', id) {
        assert s.read[id] == s.dropped[id] + InHand(s, id) + Landed(s, id);
        if id in s.owner {
          assert Answered(s', s.owner[id]) == Answered(s, s.owner[id]);
          assert s.owner[id] == t <==> id == m.id;
        }
      }
    }
  }

  lemma {:induction false} ReaderConserves(s: State, a: Action)
    requires PendingExact(s) && RepliesRouted(s) && Conserved(s)
    ensures Conserved(DoReader(s, a))
  {
    match a
    case Read(m) => ReadConserves(s, m);
    case LookUp => LookUpConserves(s);
    case Send => SendConserves(s);
    case _ =>
  }

  lemma {:induction false} StepSound(s: State, a: Action)
    requires Sound(s)
    ensures Sound(Do(s, a))
  {
    SenderSound(s, a);
    SenderConserves(s, a);
    ReaderRouted(s, a);
    ReaderConserves(s, a);
  }

  lemma {:induction false} RunSound(s: State, actions: seq<Action>)
    requires Sound(s)
    ensures Sound(Run(s, actions))
    decreases |actions|
  {
    if actions != [] {
      StepSound(s, actions[0]);
      RunSound(Do(s, actions[0]), actions[1..]);
    }
  }

  // ---- the promises

  /** The read loop cannot go on until somebody empties the channel. */
  predicate Blocked(s: State) {
    s.reader.Sending? && s.reader.channel in s.slots
  }

  /** The agent replied at most once to every request. */
  ghost predicate RepliedOnce(s: State) {
    forall id :: s.read[id] <= 1
  }

  predicate BothAnswered(s: State, t: nat, u: nat) {
    Answered(s, t) && Answered(s, u)
  }

  predicate SameRequest(s: State, t: nat, u: nat)
    requires BothAnswered(s, t, u)
  {
    s.senders[t].outcome.message.id == s.senders[u].outcome.message.id
  }

  /** In every interleaving of senders, timeouts, cancellations and the reader:
      the pending map holds exactly the ids in flight, a sender only ever returns a
      reply the agent sent to its own request, two senders never return replies to the
      same request, and unless the agent replied twice the reader is never blocked. */
  lemma {:induction false} EveryRun(actions: seq<Action>)
    ensures var s := Run(START, actions);
            && (forall id :: id in s.pending <==> exists t :: InFlight(s, t) && s.senders[t].id == id)
            && (forall t :: Answered(s, t) ==>
                  s.senders[t].outcome.message.id == s.senders[t].id && s.senders[t].outcome.message in s.heard)
            && (forall t, u :: BothAnswered(s, t, u) && SameRequest(s, t, u) ==> t == u)
            && (RepliedOnce(s) ==> !Blocked(s))
  {
    RunSound(START, actions);
    var s := Run(START, actions);
    forall id ensures id in s.pending <==> exists t :: InFlight(s, t) && s.senders[t].id == id {
      if id in s.pending { assert InFlight(s, s.owner[id]); }
    }
    if Blocked(s) {
      var id := s.reader.message.id;
      assert s.read[id] >= InHand(s, id) + Landed(s, id);
      assert s.read[id] >= 2;
    }
  }

  /** While a caller waits, a reply to it that was read is either with the reader or in
      the caller's channel: from registering on, no step drops one. */
  lemma {:induction false} ReplyOnItsWay(actions: seq<Action>, t: nat, a: Action)
    requires var s := Run(START, actions); t in s.senders && s.senders[t].Waiting?
    ensures var s := Run(START, actions);
            var id := s.senders[t].id;
            && (s.read[id] > s.dropped[id] ==> t in s.slots || (s.reader != Reading && s.reader.message.id == id))
            && Do(s, a).dropped[id] == s.dropped[id]
  {
    RunSound(START, actions);
    OnItsWay(Run(START, actions), t, a);
  }

  lemma {:induction false} OnItsWay(s: State, t: nat, a: Action)
    requires Sound(s) && t in s.senders && s.senders[t].Waiting?
    ensures var id := s.senders[t].id;
            && (s.read[id] > s.dropped[id] ==> t in s.slots || (s.reader != Reading && s.reader.message.id == id))
            && Do(s, a).dropped[id] == s.dropped[id]
  {
    var id := s.senders[t].id;
    assert s.owner[id] == t && InFlight(s, t) && id in s.pending;
    assert s.read[id] == s.dropped[id] + InHand(s, id) + Landed(s, id);
  }

  /** Which step gives a call its outcome. */
  predicate Gives(a: Action, t: nat, outcome: Outcome) {
    match outcome
    case Reply(_) => a == Receive(t)
    case WriteFailed => a == Write(t, false)
    case TimedOut => a == TimeOut(t)
    case Cancelled => a == Cancel(t)
  }

  predicate Ended(s: State, t: nat) {
    t in s.senders && (s.senders[t].Leaving? || s.senders[t].Returned?)
  }

  lemma {:induction false} OutcomeStep(s: State, a: Action, t: nat)
    requires Ended(Do(s, a), t)
    ensures || (Ended(s, t) && s.senders[t].outcome == Do(s, a).senders[t].outcome)
            || Gives(a, t, Do(s, a).senders[t].outcome)
  {
  }

  /** In every run, a call ends as timed out, cancelled, not written or answered only by a
      step that is just that: its outcome is never another one's. */
  lemma {:induction false} OutcomeIsGiven(s: State, actions: seq<Action>, t: nat)
    requires Ended(Run(s, actions), t) && !Ended(s, t)
    ensures exists a :: a in actions && Gives(a, t, Run(s, actions).senders[t].outcome)
    decreases |actions|
  {
    hide Do, Gives;
    var next := Do(s, actions[0]);
    if Ended(next, t) {
      OutcomeStep(s, actions[0], t);
      OutcomeStays(next, actions[1..], t);
    } else {
      OutcomeIsGiven(next, actions[1..], t);
      var a :| a in actions[1..] && Gives(a, t, Run(s, actions).senders[t].outcome);
      assert a in actions;
    }
  }

  lemma {:induction false} EndedStays(s: State, a: Action, t: nat)
    requires Ended(s, t)
    ensures Ended(Do(s, a), t) && Do(s, a).senders[t].outcome == s.senders[t].outcome
  {
  }

  /** Once it has one, a call's outcome is for good. */
  lemma {:induction false} OutcomeStays(s: State, actions: seq<Action>, t: nat)
    requires Ended(s, t)
    ensures Ended(Run(s, actions), t) && Run(s, actions).senders[t].outcome == s.senders[t].outcome
    decreases |actions|
  {
    hide Do;
    if actions != [] {
      EndedStays(s, actions[0], t);
      OutcomeStays(Do(s, actions[0]), actions[1..], t);
    }
  }

  /** Blocked with nobody left to receive. */
  predicate Stuck(s: State) {
    Blocked(s) && s.reader.channel in s.senders
      && (s.senders[s.reader.channel].Leaving? || s.senders[s.reader.channel].Returned?)
  }

  lemma {:induction false} StuckForever(s: State, actions: seq<Action>)
    requires Stuck(s)
    ensures Stuck(Run(s, actions)) && Run(s, actions).reader == s.reader
    decreases |actions|
  {
    if actions != [] {
      StuckForever(Do(s, actions[0]), actions[1..]);
    }
  }

  /** The replies the read loop takes off the wire in a run, in order. */
  function Taken(s: State, actions: seq<Action>): seq<Message>
    decreases |actions|
  {
    if actions == [] then [] else TakenBy(s, actions[0]) + Taken(Do(s, actions[0]), actions[1..])
  }

  function TakenBy(s: State, a: Action): seq<Message> {
    if a.Read? && s.reader.Reading? then [a.message] else []
  }

  function Ids(replies: seq<Message>): multiset<string> {
    if replies == [] then multiset{} else multiset{replies[0].id} + Ids(replies[1..])
  }

  predicate AnsweredTwice(replies: seq<Message>) {
    exists i, j | 0 <= i < j < |replies| :: replies[i].id == replies[j].id
  }

  lemma {:induction false} InIds(replies: seq<Message>, id: string)
    ensures Ids(replies)[id] >= 1 <==> exists i :: 0 <= i < |replies| && replies[i].id == id
    decreases |replies|
  {
    if replies != [] {
      var tail := replies[1..];
      InIds(tail, id);
      assert forall i :: 0 <= i < |tail| ==> tail[i] == replies[i + 1];
      if i :| 1 <= i < |replies| && replies[i].id == id { assert tail[i - 1].id == id; }
    }
  }

  lemma {:induction false} TwiceCounts(replies: seq<Message>, i: nat, j: nat)
    requires i < j < |replies| && replies[i].id == replies[j].id
    ensures Ids(replies)[replies[i].id] >= 2
    decreases |replies|
  {
    var tail := replies[1..];
    assert tail[j - 1] == replies[j];
    if i == 0 {
      InIds(tail, replies[0].id);
    } else {
      assert tail[i - 1] == replies[i];
      TwiceCounts(tail, i - 1, j - 1);
    }
  }

  lemma {:induction false} CountedTwice(replies: seq<Message>, id: string)
    requires Ids(replies)[id] >= 2
    ensures AnsweredTwice(replies)
    decreases |replies|
  {
    var tail := replies[1..];
    assert forall i :: 0 <= i < |tail| ==> tail[i] == replies[i + 1];
    if Ids(tail)[id] >= 2 {
      CountedTwice(tail, id);
      var i, j :| 0 <= i < j < |tail| && tail[i].id == tail[j].id;
      assert replies[i + 1].id == replies[j + 1].id;
    } else {
      InIds(tail, id);
      var i :| 0 <= i < |tail| && tail[i].id == id;
      assert replies[0].id == replies[i + 1].id;
    }
  }

  lemma {:induction false} TwiceIsTwo(replies: seq<Message>)
    ensures AnsweredTwice(replies) <==> exists id :: Ids(replies)[id] >= 2
  {
    hide Ids;
    if i, j :| 0 <= i < j < |replies| && replies[i].id == replies[j].id { TwiceCounts(replies, i, j); }
    if id :| Ids(replies)[id] >= 2 { CountedTwice(replies, id); }
  }

  lemma {:induction false} ReadBy(s: State, a: Action)
    ensures Do(s, a).read == if TakenBy(s, a) == [] then s.read else s.read + multiset{TakenBy(s, a)[0].id}
  {
    hide DoSender;
    if !(a.Read? || a.LookUp? || a.Send?) { SenderReads(s, a); }
  }

  lemma {:induction false} SenderReads(s: State, a: Action)
    ensures DoSender(s, a).read == s.read
  {
  }

  lemma {:induction false} IdsCons(m: Message, later: seq<Message>)
    ensures Ids([m] + later) == multiset{m.id} + Ids(later)
  {
    assert ([m] + later)[1..] == later;
  }

  lemma {:induction false} ReadByStep(s: State, a: Action, later: seq<Message>)
    ensures Do(s, a).read + Ids(later) == s.read + Ids(TakenBy(s, a) + later)
  {
    hide Do, Ids;
    ReadBy(s, a);
    if TakenBy(s, a) == [] {
      assert TakenBy(s, a) + later == later;
    } else {
      IdsCons(a.message, later);
    }
  }

  lemma {:induction false} ReadIsTaken(s: State, actions: seq<Action>)
    ensures Run(s, actions).read == s.read + Ids(Taken(s, actions))
    decreases |actions|
  {
    hide Do, TakenBy, Ids;
    if actions == [] {
      assert Ids([]) == multiset{} by { NoIds(); }
    } else {
      ReadIsTaken(Do(s, actions[0]), actions[1..]);
      ReadByStep(s, actions[0], Taken(Do(s, actions[0]), actions[1..]));
    }
  }

  lemma {:induction false} NoIds()
    ensures Ids([]) == multiset{}
  {
  }

  lemma {:induction false} First(s: State, a: Action, rest: seq<Action>)
    ensures Run(s, [a] + rest) == Run(Do(s, a), rest) && Taken(s, [a] + rest) == TakenBy(s, a) + Taken(Do(s, a), rest)
  {
    assert ([a] + rest)[1..] == rest;
  }

  /** Whenever a caller waits with a reply in its channel and the read loop is between
      reads, one more reply to that request can stop the loop for good: the wait times
      out while it is about to be sent. */
  lemma {:induction false} OneMoreStops(s: State, t: nat, m: Message) returns (actions: seq<Action>)
    requires PendingExact(s) && s.reader.Reading? && t in s.slots && t in s.senders && s.senders[t] == Waiting(m.id)
    ensures Stuck(Run(s, actions)) && Taken(s, actions) == [m]
  {
    hide Run, Taken;
    assert InFlight(s, t) && s.owner[m.id] == t;
    var s1 := Do(s, Read(m));
    var s2 := Do(s1, LookUp);
    actions := [Read(m)] + ([LookUp] + ([TimeOut(t)] + []));
    First(s, Read(m), [LookUp] + ([TimeOut(t)] + []));
    First(s1, LookUp, [TimeOut(t)] + []);
    First(s2, TimeOut(t), []);
    Nothing(Do(s2, TimeOut(t)));
  }

  lemma {:induction false} Nothing(s: State)
    ensures Run(s, []) == s && Taken(s, []) == []
  {
  }

  /** One caller waits, for its first reply or with it in the channel. */
  ghost predicate OneWaits(s: State, id: string, full: bool) {
    && s.reader.Reading? && s.senders == map[0 := Waiting(id)] && s.owner == map[id := 0] && s.pending == map[id := 0]
    && (0 in s.slots <==> full)
  }

  /** One reply from the wire to its channel, or dropped. */
  function Delivered(s: State, m: Message): State {
    Do(Do(Do(s, Read(m)), LookUp), Send)
  }

  lemma {:induction false} StillWaits(s: State, id: string, full: bool, m: Message)
    requires OneWaits(s, id, full) && (m.id == id ==> !full)
    ensures OneWaits(Delivered(s, m), id, full || m.id == id)
  {
  }

  lemma {:induction false} DeliveredFirst(s: State, m: Message, rest: seq<Action>)
    requires s.reader.Reading?
    ensures var actions := [Read(m)] + ([LookUp] + ([Send] + rest));
            Run(s, actions) == Run(Delivered(s, m), rest) && Taken(s, actions) == [m] + Taken(Delivered(s, m), rest)
  {
    hide Run, Taken, Do;
    var s1 := Do(s, Read(m));
    First(s, Read(m), [LookUp] + ([Send] + rest));
    First(s1, LookUp, [Send] + rest);
    First(Do(s1, LookUp), Send, rest);
  }

  lemma {:induction false} CanStop(s: State, id: string, full: bool, replies: seq<Message>)
        returns (actions: seq<Action>)
    requires OneWaits(s, id, full) && Ids(replies)[id] >= if full then 1 else 2
    ensures Stuck(Run(s, actions)) && Taken(s, actions) <= replies
    decreases |replies|
  {
    hide Run, Taken, Stuck, Delivered;
    var m := replies[0];
    assert replies == [m] + replies[1..];
    if m.id == id && full {
      actions := OneMoreStops(s, 0, m);
    } else {
      StillWaits(s, id, full, m);
      var rest := CanStop(Delivered(s, m), id, full || m.id == id, replies[1..]);
      actions := [Read(m)] + ([LookUp] + ([Send] + rest));
      DeliveredFirst(s, m, rest);
    }
  }

  /** The read loop takes some of these replies, in order, and stops for good. */
  ghost predicate Stops(actions: seq<Action>, replies: seq<Message>) {
    Taken(START, actions) <= replies && Stuck(Run(START, actions))
  }

  lemma {:induction false} SomeScheduleStops(replies: seq<Message>, id: string) returns (actions: seq<Action>)
    requires Ids(replies)[id] >= 2
    ensures Stops(actions, replies)
  {
    hide Run, Taken, Stuck, Ids;
    var s1 := Do(START, Register(0, id));
    var s2 := Do(s1, Write(0, true));
    assert OneWaits(s2, id, false);
    var rest := CanStop(s2, id, false, replies);
    actions := [Register(0, id)] + ([Write(0, true)] + rest);
    First(START, Register(0, id), [Write(0, true)] + rest);
    First(s1, Write(0, true), rest);
    assert Taken(START, actions) == [] + ([] + Taken(s2, rest));
  }

  /** What an agent replies can stop the read loop for good, on some schedule, exactly if
      it answers some request twice. */
  lemma {:induction false} TwoRepliesStopTheReader(replies: seq<Message>)
    ensures (exists actions :: Stops(actions, replies)) <==> AnsweredTwice(replies)
  {
    hide Run, Taken, Stuck, Ids, AnsweredTwice;
    forall actions | Stops(actions, replies) ensures AnsweredTwice(replies) {
      StopsTwice(actions, replies);
    }
    if AnsweredTwice(replies) {
      TwiceIsTwo(replies);
      var id :| Ids(replies)[id] >= 2;
      var actions := SomeScheduleStops(replies, id);
    }
  }

  lemma {:induction false} StopsTwice(actions: seq<Action>, replies: seq<Message>)
    requires Stops(actions, replies)
    ensures AnsweredTwice(replies)
  {
    hide Run, Taken, Ids;
    EveryRun(actions);
    ReadIsTaken(START, actions);
    TwiceIsTwo(Taken(START, actions));
    var i, j :| 0 <= i < j < |Taken(START, actions)| && Taken(START, actions)[i].id == Taken(START, actions)[j].id;
    assert replies[i].id == replies[j].id;
  }

  // ---- the one live connection per host

  datatype Event = Opened(host: string, conn: nat) | Closed(host: string, conn: nat)

  function After(conns: map<string, nat>, e: Event): map<string, nat> {
    match e
    case Opened(h, c) => conns[h := c]
    case Closed(h, c) => if h in conns && conns[h] == c then conns - {h} else conns
  }

  function AfterAll(events: seq<Event>): map<string, nat> {
    if events == [] then map[] else After(AfterAll(events[..|events| - 1]), events[|events| - 1])
  }

  predicate IsRegistered(conns: map<string, nat>, host: string, conn: nat) {
    host in conns && conns[host] == conn
  }

  /** Another connection of the host opened, or this one's handler ended. */
  predicate Replaces(e: Event, host: string, conn: nat) {
    e.host == host && (e.Opened? || e.conn == conn)
  }

  /** The connection opened at i is the host's newest, and its handler still runs. */
  ghost predicate OpenedLast(events: seq<Event>, i: nat, host: string, conn: nat) {
    && i < |events| && events[i] == Opened(host, conn)
    && forall j :: i < j < |events| ==> !Replaces(events[j], host, conn)
  }

  lemma {:induction false} OpenedLastStep(before: seq<Event>, e: Event, i: nat, host: string, conn: nat)
    ensures OpenedLast(before + [e], i, host, conn)
            <==> (if i == |before| then e == Opened(host, conn)
                  else OpenedLast(before, i, host, conn) && !Replaces(e, host, conn))
  {
    var events := before + [e];
    if i < |before| {
      assert events[i] == before[i] && events[|before|] == e;
      assert forall j :: i < j < |before| ==> events[j] == before[j];
      assert forall j :: i < j < |before| ==> (Replaces(events[j], host, conn) <==> Replaces(before[j], host, conn));
    }
  }

  /** Whatever order handlers register and deregister in, a host's entry is its newest
      connection, until that very connection's handler ends. */
  lemma {:induction false} NewestSurvives(events: seq<Event>, host: string, conn: nat)
    ensures IsRegistered(AfterAll(events), host, conn) <==> exists i: nat :: OpenedLast(events, i, host, conn)
    decreases |events|
  {
    if events != [] {
      var n := |events| - 1;
      var before, e := events[..n], events[n];
      NewestSurvives(before, host, conn);
      forall i: nat ensures OpenedLast(events, i, host, conn) <==>
          if i == n then e == Opened(host, conn) else OpenedLast(before, i, host, conn) && !Replaces(e, host, conn) {
        OpenedLastStep(before, e, i, host, conn);
        assert events == before + [e];
      }
      if e == Opened(host, conn) { assert OpenedLast(events, n, host, conn); }
      if IsRegistered(AfterAll(before), host, conn) && !Replaces(e, host, conn) {
        var i: nat :| OpenedLast(before, i, host, conn);
        assert OpenedLast(events, i, host, conn);
      }
    }
  }

  /** tunnelRegistry, one method per locked section. */
  class Registry {
    var conns: map<string, nat>

    constructor ()
      ensures conns == AfterAll([])
    {
      conns := map[];
    }

    method Set(host: string, conn: nat)
      modifies this
      ensures conns == After(old(conns), Opened(host, conn))
    {
      conns := conns[host := conn];
    }

    method Remove(host: string, conn: nat)
      modifies this
      ensures conns == After(old(conns), Closed(host, conn))
      ensures !IsRegistered(conns, host, conn)
      ensures forall h, c :: IsRegistered(conns, h, c) <==> IsRegistered(old(conns), h, c) && !(h == host && c == conn)
    {
      if host in conns && conns[host] == conn {
        conns := conns - {host};
      }
    }

    method Get(host: string) returns (conn: Option<nat>)
      ensures conn == if host in conns then Some(conns[host]) else None
    {
      if host in conns {
        conn := Some(conns[host]);
      } else {
        conn := None;
      }
    }
  }
}
