/** The deployments table as a queue per host. */
module DeploymentQueue {
  import opened Strings

  // Any number of claimers, whose SELECT and UPDATE are separate steps, and of deletions,
  // whose guard and cascade are.

  datatype Act = Up | Down

  datatype Status = Queued | Running | Succeeded | Failed

  /** A row, in rowid order. Its id stands for the random one: rows are numbered as they
      are enqueued. */
  datatype Row = Row(id: nat, stack: string, host: string, action: Act, status: Status)

  // ---- what each statement reads or does

  /** SELECT ... WHERE host_id = ? AND status = 'queued' ORDER BY rowid ASC LIMIT 1. */
  function Oldest(rows: seq<Row>, host: string): (k: nat)
    ensures k <= |rows|
    ensures k < |rows| ==> rows[k].host == host && rows[k].status.Queued?
    ensures forall i :: 0 <= i < k ==> !(rows[i].host == host && rows[i].status.Queued?)
  {
    if rows == [] || (rows[0].host == host && rows[0].status.Queued?) then 0 else 1 + Oldest(rows[1..], host)
  }

  /** SELECT ... WHERE stack_id = ? ORDER BY rowid DESC LIMIT 1. */
  function Latest(rows: seq<Row>, stack: string): (r: Option<Row>)
    ensures r.None? ==> forall i :: 0 <= i < |rows| ==> rows[i].stack != stack
    ensures r.Some? ==> exists i :: 0 <= i < |rows| && rows[i] == r.value && r.value.stack == stack
                                    && forall j :: i < j < |rows| ==> rows[j].stack != stack
  {
    if rows == [] then None
    else
      var n := |rows| - 1;
      if rows[n].stack == stack then Some(rows[n]) else Latest(rows[..n], stack)
  }

  function SetStatus(rows: seq<Row>, id: nat, status: Status): (r: seq<Row>)
    ensures |r| == |rows|
    ensures forall i :: 0 <= i < |rows| ==> r[i] == if rows[i].id == id then rows[i].(status := status) else rows[i]
  {
    seq(|rows|, i requires 0 <= i < |rows| => if rows[i].id == id then rows[i].(status := status) else rows[i])
  }

  function Without(rows: seq<Row>, stack: string): (r: seq<Row>)
    ensures forall x :: x in r <==> x in rows && x.stack != stack
  {
    if rows == [] then []
    else if rows[0].stack == stack then Without(rows[1..], stack)
    else [rows[0]] + Without(rows[1..], stack)
  }

  /** deleteStackHandler goes on: what it read of the latest deployment does not stop it. */
  predicate GuardAllows(latest: Option<Row>) {
    latest.None?
    || !(latest.value.status.Queued? || latest.value.status.Running?
        || (latest.value.action.Up? && latest.value.status.Succeeded?))
  }

  /** The k-th row is the stack's latest. */
  ghost predicate LastOf(rows: seq<Row>, stack: string, k: int) {
    0 <= k < |rows| && rows[k].stack == stack && forall j :: k < j < |rows| ==> rows[j].stack != stack
  }

  /** A deployment behind which a stack may go: it failed, or it took the stack down. */
  predicate Over(r: Row) {
    r.status.Failed? || (r.status.Succeeded? && r.action.Down?)
  }

  lemma {:induction false} LatestIs(rows: seq<Row>, stack: string)
    ensures Latest(rows, stack).Some? ==> exists k :: LastOf(rows, stack, k) && Latest(rows, stack) == Some(rows[k])
    ensures forall k :: LastOf(rows, stack, k) ==> Latest(rows, stack) == Some(rows[k])
  {
    hide Latest;
    var latest := Latest(rows, stack);
    if latest.None? {
      assert forall k :: !LastOf(rows, stack, k);
    } else {
      var i :| 0 <= i < |rows| && rows[i] == latest.value && latest.value.stack == stack
               && forall j :: i < j < |rows| ==> rows[j].stack != stack;
      assert LastOf(rows, stack, i);
      assert forall k :: LastOf(rows, stack, k) ==> k == i;
    }
  }

  /** What the guard asks, on the table itself. */
  lemma {:induction false} GuardMeans(rows: seq<Row>, stack: string)
    ensures GuardAllows(Latest(rows, stack)) <==> forall k :: LastOf(rows, stack, k) ==> Over(rows[k])
  {
    LatestIs(rows, stack);
    hide Latest;
    var latest := Latest(rows, stack);
    if latest.Some? {
      var k :| LastOf(rows, stack, k) && latest == Some(rows[k]);
    }
  }

  // ---- the shape of the queue

  /** Rows carry growing ids, and a stack's deployments all target its one host. */
  ghost predicate WellNumbered(rows: seq<Row>, next: nat) {
    && (forall i, j :: 0 <= i < j < |rows| ==> rows[i].id < rows[j].id)
    && (forall i :: 0 <= i < |rows| ==> rows[i].id < next)
  }

  ghost predicate OneHost(rows: seq<Row>) {
    forall x, y :: x in rows && y in rows && x.stack == y.stack ==> x.host == y.host
  }

  /** No row of a host is claimed or finished behind one that is still queued. */
  ghost predicate Fifo(rows: seq<Row>) {
    forall x, y :: x in rows && y in rows && x.host == y.host && x.id < y.id && x.status.Queued? ==> y.status.Queued?
  }

  /** No queued row of x's host was enqueued before x. */
  ghost predicate NextUp(rows: seq<Row>, x: Row) {
    forall y :: y in rows && y.host == x.host && y.status.Queued? ==> x.id <= y.id
  }

  lemma {:induction false} OldestIsNextUp(rows: seq<Row>, next: nat, host: string)
    requires WellNumbered(rows, next) && Oldest(rows, host) < |rows|
    ensures NextUp(rows, rows[Oldest(rows, host)])
  {
    var k := Oldest(rows, host);
    forall y | y in rows && y.host == host && y.status.Queued? ensures rows[k].id <= y.id {
      var i :| 0 <= i < |rows| && rows[i] == y;
    }
  }

  /** Why reading the latest row is enough: once a stack's latest deployment is neither
      queued nor running, none of its deployments is queued. */
  lemma {:induction false} LatestDecides(rows: seq<Row>, next: nat, stack: string)
    requires WellNumbered(rows, next) && Fifo(rows) && OneHost(rows) && GuardAllows(Latest(rows, stack))
    ensures forall x :: x in rows && x.stack == stack ==> !x.status.Queued?
  {
    var latest := Latest(rows, stack);
    forall x | x in rows && x.stack == stack ensures !x.status.Queued? {
      var i :| 0 <= i < |rows| && rows[i] == x;
      var k :| 0 <= k < |rows| && rows[k] == latest.value && latest.value.stack == stack
        && forall j :: k < j < |rows| ==> rows[j].stack != stack;
      assert rows[k] in rows;
    }
  }

  /** Reporting a row finished keeps the shape exactly when no queued row of its host
      comes before it: it was claimed, or it is next. The handler does not check that. */
  lemma {:induction false} CompletingKeepsFifo(rows: seq<Row>, next: nat, k: nat, status: Status)
    requires Fifo(rows) && WellNumbered(rows, next) && k < |rows| && (status.Succeeded? || status.Failed?)
    ensures Fifo(rows[k := rows[k].(status := status)]) <==> !rows[k].status.Queued? || NextUp(rows, rows[k])
  {
    var after := rows[k := rows[k].(status := status)];
    UpdateMembers(rows, next, k, status);
    if rows[k].status.Queued? && !NextUp(rows, rows[k]) {
      var y :| y in rows && y.host == rows[k].host && y.status.Queued? && y.id < rows[k].id;
      assert y in after && after[k] in after;
    }
  }

  lemma {:induction false} UpdateMembers(rows: seq<Row>, next: nat, k: nat, status: Status)
    requires WellNumbered(rows, next) && k < |rows|
    ensures var after := rows[k := rows[k].(status := status)];
            WellNumbered(after, next) && forall x :: x in after <==> x == after[k] || (x in rows && x.id != rows[k].id)
  {
    var after := rows[k := rows[k].(status := status)];
    forall x ensures x in after <==> x == after[k] || (x in rows && x.id != rows[k].id) {
      if x in rows && x.id != rows[k].id {
        var i :| 0 <= i < |rows| && rows[i] == x;
        assert after[i] == x;
      }
      if x in after {
        var i :| 0 <= i < |after| && after[i] == x;
        assert i != k ==> rows[i] == x && rows[i].id != rows[k].id;
      }
    }
  }

  /** What goes wrong when a report comes for a row nobody claimed: the guard lets a stack
      go while an older teardown of it is still queued. */
  lemma {:induction false} UnclaimedReportDefeatsGuard()
    ensures var rows := [Row(0, "s", "h", Down, Queued), Row(1, "s", "h", Down, Queued)];
            var after := SetStatus(rows, 1, Succeeded);
            Fifo(rows) && OneHost(rows) && GuardAllows(Latest(after, "s")) && after[0].status.Queued?
              && after[0].action.Down?
  {
    var rows := [Row(0, "s", "h", Down, Queued), Row(1, "s", "h", Down, Queued)];
    var after := SetStatus(rows, 1, Succeeded);
    assert after[1] == rows[1].(status := Succeeded);
    assert Latest(after, "s") == Some(after[1]);
  }

  // ---- runs

  /** A pending delete: the stack, and how many deployments had ever been enqueued when
      the guard read the latest one (0 if that read failed: the handler then goes on). */
  datatype Delete = Delete(stack: string, mark: nat)

  datatype Dropped = Dropped(id: nat, mark: nat)

  datatype State = State(
    rows: seq<Row>,
    enqueued: seq<Row>,          // every deployment ever, as enqueued
    claims: seq<Row>,            // every deployment claimed, in claim order
    selected: map<nat, nat>,     // per claimer, the id its SELECT found
    deletes: map<nat, Delete>,
    dropped: set<Dropped>        // queued rows a delete took with it
  )

  datatype Action =
    | Enqueue(stack: string, host: string, act: Act)
    | Select(t: nat, host: string)
    | Update(t: nat)
    | Complete(id: nat, ok: bool)
    | Guard(t: nat, stack: string, readable: bool)
    | Cascade(t: nat)

  const START := State([], [], [], map[], map[], {})

  predicate HasHost(rows: seq<Row>, stack: string, host: string) {
    forall i :: 0 <= i < |rows| && rows[i].stack == stack ==> rows[i].host == host
  }

  function PlaceOf(rows: seq<Row>, id: nat): (k: nat)
    ensures k <= |rows| && (k < |rows| ==> rows[k].id == id)
    ensures forall i :: 0 <= i < k ==> rows[i].id != id
  {
    if rows == [] || rows[0].id == id then 0 else 1 + PlaceOf(rows[1..], id)
  }

  function QueuedOf(rows: seq<Row>, stack: string): set<nat> {
    set x | x in rows && x.stack == stack && x.status.Queued? :: x.id
  }

  function DoUpdate(s: State, t: nat): State {
    if t !in s.selected then s
    else
      var k := PlaceOf(s.rows, s.selected[t]);
      if k < |s.rows| && s.rows[k].status.Queued? then
        s.(rows := s.rows[k := s.rows[k].(status := Running)], claims := s.claims + [s.rows[k]],
           selected := s.selected - {t})
      else s.(selected := s.selected - {t})
  }

  function DoCascade(s: State, t: nat): State {
    if t !in s.deletes then s
    else
      var d := s.deletes[t];
      s.(rows := Without(s.rows, d.stack), deletes := s.deletes - {t},
         dropped := s.dropped + set id | id in QueuedOf(s.rows, d.stack) :: Dropped(id, d.mark))
  }

  /** Agents report only deployments they claimed; a stack keeps its host. */
  function Do(s: State, a: Action): State {
    match a
    case Enqueue(stack, host, act) =>
      if !HasHost(s.rows, stack, host) then s
      else
        var r := Row(|s.enqueued|, stack, host, act, Queued);
        s.(rows := s.rows + [r], enqueued := s.enqueued + [r])
    case Select(t, host) =>
      var k := Oldest(s.rows, host);
      if t in s.selected || k == |s.rows| then s else s.(selected := s.selected[t := s.rows[k].id])
    case Update(t) => DoUpdate(s, t)
    case Complete(id, ok) =>
      var k := PlaceOf(s.rows, id);
      if k == |s.rows| || s.rows[k].status.Queued? then s
      else s.(rows := s.rows[k := s.rows[k].(status := if ok then Succeeded else Failed)])
    case Guard(t, stack, readable) =>
      if t in s.deletes || (readable && !GuardAllows(Latest(s.rows, stack))) then s
      else s.(deletes := s.deletes[t := Delete(stack, if readable then |s.enqueued| else 0)])
    case Cascade(t) => DoCascade(s, t)
  }

  function Run(s: State, actions: seq<Action>): State
    decreases |actions|
  {
    if actions == [] then s else Run(Do(s, actions[0]), actions[1..])
  }

  ghost predicate Shaped(rows: seq<Row>, next: nat) {
    WellNumbered(rows, next) && OneHost(rows) && Fifo(rows)
  }

  /** What a SELECT found is still the next of its host, if it is queued at all. */
  ghost predicate SelectionsNextUp(rows: seq<Row>, selected: map<nat, nat>, next: nat) {
    && (forall t :: t in selected ==> selected[t] < next)
    && (forall t, x :: t in selected && x in rows && x.id == selected[t] && x.status.Queued? ==> NextUp(rows, x))
  }

  /** Behind a guard that passed, a queued row of the stack was enqueued after its read. */
  ghost predicate GuardsHold(rows: seq<Row>, deletes: map<nat, Delete>, next: nat) {
    && (forall t :: t in deletes ==> deletes[t].mark <= next)
    && (forall t, x :: t in deletes && x in rows && x.stack == deletes[t].stack && x.status.Queued? ==>
        x.id >= deletes[t].mark)
  }

  ghost predicate DroppedLater(dropped: set<Dropped>) {
    forall d :: d in dropped ==> d.id >= d.mark
  }

  ghost predicate Sound(s: State) {
    && Shaped(s.rows, |s.enqueued|)
    && SelectionsNextUp(s.rows, s.selected, |s.enqueued|)
    && GuardsHold(s.rows, s.deletes, |s.enqueued|)
    && DroppedLater(s.dropped)
  }

  lemma {:induction false} AppendShaped(rows: seq<Row>, r: Row)
    requires WellNumbered(rows, r.id) && OneHost(rows) && Fifo(rows) && HasHost(rows, r.stack, r.host)
        && r.status.Queued?
    ensures WellNumbered(rows + [r], r.id + 1) && OneHost(rows + [r]) && Fifo(rows + [r])
    ensures forall x :: x in rows && NextUp(rows, x) ==> NextUp(rows + [r], x)
  {
    NewRow(rows, r);
    FifoAppend(rows, r);
  }

  lemma {:induction false} NewRow(rows: seq<Row>, r: Row)
    requires WellNumbered(rows, r.id) && HasHost(rows, r.stack, r.host)
    ensures WellNumbered(rows + [r], r.id + 1)
    ensures forall x :: x in rows ==> x.id < r.id && (x.stack == r.stack ==> x.host == r.host)
  {
    forall x | x in rows ensures x.id < r.id && (x.stack == r.stack ==> x.host == r.host) {
      var i :| 0 <= i < |rows| && rows[i] == x;
    }
  }

  lemma {:induction false} FifoAppend(rows: seq<Row>, r: Row)
    requires OneHost(rows) && Fifo(rows) && r.status.Queued?
    requires forall x :: x in rows ==> x.id < r.id && (x.stack == r.stack ==> x.host == r.host)
    ensures OneHost(rows + [r]) && Fifo(rows + [r])
    ensures forall x :: x in rows && NextUp(rows, x) ==> NextUp(rows + [r], x)
  {
    assert forall x :: x in rows + [r] <==> x in rows || x == r;
  }

  /** A row that leaves the queue, with no queued one of its host before it. */
  lemma {:induction false} LeaveShaped(rows: seq<Row>, next: nat, k: nat, status: Status)
    requires WellNumbered(rows, next) && OneHost(rows) && Fifo(rows) && k < |rows| && !status.Queued?
    requires rows[k].status.Queued? ==> NextUp(rows, rows[k])
    ensures var after := rows[k := rows[k].(status := status)];
            && WellNumbered(after, next) && OneHost(after) && Fifo(after)
            && forall x :: x in after && x.status.Queued? ==> x in rows && (NextUp(rows, x) ==> NextUp(after, x))
  {
    UpdateMembers(rows, next, k, status);
    assert rows[k] in rows;
  }

  lemma {:induction false} SmallestStays(first: Row, tail: seq<Row>, left: seq<Row>, next: nat)
    requires first.id < next && WellNumbered(left, next) && forall x :: x in left ==> x in tail
    requires forall i :: 0 <= i < |tail| ==> first.id < tail[i].id
    ensures WellNumbered([first] + left, next)
  {
    forall i | 0 <= i < |left| ensures first.id < left[i].id {
      assert left[i] in tail;
    }
  }

  lemma {:induction false} WithoutShaped(rows: seq<Row>, next: nat, stack: string)
    requires WellNumbered(rows, next)
    ensures WellNumbered(Without(rows, stack), next)
    decreases |rows|
  {
    if rows != [] {
      var tail := rows[1..];
      assert forall i :: 0 <= i < |tail| ==> tail[i] == rows[i + 1];
      WithoutShaped(tail, next, stack);
      SmallestStays(rows[0], tail, Without(tail, stack), next);
    }
  }

  // ---- every step keeps the shape

  lemma {:induction false} AppendKeeps(rows: seq<Row>, r: Row, selected: map<nat, nat>, deletes: map<nat, Delete>)
    requires Shaped(rows, r.id) && HasHost(rows, r.stack, r.host) && r.status.Queued?
    requires SelectionsNextUp(rows, selected, r.id) && GuardsHold(rows, deletes, r.id)
    ensures Shaped(rows + [r], r.id + 1)
    ensures SelectionsNextUp(rows + [r], selected, r.id + 1) && GuardsHold(rows + [r], deletes, r.id + 1)
  {
    AppendShaped(rows, r);
  }

  lemma {:induction false} LeaveKeeps(rows: seq<Row>, next: nat, k: nat, status: Status, selected: map<nat, nat>,
        deletes: map<nat, Delete>)
    requires Shaped(rows, next) && k < |rows| && !status.Queued? && (rows[k].status.Queued? ==> NextUp(rows, rows[k]))
    requires SelectionsNextUp(rows, selected, next) && GuardsHold(rows, deletes, next)
    ensures var after := rows[k := rows[k].(status := status)];
            Shaped(after, next) && SelectionsNextUp(after, selected, next) && GuardsHold(after, deletes, next)
  {
    LeaveShaped(rows, next, k, status);
  }

  lemma {:induction false} FewerShaped(rows: seq<Row>, after: seq<Row>, next: nat)
    requires Shaped(rows, next) && WellNumbered(after, next) && forall x :: x in after ==> x in rows
    ensures Shaped(after, next)
  {
  }

  lemma {:induction false} FewerKeep(rows: seq<Row>, after: seq<Row>, next: nat, selected: map<nat, nat>,
        deletes: map<nat, Delete>)
    requires SelectionsNextUp(rows, selected, next) && GuardsHold(rows, deletes, next)
    requires forall x :: x in after ==> x in rows
    ensures SelectionsNextUp(after, selected, next) && GuardsHold(after, deletes, next)
  {
    assert forall x :: x in after && NextUp(rows, x) ==> NextUp(after, x);
  }

  lemma {:induction false} WithoutKeeps(rows: seq<Row>, next: nat, stack: string, selected: map<nat, nat>,
        deletes: map<nat, Delete>)
    requires Shaped(rows, next) && SelectionsNextUp(rows, selected, next) && GuardsHold(rows, deletes, next)
    ensures var after := Without(rows, stack);
            Shaped(after, next) && SelectionsNextUp(after, selected, next) && GuardsHold(after, deletes, next)
  {
    WithoutShaped(rows, next, stack);
    FewerShaped(rows, Without(rows, stack), next);
    FewerKeep(rows, Without(rows, stack), next, selected, deletes);
  }

  lemma {:induction false} UpdateSound(s: State, t: nat)
    requires Sound(s)
    ensures Sound(DoUpdate(s, t))
  {
    if t in s.selected {
      var k := PlaceOf(s.rows, s.selected[t]);
      if k < |s.rows| && s.rows[k].status.Queued? {
        assert s.rows[k] in s.rows;
        LeaveKeeps(s.rows, |s.enqueued|, k, Running, s.selected, s.deletes);
      }
    }
  }

  lemma {:induction false} CascadeSound(s: State, t: nat)
    requires Sound(s)
    ensures Sound(DoCascade(s, t))
  {
    if t in s.deletes {
      WithoutKeeps(s.rows, |s.enqueued|, s.deletes[t].stack, s.selected, s.deletes);
    }
  }

  lemma {:induction false} GuardSound(s: State, t: nat, stack: string, readable: bool)
    requires Sound(s)
    ensures Sound(Do(s, Guard(t, stack, readable)))
  {
    if readable && GuardAllows(Latest(s.rows, stack)) {
      LatestDecides(s.rows, |s.enqueued|, stack);
    }
  }

  lemma {:induction false} StepSound(s: State, a: Action)
    requires Sound(s)
    ensures Sound(Do(s, a))
  {
    hide Shaped, SelectionsNextUp, GuardsHold, DroppedLater, NextUp, Oldest, Latest, PlaceOf, GuardAllows;
    match a
    case Enqueue(stack, host, act) =>
      if HasHost(s.rows, stack, host) {
        AppendKeeps(s.rows, Row(|s.enqueued|, stack, host, act, Queued), s.selected, s.deletes);
      }
    case Select(t, host) =>
      if t !in s.selected && Oldest(s.rows, host) < |s.rows| {
        SelectSound(s, t, host);
      }
    case Update(t) => UpdateSound(s, t);
    case Complete(id, ok) =>
      var k := PlaceOf(s.rows, id);
      if k < |s.rows| && !s.rows[k].status.Queued? {
        LeaveKeeps(s.rows, |s.enqueued|, k, if ok then Succeeded else Failed, s.selected, s.deletes);
      }
    case Guard(t, stack, readable) => GuardSound(s, t, stack, readable);
    case Cascade(t) => CascadeSound(s, t);
  }

  lemma {:induction false} SelectSound(s: State, t: nat, host: string)
    requires Sound(s) && t !in s.selected && Oldest(s.rows, host) < |s.rows|
    ensures Sound(s.(selected := s.selected[t := s.rows[Oldest(s.rows, host)].id]))
  {
    var k := Oldest(s.rows, host);
    OldestIsNextUp(s.rows, |s.enqueued|, host);
    forall x | x in s.rows && x.id == s.rows[k].id ensures x == s.rows[k] {
      var i :| 0 <= i < |s.rows| && s.rows[i] == x;
    }
  }

  // ---- claims follow the queue

  /** The ids a table lists for a host. */
  function IdsOf(rows: seq<Row>, host: string): seq<nat> {
    if rows == [] then []
    else (if rows[0].host == host then [rows[0].id] else []) + IdsOf(rows[1..], host)
  }

  function WaitingOf(rows: seq<Row>, host: string): seq<nat> {
    if rows == [] then []
    else (if rows[0].host == host && rows[0].status.Queued? then [rows[0].id] else []) + WaitingOf(rows[1..], host)
  }

  function Except(ids: seq<nat>, gone: set<nat>): seq<nat> {
    if ids == [] then [] else (if ids[0] in gone then [] else [ids[0]]) + Except(ids[1..], gone)
  }

  function Gone(dropped: set<Dropped>): set<nat> {
    set d | d in dropped :: d.id
  }

  /** What was claimed for a host, then what still waits, is what was enqueued for it, in
      that order, but for what deletes dropped. */
  ghost predicate InOrder(s: State, host: string) {
    IdsOf(s.claims, host) + WaitingOf(s.rows, host) == Except(IdsOf(s.enqueued, host), Gone(s.dropped))
  }

  /** Ids are given in order; dropped and claimed ones were given; none claimed is queued. */
  ghost predicate Recorded(rows: seq<Row>, enqueued: seq<Row>, claims: seq<Row>, dropped: set<Dropped>) {
    && (forall i :: 0 <= i < |enqueued| ==> enqueued[i].id == i)
    && (forall x :: x in rows ==> x.id < |enqueued| && enqueued[x.id].stack == x.stack)
    && (forall d :: d in dropped ==> d.id < |enqueued|)
    && (forall c :: c in claims ==> c.id < |enqueued|)
    && (forall x, c :: x in rows && x.status.Queued? && c in claims ==> x.id != c.id)
  }

  lemma {:induction false} IdsAppend(a: seq<Row>, b: seq<Row>, host: string)
    ensures IdsOf(a + b, host) == IdsOf(a, host) + IdsOf(b, host)
    decreases |a|
  {
    if a == [] {
      assert a + b == b;
    } else {
      var first := if a[0].host == host then [a[0].id] else [];
      assert (a + b)[1..] == a[1..] + b;
      IdsAppend(a[1..], b, host);
      assert first + (IdsOf(a[1..], host) + IdsOf(b, host)) == (first + IdsOf(a[1..], host)) + IdsOf(b, host);
    }
  }

  lemma {:induction false} WaitingAppend(a: seq<Row>, b: seq<Row>, host: string)
    ensures WaitingOf(a + b, host) == WaitingOf(a, host) + WaitingOf(b, host)
    decreases |a|
  {
    if a == [] {
      assert a + b == b;
    } else {
      var first := if a[0].host == host && a[0].status.Queued? then [a[0].id] else [];
      assert (a + b)[1..] == a[1..] + b;
      WaitingAppend(a[1..], b, host);
      assert first + (WaitingOf(a[1..], host) + WaitingOf(b, host))
        == (first + WaitingOf(a[1..], host)) + WaitingOf(b, host);
    }
  }

  lemma {:induction false} ExceptAppend(a: seq<nat>, b: seq<nat>, gone: set<nat>)
    ensures Except(a + b, gone) == Except(a, gone) + Except(b, gone)
    decreases |a|
  {
    if a == [] {
      assert a + b == b;
    } else {
      assert (a + b)[1..] == a[1..] + b;
      ExceptAppend(a[1..], b, gone);
    }
  }

  lemma {:induction false} ExceptTwice(ids: seq<nat>, gone: set<nat>, more: set<nat>)
    ensures Except(Except(ids, gone), more) == Except(ids, gone + more)
    decreases |ids|
  {
    if ids != [] {
      ExceptTwice(ids[1..], gone, more);
      ExceptAppend(if ids[0] in gone then [] else [ids[0]], Except(ids[1..], gone), more);
    }
  }

  lemma {:induction false} ExceptNone(ids: seq<nat>, gone: set<nat>)
    requires forall i :: i in ids ==> i !in gone
    ensures Except(ids, gone) == ids
    decreases |ids|
  {
    if ids != [] { ExceptNone(ids[1..], gone); }
  }

  lemma {:induction false} IdsAreMembers(rows: seq<Row>, host: string)
    ensures forall i :: i in IdsOf(rows, host) ==> exists x :: x in rows && x.id == i
    decreases |rows|
  {
    if rows != [] {
      IdsAreMembers(rows[1..], host);
      forall i | i in IdsOf(rows, host) ensures exists x :: x in rows && x.id == i {
        if i in IdsOf(rows[1..], host) {
          var x :| x in rows[1..] && x.id == i;
          assert x in rows;
        } else {
          assert rows[0] in rows;
        }
      }
    }
  }

  /** Claiming the oldest queued row of a host takes the first one waiting. */
  lemma {:induction false} ClaimTakesFirst(rows: seq<Row>, k: nat, host: string)
    requires k < |rows| && rows[k].status.Queued?
    requires forall i :: 0 <= i < k ==> !(rows[i].host == rows[k].host && rows[i].status.Queued?)
    ensures var after := rows[k := rows[k].(status := Running)];
            WaitingOf(rows, host) == (if rows[k].host == host then [rows[k].id] else []) + WaitingOf(after, host)
    decreases |rows|
  {
    var after := rows[k := rows[k].(status := Running)];
    if k == 0 {
      assert after[1..] == rows[1..];
    } else {
      assert after[1..] == rows[1..][k - 1 := rows[k].(status := Running)];
      ClaimTakesFirst(rows[1..], k - 1, host);
    }
  }

  lemma {:induction false} FinishKeepsWaiting(rows: seq<Row>, k: nat, status: Status, host: string)
    requires k < |rows| && !rows[k].status.Queued? && !status.Queued?
    ensures WaitingOf(rows[k := rows[k].(status := status)], host) == WaitingOf(rows, host)
    decreases |rows|
  {
    var after := rows[k := rows[k].(status := status)];
    if k == 0 {
      assert after[1..] == rows[1..];
    } else {
      assert after[1..] == rows[1..][k - 1 := rows[k].(status := status)];
      FinishKeepsWaiting(rows[1..], k - 1, status, host);
    }
  }

  /** Deleting a stack's rows takes its queued ids out of every queue. */
  lemma {:induction false} CascadeWaiting(rows: seq<Row>, stack: string, host: string, gone: set<nat>)
    requires forall x :: x in rows && x.status.Queued? ==> (x.id in gone <==> x.stack == stack)
    ensures WaitingOf(Without(rows, stack), host) == Except(WaitingOf(rows, host), gone)
    decreases |rows|
  {
    if rows != [] {
      assert rows[0] in rows;
      CascadeWaiting(rows[1..], stack, host, gone);
      var first := if rows[0].host == host && rows[0].status.Queued? then [rows[0].id] else [];
      ExceptAppend(first, WaitingOf(rows[1..], host), gone);
      WaitingAppend([rows[0]], Without(rows[1..], stack), host);
    }
  }

  /** What every step keeps beside Sound. */
  ghost predicate Faithful(s: State, host: string) {
    Recorded(s.rows, s.enqueued, s.claims, s.dropped) && InOrder(s, host)
  }

  lemma {:induction false} EnqueueInOrder(claims: seq<Row>, rows: seq<Row>, enqueued: seq<Row>, r: Row,
        gone: set<nat>, host: string)
    requires IdsOf(claims, host) + WaitingOf(rows, host) == Except(IdsOf(enqueued, host), gone)
    requires r.id !in gone && r.status.Queued?
    ensures IdsOf(claims, host) + WaitingOf(rows + [r], host) == Except(IdsOf(enqueued + [r], host), gone)
  {
    var added := if r.host == host then [r.id] else [];
    WaitingAppend(rows, [r], host);
    IdsAppend(enqueued, [r], host);
    assert IdsOf([r], host) == WaitingOf([r], host) == added by { assert [r][1..] == []; }
    ExceptAppend(IdsOf(enqueued, host), added, gone);
    ExceptNone(added, gone);
    assert (IdsOf(claims, host) + WaitingOf(rows, host)) + added
      == IdsOf(claims, host) + (WaitingOf(rows, host) + added);
  }

  lemma {:induction false} EnqueueFaithful(s: State, stack: string, h: string, act: Act, host: string)
    requires Faithful(s, host)
    ensures Faithful(Do(s, Enqueue(stack, h, act)), host)
  {
    if HasHost(s.rows, stack, h) {
      EnqueueInOrder(s.claims, s.rows, s.enqueued, Row(|s.enqueued|, stack, h, act, Queued), Gone(s.dropped), host);
    }
  }

  lemma {:induction false} ClaimInOrder(claims: seq<Row>, rows: seq<Row>, k: nat, host: string)
    requires k < |rows| && rows[k].status.Queued?
    requires forall i :: 0 <= i < k ==> !(rows[i].host == rows[k].host && rows[i].status.Queued?)
    ensures IdsOf(claims + [rows[k]], host) + WaitingOf(rows[k := rows[k].(status := Running)], host)
            == IdsOf(claims, host) + WaitingOf(rows, host)
  {
    var taken := if rows[k].host == host then [rows[k].id] else [];
    var after := rows[k := rows[k].(status := Running)];
    ClaimTakesFirst(rows, k, host);
    IdsAppend(claims, [rows[k]], host);
    assert IdsOf([rows[k]], host) == taken by { assert [rows[k]][1..] == []; }
    assert (IdsOf(claims, host) + taken) + WaitingOf(after, host)
      == IdsOf(claims, host) + (taken + WaitingOf(after, host));
  }

  lemma {:induction false} ClaimRecorded(s: State, k: nat)
    requires Recorded(s.rows, s.enqueued, s.claims, s.dropped) && WellNumbered(s.rows, |s.enqueued|) && k < |s.rows|
    ensures Recorded(s.rows[k := s.rows[k].(status := Running)], s.enqueued, s.claims + [s.rows[k]], s.dropped)
  {
    UpdateMembers(s.rows, |s.enqueued|, k, Running);
    assert s.rows[k] in s.rows;
  }

  lemma {:induction false} FirstOfHost(s: State, t: nat, k: nat)
    requires SelectionsNextUp(s.rows, s.selected, |s.enqueued|) && WellNumbered(s.rows, |s.enqueued|)
    requires t in s.selected && k < |s.rows| && s.rows[k].id == s.selected[t] && s.rows[k].status.Queued?
    ensures forall i :: 0 <= i < k ==> !(s.rows[i].host == s.rows[k].host && s.rows[i].status.Queued?)
  {
    assert s.rows[k] in s.rows;
    forall i | 0 <= i < k ensures !(s.rows[i].host == s.rows[k].host && s.rows[i].status.Queued?) {
      assert s.rows[i] in s.rows;
    }
  }

  lemma {:induction false} ClaimFaithful(s: State, t: nat, host: string)
    requires Sound(s) && Faithful(s, host)
    ensures Faithful(DoUpdate(s, t), host)
  {
    hide Recorded, IdsOf, WaitingOf, Except, PlaceOf, GuardsHold, DroppedLater, Fifo, OneHost;
    if t in s.selected {
      var k := PlaceOf(s.rows, s.selected[t]);
      if k < |s.rows| && s.rows[k].status.Queued? {
        FirstOfHost(s, t, k);
        ClaimInOrder(s.claims, s.rows, k, host);
        ClaimRecorded(s, k);
      }
    }
  }

  lemma {:induction false} FinishInOrder(s: State, k: nat, status: Status, host: string)
    requires Sound(s) && Faithful(s, host) && k < |s.rows| && !s.rows[k].status.Queued? && !status.Queued?
    ensures Faithful(s.(rows := s.rows[k := s.rows[k].(status := status)]), host)
  {
    FinishKeepsWaiting(s.rows, k, status, host);
    UpdateMembers(s.rows, |s.enqueued|, k, status);
    assert s.rows[k] in s.rows;
  }

  lemma {:induction false} CascadeInOrder(s: State, t: nat, host: string)
    requires Sound(s) && Faithful(s, host)
    ensures Faithful(DoCascade(s, t), host)
  {
    if t in s.deletes {
      var d := s.deletes[t];
      var gone := QueuedOf(s.rows, d.stack);
      var s' := DoCascade(s, t);
      forall x | x in s.rows && x.status.Queued? && x.id in gone ensures x.stack == d.stack {
        assert s.enqueued[x.id].stack == x.stack;
      }
      CascadeWaiting(s.rows, d.stack, host, gone);
      assert Gone(s'.dropped) == Gone(s.dropped) + gone by {
        forall id | id in gone ensures id in Gone(s'.dropped) { assert Dropped(id, d.mark) in s'.dropped; }
      }
      ExceptTwice(IdsOf(s.enqueued, host), Gone(s.dropped), gone);
      ExceptAppend(IdsOf(s.claims, host), WaitingOf(s.rows, host), gone);
      IdsAreMembers(s.claims, host);
      ExceptNone(IdsOf(s.claims, host), gone);
    }
  }

  lemma {:induction false} StepFaithful(s: State, a: Action, host: string)
    requires Sound(s) && Faithful(s, host)
    ensures Faithful(Do(s, a), host)
  {
    hide Sound, Recorded, IdsOf, WaitingOf, Except, Oldest, Latest, PlaceOf, GuardAllows;
    match a
    case Enqueue(stack, h, act) => EnqueueFaithful(s, stack, h, act, host);
    case Select(t, h) =>
    case Update(t) => ClaimFaithful(s, t, host);
    case Complete(id, ok) =>
      var k := PlaceOf(s.rows, id);
      if k < |s.rows| && !s.rows[k].status.Queued? {
        FinishInOrder(s, k, if ok then Succeeded else Failed, host);
      }
    case Guard(t, stack, readable) =>
    case Cascade(t) => CascadeInOrder(s, t, host);
  }

  lemma {:induction false} RunSound(s: State, actions: seq<Action>, host: string)
    requires Sound(s) && Faithful(s, host)
    ensures Sound(Run(s, actions)) && Faithful(Run(s, actions), host)
    decreases |actions|
  {
    if actions != [] {
      StepSound(s, actions[0]);
      StepFaithful(s, actions[0], host);
      RunSound(Do(s, actions[0]), actions[1..], host);
    }
  }

  ghost predicate Increasing(ids: seq<nat>) {
    forall i, j :: 0 <= i < j < |ids| ==> ids[i] < ids[j]
  }

  lemma {:induction false} ExceptIncreases(ids: seq<nat>, gone: set<nat>)
    requires Increasing(ids)
    ensures Increasing(Except(ids, gone)) && forall i :: i in Except(ids, gone) ==> i in ids
    decreases |ids|
  {
    if ids != [] {
      assert Increasing(ids[1..]);
      ExceptIncreases(ids[1..], gone);
      SmallestFirst(ids[0], Except(ids[1..], gone));
    }
  }

  lemma {:induction false} SmallestFirst(first: nat, rest: seq<nat>)
    requires Increasing(rest)
    ensures (forall i :: i in rest ==> first < i) ==> Increasing([first] + rest)
  {
    assert forall j :: 0 <= j < |rest| ==> rest[j] in rest;
  }

  lemma {:induction false} EnqueuedIncrease(rows: seq<Row>, host: string, low: nat)
    requires forall i :: 0 <= i < |rows| ==> rows[i].id == low + i
    ensures Increasing(IdsOf(rows, host)) && forall i :: i in IdsOf(rows, host) ==> i >= low
    decreases |rows|
  {
    if rows != [] {
      EnqueuedIncrease(rows[1..], host, low + 1);
      SmallestFirst(low, IdsOf(rows[1..], host));
    }
  }

  /** In every run, interleaved claimers included, the deployments claimed for a host are
      a prefix of its queue but for what deletes dropped, in queue order and each once;
      and a delete drops a queued deployment only if it was enqueued after its guard read. */
  lemma {:induction false} EveryRun(actions: seq<Action>, host: string)
    ensures var s := Run(START, actions);
            && IdsOf(s.claims, host) <= Except(IdsOf(s.enqueued, host), Gone(s.dropped))
            && Increasing(IdsOf(s.claims, host))
            && (forall d :: d in s.dropped ==> d.mark <= d.id < |s.enqueued|)
  {
    RunSound(START, actions, host);
    var s := Run(START, actions);
    EnqueuedIncrease(s.enqueued, host, 0);
    ExceptIncreases(IdsOf(s.enqueued, host), Gone(s.dropped));
    var claimed, waiting := IdsOf(s.claims, host), WaitingOf(s.rows, host);
    assert forall i :: 0 <= i < |claimed| ==> (claimed + waiting)[i] == claimed[i];
  }

  lemma {:induction false} ExceptIs(ids: seq<nat>, gone: set<nat>)
    ensures forall i :: i in Except(ids, gone) <==> i in ids && i !in gone
    decreases |ids|
  {
    if ids != [] {
      ExceptIs(ids[1..], gone);
      assert forall i :: i in ids <==> i == ids[0] || i in ids[1..];
    }
  }

  lemma {:induction false} WaitingIs(rows: seq<Row>, host: string)
    ensures forall i :: i in WaitingOf(rows, host) <==>
        exists x :: x in rows && x.id == i && x.host == host && x.status.Queued?
    decreases |rows|
  {
    if rows != [] {
      WaitingIs(rows[1..], host);
      assert forall x :: x in rows <==> x == rows[0] || x in rows[1..];
    }
  }

  lemma {:induction false} HasId(rows: seq<Row>, x: Row)
    requires x in rows
    ensures x.id in IdsOf(rows, x.host)
    decreases |rows|
  {
    if x != rows[0] { HasId(rows[1..], x); }
  }

  /** A deployment that was neither dropped nor claimed is still queued. */
  lemma {:induction false} StillQueued(s: State, i: nat)
    requires i < |s.enqueued| && Faithful(s, s.enqueued[i].host)
    requires i !in Gone(s.dropped) && forall c :: c in s.claims ==> c.id != i
    ensures i in QueuedOf(s.rows, s.enqueued[i].stack)
  {
    var host := s.enqueued[i].host;
    HasId(s.enqueued, s.enqueued[i]);
    ExceptIs(IdsOf(s.enqueued, host), Gone(s.dropped));
    IdsAreMembers(s.claims, host);
    assert i in IdsOf(s.claims, host) + WaitingOf(s.rows, host);
    WaitingIs(s.rows, host);
    var x :| x in s.rows && x.id == i && x.host == host && x.status.Queued?;
    assert x.stack == s.enqueued[i].stack;
  }

  /** A queued deployment was not dropped. */
  lemma {:induction false} QueuedNotGone(s: State, x: Row)
    requires Faithful(s, x.host) && x in s.rows && x.status.Queued?
    ensures x.id !in Gone(s.dropped)
  {
    WaitingIs(s.rows, x.host);
    ExceptIs(IdsOf(s.enqueued, x.host), Gone(s.dropped));
    assert x.id in IdsOf(s.claims, x.host) + WaitingOf(s.rows, x.host);
  }

  /** The deployment was dropped by an earlier delete, or claimed. */
  ghost predicate Settled(s: State, i: nat) {
    i in Gone(s.dropped) || exists c :: c in s.claims && c.id == i
  }

  /** A queued deployment of a stack about to be deleted was enqueued since the guard
      read, and the delete will drop it. */
  lemma {:induction false} QueuedIsDropped(s: State, t: nat, x: Row)
    requires Sound(s) && Faithful(s, x.host) && t in s.deletes && x in s.rows && x.stack == s.deletes[t].stack
        && x.status.Queued?
    ensures s.deletes[t].mark <= x.id < |s.enqueued| && s.enqueued[x.id].stack == x.stack && !Settled(s, x.id)
    ensures DoCascade(s, t).dropped != s.dropped
  {
    hide Shaped, SelectionsNextUp, InOrder, DroppedLater, Without;
    QueuedNotGone(s, x);
    var d := Dropped(x.id, s.deletes[t].mark);
    assert x.id in QueuedOf(s.rows, x.stack);
    assert d in DoCascade(s, t).dropped;
    assert d in s.dropped ==> x.id in Gone(s.dropped);
  }

  /** So an allowed delete takes no unclaimed teardown with it exactly if every deployment
      enqueued for the stack since its guard read the latest one, or ever if it could not
      read that, has been claimed or dropped by then. */
  lemma {:induction false} DeleteDropsNothing(actions: seq<Action>, t: nat)
    requires t in Run(START, actions).deletes
    ensures var s := Run(START, actions); var d := s.deletes[t];
            && (QueuedOf(s.rows, d.stack) == {} <==>
                  forall i :: d.mark <= i < |s.enqueued| && s.enqueued[i].stack == d.stack ==> Settled(s, i))
            && (DoCascade(s, t).dropped == s.dropped <==> QueuedOf(s.rows, d.stack) == {})
  {
    hide Do, Run, Sound, Faithful, Settled, QueuedOf, DoCascade;
    var s := Run(START, actions);
    RunFaithful(actions);
    if QueuedOf(s.rows, s.deletes[t].stack) == {} {
      NoneIsDropped(s, t);
    } else {
      SomeIsDropped(s, t);
    }
  }

  lemma {:induction false} RunFaithful(actions: seq<Action>)
    ensures Sound(Run(START, actions)) && forall host :: Faithful(Run(START, actions), host)
  {
    hide Do, Run, Sound, Faithful;
    RunSound(START, actions, "");
    forall host ensures Faithful(Run(START, actions), host) {
      RunSound(START, actions, host);
    }
  }

  lemma {:induction false} NoneIsDropped(s: State, t: nat)
    requires t in s.deletes && QueuedOf(s.rows, s.deletes[t].stack) == {} && forall host :: Faithful(s, host)
    ensures forall i :: s.deletes[t].mark <= i < |s.enqueued| && s.enqueued[i].stack == s.deletes[t].stack ==>
              Settled(s, i)
    ensures DoCascade(s, t).dropped == s.dropped
  {
    hide Faithful, Settled, QueuedOf, Without;
    forall i | 0 <= i < |s.enqueued| && s.enqueued[i].stack == s.deletes[t].stack && !Settled(s, i) ensures false {
      NotSettled(s, i);
    }
  }

  lemma {:induction false} SomeIsDropped(s: State, t: nat)
    requires t in s.deletes && QueuedOf(s.rows, s.deletes[t].stack) != {}
    requires Sound(s) && forall host :: Faithful(s, host)
    ensures exists i :: && s.deletes[t].mark <= i < |s.enqueued| && s.enqueued[i].stack == s.deletes[t].stack
                        && !Settled(s, i)
    ensures DoCascade(s, t).dropped != s.dropped
  {
    hide Faithful, Sound, Settled, DoCascade;
    var id :| id in QueuedOf(s.rows, s.deletes[t].stack);
    var x :| x in s.rows && x.stack == s.deletes[t].stack && x.status.Queued? && x.id == id;
    QueuedIsDropped(s, t, x);
  }

  lemma {:induction false} NotSettled(s: State, i: nat)
    requires i < |s.enqueued| && Faithful(s, s.enqueued[i].host) && !Settled(s, i)
    ensures QueuedOf(s.rows, s.enqueued[i].stack) != {}
  {
    StillQueued(s, i);
  }

  /** The guard step that a pending delete of t rests on was action n. */
  ghost predicate GuardedAt(actions: seq<Action>, n: int, t: nat, d: Delete) {
    && 0 <= n < |actions| && actions[n].Guard? && actions[n].t == t && actions[n].stack == d.stack
    && var s := Run(START, actions[..n]);
       (if actions[n].readable
        then d.mark == |s.enqueued| && forall k :: LastOf(s.rows, d.stack, k) ==> Over(s.rows[k])
        else d.mark == 0)
  }

  lemma {:induction false} RunAppend(s: State, a: seq<Action>, b: seq<Action>)
    ensures Run(s, a + b) == Run(Run(s, a), b)
    decreases |a|
  {
    hide Do;
    if a == [] {
      assert a + b == b;
    } else {
      assert (a + b)[1..] == a[1..] + b;
      RunAppend(Do(s, a[0]), a[1..], b);
    }
  }

  lemma {:induction false} LastAction(actions: seq<Action>, a: Action)
    ensures Run(START, actions + [a]) == Do(Run(START, actions), a)
  {
    hide Do;
    RunAppend(START, actions, [a]);
    assert [a][1..] == [];
  }

  /** Only a guard step adds a pending delete, and only if what it read allows it. */
  lemma {:induction false} DeletesFromGuards(s: State, a: Action, t: nat)
    requires t in Do(s, a).deletes
    ensures || (t in s.deletes && Do(s, a).deletes[t] == s.deletes[t])
            || (a.Guard? && a.t == t
                && Do(s, a).deletes[t] == Delete(a.stack, if a.readable then |s.enqueued| else 0)
                && (a.readable ==> forall k :: LastOf(s.rows, a.stack, k) ==> Over(s.rows[k])))
  {
    hide Latest, GuardAllows, Oldest, PlaceOf, Without, QueuedOf, SetStatus, Over;
    if a.Guard? { GuardMeans(s.rows, a.stack); }
  }

  /** In every run, behind each pending delete is a guard step that read no deployment of
      the stack, or one that failed or took the stack down; or whose read failed. So a
      readable guard never lets go of a stack that was last brought up. */
  lemma {:induction false} EveryDeleteIsGuarded(actions: seq<Action>, t: nat)
    requires t in Run(START, actions).deletes
    ensures exists n :: GuardedAt(actions, n, t, Run(START, actions).deletes[t])
    decreases |actions|
  {
    hide Do, Over;
    if actions != [] {
      var m := |actions| - 1;
      var front, a := actions[..m], actions[m];
      assert actions == front + [a];
      LastAction(front, a);
      var s := Run(START, front);
      DeletesFromGuards(s, a, t);
      if t in s.deletes && Do(s, a).deletes[t] == s.deletes[t] {
        EveryDeleteIsGuarded(front, t);
        var n :| GuardedAt(front, n, t, s.deletes[t]);
        assert actions[..n] == front[..n];
        assert GuardedAt(actions, n, t, s.deletes[t]);
      } else {
        assert actions[..m] == front;
        assert GuardedAt(actions, m, t, Do(s, a).deletes[t]);
      }
    }
  }

  /** In every run a deployment that succeeded was reported so by its agent, and one that
      failed was reported as failed. */
  lemma {:induction false} OutcomesAreReported(actions: seq<Action>, x: Row)
    requires x in Run(START, actions).rows && (x.status.Succeeded? || x.status.Failed?)
    ensures Complete(x.id, x.status.Succeeded?) in actions
    decreases |actions|
  {
    hide Do;
    if actions != [] {
      var m := |actions| - 1;
      var front, a := actions[..m], actions[m];
      assert actions == front + [a];
      LastAction(front, a);
      var s := Run(START, front);
      OutcomeStep(s, a, x);
      if x in s.rows {
        OutcomesAreReported(front, x);
      }
    }
  }

  lemma {:induction false} OutcomeStep(s: State, a: Action, x: Row)
    requires x in Do(s, a).rows && (x.status.Succeeded? || x.status.Failed?)
    ensures x in s.rows || a == Complete(x.id, x.status.Succeeded?)
  {
    hide Latest, GuardAllows, Oldest, QueuedOf;
  }

  /** The guard and the cascade are two steps: an undeploy enqueued in between is lost. */
  lemma {:induction false} EnqueuedBetweenIsLost()
    ensures var s := Do(Do(Do(START, Guard(0, "s", true)), Enqueue("s", "h", Down)), Cascade(0));
            s.dropped == {Dropped(0, 0)} && s.rows == [] && s.claims == []
  {
    var s1 := Do(START, Guard(0, "s", true));
    var s2 := Do(s1, Enqueue("s", "h", Down));
    var r := Row(0, "s", "h", Down, Queued);
    assert s2.rows == [r] && r in s2.rows && s2.rows[1..] == [];
    NothingLeft(r);
    assert QueuedOf(s2.rows, "s") == {0};
  }

  lemma {:induction false} NothingLeft(r: Row)
    ensures Without([r], r.stack) == []
  {
    assert [r][1..] == [];
  }

  /** A latest deployment that could not be read does not stop the delete either. */
  lemma {:induction false} UnreadableLatestIsLost()
    ensures var s := Do(Do(Do(START, Enqueue("s", "h", Down)), Guard(0, "s", false)), Cascade(0));
            s.dropped == {Dropped(0, 0)} && s.rows == [] && s.claims == []
  {
    var s1 := Do(START, Enqueue("s", "h", Down));
    var r := Row(0, "s", "h", Down, Queued);
    assert s1.rows == [r] && r in s1.rows && s1.rows[1..] == [];
    var s2 := Do(s1, Guard(0, "s", false));
    NothingLeft(r);
    assert QueuedOf(s2.rows, "s") == {0};
  }

  // ---- the store's calls, each a single step

  class Deployments {
    var rows: seq<Row>
    var next: nat

    ghost predicate Valid()
      reads this
    {
      Shaped(rows, next)
    }

    constructor ()
      ensures Valid() && rows == [] && next == 0
    {
      rows, next := [], 0;
    }

    method EnqueueDeployment(stack: string, host: string, act: Act) returns (r: Row)
      requires Valid() && HasHost(rows, stack, host)
      modifies this
      ensures Valid() && r == Row(old(next), stack, host, act, Queued)
      ensures rows == old(rows) + [r] && next == old(next) + 1
      ensures Latest(rows, stack) == Some(r) && !GuardAllows(Latest(rows, stack))
    {
      r := Row(next, stack, host, act, Queued);
      AppendShaped(rows, r);
      rows, next := rows + [r], next + 1;
    }

    /** The oldest queued deployment of the host, and nothing else, starts running. */
    method ClaimNextDeployment(host: string) returns (claimed: Option<Row>)
      requires Valid()
      modifies this`rows
      ensures Valid()
      ensures claimed.None? ==> rows == old(rows) && forall x :: x in rows && x.host == host ==> !x.status.Queued?
      ensures claimed.Some? ==>
                var x := claimed.value.(status := Queued);
                && x in old(rows) && x.host == host && NextUp(old(rows), x)
                && rows == SetStatus(old(rows), x.id, Running)
    {
      var k := Oldest(rows, host);
      if k == |rows| {
        return None;
      }
      OldestIsNextUp(rows, next, host);
      LeaveShaped(rows, next, k, Running);
      claimed := Some(rows[k].(status := Running));
      rows := rows[k := rows[k].(status := Running)];
      assert rows == SetStatus(old(rows), old(rows)[k].id, Running);
    }

    /** Reported as finished; whether the row was ever claimed is not looked at. */
    method CompleteDeployment(id: nat, status: Status) returns (found: bool)
      requires Valid() && (status.Succeeded? || status.Failed?)
      modifies this`rows
      ensures found <==> exists x :: x in old(rows) && x.id == id
      ensures rows == SetStatus(old(rows), id, status)
      ensures Valid() <==> forall x :: x in old(rows) && x.id == id && x.status.Queued? ==> NextUp(old(rows), x)
    {
      var k := PlaceOf(rows, id);
      found := k < |rows|;
      if found {
        assert rows[k] in rows;
        CompletingKeepsFifo(rows, next, k, status);
        UpdateMembers(rows, next, k, status);
        assert OneHost(rows[k := rows[k].(status := status)]);
        rows := rows[k := rows[k].(status := status)];
      }
      assert rows == SetStatus(old(rows), id, status);
    }

    /** The guard of deleteStackHandler over a readable latest deployment. */
    method MayDelete(stack: string) returns (allowed: bool)
      requires Valid()
      ensures allowed <==> forall k :: LastOf(rows, stack, k) ==> Over(rows[k])
      ensures allowed ==> forall x :: x in rows && x.stack == stack ==> !x.status.Queued?
    {
      allowed := GuardAllows(Latest(rows, stack));
      GuardMeans(rows, stack);
      if allowed {
        LatestDecides(rows, next, stack);
      }
    }

    method DeleteStack(stack: string)
      requires Valid()
      modifies this`rows
      ensures Valid() && rows == Without(old(rows), stack)
      ensures forall host :: (forall x :: x in old(rows) && x.stack == stack ==> !x.status.Queued?)
                             ==> WaitingOf(rows, host) == WaitingOf(old(rows), host)
    {
      WithoutShaped(rows, next, stack);
      FewerShaped(rows, Without(rows, stack), next);
      forall host | forall x :: x in rows && x.stack == stack ==> !x.status.Queued?
        ensures WaitingOf(Without(rows, stack), host) == WaitingOf(rows, host)
      {
        CascadeWaiting(rows, stack, host, {});
        ExceptNone(WaitingOf(rows, host), {});
      }
      rows := Without(rows, stack);
    }
  }
}
