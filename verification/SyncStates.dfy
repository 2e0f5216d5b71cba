/** The connection state of the sync manager under every interleaving of its awaited steps
    (sync/syncManager.ts and its callers in main.ts). */
module SyncStates {
  import opened Options

  datatype ConnectionState = ONLINE | OFFLINE | SYNCING | SYNC_ERROR

  /** A call that is waiting for something: which one, and for what. */
  datatype Kind = INITIAL | RECONNECT | PERIODIC
  datatype Phase = PROBING | PUSHING | PULLING
  datatype Task = Task(kind: Kind, phase: Phase)

  /** `saved` is the timestamp in sync.json, `pulled` the time of the last completed pull of this session. */
  datatype Manager = Manager(state: ConnectionState, tasks: map<nat, Task>, saved: Option<int>, pulled: Option<int>)

  datatype PullOutcome = PULLED(now: int) | NOT_SAVED(now: int) | PULL_FAILED

  /** The stretches of code between two awaits; `t` names the call. */
  datatype Event =
    | CheckAndReconnect(t: nat)
    | PeriodicPull(t: nat)
    | Probed(t: nat, online: bool)
    | PushSettled(t: nat, ok: bool)
    | PullSettled(t: nat, outcome: PullOutcome)

  // ---------------------------------------------------------------- the transition relation

  predicate Waiting(m: Manager, t: nat, phase: Phase) {
    t in m.tasks && m.tasks[t].phase == phase
  }

  predicate Possible(m: Manager, e: Event) {
    match e
    case CheckAndReconnect(t) => t !in m.tasks
    case PeriodicPull(t) => t !in m.tasks
    case Probed(t, _) => Waiting(m, t, PROBING)
    case PushSettled(t, _) => Waiting(m, t, PUSHING)
    case PullSettled(t, _) => Waiting(m, t, PULLING)
  }

  function Step(m: Manager, e: Event): Manager
    requires Possible(m, e)
  {
    match e
    case CheckAndReconnect(t) =>
      if m.state.ONLINE? || m.state.SYNCING? then m
      else m.(tasks := m.tasks[t := Task(RECONNECT, PROBING)])
    case PeriodicPull(t) =>
      if !m.state.ONLINE? then m
      else m.(state := SYNCING, tasks := m.tasks[t := Task(PERIODIC, PULLING)])
    case Probed(t, online) =>
      if online then
        m.(state := SYNCING,
           tasks := m.tasks[t := m.tasks[t].(phase := if m.tasks[t].kind.RECONNECT? then PUSHING else PULLING)])
      else m.(state := if m.tasks[t].kind.INITIAL? then OFFLINE else m.state, tasks := m.tasks - {t})
    case PushSettled(t, ok) =>
      if ok then m.(tasks := m.tasks[t := m.tasks[t].(phase := PULLING)])
      else m.(state := SYNC_ERROR, tasks := m.tasks - {t})
    case PullSettled(t, outcome) =>
      match outcome
      case PULLED(now) => Manager(ONLINE, m.tasks - {t}, Some(now), Some(now))
      case NOT_SAVED(now) => m.(state := SYNC_ERROR, tasks := m.tasks - {t}, pulled := Some(now))
      case PULL_FAILED => m.(state := SYNC_ERROR, tasks := m.tasks - {t})
  }

  /** `initialize` has run up to its first await: the server is not configured, or it is being probed. */
  predicate Started(m: Manager) {
    && m.pulled.None?
    && ((m.state.OFFLINE? && m.tasks == map[]) || (m.state.ONLINE? && m.tasks == map[0 := Task(INITIAL, PROBING)]))
  }

  function Reconnects(m: Manager): set<nat> {
    set t | t in m.tasks && m.tasks[t].kind.RECONNECT?
  }

  predicate Initialising(m: Manager) {
    exists t :: t in m.tasks && m.tasks[t] == Task(INITIAL, PROBING)
  }

  /** The callers: at most `n` reconnect calls overlap, and the two-hour timer has not fired before the probe
      of `initialize` is answered. */
  predicate Allowed(n: nat, m: Manager, e: Event) {
    && Possible(m, e)
    && (e.CheckAndReconnect? ==> |Reconnects(m)| < n)
    && (e.PeriodicPull? ==> !Initialising(m))
  }

  ghost predicate Run(n: nat, ms: seq<Manager>, es: seq<Event>) {
    && |ms| == |es| + 1 && Started(ms[0])
    && forall i | 0 <= i < |es| :: Allowed(n, ms[i], es[i]) && ms[i + 1] == Step(ms[i], es[i])
  }

  // ---------------------------------------------------------------- the manager

  class SyncManager {
    var state: ConnectionState
    var tasks: map<nat, Task>
    var saved: Option<int>
    var pulled: Option<int>
    /** The last state that `setState` broadcast to the windows. */
    var shown: Option<ConnectionState>

    function View(): Manager
      reads this
    {
      Manager(state, tasks, saved, pulled)
    }

    predicate Told()
      reads this
    {
      shown == Some(state) || (shown == None && exists t :: t in tasks && tasks[t] == Task(INITIAL, PROBING))
    }

    /** The field initialiser and `initialize` up to its first await. */
    constructor Initialize(configured: bool, saved: Option<int>)
      ensures Started(View()) && Told() && this.saved == saved
      ensures configured <==> Initialising(View())
    {
      state, tasks, this.saved, pulled, shown := ONLINE, map[], saved, None, None;
      new;
      if !configured {
        SetState(OFFLINE);
      } else {
        tasks := map[0 := Task(INITIAL, PROBING)];
        assert tasks[0] == Task(INITIAL, PROBING);
      }
    }

    method SetState(next: ConnectionState)
      modifies this`state, this`shown
      ensures state == next && shown == Some(next)
    {
      state := next;
      shown := Some(next);
    }

    method CheckAndReconnect(t: nat)
      requires Possible(View(), Event.CheckAndReconnect(t)) && Told()
      modifies this
      ensures View() == Step(old(View()), Event.CheckAndReconnect(t)) && Told()
    {
      if state.ONLINE? || state.SYNCING? { return; }
      assert forall u | u in tasks :: u in tasks[t := Task(RECONNECT, PROBING)];
      tasks := tasks[t := Task(RECONNECT, PROBING)];
    }

    method PeriodicPull(t: nat)
      requires Possible(View(), Event.PeriodicPull(t)) && Told()
      modifies this
      ensures View() == Step(old(View()), Event.PeriodicPull(t)) && Told()
    {
      if !state.ONLINE? { return; }
      SetState(SYNCING);
      tasks := tasks[t := Task(PERIODIC, PULLING)];
    }

    method Probed(t: nat, online: bool)
      requires Possible(View(), Event.Probed(t, online)) && Told()
      modifies this
      ensures View() == Step(old(View()), Event.Probed(t, online)) && Told()
    {
      if online {
        SetState(SYNCING);
        tasks := tasks[t := tasks[t].(phase := if tasks[t].kind.RECONNECT? then PUSHING else PULLING)];
      } else {
        if tasks[t].kind.INITIAL? { SetState(OFFLINE); }
        assert forall u | u in tasks && tasks[u] == Task(INITIAL, PROBING) && !tasks[t].kind.INITIAL? :: u in tasks - {t} && (tasks - {t})[u] == tasks[u];
        tasks := tasks - {t};
      }
    }

    method PushSettled(t: nat, ok: bool)
      requires Possible(View(), Event.PushSettled(t, ok)) && Told()
      modifies this
      ensures View() == Step(old(View()), Event.PushSettled(t, ok)) && Told()
    {
      if ok {
        ghost var before := tasks;
        tasks := tasks[t := tasks[t].(phase := PULLING)];
        assert forall u | u in before && before[u].phase.PROBING? :: u in tasks && tasks[u] == before[u];
      } else {
        SetState(SYNC_ERROR);
        tasks := tasks - {t};
      }
    }

    method PullSettled(t: nat, outcome: PullOutcome)
      requires Possible(View(), Event.PullSettled(t, outcome)) && Told()
      modifies this
      ensures View() == Step(old(View()), Event.PullSettled(t, outcome)) && Told()
    {
      tasks := tasks - {t};
      match outcome
      case PULLED(now) =>
        saved, pulled := Some(now), Some(now);
        SetState(ONLINE);
      case NOT_SAVED(now) =>
        pulled := Some(now);
        SetState(SYNC_ERROR);
      case PULL_FAILED =>
        SetState(SYNC_ERROR);
    }
  }

  // ---------------------------------------------------------------- what holds however calls overlap

  predicate Active(task: Task) { !task.phase.PROBING? }

  /** While the manager is SYNCING some call is pushing or pulling; and once `initialize` has had its answer,
      ONLINE means that the last completed pull left its timestamp in the file. */
  predicate Honest(m: Manager) {
    && (m.state.SYNCING? ==> exists t :: t in m.tasks && Active(m.tasks[t]))
    && (m.state.ONLINE? && !Initialising(m) ==> m.pulled.Some? && m.saved == m.pulled)
    && (Initialising(m) ==> m.state.ONLINE? && forall t, u | t in m.tasks && u in m.tasks :: t == u)
  }

  lemma StepStaysHonest(n: nat, m: Manager, e: Event)
    requires Honest(m) && Allowed(n, m, e)
    ensures Honest(Step(m, e))
    ensures Step(m, e).state.ONLINE? ==> m.state.ONLINE? || (e.PullSettled? && e.outcome.PULLED?)
  {
    var after := Step(m, e);
    if e.PeriodicPull? && m.state.ONLINE? { assert Active(after.tasks[e.t]); }
    if e.Probed? && e.online { assert Active(after.tasks[e.t]); }
    if e.PushSettled? && e.ok {
      assert Active(after.tasks[e.t]);
    }
    if w :| w in m.tasks && Active(m.tasks[w]) {
      assert e.Probed? ==> w in after.tasks && Active(after.tasks[w]);
    }
    if u :| u in m.tasks && m.tasks[u] == Task(INITIAL, PROBING) {
      assert e.t in m.tasks ==> e.t == u;
      assert after.state.ONLINE? ==> u in after.tasks && after.tasks[u] == m.tasks[u];
    }
    assert Initialising(after) ==> Initialising(m) by {
      if t :| t in after.tasks && after.tasks[t] == Task(INITIAL, PROBING) {
        assert t in m.tasks && m.tasks[t] == Task(INITIAL, PROBING);
      }
    }
  }

  lemma {:induction false} RunsStayHonest(n: nat, ms: seq<Manager>, es: seq<Event>)
    requires Run(n, ms, es)
    ensures Honest(ms[|es|])
  {
    if es == [] {
      assert ms[0].tasks == map[0 := Task(INITIAL, PROBING)] ==> 0 in ms[0].tasks && ms[0].tasks[0] == Task(INITIAL, PROBING);
    } else {
      RunsStayHonest(n, ms[..|es|], es[..|es| - 1]);
      StepStaysHonest(n, ms[|es| - 1], es[|es| - 1]);
    }
  }

  // ---------------------------------------------------------------- what holds when reconnects do not overlap

  /** At most one call is in flight, and the state tells how far it is. */
  predicate Single(m: Manager) {
    && (forall t, u | t in m.tasks && u in m.tasks :: t == u)
    && (m.state.SYNCING? <==> exists t :: t in m.tasks && Active(m.tasks[t]))
    && (forall t | t in m.tasks && !Active(m.tasks[t]) ::
          if m.tasks[t].kind.INITIAL? then m.state.ONLINE? else m.tasks[t].kind.RECONNECT? && (m.state.OFFLINE? || m.state.SYNC_ERROR?))
  }

  predicate AtMostOneSync(m: Manager) {
    forall t, u | t in m.tasks && u in m.tasks && Active(m.tasks[t]) && Active(m.tasks[u]) :: t == u
  }

  lemma StepStaysSingle(n: nat, m: Manager, e: Event)
    requires n <= 1 && Single(m) && Allowed(n, m, e)
    ensures Single(Step(m, e))
  {
    var after := Step(m, e);
    if e.CheckAndReconnect? && after != m {
      NoReconnects(m);
      assert m.tasks == map[];
    }
    if e.PeriodicPull? && after != m {
      assert m.tasks == map[];
      assert Active(after.tasks[e.t]);
    }
    if (e.Probed? && e.online) || (e.PushSettled? && e.ok) { assert Active(after.tasks[e.t]); }
  }

  lemma NoReconnects(m: Manager)
    requires |Reconnects(m)| < 1
    ensures forall t | t in m.tasks :: !m.tasks[t].kind.RECONNECT?
  {
    assert Reconnects(m) == {};
    forall t | t in m.tasks ensures !m.tasks[t].kind.RECONNECT? { assert t !in Reconnects(m); }
  }

  lemma {:induction false} RunsStaySingle(n: nat, ms: seq<Manager>, es: seq<Event>)
    requires n <= 1 && Run(n, ms, es)
    ensures forall i | 0 <= i < |ms| :: Single(ms[i])
  {
    if es == [] {
      assert Single(ms[0]);
    } else {
      RunsStaySingle(n, ms[..|es|], es[..|es| - 1]);
      assert ms[..|es|][|es| - 1] == ms[|es| - 1];
      StepStaysSingle(n, ms[|es| - 1], es[|es| - 1]);
      forall i | 0 <= i < |ms| ensures Single(ms[i]) { assert i < |es| ==> ms[i] == ms[..|es|][i]; }
    }
  }

  ghost predicate Exclusive(n: nat) {
    forall ms, es | Run(n, ms, es) :: AtMostOneSync(ms[|es|])
  }

  /** Two syncs never run at once, in any interleaving, exactly when reconnect calls do not overlap. */
  lemma ExclusiveUnlessReconnectsOverlap(n: nat)
    ensures Exclusive(n) <==> n <= 1
  {
    if n <= 1 {
      forall ms, es | Run(n, ms, es) ensures AtMostOneSync(ms[|es|]) { RunsStaySingle(n, ms, es); }
    } else {
      OverlappingReconnectsBothSync(n);
    }
  }

  const PROBE := Task(RECONNECT, PROBING)
  const PUSH := Task(RECONNECT, PUSHING)

  /** The server is unreachable at start-up; then the timer and a manual retry both pass the guard before
      either probe is answered. */
  function OverlapAt(i: nat): Manager
    requires i <= 5
  {
    match i
    case 0 => Manager(ONLINE, map[0 := Task(INITIAL, PROBING)], None, None)
    case 1 => Manager(OFFLINE, map[], None, None)
    case 2 => Manager(OFFLINE, map[0 := PROBE], None, None)
    case 3 => Manager(OFFLINE, map[0 := PROBE][1 := PROBE], None, None)
    case 4 => Manager(SYNCING, map[0 := PROBE][1 := PROBE][0 := PUSH], None, None)
    case _ => Manager(SYNCING, map[0 := PROBE][1 := PROBE][0 := PUSH][1 := PUSH], None, None)
  }

  function OverlapEvent(i: nat): Event
    requires i < 5
  {
    match i
    case 0 => Probed(0, false)
    case 1 => CheckAndReconnect(0)
    case 2 => CheckAndReconnect(1)
    case 3 => Probed(0, true)
    case _ => Probed(1, true)
  }

  lemma OverlapMoves(n: nat, i: nat)
    requires n >= 2 && i < 5
    ensures Allowed(n, OverlapAt(i), OverlapEvent(i)) && OverlapAt(i + 1) == Step(OverlapAt(i), OverlapEvent(i))
  {
    assert map[0 := Task(INITIAL, PROBING)] - {0} == map[];
    if i == 1 { assert Reconnects(OverlapAt(1)) == {}; }
    if i == 2 { assert Reconnects(OverlapAt(2)) == {0}; }
  }

  lemma OverlappingReconnectsBothSync(n: nat)
    requires n >= 2
    ensures exists ms, es :: Run(n, ms, es) && !AtMostOneSync(ms[|es|])
  {
    var ms := seq(6, i requires 0 <= i < 6 => OverlapAt(i));
    var es := seq(5, i requires 0 <= i < 5 => OverlapEvent(i));
    assert Started(ms[0]);
    forall i | 0 <= i < 5 ensures Allowed(n, ms[i], es[i]) && ms[i + 1] == Step(ms[i], es[i]) { OverlapMoves(n, i); }
    assert Active(ms[5].tasks[0]) && Active(ms[5].tasks[1]);
    hide Step, Allowed, OverlapEvent;
    assert Run(n, ms, es);
  }

  // ---------------------------------------------------------------- what one call does

  /** The push of call `t` has gone through before event `i`, and the call has done nothing since. */
  ghost predicate Pushed(es: seq<Event>, t: nat, i: nat)
    requires i <= |es|
  {
    exists j :: 0 <= j < i && es[j] == Event.PushSettled(t, true) && forall k | j < k < i :: es[k].t != t
  }

  lemma PushedLater(es: seq<Event>, t: nat, i: nat)
    requires 0 < i <= |es|
    ensures es[i - 1] == Event.PushSettled(t, true) ==> Pushed(es, t, i)
    ensures Pushed(es, t, i - 1) && es[i - 1].t != t ==> Pushed(es, t, i)
  {
    if Pushed(es, t, i - 1) && es[i - 1].t != t {
      var j :| 0 <= j < i - 1 && es[j] == Event.PushSettled(t, true) && forall k | j < k < i - 1 :: es[k].t != t;
    }
  }

  /** A call comes to push only as a reconnect, and a reconnect comes to pull only by its push. */
  lemma CallMoves(m: Manager, e: Event, t: nat)
    requires Possible(m, e) && t in Step(m, e).tasks
    ensures var task := Step(m, e).tasks[t];
      || (t in m.tasks && task == m.tasks[t] && (task.phase.PULLING? ==> e.t != t))
      || (!task.phase.PULLING? && task.kind.RECONNECT?)
      || (task.phase.PULLING? && (task.kind.RECONNECT? ==> e == Event.PushSettled(t, true)))
      || task.phase.PROBING?
  {}

  /** However calls overlap, a reconnect pulls only after its own push has gone through, and no other call pushes. */
  lemma {:induction false} PullFollowsPush(n: nat, ms: seq<Manager>, es: seq<Event>, i: nat, t: nat)
    requires Run(n, ms, es) && i <= |es| && t in ms[i].tasks
    ensures ms[i].tasks[t].phase.PUSHING? ==> ms[i].tasks[t].kind.RECONNECT?
    ensures ms[i].tasks[t] == Task(RECONNECT, PULLING) ==> Pushed(es, t, i)
  {
    if i > 0 {
      assert Allowed(n, ms[i - 1], es[i - 1]) && ms[i] == Step(ms[i - 1], es[i - 1]);
      CallMoves(ms[i - 1], es[i - 1], t);
      hide Step, Allowed, Run, Pushed;
      PushedLater(es, t, i);
      if t in ms[i - 1].tasks && ms[i - 1].tasks[t] == ms[i].tasks[t] { PullFollowsPush(n, ms, es, i - 1, t); }
    }
  }

  function StateAfter(outcome: PullOutcome): ConnectionState {
    if outcome.PULLED? then ONLINE else SYNC_ERROR
  }

  /** A reconnect from its guard to its end. ONLINE and SYNCING stop it. A server that does not answer leaves everything
      as it was. Otherwise it is SYNCING; a failed push is an error without a pull; and then the pull decides. */
  lemma ReconnectEnds(m: Manager, t: nat, outcome: PullOutcome)
    requires t !in m.tasks
    ensures var asked := Step(m, Event.CheckAndReconnect(t));
      if m.state.ONLINE? || m.state.SYNCING? then asked == m
      else
        && asked.state == m.state && Step(asked, Event.Probed(t, false)) == m
        && var pushing := Step(asked, Event.Probed(t, true));
        && pushing.state == SYNCING && !Possible(pushing, Event.PullSettled(t, outcome))
        && Step(pushing, Event.PushSettled(t, false)) == m.(state := SYNC_ERROR)
        && var pulling := Step(pushing, Event.PushSettled(t, true));
        && pulling.state == SYNCING
        && var ended := Step(pulling, Event.PullSettled(t, outcome));
        && ended.state == StateAfter(outcome) && ended.tasks == m.tasks
        && ended.saved == (if outcome.PULLED? then Some(outcome.now) else m.saved)
        && ended.pulled == (if outcome.PULL_FAILED? then m.pulled else Some(outcome.now))
  {
    var task := Task(RECONNECT, PROBING);
    assert m.tasks[t := task] - {t} == m.tasks;
    assert m.tasks[t := task][t := Task(RECONNECT, PUSHING)] - {t} == m.tasks;
    assert m.tasks[t := task][t := Task(RECONNECT, PUSHING)][t := Task(RECONNECT, PULLING)] - {t} == m.tasks;
  }

  /** The periodic pull works only when ONLINE, and pulls at once. */
  lemma PeriodicPullEnds(m: Manager, t: nat, outcome: PullOutcome)
    requires t !in m.tasks
    ensures var pulling := Step(m, Event.PeriodicPull(t));
      if m.state != ONLINE then pulling == m
      else
        && pulling.state == SYNCING
        && var ended := Step(pulling, Event.PullSettled(t, outcome));
        && ended.state == StateAfter(outcome) && ended.tasks == m.tasks
        && ended.saved == (if outcome.PULLED? then Some(outcome.now) else m.saved)
        && ended.pulled == (if outcome.PULL_FAILED? then m.pulled else Some(outcome.now))
  {
    assert m.tasks[t := Task(PERIODIC, PULLING)] - {t} == m.tasks;
  }

  /** Starting up: OFFLINE when the server does not answer, and otherwise a pull without a push. */
  lemma InitialPullEnds(m: Manager, outcome: PullOutcome)
    requires Started(m) && m.tasks != map[]
    ensures Step(m, Event.Probed(0, false)) == m.(state := OFFLINE, tasks := map[])
    ensures var pulling := Step(m, Event.Probed(0, true));
      && pulling.state == SYNCING
      && var ended := Step(pulling, Event.PullSettled(0, outcome));
      && ended.state == StateAfter(outcome) && ended.tasks == map[]
      && ended.saved == (if outcome.PULLED? then Some(outcome.now) else m.saved)
  {
    assert m.tasks - {0} == map[];
    assert m.tasks[0 := Task(INITIAL, PULLING)] - {0} == map[];
  }

  // ---------------------------------------------------------------- SYNCING is left

  predicate Settles(e: Event) { e.PushSettled? || e.PullSettled? }

  function Settlements(es: seq<Event>): nat {
    if es == [] then 0 else Settlements(es[..|es| - 1]) + if Settles(es[|es| - 1]) then 1 else 0
  }

  /** The awaited steps that the call in flight still has before it. */
  function Pending(m: Manager): nat {
    if exists t :: t in m.tasks && m.tasks[t].phase.PUSHING? then 2 else 1
  }

  /** While SYNCING nothing but the one sync in flight can do anything, and its next step ends it or leaves
      one step fewer. */
  lemma SyncingStep(n: nat, m: Manager, e: Event)
    requires n <= 1 && Single(m) && Allowed(n, m, e) && m.state.SYNCING?
    ensures Settles(e) || Step(m, e) == m
    ensures Settles(e) ==> !Step(m, e).state.SYNCING? || Pending(Step(m, e)) < Pending(m)
  {
    var t :| t in m.tasks && Active(m.tasks[t]);
    if e.PushSettled? && e.ok {
      assert m.tasks[e.t].phase.PUSHING?;
      forall u | u in Step(m, e).tasks ensures !Step(m, e).tasks[u].phase.PUSHING? { assert u == e.t; }
    }
  }

  /** In a stretch of a run that is SYNCING throughout, at most one awaited push or pull has settled: the second
      one to settle ends it. */
  lemma {:induction false} SyncingIsLeft(n: nat, ms: seq<Manager>, es: seq<Event>)
    requires n <= 1 && |ms| == |es| + 1 && Single(ms[0])
    requires forall i | 0 <= i < |es| :: Allowed(n, ms[i], es[i]) && ms[i + 1] == Step(ms[i], es[i])
    requires forall i | 0 <= i < |ms| :: ms[i].state.SYNCING?
    ensures Single(ms[|es|]) && Settlements(es) + Pending(ms[|es|]) <= Pending(ms[0]) <= 2
    ensures Settlements(es) <= 1
  {
    if es != [] {
      var k := |es| - 1;
      SyncingIsLeft(n, ms[..|es|], es[..k]);
      assert ms[..|es|][k] == ms[k] && ms[..|es|][0] == ms[0];
      SyncingStep(n, ms[k], es[k]);
      StepStaysSingle(n, ms[k], es[k]);
    }
  }
}
