/**
 The "workspace changed" pipeline as interleaved atomic steps: watch drains signal a
 capacity-1 channel, the hub's run loop receives from it and, holding the hub mutex,
 offers a token to every subscriber's capacity-1 channel; a subscriber that receives
 re-lists. Runs are started and cancelled under the same mutex, and a cancelled run
 may overlap its successor. Sends and closes that Go would panic on set `panicked`.
 */
module WatchFanout {

  // One source goroutine of `Changes`, including its `drain` loop.
  datatype Drain =
    | Checking  // about to test ctx.Err()
    | Opening   // inside src(ctx)
    | Backoff   // waiting after a failed open
    | Watching  // selecting on ctx.Done() and the watch
    | Got       // received an event, about to call signal()
    | Exited

  // The `for range changes` loop of `workspaceHub.run`.
  datatype Loop = Receiving | Holding | Sending | Ended

  datatype Run = Run(cancelled: bool, drains: seq<Drain>, out: bool, closed: bool, loop: Loop)

  // `member` says the channel is in h.subs; `relist` that its owner is about to list;
  // `seen` counts the events that happened before its latest list began.
  datatype Sub = Sub(member: bool, token: bool, closed: bool, relist: bool, seen: nat)

  // Who holds h.mu, and how far through its critical section it is.
  datatype Mutex =
    | Free
    | Joining(ch: nat, inserted: bool)
    | Leaving(ch: nat, removed: bool)
    | Dispatching(r: nat, todo: set<nat>)

  datatype State = State(
    sources: nat,
    mu: Mutex,
    subs: seq<Sub>,
    runs: seq<Run>,
    started: bool,
    current: nat,
    events: nat,
    panicked: bool)

  datatype Action =
    // subscribe: lock with a fresh channel, insert it, start a run if none, unlock
    | Join | Insert | Start
    // the unsubscribe closure: lock, delete and close, cancel if last, unlock
    | Leave(ch: nat) | Remove | Stop
    // run: receive from `changes`, lock, offer one token per channel, unlock
    | Receive(r: nat) | Lock(r: nat) | Offer(ch: nat) | Unlock | End(r: nat)
    // the source goroutines and the closer goroutine of `Changes`
    | Check(r: nat, d: nat) | Opened(r: nat, d: nat) | OpenFailed(r: nat, d: nat)
    | Retry(r: nat, d: nat) | Event(r: nat, d: nat) | WatchEnded(r: nat, d: nat)
    | Notice(r: nat, d: nat) | Signal(r: nat, d: nat) | Close(r: nat)
    // a subscriber takes its token, and begins a list
    | Wake(ch: nat) | List(ch: nat)

  ghost predicate Init(s: State) {
    s.mu == Free && s.subs == [] && s.runs == [] && !s.started && s.events == 0 && !s.panicked
  }

  predicate DrainIn(s: State, r: nat, d: nat, at: Drain) {
    r < |s.runs| && d < |s.runs[r].drains| && s.runs[r].drains[d] == at
  }

  predicate AllExited(run: Run) {
    forall d :: 0 <= d < |run.drains| ==> run.drains[d] == Exited
  }

  predicate Enabled(s: State, a: Action) {
    match a
    case Join => s.mu == Free
    case Insert => s.mu.Joining? && !s.mu.inserted && s.mu.ch < |s.subs|
    case Start => s.mu.Joining? && s.mu.inserted
    case Leave(ch) => s.mu == Free && ch < |s.subs|
    case Remove => s.mu.Leaving? && !s.mu.removed && s.mu.ch < |s.subs|
    case Stop => s.mu.Leaving? && s.mu.removed && (s.started ==> s.current < |s.runs|)
    case Receive(r) => r < |s.runs| && s.runs[r].loop == Receiving && s.runs[r].out
    case Lock(r) => r < |s.runs| && s.runs[r].loop == Holding && s.mu == Free
    case Offer(ch) => s.mu.Dispatching? && ch in s.mu.todo && ch < |s.subs|
    case Unlock => s.mu.Dispatching? && s.mu.todo == {} && s.mu.r < |s.runs|
    case End(r) => r < |s.runs| && s.runs[r].loop == Receiving && !s.runs[r].out && s.runs[r].closed
    case Check(r, d) => DrainIn(s, r, d, Checking)
    case Opened(r, d) => DrainIn(s, r, d, Opening)
    case OpenFailed(r, d) => DrainIn(s, r, d, Opening)
    case Retry(r, d) => DrainIn(s, r, d, Backoff)
    case Event(r, d) => DrainIn(s, r, d, Watching)
    case WatchEnded(r, d) => DrainIn(s, r, d, Watching)
    case Notice(r, d) => (DrainIn(s, r, d, Watching) || DrainIn(s, r, d, Backoff)) && s.runs[r].cancelled
    case Signal(r, d) => DrainIn(s, r, d, Got)
    case Close(r) => r < |s.runs| && AllExited(s.runs[r]) && !s.runs[r].closed
    case Wake(ch) => ch < |s.subs| && s.subs[ch].member && s.subs[ch].token && !s.subs[ch].relist
    case List(ch) => ch < |s.subs| && s.subs[ch].member && s.subs[ch].relist &&
                     !(s.mu.Joining? && s.mu.ch == ch)
  }

  function SetDrain(s: State, r: nat, d: nat, to: Drain): State
    requires r < |s.runs| && d < |s.runs[r].drains|
  {
    s.(runs := s.runs[r := s.runs[r].(drains := s.runs[r].drains[d := to])])
  }

  function SetLoop(s: State, r: nat, to: Loop): State
    requires r < |s.runs|
  {
    s.(runs := s.runs[r := s.runs[r].(loop := to)])
  }

  function Members(subs: seq<Sub>): set<nat> {
    set i: nat | i < |subs| && subs[i].member
  }

  function Next(s: State, a: Action): State
    requires Enabled(s, a)
  {
    match a
    case Join =>
      s.(subs := s.subs + [Sub(false, false, false, true, 0)], mu := Joining(|s.subs|, false))
    case Insert =>
      s.(subs := s.subs[s.mu.ch := s.subs[s.mu.ch].(member := true)], mu := Joining(s.mu.ch, true))
    case Start =>
      if s.started then s.(mu := Free)
      else
        s.(mu := Free, started := true, current := |s.runs|,
           runs := s.runs + [Run(false, seq(s.sources, _ => Checking), false, false, Receiving)])
    case Leave(ch) => s.(mu := Leaving(ch, false))
    case Remove =>
      var sub := s.subs[s.mu.ch];
      var s1 := s.(mu := Leaving(s.mu.ch, true));
      if sub.member then
        s1.(subs := s.subs[s.mu.ch := sub.(member := false, closed := true)],
            panicked := s.panicked || sub.closed)
      else s1
    case Stop =>
      if Members(s.subs) == {} && s.started then
        s.(mu := Free, started := false,
           runs := s.runs[s.current := s.runs[s.current].(cancelled := true)])
      else s.(mu := Free)
    case Receive(r) => s.(runs := s.runs[r := s.runs[r].(out := false, loop := Holding)])
    case Lock(r) => SetLoop(s, r, Sending).(mu := Dispatching(r, Members(s.subs)))
    case Offer(ch) =>
      s.(subs := s.subs[ch := s.subs[ch].(token := true)],
         mu := Dispatching(s.mu.r, s.mu.todo - {ch}),
         panicked := s.panicked || s.subs[ch].closed)
    case Unlock => SetLoop(s, s.mu.r, Receiving).(mu := Free)
    case End(r) => SetLoop(s, r, Ended)
    case Check(r, d) => SetDrain(s, r, d, if s.runs[r].cancelled then Exited else Opening)
    case Opened(r, d) => SetDrain(s, r, d, Watching)
    case OpenFailed(r, d) => SetDrain(s, r, d, Backoff)
    case Retry(r, d) => SetDrain(s, r, d, Checking)
    case Event(r, d) => SetDrain(s, r, d, Got).(events := s.events + 1)
    case WatchEnded(r, d) => SetDrain(s, r, d, Checking)
    case Notice(r, d) => SetDrain(s, r, d, if s.runs[r].drains[d] == Backoff then Exited else Checking)
    case Signal(r, d) =>
      s.(runs := s.runs[r := s.runs[r].(drains := s.runs[r].drains[d := Watching], out := true)],
         panicked := s.panicked || s.runs[r].closed)
    case Close(r) => s.(runs := s.runs[r := s.runs[r].(closed := true)])
    case Wake(ch) => s.(subs := s.subs[ch := s.subs[ch].(token := false, relist := true)])
    case List(ch) => s.(subs := s.subs[ch := s.subs[ch].(relist := false, seen := s.events)])
  }

  /******* The invariant *******/

  ghost predicate RunOk(s: State, r: nat)
    requires r < |s.runs|
  {
    var run := s.runs[r];
    && |run.drains| == s.sources
    && (run.closed ==> AllExited(run))
    && (run.loop == Ended ==> run.closed && !run.out)
    && (run.loop == Sending <==> s.mu.Dispatching? && s.mu.r == r)
    && (!run.cancelled ==> s.started && r == s.current)
    && (!run.cancelled ==> forall d :: 0 <= d < |run.drains| ==> run.drains[d] != Exited)
  }

  ghost predicate MutexOk(s: State) {
    match s.mu
    case Free => s.started <==> Members(s.subs) != {}
    case Joining(ch, inserted) =>
      && ch < |s.subs|
      && s.subs[ch].member == inserted && !s.subs[ch].closed && s.subs[ch].relist
      && (!inserted ==> (s.started <==> Members(s.subs) != {}))
    case Leaving(ch, removed) =>
      && ch < |s.subs|
      && (!removed ==> (s.started <==> Members(s.subs) != {}))
      && (Members(s.subs) != {} ==> s.started)
    case Dispatching(r, todo) =>
      && r < |s.runs| && todo <= Members(s.subs)
      && (s.started <==> Members(s.subs) != {})
  }

  ghost predicate Safe(s: State) {
    && !s.panicked
    && (s.started ==> s.current < |s.runs| && !s.runs[s.current].cancelled)
    && (forall r :: 0 <= r < |s.runs| ==> RunOk(s, r))
    && (forall i :: 0 <= i < |s.subs| ==> (s.subs[i].member ==> !s.subs[i].closed))
    && MutexOk(s)
  }

  // Some signal is still on its way to the dispatch.
  ghost predicate Upstream(s: State) {
    exists r :: 0 <= r < |s.runs| && InFlight(s.runs[r])
  }

  ghost predicate InFlight(run: Run) {
    run.out || run.loop == Holding || Got in run.drains
  }

  ghost predicate Pending(s: State, i: nat)
    requires i < |s.subs|
  {
    || s.subs[i].token
    || s.subs[i].relist
    || (s.mu.Dispatching? && i in s.mu.todo)
    || Upstream(s)
  }

  // No lost wake-up: a registered subscriber whose latest list predates an event that
  // some drain received still has a token or a list coming.
  ghost predicate NoLostWakeup(s: State) {
    forall i :: 0 <= i < |s.subs| && s.subs[i].member && s.subs[i].seen < s.events ==> Pending(s, i)
  }

  ghost predicate Inv(s: State) {
    Safe(s) && NoLostWakeup(s)
  }

  lemma RunStaysOk(s: State, a: Action, r: nat)
    requires Safe(s) && Enabled(s, a) && r < |Next(s, a).runs|
    ensures RunOk(Next(s, a), r)
  {
    if r < |s.runs| {
      assert RunOk(s, r);
      if a.Join? || a.Insert? || a.Start? || a.Leave? || a.Remove? || a.Stop? || a.Offer? || a.Wake? || a.List? {
        assert Next(s, a).runs[r].drains == s.runs[r].drains;
      } else if a.Receive? || a.Lock? || a.Unlock? || a.End? || a.Close? {
        assert Next(s, a).runs[r].drains == s.runs[r].drains;
      } else {
        DrainStepKeepsRunOk(s, a, r);
      }
    }
  }

  predicate DrainStep(a: Action) {
    || a.Check? || a.Opened? || a.OpenFailed? || a.Retry? || a.Event?
    || a.WatchEnded? || a.Notice? || a.Signal?
  }

  lemma DrainStepKeepsRunOk(s: State, a: Action, r: nat)
    requires Safe(s) && Enabled(s, a) && DrainStep(a) && r < |s.runs|
    ensures RunOk(Next(s, a), r)
  {
    hide MutexOk, Members;
    var t := Next(s, a);
    assert RunOk(s, r);
    if r == a.r {
      assert s.runs[r].drains[a.d] != Exited;
      assert !s.runs[r].closed;
      assert t.runs[r].cancelled == s.runs[r].cancelled && t.runs[r].loop == s.runs[r].loop;
    } else {
      assert t.runs[r] == s.runs[r];
    }
  }

  lemma SafeStep(s: State, a: Action)
    requires Safe(s) && Enabled(s, a)
    ensures Safe(Next(s, a))
  {
    var t := Next(s, a);
    forall r | 0 <= r < |t.runs| ensures RunOk(t, r) { RunStaysOk(s, a, r); }
    match a
    case Insert => assert s.mu.ch in Members(t.subs);
    case Start => assert s.mu.ch in Members(s.subs);
    case Join => assert Members(t.subs) == Members(s.subs);
    case Wake(ch) => assert Members(t.subs) == Members(s.subs);
    case List(ch) => assert Members(t.subs) == Members(s.subs);
    case Offer(ch) =>
      assert Members(t.subs) == Members(s.subs);
      assert ch in Members(s.subs);
    case Remove => assert Members(t.subs) == Members(s.subs) - {s.mu.ch};
    case Signal(r, d) =>
      assert RunOk(s, r);
      assert s.runs[r].drains[d] != Exited;
    case _ =>
  }

  // A signal in flight stays in flight until a dispatch begins.
  lemma UpstreamStep(s: State, a: Action)
    requires Safe(s) && Enabled(s, a) && Upstream(s) && !a.Lock?
    ensures Upstream(Next(s, a))
  {
    var t := Next(s, a);
    var r :| 0 <= r < |s.runs| && InFlight(s.runs[r]);
    assert RunOk(s, r);
    if Got in s.runs[r].drains {
      var d :| 0 <= d < |s.runs[r].drains| && s.runs[r].drains[d] == Got;
      if a != Signal(r, d) {
        assert t.runs[r].drains[d] == Got;
      }
    }
    assert InFlight(t.runs[r]);
  }

  lemma WakeupStep(s: State, a: Action)
    requires Inv(s) && Enabled(s, a)
    ensures NoLostWakeup(Next(s, a))
  {
    var t := Next(s, a);
    if a.Event? {
      assert t.runs[a.r].drains[a.d] == Got;
      assert InFlight(t.runs[a.r]);
    } else {
      if Upstream(s) && !a.Lock? { UpstreamStep(s, a); }
      forall i | 0 <= i < |t.subs| && t.subs[i].member && t.subs[i].seen < t.events
        ensures Pending(t, i)
      {
        if a.Lock? {
          assert i in Members(s.subs);
        } else if i < |s.subs| && s.subs[i].member {
          assert Pending(s, i);
        }
      }
    }
  }

  /******* Whole runs *******/

  ghost predicate Behaviour(b: seq<State>, acts: seq<Action>) {
    && |b| == |acts| + 1
    && Init(b[0])
    && forall k :: 0 <= k < |acts| ==> Enabled(b[k], acts[k]) && b[k + 1] == Next(b[k], acts[k])
  }

  lemma {:induction false} InvHoldsThroughout(b: seq<State>, acts: seq<Action>, k: nat)
    requires Behaviour(b, acts) && k < |b|
    ensures Inv(b[k])
  {
    if k > 0 {
      InvHoldsThroughout(b, acts, k - 1);
      SafeStep(b[k - 1], acts[k - 1]);
      WakeupStep(b[k - 1], acts[k - 1]);
    }
  }

  // Channel safety: no send on and no double close of a channel in any run, and the
  // watches are up exactly while someone is registered whenever the mutex is free.
  lemma ChannelsAreSafe(b: seq<State>, acts: seq<Action>, k: nat)
    requires Behaviour(b, acts) && k < |b|
    ensures !b[k].panicked
    ensures b[k].mu == Free ==> (b[k].started <==> exists i :: 0 <= i < |b[k].subs| && b[k].subs[i].member)
    ensures forall r :: 0 <= r < |b[k].runs| && !b[k].runs[r].cancelled ==> b[k].started && r == b[k].current
  {
    InvHoldsThroughout(b, acts, k);
    forall r | 0 <= r < |b[k].runs| && !b[k].runs[r].cancelled
      ensures b[k].started && r == b[k].current
    {
      assert RunOk(b[k], r);
    }
    if b[k].mu == Free {
      assert forall i :: i in Members(b[k].subs) <==> 0 <= i < |b[k].subs| && b[k].subs[i].member;
    }
  }

  // What would panic cannot be done: no signal on a closed `out`, no token to a closed
  // channel, no second close of either.
  lemma NoStepPanics(s: State, a: Action)
    requires Inv(s) && Enabled(s, a)
    ensures a.Signal? ==> !s.runs[a.r].closed
    ensures a.Offer? ==> s.subs[a.ch].member && !s.subs[a.ch].closed
    ensures a.Remove? ==> !(s.subs[s.mu.ch].member && s.subs[s.mu.ch].closed)
    ensures a.Close? ==>
              && !s.runs[a.r].closed
              && forall d :: 0 <= d < |s.runs[a.r].drains| ==> s.runs[a.r].drains[d] == Exited
    ensures !Next(s, a).panicked
  {
    SafeStep(s, a);
    if a.Signal? {
      assert RunOk(s, a.r);
      assert s.runs[a.r].drains[a.d] != Exited;
    }
    if a.Offer? { assert a.ch in Members(s.subs); }
  }

  lemma WakeupsAreNeverLost(b: seq<State>, acts: seq<Action>, k: nat, i: nat)
    requires Behaviour(b, acts) && k < |b| && i < |b[k].subs|
    requires b[k].subs[i].member && b[k].subs[i].seen < b[k].events
    ensures Pending(b[k], i)
  {
    InvHoldsThroughout(b, acts, k);
  }

  /******* Pending work is finite, and finishing it refreshes everyone *******/

  // Steps the pipeline takes by itself: no new event, subscriber, leave, or watch result.
  predicate Internal(s: State, a: Action) {
    match a
    case Join => false
    case Leave(_) => false
    case Check(r, _) => r < |s.runs| && s.runs[r].cancelled
    case Opened(_, _) => false
    case OpenFailed(_, _) => false
    case Retry(_, _) => false
    case Event(_, _) => false
    case WatchEnded(_, _) => false
    case _ => true
  }

  predicate Ready(s: State, a: Action) {
    Enabled(s, a) && Internal(s, a)
  }

  ghost predicate Quiescent(s: State) {
    forall a: Action :: !Ready(s, a)
  }

  lemma HeldMutexMovesOn(s: State)
    requires Inv(s) && s.mu != Free
    ensures !Quiescent(s)
  {
    match s.mu
    case Joining(ch, inserted) => assert Ready(s, if inserted then Start else Insert);
    case Leaving(ch, removed) => assert Ready(s, if removed then Stop else Remove);
    case Dispatching(r, todo) =>
      if todo == {} {
        assert Ready(s, Unlock);
      } else {
        var ch :| ch in todo;
        assert ch in Members(s.subs);
        assert Ready(s, Offer(ch));
      }
  }

  lemma UpstreamMovesOn(s: State)
    requires Inv(s) && Upstream(s)
    ensures !Quiescent(s)
  {
    var r :| 0 <= r < |s.runs| && InFlight(s.runs[r]);
    var run := s.runs[r];
    assert RunOk(s, r);
    if s.mu != Free {
      HeldMutexMovesOn(s);
    } else if Got in run.drains {
      var d :| 0 <= d < |run.drains| && run.drains[d] == Got;
      assert Ready(s, Signal(r, d));
    } else {
      assert Ready(s, if run.loop == Holding then Lock(r) else Receive(r));
    }
  }

  lemma StaleSubscriberMovesOn(s: State, i: nat)
    requires Inv(s) && i < |s.subs| && s.subs[i].member
    requires s.subs[i].relist || s.subs[i].token || s.subs[i].seen < s.events
    ensures !Quiescent(s)
  {
    if s.mu != Free {
      HeldMutexMovesOn(s);
    } else if s.subs[i].relist {
      assert Ready(s, List(i));
    } else if s.subs[i].token {
      assert Ready(s, Wake(i));
    } else {
      assert Pending(s, i);
      UpstreamMovesOn(s);
    }
  }

  // When the pipeline has nothing left to do, every registered subscriber has listed
  // after the last event any drain received.
  lemma QuiescentIsFresh(s: State)
    requires Inv(s) && Quiescent(s)
    ensures forall i :: 0 <= i < |s.subs| && s.subs[i].member ==> s.events <= s.subs[i].seen
  {
    forall i | 0 <= i < |s.subs| && s.subs[i].member ensures s.events <= s.subs[i].seen {
      if s.subs[i].seen < s.events { StaleSubscriberMovesOn(s, i); }
    }
  }

  ghost predicate Stopped(run: Run) {
    AllExited(run) && run.closed && run.loop == Ended
  }

  lemma CancelledRunMovesOn(s: State, r: nat)
    requires Inv(s) && r < |s.runs| && s.runs[r].cancelled
    requires Opening !in s.runs[r].drains && !Stopped(s.runs[r])
    ensures !Quiescent(s)
  {
    var run := s.runs[r];
    assert RunOk(s, r);
    if s.mu != Free {
      HeldMutexMovesOn(s);
    } else if InFlight(run) {
      UpstreamMovesOn(s);
    } else if !AllExited(run) {
      var d :| 0 <= d < |run.drains| && run.drains[d] != Exited;
      assert Ready(s, if run.drains[d] == Checking then Check(r, d) else Notice(r, d));
    } else {
      assert Ready(s, if run.closed then End(r) else Close(r));
    }
  }

  // An idle deployment runs no watches: once nobody is registered and the pipeline has
  // settled, every run whose sources are not stuck opening has stopped for good.
  lemma IdleRunsNoWatches(s: State, r: nat)
    requires Inv(s) && Quiescent(s)
    requires Members(s.subs) == {} && r < |s.runs| && Opening !in s.runs[r].drains
    ensures Stopped(s.runs[r])
  {
    if s.mu != Free {
      HeldMutexMovesOn(s);
    } else {
      assert RunOk(s, r);
      if !Stopped(s.runs[r]) { CancelledRunMovesOn(s, r); }
    }
  }

  function Sum(ws: seq<nat>): nat {
    if ws == [] then 0 else ws[0] + Sum(ws[1..])
  }

  lemma {:induction false} SumUpdate(ws: seq<nat>, i: nat, w: nat)
    requires i < |ws|
    ensures Sum(ws[i := w]) + ws[i] == Sum(ws) + w
  {
    if i == 0 {
      assert ws[i := w][1..] == ws[1..];
    } else {
      assert ws[i := w][1..] == ws[1..][i - 1 := w];
      SumUpdate(ws[1..], i - 1, w);
    }
  }

  function DrainWork(d: Drain): nat {
    match d
    case Checking => 1
    case Opening => 0
    case Backoff => 1
    case Watching => 2
    case Got => 7
    case Exited => 0
  }

  function LoopWork(l: Loop): nat {
    match l
    case Receiving => 1
    case Holding => 3
    case Sending => 2
    case Ended => 0
  }

  function DrainsWork(drains: seq<Drain>): seq<nat> {
    seq(|drains|, i requires 0 <= i < |drains| => DrainWork(drains[i]))
  }

  function RunWork(run: Run): nat {
    Sum(DrainsWork(run.drains)) + LoopWork(run.loop) +
    (if run.out then 4 else 0) + (if run.closed then 0 else 1)
  }

  function SubWork(sub: Sub): nat {
    (if sub.member && sub.token then 2 else 0) + (if sub.member && sub.relist then 1 else 0)
  }

  function LockWork(s: State): nat {
    match s.mu
    case Joining(_, inserted) => if inserted then 1 else 2
    case Leaving(_, removed) => if removed then 1 else 2
    case _ => 0
  }

  function RunsWork(runs: seq<Run>): nat {
    Sum(seq(|runs|, i requires 0 <= i < |runs| => RunWork(runs[i])))
  }

  function OfferWork(s: State): nat {
    if s.mu.Dispatching? then |s.mu.todo| else 0
  }

  function SubsWork(subs: seq<Sub>): nat {
    Sum(seq(|subs|, i requires 0 <= i < |subs| => SubWork(subs[i])))
  }

  // Lexicographic decrease of (lock section, runs, offers, subscribers).
  predicate LessWork(t: State, s: State) {
    || LockWork(t) < LockWork(s)
    || (LockWork(t) == LockWork(s) &&
        (|| RunsWork(t.runs) < RunsWork(s.runs)
         || (RunsWork(t.runs) == RunsWork(s.runs) &&
             (|| OfferWork(t) < OfferWork(s)
              || (OfferWork(t) == OfferWork(s) && SubsWork(t.subs) < SubsWork(s.subs))))))
  }

  lemma RunsWorkUpdate(runs: seq<Run>, r: nat, run: Run)
    requires r < |runs|
    ensures RunsWork(runs[r := run]) + RunWork(runs[r]) == RunsWork(runs) + RunWork(run)
  {
    var ws := seq(|runs|, i requires 0 <= i < |runs| => RunWork(runs[i]));
    var runs' := runs[r := run];
    assert seq(|runs'|, i requires 0 <= i < |runs'| => RunWork(runs'[i])) == ws[r := RunWork(run)];
    SumUpdate(ws, r, RunWork(run));
  }

  lemma SubsWorkUpdate(subs: seq<Sub>, i: nat, sub: Sub)
    requires i < |subs|
    ensures SubsWork(subs[i := sub]) + SubWork(subs[i]) == SubsWork(subs) + SubWork(sub)
  {
    var ws := seq(|subs|, k requires 0 <= k < |subs| => SubWork(subs[k]));
    var subs' := subs[i := sub];
    assert seq(|subs'|, k requires 0 <= k < |subs'| => SubWork(subs'[k])) == ws[i := SubWork(sub)];
    SumUpdate(ws, i, SubWork(sub));
  }

  lemma DrainsWorkUpdate(drains: seq<Drain>, d: nat, to: Drain)
    requires d < |drains|
    ensures Sum(DrainsWork(drains[d := to])) + DrainWork(drains[d]) == Sum(DrainsWork(drains)) + DrainWork(to)
  {
    assert DrainsWork(drains[d := to]) == DrainsWork(drains)[d := DrainWork(to)];
    SumUpdate(DrainsWork(drains), d, DrainWork(to));
  }

  // Every internal step uses up work, so no schedule postpones a refresh for ever.
  lemma InternalStepUsesWork(s: State, a: Action)
    requires Inv(s) && Ready(s, a)
    ensures LessWork(Next(s, a), s)
  {
    hide Inv, RunWork, SubWork, Sum, DrainWork, LoopWork, DrainsWork, RunsWork, SubsWork;
    var t := Next(s, a);
    match a
    case Insert =>
    case Start =>
    case Remove =>
    case Stop =>
    case Offer(ch) =>
    case Receive(r) => RunStepUsesWork(s, a, r);
    case Lock(r) => RunStepUsesWork(s, a, r);
    case Unlock => RunStepUsesWork(s, a, s.mu.r);
    case End(r) => RunStepUsesWork(s, a, r);
    case Close(r) => RunStepUsesWork(s, a, r);
    case Check(r, d) => DrainStepUsesWork(s, a, r, d);
    case Notice(r, d) => DrainStepUsesWork(s, a, r, d);
    case Signal(r, d) => DrainStepUsesWork(s, a, r, d);
    case Wake(ch) => SubStepUsesWork(s, a, ch);
    case List(ch) => SubStepUsesWork(s, a, ch);
  }

  lemma SubStepUsesWork(s: State, a: Action, ch: nat)
    requires Ready(s, a) && (a == Wake(ch) || a == List(ch))
    ensures SubsWork(Next(s, a).subs) < SubsWork(s.subs)
  {
    SubsWorkUpdate(s.subs, ch, Next(s, a).subs[ch]);
  }

  lemma RunStepUsesWork(s: State, a: Action, r: nat)
    requires Inv(s) && Ready(s, a)
    requires a == Receive(r) || a == Lock(r) || a == End(r) || a == Close(r) || (a == Unlock && s.mu.r == r)
    ensures RunsWork(Next(s, a).runs) < RunsWork(s.runs)
  {
    hide NoLostWakeup, Sum, DrainsWork, MutexOk;
    assert RunOk(s, r);
    RunsWorkUpdate(s.runs, r, Next(s, a).runs[r]);
  }

  lemma DrainStepUsesWork(s: State, a: Action, r: nat, d: nat)
    requires Ready(s, a) && (a == Check(r, d) || a == Notice(r, d) || a == Signal(r, d))
    ensures RunsWork(Next(s, a).runs) < RunsWork(s.runs)
  {
    hide Sum, DrainsWork;
    var run := Next(s, a).runs[r];
    DrainsWorkUpdate(s.runs[r].drains, d, run.drains[d]);
    RunsWorkUpdate(s.runs, r, run);
  }

  lemma NoEndlessInternalRun(b: nat -> State, acts: nat -> Action, k: nat)
    requires Inv(b(k))
    requires forall j: nat :: Ready(b(j), acts(j)) && b(j + 1) == Next(b(j), acts(j))
    ensures false
    decreases LockWork(b(k)), RunsWork(b(k).runs), OfferWork(b(k)), SubsWork(b(k).subs)
  {
    SafeStep(b(k), acts(k));
    WakeupStep(b(k), acts(k));
    InternalStepUsesWork(b(k), acts(k));
    NoEndlessInternalRun(b, acts, k + 1);
  }

  /******* A live drain gets to watch, and what it sees reaches everyone *******/

  ghost predicate Path(b: seq<State>, acts: seq<Action>) {
    |b| == |acts| + 1 && forall k :: 0 <= k < |acts| ==> Enabled(b[k], acts[k]) && b[k + 1] == Next(b[k], acts[k])
  }

  predicate OfDrain(a: Action, r: nat, d: nat) {
    a == Check(r, d) || a == Opened(r, d) || a == Retry(r, d) || a == Signal(r, d)
  }

  // How far a drain is from watching.
  function ToWatch(d: Drain): nat {
    match d
    case Watching => 0
    case Got => 1
    case Opening => 1
    case Checking => 2
    case Backoff => 3
    case Exited => 0
  }

  // What a source answers is not the drain's to choose: an open may succeed or fail, and a
  // watch may bring an event or end.
  lemma SourceMayAnswer(s: State, r: nat, d: nat)
    ensures DrainIn(s, r, d, Opening) ==> Enabled(s, Opened(r, d)) && Enabled(s, OpenFailed(r, d))
    ensures DrainIn(s, r, d, Watching) ==> Enabled(s, Event(r, d)) && Enabled(s, WatchEnded(r, d))
  {
  }

  lemma DrainComesCloser(s: State, r: nat, d: nat) returns (a: Action)
    requires Inv(s) && r < |s.runs| && d < |s.runs[r].drains| && !s.runs[r].cancelled && !DrainIn(s, r, d, Watching)
    ensures OfDrain(a, r, d) && Enabled(s, a)
    ensures var t := Next(s, a);
            && Inv(t) && r < |t.runs| && d < |t.runs[r].drains| && !t.runs[r].cancelled
            && ToWatch(t.runs[r].drains[d]) < ToWatch(s.runs[r].drains[d])
  {
    hide NoLostWakeup, MutexOk;
    assert RunOk(s, r);
    var at := s.runs[r].drains[d];
    a := if at == Checking then Check(r, d) else if at == Opening then Opened(r, d)
         else if at == Backoff then Retry(r, d) else Signal(r, d);
    assert at != Exited;
    assert Next(s, a).runs[r].drains[d] ==
        if at == Checking then Opening else if at == Backoff then Checking else Watching;
    SafeStep(s, a);
    WakeupStep(s, a);
  }

  // Whatever an uncancelled run's drain is at, a failed open and an ended watch included, it
  // can get to watch by its own next steps and the source's next answer.
  lemma {:induction false} DrainGetsToWatch(s: State, r: nat, d: nat) returns (b: seq<State>, acts: seq<Action>)
    requires Inv(s) && r < |s.runs| && d < |s.runs[r].drains| && !s.runs[r].cancelled
    ensures Path(b, acts) && b[0] == s && (forall a :: a in acts ==> OfDrain(a, r, d))
    ensures DrainIn(b[|acts|], r, d, Watching)
    decreases ToWatch(s.runs[r].drains[d])
  {
    hide Inv, Enabled, Next;
    if DrainIn(s, r, d, Watching) {
      b, acts := [s], [];
    } else {
      var a := DrainComesCloser(s, r, d);
      var b', acts' := DrainGetsToWatch(Next(s, a), r, d);
      b, acts := [s] + b', [a] + acts';
      forall k | 0 <= k < |acts| ensures Enabled(b[k], acts[k]) && b[k + 1] == Next(b[k], acts[k]) {
        if k > 0 { assert acts[k] == acts'[k - 1] && b[k] == b'[k - 1] && b[k + 1] == b'[k]; }
      }
    }
  }

  // From any state the pipeline can settle by itself.
  lemma {:induction false} PipelineSettles(s: State) returns (b: seq<State>, acts: seq<Action>)
    requires Inv(s)
    ensures Path(b, acts) && b[0] == s && (forall k :: 0 <= k < |acts| ==> Internal(b[k], acts[k]))
    ensures Inv(b[|acts|]) && Quiescent(b[|acts|]) && b[|acts|].events == s.events
    decreases LockWork(s), RunsWork(s.runs), OfferWork(s), SubsWork(s.subs)
  {
    hide Inv, Enabled, Next, LockWork, RunsWork, OfferWork, SubsWork;
    if Quiescent(s) {
      b, acts := [s], [];
    } else {
      var a :| Ready(s, a);
      SafeStepOfInv(s, a);
      InternalStepUsesWork(s, a);
      var b', acts' := PipelineSettles(Next(s, a));
      b, acts := [s] + b', [a] + acts';
      forall k | 0 <= k < |acts|
        ensures Enabled(b[k], acts[k]) && b[k + 1] == Next(b[k], acts[k]) && Internal(b[k], acts[k])
      {
        if k > 0 { assert acts[k] == acts'[k - 1] && b[k] == b'[k - 1] && b[k + 1] == b'[k]; }
      }
    }
  }

  lemma SafeStepOfInv(s: State, a: Action)
    requires Inv(s) && Enabled(s, a)
    ensures Inv(Next(s, a))
    ensures Internal(s, a) ==> Next(s, a).events == s.events
  {
    SafeStep(s, a);
    WakeupStep(s, a);
  }

  // An event that a drain receives: at once every registered subscriber has a token or a
  // list coming, or the signal is on its way to a dispatch; and the pipeline can bring
  // itself to a state in which every registered one has listed after it.
  lemma EventReachesEveryone(s: State, r: nat, d: nat) returns (b: seq<State>, acts: seq<Action>)
    requires Inv(s) && DrainIn(s, r, d, Watching)
    ensures Enabled(s, Event(r, d)) && Next(s, Event(r, d)).events == s.events + 1
    ensures var t := Next(s, Event(r, d)); forall i :: 0 <= i < |t.subs| && t.subs[i].member ==> Pending(t, i)
    ensures Path(b, acts) && b[0] == Next(s, Event(r, d)) && (forall k :: 0 <= k < |acts| ==> Internal(b[k], acts[k]))
    ensures var t := b[|acts|]; forall i :: 0 <= i < |t.subs| && t.subs[i].member ==> s.events < t.subs[i].seen
  {
    var t := Next(s, Event(r, d));
    assert t.runs[r].drains[d] == Got;
    assert InFlight(t.runs[r]);
    SafeStepOfInv(s, Event(r, d));
    b, acts := PipelineSettles(t);
    QuiescentIsFresh(b[|acts|]);
  }

  /******* The hub's methods *******/

  // The critical sections as the code runs them, each a sequence of the steps above.
  class Hub {
    var s: State

    constructor (sources: nat)
      ensures Init(s) && Inv(s) && s.sources == sources
    {
      s := State(sources, Free, [], [], false, 0, 0, false);
    }

    method Step(a: Action)
      requires Inv(s) && Enabled(s, a)
      modifies this
      ensures Inv(s) && s == Next(old(s), a)
    {
      SafeStep(s, a);
      WakeupStep(s, a);
      s := Next(s, a);
    }

    // Registers a new channel and starts the watches if none run.
    method Subscribe() returns (ch: nat)
      requires Inv(s) && s.mu == Free
      modifies this
      ensures Inv(s) && s.mu == Free && s.started && s.events == old(s.events)
      ensures ch == |old(s.subs)| && s.subs == old(s.subs) + [Sub(true, false, false, true, 0)]
      ensures old(s.started) ==> s.runs == old(s.runs) && s.current == old(s.current)
      ensures !old(s.started) ==>
                && s.current == |old(s.runs)|
                && s.runs == old(s.runs) + [Run(false, seq(s.sources, _ => Checking), false, false, Receiving)]
    {
      hide Inv, Members;
      ch := |s.subs|;
      Step(Join);
      Step(Insert);
      Step(Start);
      StartedWhenUnlocked(s, ch);
    }

    // Removes and closes a channel, once; the last one to leave cancels the watches.
    method Unsubscribe(ch: nat)
      requires Inv(s) && s.mu == Free && ch < |s.subs|
      modifies this
      ensures Inv(s) && s.mu == Free && s.events == old(s.events)
      ensures var sub := old(s.subs[ch]);
              s.subs == old(s.subs)[ch := if sub.member then sub.(member := false, closed := true) else sub]
      ensures s.started <==> Members(s.subs) != {}
      ensures s.started || !old(s.started) ==> s.runs == old(s.runs)
      ensures old(s.started) && !s.started ==>
                && old(s.current) < |old(s.runs)|
                && s.runs == old(s.runs)[old(s.current) := old(s.runs[s.current]).(cancelled := true)]
    {
      hide NoLostWakeup, RunOk, Members;
      Step(Leave(ch));
      Step(Remove);
      Step(Stop);
    }

    // One turn of the run loop: take a signal and hand every registered channel a token.
    method Dispatch(r: nat)
      requires Inv(s) && Enabled(s, Receive(r)) && s.mu == Free
      modifies this
      ensures Inv(s) && s.mu == Free && s.started == old(s.started) && s.events == old(s.events)
      ensures |s.subs| == |old(s.subs)|
      ensures forall i :: 0 <= i < |s.subs| ==>
                s.subs[i] == if old(s.subs[i].member) then old(s.subs[i]).(token := true) else old(s.subs[i])
      ensures s.runs == old(s.runs)[r := old(s.runs[r]).(out := false)]
    {
      hide Inv;
      Step(Receive(r));
      Step(Lock(r));
      ghost var before := s.subs;
      while s.mu.todo != {}
        invariant Inv(s) && s.mu.Dispatching? && s.mu.r == r
        invariant s.started == old(s.started) && s.events == old(s.events)
        invariant |s.subs| == |before| && s.mu.todo <= Members(before)
        invariant forall i :: 0 <= i < |before| ==>
                    s.subs[i] == if before[i].member && i !in s.mu.todo then before[i].(token := true) else before[i]
        invariant s.runs == old(s.runs)[r := old(s.runs[r]).(out := false, loop := Sending)]
        decreases s.mu.todo
      {
        var ch :| ch in s.mu.todo;
        Step(Offer(ch));
      }
      Step(Unlock);
    }
  }

  lemma StartedWhenUnlocked(s: State, ch: nat)
    requires Inv(s) && s.mu == Free && ch < |s.subs| && s.subs[ch].member
    ensures s.started
  {
    assert ch in Members(s.subs);
  }
}
