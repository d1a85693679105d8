/** The per-endpoint limiter of the 123 Open driver: a channel of capacity `qps` that `Require` sends
    into, timers that receive from it one second after `Release`, and requests that retry in a loop
    while their deferred releases pile up. Time is counted in nanoseconds. */
module RateLimiter {
  import opened Common

  const SECOND: nat := 1_000_000_000

  /** Where the channel slot taken by an acquisition is now: held by a request whose release is still
      deferred, waiting for its timer, or received again. */
  datatype Slot = Held(req: nat) | Timed(due: nat) | Free

  /** A request at the top of its loop, blocked in `Require`, past it, or returned. */
  datatype Phase = Preparing | Blocked | Executing | Finished

  /** `times` lists all acquisitions so far, in order, and `slots` what became of their slots. */
  datatype State = State(now: nat, reqs: map<nat, Phase>, times: seq<nat>, slots: seq<Slot>)

  const IDLE := State(0, map[], [], [])

  datatype Step =
    | Arrive(req: nat)      // `Request` is called
    | Enter(req: nat)       // it calls `Require`
    | Acquire(req: nat)     // `Require` returns
    | Retry(req: nat)       // response code 401 or 429
    | Return(req: nat)      // all deferred releases run
    | Fire(i: nat)          // the timer of acquisition i receives from the channel
    | Tick(d: nat)

  /** The number of tokens in the channel. */
  function Live(ss: seq<Slot>): (n: nat)
    ensures n <= |ss|
  {
    if ss == [] then 0 else Live(ss[..|ss| - 1]) + if ss[|ss| - 1].Free? then 0 else 1
  }

  /** All slots held by `r` get a timer. */
  function Released(ss: seq<Slot>, r: nat, due: nat): (ss': seq<Slot>)
    ensures |ss'| == |ss| && forall i :: 0 <= i < |ss| ==> ss'[i] == if ss[i] == Held(r) then Timed(due) else ss[i]
  {
    seq(|ss|, i requires 0 <= i < |ss| => if ss[i] == Held(r) then Timed(due) else ss[i])
  }

  function Next(qps: nat, s: State, step: Step): Option<State> {
    match step
    case Arrive(r) => if r in s.reqs then None else Some(s.(reqs := s.reqs[r := Preparing]))
    case Enter(r) => if r in s.reqs && s.reqs[r].Preparing? then Some(s.(reqs := s.reqs[r := Blocked])) else None
    case Acquire(r) =>
      if r in s.reqs && s.reqs[r].Blocked? && Live(s.slots) < qps
      then Some(State(s.now, s.reqs[r := Executing], s.times + [s.now], s.slots + [Held(r)])) else None
    case Retry(r) => if r in s.reqs && s.reqs[r].Executing? then Some(s.(reqs := s.reqs[r := Preparing])) else None
    case Return(r) =>
      if r in s.reqs && (s.reqs[r].Preparing? || s.reqs[r].Executing?)
      then Some(s.(reqs := s.reqs[r := Finished], slots := Released(s.slots, r, s.now + SECOND))) else None
    case Fire(i) =>
      if i < |s.slots| && s.slots[i].Timed? && s.slots[i].due <= s.now
      then Some(s.(slots := s.slots[i := Free])) else None
    case Tick(d) => Some(s.(now := s.now + d))
  }

  /** The state after `run`, starting from `s`; None when one of its steps is not enabled. */
  function From(qps: nat, s: State, run: seq<Step>): Option<State> {
    if run == [] then Some(s)
    else
      var before := From(qps, s, run[..|run| - 1]);
      if before.None? then None else Next(qps, before.value, run[|run| - 1])
  }

  // ----- Safety: the rate

  /** Acquisitions are in order of time, and any two that are `qps` or more apart in the list are at
      least a second apart in time. */
  ghost predicate Paced(qps: nat, times: seq<nat>) {
    && (forall i, j :: 0 <= i < j < |times| ==> times[i] <= times[j])
    && (forall i, j :: 0 <= i && i + qps <= j < |times| ==> times[i] + SECOND <= times[j])
  }

  /** A slot is held by a request that still runs, or timed a second after its acquisition at least,
      or free since then. */
  ghost predicate SlotOk(time: nat, slot: Slot, now: nat, reqs: map<nat, Phase>) {
    && time <= now
    && match slot
       case Held(r) => r in reqs && !reqs[r].Finished?
       case Timed(due) => time + SECOND <= due
       case Free => time + SECOND <= now
  }

  ghost predicate SlotsOk(s: State) {
    |s.times| == |s.slots| && forall i :: 0 <= i < |s.times| ==> SlotOk(s.times[i], s.slots[i], s.now, s.reqs)
  }

  ghost predicate Inv(qps: nat, s: State) {
    Paced(qps, s.times) && SlotsOk(s) && Live(s.slots) <= qps
  }

  /** If the last `k` slots are all taken, there are at least `k` tokens in the channel. */
  lemma {:induction false} LastTaken(ss: seq<Slot>, k: nat)
    requires k <= |ss| && forall i :: |ss| - k <= i < |ss| ==> !ss[i].Free?
    ensures Live(ss) >= k
  {
    if k > 0 {
      LastTaken(ss[..|ss| - 1], k - 1);
    }
  }

  lemma {:induction false} LiveFreed(ss: seq<Slot>, i: nat)
    requires i < |ss| && !ss[i].Free?
    ensures Live(ss[i := Free]) == Live(ss) - 1
  {
    var n := |ss| - 1;
    if i < n {
      LiveFreed(ss[..n], i);
      assert ss[i := Free][..n] == ss[..n][i := Free];
    } else {
      assert ss[i := Free][..n] == ss[..n];
    }
  }

  lemma {:induction false} LiveReleased(ss: seq<Slot>, r: nat, due: nat)
    ensures Live(Released(ss, r, due)) == Live(ss)
  {
    if ss != [] {
      var n := |ss| - 1;
      LiveReleased(ss[..n], r, due);
      assert Released(ss, r, due)[..n] == Released(ss[..n], r, due);
    }
  }

  /** The channel has room only if one of the last `qps` slots was given back. */
  lemma {:induction false} RoomMeansFree(qps: nat, ss: seq<Slot>) returns (j: nat)
    requires qps <= |ss| && Live(ss) < qps
    ensures |ss| - qps <= j < |ss| && ss[j].Free?
  {
    if forall i :: |ss| - qps <= i < |ss| ==> !ss[i].Free? {
      LastTaken(ss, qps);
    }
    j :| |ss| - qps <= j < |ss| && ss[j].Free?;
  }

  lemma {:induction false} AcquirePaces(qps: nat, s: State)
    requires qps > 0 && Inv(qps, s) && Live(s.slots) < qps
    ensures Paced(qps, s.times + [s.now])
  {
    if |s.times| >= qps {
      var j := RoomMeansFree(qps, s.slots);
      assert SlotOk(s.times[j], s.slots[j], s.now, s.reqs);
      forall i | 0 <= i && i + qps <= |s.times|
        ensures s.times[i] + SECOND <= s.now
      {
        assert i == j || s.times[i] <= s.times[j];
      }
    }
    forall i | 0 <= i < |s.times|
      ensures s.times[i] <= s.now
    {
      assert SlotOk(s.times[i], s.slots[i], s.now, s.reqs);
    }
  }

  /** Replacing slots by slots that are in order keeps the slots in order. */
  lemma {:induction false} SlotsKept(s: State, s': State)
    requires SlotsOk(s) && s'.times == s.times && |s'.slots| == |s.slots|
    requires forall i :: 0 <= i < |s.slots| ==>
      SlotOk(s.times[i], s.slots[i], s.now, s.reqs) ==> SlotOk(s.times[i], s'.slots[i], s'.now, s'.reqs)
    ensures SlotsOk(s')
  {
  }

  lemma {:induction false} AcquireKeeps(qps: nat, s: State, r: nat)
    requires qps > 0 && Inv(qps, s) && Next(qps, s, Acquire(r)).Some?
    ensures Inv(qps, Next(qps, s, Acquire(r)).value)
  {
    AcquirePaces(qps, s);
    assert (s.slots + [Held(r)])[..|s.slots|] == s.slots;
  }

  lemma {:induction false} ReturnKeeps(qps: nat, s: State, r: nat)
    requires qps > 0 && Inv(qps, s) && Next(qps, s, Return(r)).Some?
    ensures Inv(qps, Next(qps, s, Return(r)).value)
  {
    LiveReleased(s.slots, r, s.now + SECOND);
    SlotsKept(s, Next(qps, s, Return(r)).value);
  }

  lemma {:induction false} FireKeeps(qps: nat, s: State, i: nat)
    requires qps > 0 && Inv(qps, s) && Next(qps, s, Fire(i)).Some?
    ensures Inv(qps, Next(qps, s, Fire(i)).value)
  {
    LiveFreed(s.slots, i);
    SlotsKept(s, Next(qps, s, Fire(i)).value);
  }

  lemma {:induction false} NextKeeps(qps: nat, s: State, step: Step)
    requires qps > 0 && Inv(qps, s) && Next(qps, s, step).Some?
    ensures Inv(qps, Next(qps, s, step).value)
  {
    match step
    case Acquire(r) => AcquireKeeps(qps, s, r);
    case Return(r) => ReturnKeeps(qps, s, r);
    case Fire(i) => FireKeeps(qps, s, i);
    case _ => SlotsKept(s, Next(qps, s, step).value);
  }

  lemma {:induction false} RunKeeps(qps: nat, s: State, run: seq<Step>)
    requires qps > 0 && Inv(qps, s) && From(qps, s, run).Some?
    ensures Inv(qps, From(qps, s, run).value)
  {
    if run != [] {
      var n := |run| - 1;
      RunKeeps(qps, s, run[..n]);
      NextKeeps(qps, From(qps, s, run[..n]).value, run[n]);
    }
  }

  /** In every run the k-th and the (k + qps)-th acquisition are at least a second apart. */
  lemma {:induction false} RateIsKept(qps: nat, run: seq<Step>, k: nat)
    requires qps > 0 && From(qps, IDLE, run).Some?
    requires k + qps < |From(qps, IDLE, run).value.times|
    ensures
      var times := From(qps, IDLE, run).value.times;
      times[k] + SECOND <= times[k + qps]
  {
    RunKeeps(qps, IDLE, run);
  }

  // ----- Liveness: when a blocked request waits for ever

  /** Every token in the channel belongs to a request that is itself blocked in `Require`. */
  ghost predicate Stuck(qps: nat, s: State) {
    && Live(s.slots) >= qps
    && forall i :: 0 <= i < |s.slots| && !s.slots[i].Free? ==> HeldByBlocked(s, s.slots[i])
  }

  predicate HeldByBlocked(s: State, slot: Slot) {
    slot.Held? && slot.req in s.reqs && s.reqs[slot.req].Blocked?
  }

  lemma {:induction false} StuckStep(qps: nat, s: State, step: Step)
    requires Stuck(qps, s) && Next(qps, s, step).Some?
    ensures Stuck(qps, Next(qps, s, step).value) && Next(qps, s, step).value.slots == s.slots
  {
    if step.Return? {
      assert forall i :: 0 <= i < |s.slots| ==> s.slots[i] != Held(step.req);
      assert Released(s.slots, step.req, s.now + SECOND) == s.slots;
    }
  }

  lemma {:induction false} StuckForever(qps: nat, s: State, run: seq<Step>)
    requires Stuck(qps, s) && From(qps, s, run).Some?
    ensures Stuck(qps, From(qps, s, run).value)
  {
    if run != [] {
      StuckForever(qps, s, run[..|run| - 1]);
      StuckStep(qps, From(qps, s, run[..|run| - 1]).value, run[|run| - 1]);
    }
  }

  lemma {:induction false} Extend(qps: nat, s: State, run: seq<Step>, step: Step)
    requires From(qps, s, run).Some?
    ensures From(qps, s, run + [step]) == Next(qps, From(qps, s, run).value, step)
  {
    assert (run + [step])[..|run|] == run;
  }

  /** The blocked request `r` can get through once slot `i` is given back by its timer. */
  ghost predicate TimerHelps(qps: nat, s: State, r: nat, i: nat) {
    && r in s.reqs && s.reqs[r].Blocked? && Live(s.slots) <= qps
    && i < |s.slots| && s.slots[i].Timed?
  }

  lemma {:induction false} ThroughTimer(qps: nat, s: State, r: nat, before: seq<Step>, i: nat) returns (run: seq<Step>)
    requires From(qps, s, before).Some? && TimerHelps(qps, From(qps, s, before).value, r, i)
    ensures From(qps, s, run).Some? && run != [] && run[|run| - 1] == Acquire(r)
  {
    run := before;
    var t := From(qps, s, run).value;
    var wait := Tick(if t.slots[i].due > t.now then t.slots[i].due - t.now else 0);
    Extend(qps, s, run, wait);
    run := run + [wait];
    LiveFreed(t.slots, i);
    Extend(qps, s, run, Fire(i));
    run := run + [Fire(i)];
    Extend(qps, s, run, Acquire(r));
    run := run + [Acquire(r)];
  }

  /** A slot held by a request that is not blocked gets its timer when that request returns. */
  lemma {:induction false} ReturnFirst(qps: nat, s: State, r: nat, i: nat) returns (run: seq<Step>)
    requires r in s.reqs && s.reqs[r].Blocked? && Live(s.slots) <= qps && i < |s.slots| && s.slots[i].Held?
    requires s.slots[i].req in s.reqs && (s.reqs[s.slots[i].req].Preparing? || s.reqs[s.slots[i].req].Executing?)
    ensures From(qps, s, run).Some? && TimerHelps(qps, From(qps, s, run).value, r, i)
  {
    var q := s.slots[i].req;
    Extend(qps, s, [], Return(q));
    LiveReleased(s.slots, q, s.now + SECOND);
    run := [] + [Return(q)];
  }

  /** From a state that is not stuck a blocked request can still get through. */
  lemma {:induction false} NotStuckGetsThrough(qps: nat, s: State, r: nat) returns (run: seq<Step>)
    requires Inv(qps, s) && r in s.reqs && s.reqs[r].Blocked? && !Stuck(qps, s)
    ensures From(qps, s, run).Some? && run != [] && run[|run| - 1] == Acquire(r)
  {
    run := [];
    if Live(s.slots) < qps {
      Extend(qps, s, run, Acquire(r));
      run := run + [Acquire(r)];
    } else {
      var i :| 0 <= i < |s.slots| && !s.slots[i].Free? && !HeldByBlocked(s, s.slots[i]);
      assert SlotOk(s.times[i], s.slots[i], s.now, s.reqs);
      if s.slots[i].Held? {
        run := ReturnFirst(qps, s, r, i);
      }
      run := ThroughTimer(qps, s, r, run, i);
    }
  }

  /** A blocked request can still acquire a token in some continuation exactly when the tokens are
      not all held by blocked requests. */
  lemma {:induction false} GetsThroughIff(qps: nat, s: State, r: nat)
    requires qps > 0 && Inv(qps, s) && r in s.reqs && s.reqs[r].Blocked?
    ensures (exists run :: From(qps, s, run).Some? && run != [] && run[|run| - 1] == Acquire(r)) <==> !Stuck(qps, s)
  {
    if Stuck(qps, s) {
      forall run | From(qps, s, run).Some? && run != []
        ensures run[|run| - 1] != Acquire(r)
      {
        StuckForever(qps, s, run[..|run| - 1]);
      }
    } else {
      var run := NotStuckGetsThrough(qps, s, r);
    }
  }

  lemma {:induction false} RetriesPileUp(qps: nat, k: nat) returns (run: seq<Step>)
    requires qps > 0 && k <= qps
    ensures From(qps, IDLE, run).Some?
    ensures
      var s := From(qps, IDLE, run).value;
      && s.reqs == map[0 := Blocked] && |s.slots| == k && Live(s.slots) == k
      && forall i :: 0 <= i < k ==> s.slots[i] == Held(0)
  {
    if k == 0 {
      Extend(qps, IDLE, [], Arrive(0));
      run := [] + [Arrive(0)];
    } else {
      run := RetriesPileUp(qps, k - 1);
      var ss := From(qps, IDLE, run).value.slots;
      assert (ss + [Held(0)])[..k - 1] == ss;
      Extend(qps, IDLE, run, Acquire(0));
      run := run + [Acquire(0)];
      Extend(qps, IDLE, run, Retry(0));
      run := run + [Retry(0)];
    }
    Extend(qps, IDLE, run, Enter(0));
    run := run + [Enter(0)];
  }

  /** For every positive limit a single request that keeps being told to retry ends up blocked for
      ever: it holds all tokens, and none of its deferred releases can run. */
  lemma {:induction false} SelfDeadlock(qps: nat) returns (run: seq<Step>)
    requires qps > 0
    ensures From(qps, IDLE, run).Some? && Stuck(qps, From(qps, IDLE, run).value)
    ensures From(qps, IDLE, run).value.reqs == map[0 := Blocked]
  {
    run := RetriesPileUp(qps, qps);
  }
}
