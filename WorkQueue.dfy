/** The shared work queue of directories with its termination rule
    (`WorkQ`, `wq_init`, `wq_push_owned`, `wq_pop`, `wq_done_one`).

    The queue is modelled sequentially: each operation's critical section
    is one atomic step.  Where `wq_pop` would sleep on the condition
    variable it returns `Wait` with the state unchanged; the caller calls
    it again, as the source's `for (;;)` loop re-checks after waking. */
module WorkQueue {
  import opened WideStr

  /** The queue's abstract state: pending directories in FIFO order, the
      number of popped directories not yet finished, and the stop flag. */
  datatype QState = QState(pending: seq<WStr>, active: int, stop: bool)

  /** What one call of `wq_pop` does: hand out a directory, tell the
      caller to stop (the source returns NULL), or block. */
  datatype PopResult = Item(dir: WStr) | Stop | Wait

  datatype PopOutcome = PopOutcome(result: PopResult, next: QState)

  /** The state `wq_init` sets up. */
  function Initial(): QState {
    QState([], 0, false)
  }

  /** `wq_push_owned`: appends at the tail unless the node could not be
      allocated, in which case the directory is dropped.  It does not
      look at `stop` and does not touch `active`. */
  function PushStep(s: QState, d: WStr, nodeOk: bool): (t: QState)
    ensures t.active == s.active && t.stop == s.stop
    ensures nodeOk ==> t.pending == s.pending + [d]
    ensures !nodeOk ==> t == s
  {
    if nodeOk then s.(pending := s.pending + [d]) else s
  }

  /** One pass of the `for (;;)` body of `wq_pop`. */
  function PopStep(s: QState): (o: PopOutcome)
    ensures s.stop ==> o == PopOutcome(Stop, s)
    ensures o.next.stop <==> s.stop || (s.pending == [] && s.active == 0)
    ensures o.result.Stop? <==> o.next.stop
    ensures o.result.Item? <==> !s.stop && s.pending != []
    ensures o.result.Item? ==>
              (o.result.dir == s.pending[0] && o.next.pending == s.pending[1..] &&
               o.next.active == s.active + 1)
    ensures !o.result.Item? ==> o.next.pending == s.pending && o.next.active == s.active
    ensures o.result.Wait? ==> o.next == s
  {
    if s.stop then PopOutcome(Stop, s)
    else if s.pending != [] then
      PopOutcome(Item(s.pending[0]), s.(pending := s.pending[1..], active := s.active + 1))
    else if s.active == 0 then PopOutcome(Stop, s.(stop := true))
    else PopOutcome(Wait, s)
  }

  /** `wq_done_one`: one popped directory is finished. */
  function DoneStep(s: QState): (t: QState)
    ensures t.active == s.active - 1
    ensures t.pending == s.pending && t.stop == s.stop
  {
    s.(active := s.active - 1)
  }

  /** The queue object.  The linked list `head`..`tail` is its sequence
      of pending directories; the lock and condition variable are not
      modelled. */
  class WorkQ {
    var pending: seq<WStr>
    var active: int
    var stop: bool

    function State(): QState
      reads this
    {
      QState(pending, active, stop)
    }

    /** `wq_init`. */
    constructor ()
      ensures State() == Initial()
    {
      pending := [];
      active := 0;
      stop := false;
    }

    /** `wq_push_owned`; `nodeOk` says whether the list node was
        allocated. */
    method PushOwned(d: WStr, nodeOk: bool)
      modifies this
      ensures State() == PushStep(old(State()), d, nodeOk)
      ensures active == old(active) && stop == old(stop)
    {
      if !nodeOk {
        return;
      }
      pending := pending + [d];
    }

    /** `wq_pop` up to the point where it would block. */
    method Pop() returns (r: PopResult)
      modifies this
      ensures PopOutcome(r, State()) == PopStep(old(State()))
    {
      if stop {
        return Stop;
      }
      if pending != [] {
        r := Item(pending[0]);
        pending := pending[1..];
        active := active + 1;
        return;
      }
      if active == 0 {
        stop := true;
        return Stop;
      }
      return Wait;
    }

    /** `wq_done_one`. */
    method DoneOne()
      modifies this
      ensures State() == DoneStep(old(State()))
    {
      active := active - 1;
    }
  }

  // ---------------------------------------------------------------------
  // Runs of queue operations

  /** One call of a queue operation, as some thread makes it. */
  datatype Op = PushOp(dir: WStr, nodeOk: bool) | PopOp | DoneOp

  function Step(s: QState, op: Op): QState {
    match op
    case PushOp(d, ok) => PushStep(s, d, ok)
    case PopOp => PopStep(s).next
    case DoneOp => DoneStep(s)
  }

  /** The state after running `ops` in order from `s`. */
  function Run(s: QState, ops: seq<Op>): QState
    decreases |ops|
  {
    if ops == [] then s else Run(Step(s, ops[0]), ops[1..])
  }

  /** What each `PopOp` of the run returned, in order. */
  function PopResults(s: QState, ops: seq<Op>): seq<PopResult>
    decreases |ops|
  {
    if ops == [] then []
    else
      var rest := PopResults(Step(s, ops[0]), ops[1..]);
      if ops[0].PopOp? then [PopStep(s).result] + rest else rest
  }

  /** The directories the run's pops handed out, in order. */
  function Popped(s: QState, ops: seq<Op>): seq<WStr>
    decreases |ops|
  {
    if ops == [] then []
    else
      var rest := Popped(Step(s, ops[0]), ops[1..]);
      if ops[0].PopOp? && PopStep(s).result.Item? then [PopStep(s).result.dir] + rest else rest
  }

  /** The directories the run's pushes enqueued, in order. */
  function Pushed(ops: seq<Op>): seq<WStr>
    decreases |ops|
  {
    if ops == [] then []
    else if ops[0].PushOp? && ops[0].nodeOk then [ops[0].dir] + Pushed(ops[1..])
    else Pushed(ops[1..])
  }

  /** FIFO: whatever was pending or pushed has either been handed out, in
      that order, or is still pending behind everything handed out. */
  lemma {:induction false} FifoOrder(s: QState, ops: seq<Op>)
    ensures Popped(s, ops) + Run(s, ops).pending == s.pending + Pushed(ops)
    decreases |ops|
  {
    if ops != [] {
      var t := Step(s, ops[0]);
      FifoOrder(t, ops[1..]);
      match ops[0]
      case PushOp(d, ok) =>
        if ok {
          assert t.pending == s.pending + [d];
          assert Pushed(ops) == [d] + Pushed(ops[1..]);
        }
      case PopOp =>
        assert Pushed(ops) == Pushed(ops[1..]);
        if PopStep(s).result.Item? {
          assert Popped(s, ops) == [s.pending[0]] + Popped(t, ops[1..]);
          assert s.pending == [s.pending[0]] + t.pending;
          assert Run(s, ops) == Run(t, ops[1..]);
          calc {
            Popped(s, ops) + Run(s, ops).pending;
            [s.pending[0]] + (Popped(t, ops[1..]) + Run(t, ops[1..]).pending);
            [s.pending[0]] + (t.pending + Pushed(ops[1..]));
            s.pending + Pushed(ops);
          }
        } else {
          assert Popped(s, ops) == Popped(t, ops[1..]);
        }
      case DoneOp =>
        assert Pushed(ops) == Pushed(ops[1..]);
    }
  }

  /** `stop` is never cleared, and once it is set every later pop
      returns `Stop`, whatever is pushed or finished meanwhile. */
  lemma {:induction false} StopIsPermanent(s: QState, ops: seq<Op>)
    requires s.stop
    ensures Run(s, ops).stop
    ensures forall k | 0 <= k < |PopResults(s, ops)| :: PopResults(s, ops)[k] == Stop
    decreases |ops|
  {
    if ops != [] {
      StopIsPermanent(Step(s, ops[0]), ops[1..]);
    }
  }

  /** A fresh `stop` is set only at a pop that found the queue empty and
      no directory in progress. */
  lemma {:induction false} StopOnlyAtQuiescence(s: QState, ops: seq<Op>)
    requires !s.stop && Run(s, ops).stop
    ensures exists k | 0 <= k < |ops| ::
              ops[k] == PopOp && !Run(s, ops[..k]).stop &&
              Run(s, ops[..k]).pending == [] && Run(s, ops[..k]).active == 0
    decreases |ops|
  {
    var t := Step(s, ops[0]);
    assert ops[..1] == [ops[0]];
    assert Run(s, ops[..1]) == t by {
      assert ops[..1][1..] == [];
    }
    if t.stop {
      assert ops[0] == PopOp;
      assert ops[..0] == [];
    } else {
      StopOnlyAtQuiescence(t, ops[1..]);
      var k :| 0 <= k < |ops[1..]| &&
        ops[1..][k] == PopOp && !Run(t, ops[1..][..k]).stop &&
        Run(t, ops[1..][..k]).pending == [] && Run(t, ops[1..][..k]).active == 0;
      assert ops[..k + 1][0] == ops[0] && ops[..k + 1][1..] == ops[1..][..k];
      assert Run(s, ops[..k + 1]) == Run(t, ops[1..][..k]);
    }
  }

  /** The discipline of `worker_thread` (the root was pushed before any
      worker started): every push and every `wq_done_one` comes from a
      worker holding a popped directory; `held` counts those. */
  predicate WorkerRun(s: QState, held: nat, ops: seq<Op>)
    decreases |ops|
  {
    if ops == [] then true
    else match ops[0]
      case PushOp(d, ok) => held > 0 && WorkerRun(PushStep(s, d, ok), held, ops[1..])
      case PopOp =>
        var o := PopStep(s);
        WorkerRun(o.next, if o.result.Item? then held + 1 else held, ops[1..])
      case DoneOp => held > 0 && WorkerRun(DoneStep(s), held - 1, ops[1..])
  }

  /** The part of that discipline `active` depends on: every
      `wq_done_one` comes from a thread holding a popped directory, while
      pushes may come from anyone (the main thread's seed push
      included). */
  predicate DonesMatchPops(s: QState, held: nat, ops: seq<Op>)
    decreases |ops|
  {
    if ops == [] then true
    else match ops[0]
      case PushOp(d, ok) => DonesMatchPops(PushStep(s, d, ok), held, ops[1..])
      case PopOp =>
        var o := PopStep(s);
        DonesMatchPops(o.next, if o.result.Item? then held + 1 else held, ops[1..])
      case DoneOp => held > 0 && DonesMatchPops(DoneStep(s), held - 1, ops[1..])
  }

  /** The worker discipline implies the weaker one. */
  lemma {:induction false} WorkerRunMatchesPops(s: QState, held: nat, ops: seq<Op>)
    requires WorkerRun(s, held, ops)
    ensures DonesMatchPops(s, held, ops)
    decreases |ops|
  {
    if ops != [] {
      match ops[0]
      case PushOp(d, ok) => WorkerRunMatchesPops(PushStep(s, d, ok), held, ops[1..]);
      case PopOp =>
        var o := PopStep(s);
        WorkerRunMatchesPops(o.next, if o.result.Item? then held + 1 else held, ops[1..]);
      case DoneOp => WorkerRunMatchesPops(DoneStep(s), held - 1, ops[1..]);
    }
  }

  /** How many directories the workers hold after `ops`, starting from
      `held`: one more per pop that hands one out, one fewer per
      `wq_done_one`. */
  function HeldAfter(s: QState, held: int, ops: seq<Op>): int
    decreases |ops|
  {
    if ops == [] then held
    else
      var h := match ops[0]
        case PushOp(_, _) => held
        case PopOp => if PopStep(s).result.Item? then held + 1 else held
        case DoneOp => held - 1;
      HeldAfter(Step(s, ops[0]), h, ops[1..])
  }

  /** `active` counts the directories the workers hold: whatever the
      run, it moves exactly as that count does. */
  lemma {:induction false} ActiveIsHeld(s: QState, held: int, ops: seq<Op>)
    requires s.active == held
    ensures Run(s, ops).active == HeldAfter(s, held, ops)
    decreases |ops|
  {
    if ops != [] {
      var h := match ops[0]
        case PushOp(_, _) => held
        case PopOp => if PopStep(s).result.Item? then held + 1 else held
        case DoneOp => held - 1;
      ActiveIsHeld(Step(s, ops[0]), h, ops[1..]);
    }
  }

  /** When every `wq_done_one` follows a pop that handed out a directory,
      `active` counts the directories in progress and never goes
      negative at any point of the run. */
  lemma {:induction false} ActiveNeverNegative(s: QState, held: nat, ops: seq<Op>)
    requires s.active == held && DonesMatchPops(s, held, ops)
    ensures forall k | 0 <= k <= |ops| :: Run(s, ops[..k]).active == HeldAfter(s, held, ops[..k])
    ensures forall k | 0 <= k <= |ops| :: Run(s, ops[..k]).active >= 0
    decreases |ops|
  {
    forall k | 0 <= k <= |ops| ensures Run(s, ops[..k]).active == HeldAfter(s, held, ops[..k]) {
      ActiveIsHeld(s, held, ops[..k]);
    }
    if ops != [] {
      var t := Step(s, ops[0]);
      var h: nat := match ops[0]
        case PushOp(_, _) => held
        case PopOp => if PopStep(s).result.Item? then held + 1 else held
        case DoneOp => held - 1;
      ActiveNeverNegative(t, h, ops[1..]);
      forall k | 0 <= k <= |ops| ensures Run(s, ops[..k]).active >= 0 {
        if k > 0 {
          assert ops[..k][0] == ops[0] && ops[..k][1..] == ops[1..][..k - 1];
        }
      }
    }
  }

  /** The queue never stops too early: from a running queue whose
      `active` is the number of directories held, the pop that sets
      `stop` finds nothing pending and no worker holding a directory. */
  lemma NothingHeldAtStop(s: QState, held: int, ops: seq<Op>)
    requires !s.stop && s.active == held && Run(s, ops).stop
    ensures exists k | 0 <= k < |ops| ::
              ops[k] == PopOp && !Run(s, ops[..k]).stop &&
              Run(s, ops[..k]).pending == [] && HeldAfter(s, held, ops[..k]) == 0
  {
    StopOnlyAtQuiescence(s, ops);
    var k :| 0 <= k < |ops| &&
      ops[k] == PopOp && !Run(s, ops[..k]).stop &&
      Run(s, ops[..k]).pending == [] && Run(s, ops[..k]).active == 0;
    ActiveIsHeld(s, held, ops[..k]);
  }

  /** Termination is final: once the queue has stopped with nothing
      pending and nothing in progress, no worker can push or finish
      anything and every pop leaves the state as it is. */
  lemma {:induction false} StopIsFinal(s: QState, ops: seq<Op>)
    requires s.stop && s.pending == [] && s.active == 0
    requires WorkerRun(s, 0, ops)
    ensures Run(s, ops) == s
    decreases |ops|
  {
    if ops != [] {
      assert ops[0] == PopOp;
      StopIsFinal(s, ops[1..]);
    }
  }

  /** Running `a` and then `b` is running `a + b`. */
  lemma {:induction false} RunAppend(s: QState, a: seq<Op>, b: seq<Op>)
    ensures Run(s, a + b) == Run(Run(s, a), b)
    decreases |a|
  {
    if a != [] {
      assert (a + b)[0] == a[0] && (a + b)[1..] == a[1..] + b;
      RunAppend(Step(s, a[0]), a[1..], b);
    } else {
      assert a + b == b;
    }
  }

  /** What `a + b` pushes is what `a` pushes, then what `b` pushes. */
  lemma {:induction false} PushedAppend(a: seq<Op>, b: seq<Op>)
    ensures Pushed(a + b) == Pushed(a) + Pushed(b)
    decreases |a|
  {
    if a != [] {
      assert (a + b)[0] == a[0] && (a + b)[1..] == a[1..] + b;
      PushedAppend(a[1..], b);
      if a[0].PushOp? && a[0].nodeOk {
        assert [a[0].dir] + (Pushed(a[1..]) + Pushed(b)) == [a[0].dir] + Pushed(a[1..]) + Pushed(b);
      }
    } else {
      assert a + b == b;
    }
  }

  predicate OnlyPushes(ops: seq<Op>) {
    forall i | 0 <= i < |ops| :: ops[i].PushOp?
  }

  /** A burst of pushes by a thread holding a directory appends what it
      pushes and leaves the discipline as it was for what follows. */
  lemma {:induction false} RunPushes(s: QState, held: nat, ops: seq<Op>, rest: seq<Op>)
    requires OnlyPushes(ops) && held > 0
    ensures Run(s, ops) == s.(pending := s.pending + Pushed(ops))
    ensures WorkerRun(s, held, ops + rest) <==> WorkerRun(Run(s, ops), held, rest)
    decreases |ops|
  {
    if ops == [] {
      assert ops + rest == rest;
    } else {
      assert (ops + rest)[0] == ops[0] && (ops + rest)[1..] == ops[1..] + rest;
      var t := PushStep(s, ops[0].dir, ops[0].nodeOk);
      RunPushes(t, held, ops[1..], rest);
      if ops[0].nodeOk {
        assert s.pending + [ops[0].dir] + Pushed(ops[1..]) == s.pending + ([ops[0].dir] + Pushed(ops[1..]));
      }
    }
  }

  /** The main thread's start: after `wq_init` and pushing the root, the
      first pop hands out the root and counts it active; a second pop
      then has to wait, because the root is still being expanded. */
  lemma SeededStart(root: WStr)
    ensures var s := PushStep(Initial(), root, true);
      PopStep(s).result == Item(root) &&
      PopStep(s).next == QState([], 1, false) &&
      PopStep(PopStep(s).next).result == Wait
  {
  }
}
