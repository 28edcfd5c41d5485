/**
 The prefetch protocol: what becomes of every accepted request, in every interleaving of callers and worker.
 */
module PrefetchQueue {
  import opened CacheState
  import opened Options

  datatype Fate = Pending | Active | Finished | Dropped

  /** Requests are numbered in the order of acceptance; `current` is the latest one the worker took. */
  datatype Ledger = Ledger(accepted: seq<Key>, fate: seq<Fate>, finished: seq<nat>, current: nat, dropped: nat)

  const EMPTY := Ledger([], [], [], 0, 0)

  function DropPending(led: Ledger, pending: nat): Ledger
    requires pending <= |led.fate|
  {
    led.(fate := led.fate[..|led.fate| - pending] + seq(pending, _ => Dropped), dropped := led.dropped + pending)
  }

  function Note(s: State, led: Ledger, op: Op): Ledger {
    match op
    case Prefetch(r) =>
      if Accepts(s, r) then led.(accepted := led.accepted + [r], fate := led.fate + [Pending]) else led
    case Clear => if |s.requests| <= |led.fate| then DropPending(led, |s.requests|) else led
    case CloseBegin => if |s.requests| <= |led.fate| then DropPending(led, |s.requests|) else led
    case WorkerTake =>
      if 0 < |s.requests| <= |led.fate| then
        var i := |led.fate| - |s.requests|;
        led.(fate := led.fate[i := Active], current := i)
      else led
    case WorkerDone =>
      if led.current < |led.fate| then
        led.(fate := led.fate[led.current := Finished], finished := led.finished + [led.current])
      else led
    case _ => led
  }

  function LedgerOf(ops: seq<Op>): Ledger
    requires Run(ops).Some?
  {
    if ops == [] then EMPTY
    else Note(Run(ops[..|ops| - 1]).value, LedgerOf(ops[..|ops| - 1]), ops[|ops| - 1])
  }

  predicate Busy(s: State) {
    s.worker.Taken? || s.worker.Loaded?
  }

  ghost predicate Increasing(s: seq<nat>) {
    forall i, j :: 0 <= i < j < |s| ==> s[i] < s[j]
  }

  ghost predicate Kept(s: State, led: Ledger) {
    var n := |led.accepted|;
    var head := n - |s.requests|;
    && |led.fate| == n && |s.requests| <= n
    && led.accepted[head..] == s.requests
    && (forall i :: 0 <= i < n ==> (led.fate[i] == Pending <==> i >= head))
    && (forall i :: 0 <= i < n ==> (led.fate[i] == Active <==> Busy(s) && i == led.current))
    && (Busy(s) ==> led.current < head && led.accepted[led.current] == s.worker.request)
    && Increasing(led.finished)
    && (forall k :: k in led.finished ==> k < head && (Busy(s) ==> k < led.current))
    && (forall i: nat :: i < n ==> (led.fate[i] == Finished <==> i in led.finished))
    && n == |led.finished| + (if Busy(s) then 1 else 0) + |s.requests| + led.dropped
  }

  lemma DropKeeps(s: State, led: Ledger, t: State)
    requires Kept(s, led) && t.requests == [] && t.worker == s.worker
    ensures Kept(t, DropPending(led, |s.requests|))
  {
    var after := DropPending(led, |s.requests|);
    assert forall i :: 0 <= i < |led.fate| - |s.requests| ==> after.fate[i] == led.fate[i];
  }

  lemma TakeKeeps(s: State, led: Ledger)
    requires Kept(s, led) && Enabled(s, WorkerTake)
    ensures Kept(Apply(s, WorkerTake), Note(s, led, WorkerTake))
  {
    var i := |led.accepted| - |s.requests|;
    assert led.accepted[i] == led.accepted[i..][0];
    assert led.accepted[i + 1..] == led.accepted[i..][1..];
  }

  lemma DoneKeeps(s: State, led: Ledger)
    requires Kept(s, led) && Enabled(s, WorkerDone)
    ensures Kept(Apply(s, WorkerDone), Note(s, led, WorkerDone))
  {
    var after := Note(s, led, WorkerDone);
    forall i: nat | i < |after.fate| ensures after.fate[i] == Finished <==> i in after.finished {
      assert i in after.finished <==> i in led.finished || i == led.current;
    }
    forall i, j | 0 <= i < j < |after.finished| ensures after.finished[i] < after.finished[j] {
      assert after.finished[i] in led.finished;
    }
  }

  /** Steps that leave the queue and the worker's request alone do not concern the ledger. */
  lemma SameQueueKeeps(s: State, led: Ledger, t: State)
    requires Kept(s, led) && t.requests == s.requests
    requires Busy(s) == Busy(t) && (Busy(s) ==> s.worker.request == t.worker.request)
    ensures Kept(t, led)
  {
  }

  lemma AcceptKeeps(s: State, led: Ledger, r: Key)
    requires Kept(s, led) && Accepts(s, r)
    ensures Kept(Apply(s, Prefetch(r)), Note(s, led, Prefetch(r)))
  {
    var after := Note(s, led, Prefetch(r));
    var head := |led.accepted| - |s.requests|;
    assert after.accepted[head..] == led.accepted[head..] + [r];
  }

  lemma StepKeeps(s: State, led: Ledger, op: Op)
    requires Kept(s, led) && Enabled(s, op)
    ensures Kept(Apply(s, op), Note(s, led, op))
  {
    hide Kept, LoadEffect, DropPending;
    match op
    case Prefetch(r) =>
      if Accepts(s, r) {
        AcceptKeeps(s, led, r);
      }
    case Clear =>
      KeptLengths(s, led);
      DropKeeps(s, led, Apply(s, op));
    case CloseBegin =>
      KeptLengths(s, led);
      DropKeeps(s, led, Apply(s, op));
    case WorkerTake => TakeKeeps(s, led);
    case WorkerDone => DoneKeeps(s, led);
    case Load(r, served) =>
      LoadFrame(s, r, served);
      SameQueueKeeps(s, led, Apply(s, op));
    case WorkerLoad(served) =>
      LoadFrame(s, s.worker.request, served);
      SameQueueKeeps(s, led, Apply(s, op));
    case _ => SameQueueKeeps(s, led, Apply(s, op));
  }

  lemma KeptLengths(s: State, led: Ledger)
    requires Kept(s, led)
    ensures |s.requests| <= |led.fate|
  {
  }

  lemma {:induction false} EveryRunKept(ops: seq<Op>)
    requires Run(ops).Some?
    ensures Kept(Run(ops).value, LedgerOf(ops))
  {
    hide Kept;
    if ops == [] {
      NothingKept();
    } else {
      EveryRunKept(ops[..|ops| - 1]);
      StepKeeps(Run(ops[..|ops| - 1]).value, LedgerOf(ops[..|ops| - 1]), ops[|ops| - 1]);
    }
  }

  lemma NothingKept()
    ensures Kept(INITIAL, EMPTY)
  {
  }

  // ---------- Theorems ----------

  /** In every interleaving: the queue is bounded; the active counter is one exactly while the worker holds a
      request; the pending requests are the latest accepted ones, in order; requests finish in the order of
      acceptance; and every accepted request is finished, active, pending or dropped, and counted once. */
  lemma EveryRequestHasOneFate(ops: seq<Op>)
    requires Run(ops).Some?
    ensures var s, led := Run(ops).value, LedgerOf(ops);
            var n := |led.accepted|;
            && |led.fate| == n && |s.requests| <= 64 && |s.requests| <= n
            && s.active == (if Busy(s) then 1 else 0)
            && led.accepted[n - |s.requests|..] == s.requests
            && (forall i :: 0 <= i < n ==> (led.fate[i] == Pending <==> i >= n - |s.requests|))
            && (forall i :: 0 <= i < n ==> (led.fate[i] == Active <==> Busy(s) && i == led.current))
            && (Busy(s) ==> led.current < n && led.accepted[led.current] == s.worker.request)
            && Increasing(led.finished)
            && (forall i: nat :: i < n ==> (led.fate[i] == Finished <==> i in led.finished))
            && n == |led.finished| + s.active + |s.requests| + led.dropped
  {
    EveryRunKept(ops);
    EveryRunKeepsInv(ops);
  }

  /** When `wait_idle` reports success, no accepted request is unaccounted for. */
  lemma IdleMeansDone(ops: seq<Op>)
    requires Run(ops).Some? && Run(ops).value.requests == [] && Run(ops).value.active == 0
    ensures var led := LedgerOf(ops);
            && (forall i :: 0 <= i < |led.fate| ==> led.fate[i] == Finished || led.fate[i] == Dropped)
            && |led.accepted| == |led.finished| + led.dropped
  {
    EveryRequestHasOneFate(ops);
    var led := LedgerOf(ops);
    forall i | 0 <= i < |led.fate| ensures led.fate[i] == Finished || led.fate[i] == Dropped {
      assert led.fate[i] != Pending && led.fate[i] != Active;
    }
  }

  /** The file is never closed under a working thread. */
  lemma NeverClosedUnderWorker(ops: seq<Op>)
    requires Run(ops).Some?
    ensures var s := Run(ops).value; !s.open ==> s.worker.NoWorker? && s.active == 0 && s.entries == []
  {
    EveryRunKeepsInv(ops);
  }

  /** The last step accepts a request although the worker has already left. */
  predicate AcceptsLate(ops: seq<Op>)
    requires Run(ops).Some?
  {
    ops != [] && ops[|ops| - 1].Prefetch? &&
    var s := Run(ops[..|ops| - 1]).value;
    s.worker.NoWorker? && Accepts(s, ops[|ops| - 1].wanted)
  }

  /** A request was accepted after the worker had left, and nothing since has dropped the queue. */
  predicate Stranded(ops: seq<Op>)
    requires Run(ops).Some?
  {
    ops != [] && !ops[|ops| - 1].Clear? && !ops[|ops| - 1].CloseBegin? && !ops[|ops| - 1].WorkerExit? &&
    (AcceptsLate(ops) || Stranded(ops[..|ops| - 1]))
  }

  /** Once the worker is gone, something is pending if and only if a request was stranded that way. */
  lemma {:induction false} PendingWithoutWorkerExactly(ops: seq<Op>)
    requires Run(ops).Some?
    ensures Run(ops).value.worker.NoWorker? ==> (Run(ops).value.requests != [] <==> Stranded(ops))
  {
    hide Accepts;
    if ops != [] {
      var u, op := ops[..|ops| - 1], ops[|ops| - 1];
      PendingWithoutWorkerExactly(u);
      match op
      case Load(r, served) => LoadFrame(Run(u).value, r, served);
      case WorkerLoad(served) =>
        LoadFrame(Run(u).value, Run(u).value.worker.request, served);
      case _ =>
    }
  }

  /** It happens: such a request outlives the file it was checked against. */
  lemma LateRequestSurvivesClose()
    ensures var r := Key(0, 0, 0, 1);
            var ops := [CloseBegin, OpenFile([7], 1), CloseBegin, WorkerExit, Prefetch(r), CloseEnd];
            Run(ops).Some? && !Run(ops).value.open && Run(ops).value.requests == [r]
  {
    var r := Key(0, 0, 0, 1);
    var s1 := Apply(INITIAL, CloseBegin);
    var s2 := Apply(s1, OpenFile([7], 1));
    var s3 := Apply(s2, CloseBegin);
    var s4 := Apply(s3, WorkerExit);
    var s5 := Apply(s4, Prefetch(r));
    var o1 := [] + [CloseBegin];
    var o2 := o1 + [OpenFile([7], 1)];
    var o3 := o2 + [CloseBegin];
    var o4 := o3 + [WorkerExit];
    var o5 := o4 + [Prefetch(r)];
    Extended([], CloseBegin, INITIAL);
    Extended(o1, OpenFile([7], 1), s1);
    Extended(o2, CloseBegin, s2);
    Extended(o3, WorkerExit, s3);
    Extended(o4, Prefetch(r), s4);
    Extended(o5, CloseEnd, s5);
    assert o5 + [CloseEnd] == [CloseBegin, OpenFile([7], 1), CloseBegin, WorkerExit, Prefetch(r), CloseEnd];
  }

  lemma Extended(ops: seq<Op>, op: Op, s: State)
    requires Run(ops) == Some(s) && Enabled(s, op)
    ensures Run(ops + [op]) == Some(Apply(s, op))
  {
    assert (ops + [op])[..|ops|] == ops;
  }
}
