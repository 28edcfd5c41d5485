/**
 What holds over whole runs of the native cache: the exact resident set, and the books its counters keep.
 */
module CacheRuns {
  import opened Recency
  import opened Bytes
  import opened CacheState
  import opened Options

  /** What an observer of a run writes down. `history` is the recency list of the slices loaded since the
      cache was last emptied, and `clean` says that since then no slice was evicted for a read that failed. */
  datatype Log = Log(history: seq<Key>, clean: bool, loads: nat, found: nat, inserts: nat, cleared: nat, bytes: nat)

  const NO_LOG := Log([], true, 0, 0, 0, 0, 0)

  function Emptied(log: Log, count: nat): Log {
    log.(history := [], clean := true, cleared := log.cleared + count)
  }

  function LogLoad(s: State, log: Log, r: Key, served: bool): Log {
    if !InRange(s, r) then log
    else if s.pageWarm then log.(loads := log.loads + 1, bytes := log.bytes + if served then r.length else 0)
    else if r in s.entries then
      log.(loads := log.loads + 1, found := log.found + 1, history := Touch(log.history, r))
    else if r.length > s.budget then log.(loads := log.loads + 1)
    else if served then
      log.(loads := log.loads + 1, history := Touch(log.history, r), inserts := log.inserts + 1,
           bytes := log.bytes + r.length)
    else log.(loads := log.loads + 1, clean := log.clean && Sum(s.entries, Length) + r.length <= s.budget)
  }

  function LogStep(s: State, log: Log, op: Op): Log {
    match op
    case OpenFile(_, _) => NO_LOG
    case OpenFailed(_) => NO_LOG
    case SetPageWarm(enabled) => if enabled then Emptied(log, |s.entries|) else log
    case Clear => Emptied(log, |s.entries|)
    case CloseEnd => Emptied(log, |s.entries|)
    case Load(r, served) => LogLoad(s, log, r, served)
    case WorkerLoad(served) => if s.worker.Taken? then LogLoad(s, log, s.worker.request, served) else log
    case _ => log
  }

  function LogOf(ops: seq<Op>): Log
    requires Run(ops).Some?
  {
    if ops == [] then NO_LOG
    else LogStep(Run(ops[..|ops| - 1]).value, LogOf(ops[..|ops| - 1]), ops[|ops| - 1])
  }

  ghost predicate Agrees(s: State, log: Log) {
    && Distinct(log.history)
    && s.entries <= log.history
    && (log.clean ==> s.entries == Fit(log.history, Length, s.budget))
    && log.loads == s.counters.hits + s.counters.misses
    && log.found == s.counters.hits
    && log.bytes == s.counters.bytesRead
    && log.inserts == |s.entries| + s.counters.evictions + log.cleared
  }

  lemma AdmitSize(entries: seq<Key>, r: Key, budget: nat)
    requires Distinct(entries) && r in entries
    ensures |Touch(entries, r)| == |entries|
  {
    var i :| 0 <= i < |entries| && entries[i] == r;
    WithoutAt(entries, i);
  }

  lemma LoadKeepsAgreement(s: State, log: Log, r: Key, served: bool)
    requires Inv(s) && Agrees(s, log)
    ensures Agrees(LoadEffect(s, r, served), LogLoad(s, log, r, served))
  {
    hide Distinct, Fit, Touch;
    if InRange(s, r) && !s.pageWarm && (r in s.entries || r.length <= s.budget) {
      EntriesFit(s);
      if r in s.entries || served {
        TouchDistinct(log.history, r);
        AdmitKeepsPrefix(s.entries, log.history, r, Length, s.budget);
        if log.clean {
          AdmitKeepsFit(log.history, r, Length, s.budget);
        }
      } else {
        FitPrefix(s.entries, Length, s.budget - r.length);
        if Sum(s.entries, Length) + r.length <= s.budget {
          FitAll(s.entries, Length, s.budget - r.length);
        }
      }
      if r in s.entries {
        AdmitSize(s.entries, r, s.budget);
      }
    }
  }

  lemma EntriesFit(s: State)
    requires Inv(s)
    ensures Distinct(s.entries)
    ensures forall k :: k in s.entries ==> k.length <= s.budget
  {
    forall k | k in s.entries ensures k.length <= s.budget {
      SumWithout(s.entries, k, Length);
    }
  }

  lemma StepKeepsAgreement(s: State, log: Log, op: Op)
    requires Inv(s) && Agrees(s, log) && Enabled(s, op)
    ensures Agrees(Apply(s, op), LogStep(s, log, op))
  {
    hide Distinct, LoadEffect, LogLoad;
    match op
    case Load(r, served) => LoadKeepsAgreement(s, log, r, served);
    case WorkerLoad(served) =>
      LoadKeepsAgreement(s, log, s.worker.request, served);
      LoadFrame(s, s.worker.request, served);
    case _ => EmptyDistinct();
  }

  lemma EmptyDistinct()
    ensures Distinct<Key>([])
  {
  }

  lemma {:induction false} EveryRunAgrees(ops: seq<Op>)
    requires Run(ops).Some?
    ensures Inv(Run(ops).value) && Agrees(Run(ops).value, LogOf(ops))
  {
    hide Inv, Agrees;
    if ops == [] {
      InitialAgrees();
    } else {
      var u := ops[..|ops| - 1];
      EveryRunAgrees(u);
      ApplyKeepsInv(Run(u).value, ops[|ops| - 1]);
      StepKeepsAgreement(Run(u).value, LogOf(u), ops[|ops| - 1]);
    }
  }

  lemma InitialAgrees()
    ensures Inv(INITIAL) && Agrees(INITIAL, NO_LOG)
  {
  }

  // ---------- Theorems ----------

  /** The budget asked for by the latest `open`, and the contents of the file if it was not closed since. */
  function Asked(ops: seq<Op>): nat {
    if ops == [] then 0
    else match ops[|ops| - 1]
      case OpenFile(_, limit) => limit
      case OpenFailed(limit) => limit
      case _ => Asked(ops[..|ops| - 1])
  }

  function Opened(ops: seq<Op>): Option<seq<byte>> {
    if ops == [] then None
    else match ops[|ops| - 1]
      case OpenFile(contents, _) => Some(contents)
      case CloseEnd => None
      case _ => Opened(ops[..|ops| - 1])
  }

  /** The budget in force is the one asked for, and the cache is open on exactly the file that was opened. */
  lemma {:induction false} RunsWhatWasAsked(ops: seq<Op>)
    requires Run(ops).Some?
    ensures var s := Run(ops).value;
            && s.budget == Asked(ops)
            && (s.open <==> Opened(ops).Some?) && (s.open ==> s.file == Opened(ops).value)
  {
    if ops != [] {
      var u, op := ops[..|ops| - 1], ops[|ops| - 1];
      RunsWhatWasAsked(u);
      match op
      case Load(r, served) => LoadFrame(Run(u).value, r, served);
      case WorkerLoad(served) => LoadFrame(Run(u).value, Run(u).value.worker.request, served);
      case _ =>
    }
  }


  /** After any run whatever, the resident list is a prefix of the recency history; and unless slices were evicted
      for a read that then failed, since the cache was last emptied, it is exactly the longest one that fits. */
  lemma ResidentSetIsExact(ops: seq<Op>)
    requires Run(ops).Some?
    ensures var s, history := Run(ops).value, LogOf(ops).history;
            && Distinct(history)
            && s.entries <= history
            && (LogOf(ops).clean ==>
                  forall n: nat :: n <= |history| ==> (n <= |s.entries| <==> Sum(history[..n], Length) <= Asked(ops)))
  {
    RunsWhatWasAsked(ops);
    EveryRunAgrees(ops);
    var s, log := Run(ops).value, LogOf(ops);
    if log.clean {
      FitIsLongest(log.history, Length, s.budget);
      forall n: nat | n <= |s.entries| ensures Sum(log.history[..n], Length) <= s.budget {
        PrefixSum(log.history, n, |s.entries|);
        assert log.history[..|s.entries|] == s.entries;
      }
    }
  }

  lemma PrefixSum(keys: seq<Key>, n: nat, m: nat)
    requires n <= m <= |keys|
    ensures Sum(keys[..n], Length) <= Sum(keys[..m], Length)
  {
    assert keys[..m] == keys[..n] + keys[n..m];
    SumAppend(keys[..n], keys[n..m], Length);
  }

  /** The books balance after any run: every load that was in range is a hit or a miss, and a hit exactly when it
      found its slice resident outside page-warm mode; every inserted slice is resident, evicted or cleared, and the
      bytes read are those of the served misses. */
  lemma BooksBalance(ops: seq<Op>)
    requires Run(ops).Some?
    ensures var s, log := Run(ops).value, LogOf(ops);
            && log.loads == s.counters.hits + s.counters.misses
            && log.found == s.counters.hits
            && log.inserts == |s.entries| + s.counters.evictions + log.cleared
            && log.bytes == s.counters.bytesRead
  {
    EveryRunAgrees(ops);
  }

  /** What one failed read costs. The history is untouched, but eviction has already happened: the list
      shrinks to what fits beside the slice that never arrived. The exact characterisation therefore survives
      the failure if and only if there was room without evicting. */
  lemma FailedRead(s: State, history: seq<Key>, r: Key)
    requires Inv(s) && s.entries == Fit(history, Length, s.budget) && ReadsFile(s, r)
    ensures var t := LoadEffect(s, r, false);
            && t.entries == Fit(history, Length, s.budget - r.length)
            && (t.entries == Fit(history, Length, t.budget) <==> Sum(s.entries, Length) + r.length <= s.budget)
  {
    var room := s.budget - r.length;
    FitFit(history, Length, room, s.budget);
    FitIsLongest(s.entries, Length, room);
    if Sum(s.entries, Length) <= room {
      assert s.entries[..|s.entries|] == s.entries;
      FitAll(s.entries, Length, room);
    }
  }

  /** A miss evicts no more than it must: with one eviction fewer the slice would not fit. */
  lemma EvictionIsMinimal(s: State, r: Key, served: bool, fewer: nat)
    requires Inv(s) && ReadsFile(s, r)
    requires fewer < LoadEffect(s, r, served).counters.evictions - s.counters.evictions
    ensures fewer <= |s.entries| && Sum(s.entries[..|s.entries| - fewer], Length) + r.length > s.budget
  {
    FitIsLongest(s.entries, Length, s.budget - r.length);
  }
}
