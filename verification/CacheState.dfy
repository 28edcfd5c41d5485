/**
 The abstract state of the native expert cache and what each critical section does to it.
 Every step is one region executed under the cache's mutex, or one step of its worker thread between
 two such regions.
 */
module CacheState {
  import opened Bytes
  import opened Recency
  import opened Options

  const MAX_PENDING := 64
  /** File offsets are signed 64-bit, and budgets are taken below the same bound. */
  const MAX_OFFSET := 0x7FFF_FFFF_FFFF_FFFF

  /** A slice of the model file; requests carry the same four fields as cache keys. */
  datatype Key = Key(layer: nat, expert: nat, offset: nat, length: nat)

  function Length(k: Key): nat { k.length }

  datatype Counters = Counters(hits: nat, misses: nat, evictions: nat, bytesRead: nat)

  const NO_COUNTS := Counters(0, 0, 0, 0)

  /** Where the worker thread stands between its critical sections. */
  datatype Worker = NoWorker | Waiting | Taken(request: Key) | Loaded(request: Key)

  datatype State = State(
    open: bool,
    file: seq<byte>,
    budget: nat,
    entries: seq<Key>,
    counters: Counters,
    pageWarm: bool,
    requests: seq<Key>,
    active: nat,
    stopping: bool,
    worker: Worker)

  /** `served` tells whether the operating system delivered: every pread of a slice, or the mapping. */
  datatype Op =
    | SetPageWarm(enabled: bool)
    | OpenFile(contents: seq<byte>, limit: nat)
    | OpenFailed(limit: nat)
    | CloseBegin
    | CloseEnd
    | Clear
    | Prefetch(wanted: Key)
    | Load(wanted: Key, served: bool)
    | WorkerTake
    | WorkerLoad(served: bool)
    | WorkerDone
    | WorkerExit

  const INITIAL := State(false, [], 0, [], NO_COUNTS, false, [], 0, false, NoWorker)

  predicate InRange(s: State, r: Key) {
    s.open && r.length != 0 && r.offset <= |s.file| && r.length <= |s.file| - r.offset
  }

  /** The test is written so that nothing overflows; it means that the slice is not empty and lies in the file. */
  lemma InRangeMeans(s: State, r: Key)
    ensures InRange(s, r) <==> s.open && r.length > 0 && r.offset + r.length <= |s.file|
  {
  }

  predicate Accepts(s: State, r: Key) {
    InRange(s, r) && |s.requests| < MAX_PENDING
  }

  /** A miss that reaches the file: in range, not resident, and small enough for the budget. */
  predicate ReadsFile(s: State, r: Key) {
    InRange(s, r) && !s.pageWarm && r !in s.entries && r.length <= s.budget
  }

  function LoadEffect(s: State, r: Key, served: bool): State {
    if !InRange(s, r) then s
    else if s.pageWarm then
      s.(counters := s.counters.(misses := s.counters.misses + 1,
                                 bytesRead := s.counters.bytesRead + if served then r.length else 0))
    else if r in s.entries then
      s.(entries := Touch(s.entries, r), counters := s.counters.(hits := s.counters.hits + 1))
    else if r.length > s.budget then
      s.(counters := s.counters.(misses := s.counters.misses + 1))
    else
      var kept := Fit(s.entries, Length, s.budget - r.length);
      FitPrefix(s.entries, Length, s.budget - r.length);
      s.(entries := if served then [r] + kept else kept,
         counters := Counters(s.counters.hits, s.counters.misses + 1,
                              s.counters.evictions + |s.entries| - |kept|,
                              s.counters.bytesRead + if served then r.length else 0))
  }

  /** Loading never touches the queue, the worker or the lifecycle. */
  lemma LoadFrame(s: State, r: Key, served: bool)
    ensures LoadEffect(s, r, served) == s.(entries := LoadEffect(s, r, served).entries,
                                           counters := LoadEffect(s, r, served).counters)
  {
  }

  /** The boolean `load` returns. */
  predicate LoadReturns(s: State, r: Key, served: bool) {
    InRange(s, r) && if s.pageWarm then served else r in s.entries || (r.length <= s.budget && served)
  }

  /** What the boolean tells a caller. In page-warm mode: the range is valid and was mapped. Otherwise: the slice
      is resident now, whether it was before, was just read, or could not be. */
  lemma ReturnMeans(s: State, r: Key, served: bool)
    requires Distinct(s.entries) && forall k :: k in s.entries ==> InRange(s, k)
    ensures s.pageWarm ==> (LoadReturns(s, r, served) <==> InRange(s, r) && served)
    ensures !s.pageWarm ==> (LoadReturns(s, r, served) <==> r in LoadEffect(s, r, served).entries)
  {
    if !s.pageWarm && InRange(s, r) && r !in s.entries && r.length <= s.budget {
      FitPrefix(s.entries, Length, s.budget - r.length);
      var kept := Fit(s.entries, Length, s.budget - r.length);
      assert s.entries == kept + s.entries[|kept|..];
      assert r !in kept;
    }
  }

  /** Callers serialise `open` and `close`; everything else may interleave freely. */
  predicate Enabled(s: State, op: Op) {
    match op
    case OpenFile(contents, limit) =>
      !s.open && s.worker.NoWorker? && s.stopping && |contents| <= MAX_OFFSET && limit <= MAX_OFFSET
    case OpenFailed(limit) => !s.open && s.worker.NoWorker? && s.stopping && limit <= MAX_OFFSET
    case CloseEnd => s.worker.NoWorker? && s.stopping
    case WorkerTake => s.worker.Waiting? && s.requests != []
    case WorkerLoad(_) => s.worker.Taken?
    case WorkerDone => s.worker.Loaded?
    case WorkerExit => s.worker.Waiting? && s.stopping && s.requests == []
    case _ => true
  }

  function Apply(s: State, op: Op): State
    requires Enabled(s, op)
  {
    match op
    case SetPageWarm(enabled) => s.(pageWarm := enabled, entries := if enabled then [] else s.entries)
    case OpenFile(contents, limit) =>
      s.(open := true, file := contents, budget := limit, counters := NO_COUNTS, stopping := false, worker := Waiting)
    case OpenFailed(limit) => s.(budget := limit, counters := NO_COUNTS)
    case CloseBegin => s.(stopping := true, requests := [])
    case CloseEnd => s.(open := false, file := [], entries := [])
    case Clear => s.(requests := [], entries := [])
    case Prefetch(r) => if Accepts(s, r) then s.(requests := s.requests + [r]) else s
    case Load(r, served) => LoadEffect(s, r, served)
    case WorkerTake => s.(requests := s.requests[1..], active := s.active + 1, worker := Taken(s.requests[0]))
    case WorkerLoad(served) => LoadEffect(s, s.worker.request, served).(worker := Loaded(s.worker.request))
    case WorkerDone => s.(active := if s.active > 0 then s.active - 1 else 0, worker := Waiting)
    case WorkerExit => s.(worker := NoWorker)
  }

  /** What every critical section keeps. */
  ghost predicate Inv(s: State) {
    && Distinct(s.entries)
    && Sum(s.entries, Length) <= s.budget <= MAX_OFFSET
    && |s.file| <= MAX_OFFSET
    && (forall k :: k in s.entries ==> InRange(s, k))
    && (s.pageWarm ==> s.entries == [])
    && |s.requests| <= MAX_PENDING
    && s.active == (if s.worker.Taken? || s.worker.Loaded? then 1 else 0)
    && (!s.open ==> s.entries == [] && s.file == [] && s.worker.NoWorker?)
    && (s.worker.NoWorker? && s.open ==> s.stopping)
  }

  lemma HitKeepsInv(s: State, r: Key)
    requires Inv(s) && r in s.entries
    ensures Distinct(Touch(s.entries, r)) && Sum(Touch(s.entries, r), Length) <= s.budget
    ensures forall k :: k in Touch(s.entries, r) ==> k in s.entries
  {
    TouchDistinct(s.entries, r);
    WithoutMembers(s.entries, r);
    SumWithout(s.entries, r, Length);
    assert Touch(s.entries, r)[1..] == Without(s.entries, r);
  }

  lemma MissKeepsInv(s: State, r: Key)
    requires Inv(s) && r !in s.entries && r.length <= s.budget
    ensures var kept := Fit(s.entries, Length, s.budget - r.length);
            Distinct(kept) && Distinct([r] + kept) && Sum([r] + kept, Length) <= s.budget
            && Sum(kept, Length) <= s.budget
            && forall k :: k in kept ==> k in s.entries
  {
    hide Distinct, Fit, InRange;
    var room := s.budget - r.length;
    FitIsLongest(s.entries, Length, room);
    var kept := Fit(s.entries, Length, room);
    DistinctPrefix(kept, s.entries);
    assert s.entries == kept + s.entries[|kept|..];
    DistinctCons(r, kept);
    assert ([r] + kept)[1..] == kept;
  }

  lemma LoadKeepsInv(s: State, r: Key, served: bool)
    requires Inv(s)
    ensures Inv(LoadEffect(s, r, served))
  {
    if InRange(s, r) && !s.pageWarm {
      if r in s.entries {
        HitKeepsInv(s, r);
      } else if r.length <= s.budget {
        MissKeepsInv(s, r);
      }
      var t := LoadEffect(s, r, served);
      assert forall k :: k in t.entries ==> InRange(s, k);
      assert forall k :: InRange(s, k) ==> InRange(t, k);
    }
  }

  lemma ApplyKeepsInv(s: State, op: Op)
    requires Inv(s) && Enabled(s, op)
    ensures Inv(Apply(s, op))
  {
    hide LoadEffect, Distinct, Sum;
    match op
    case Load(r, served) => LoadKeepsInv(s, r, served);
    case WorkerLoad(served) =>
      LoadKeepsInv(s, s.worker.request, served);
      LoadFrame(s, s.worker.request, served);
    case _ => NothingResident();
  }

  lemma NothingResident()
    ensures Distinct<Key>([]) && Sum<Key>([], Length) == 0
  {
  }

  // ---------- Runs ----------

  /** The state after `ops`, or None once a step was taken that its control state forbids. */
  function Run(ops: seq<Op>): Option<State> {
    if ops == [] then Some(INITIAL)
    else match Run(ops[..|ops| - 1])
      case None => None
      case Some(s) => if Enabled(s, ops[|ops| - 1]) then Some(Apply(s, ops[|ops| - 1])) else None
  }

  lemma {:induction false} EveryRunKeepsInv(ops: seq<Op>)
    requires Run(ops).Some?
    ensures Inv(Run(ops).value)
  {
    if ops != [] {
      EveryRunKeepsInv(ops[..|ops| - 1]);
      ApplyKeepsInv(Run(ops[..|ops| - 1]).value, ops[|ops| - 1]);
    }
  }
}
