/**
 The native cache as it updates its own fields: a linked list of items in recency order, an index of
 list positions, a byte count kept beside them, and the request queue. Each method is one critical
 section and is proved against the abstract step of CacheState.
 */
module ExpertCacheClass {
  import opened Bytes
  import opened Recency
  import opened CacheState
  import opened Options

  /** `residentBytes` and `residentEntries` are refreshed by inserts and mode switches only. */
  datatype Stats = Stats(hits: nat, misses: nat, evictions: nat, bytesRead: nat, residentBytes: nat,
                         residentEntries: nat)

  datatype Item = Item(key: Key, offset: nat, length: nat, bytes: seq<byte>)

  /** A list node; its identity is what a list iterator denotes, and it survives splicing. */
  datatype Node = Node(id: nat, item: Item)

  function Keys(list: seq<Node>): (keys: seq<Key>)
    ensures |keys| == |list|
    ensures forall i :: 0 <= i < |list| ==> keys[i] == list[i].item.key
  {
    if list == [] then [] else [list[0].item.key] + Keys(list[1..])
  }

  function Ids(list: seq<Node>): (ids: seq<nat>)
    ensures |ids| == |list|
    ensures forall i :: 0 <= i < |list| ==> ids[i] == list[i].id
  {
    if list == [] then [] else [list[0].id] + Ids(list[1..])
  }

  lemma ListOf(list: seq<Node>, keys: seq<Key>, ids: seq<nat>)
    requires |keys| == |ids| == |list|
    requires forall i :: 0 <= i < |list| ==> keys[i] == list[i].item.key && ids[i] == list[i].id
    ensures Keys(list) == keys && Ids(list) == ids
  {
  }

  /** The index maps exactly the listed keys, each to the node that holds it, and no node occurs twice. */
  ghost predicate Coupled(keys: seq<Key>, ids: seq<nat>, index: map<Key, nat>, next: nat) {
    && |keys| == |ids|
    && Distinct(ids)
    && (forall i :: 0 <= i < |ids| ==> ids[i] < next)
    && index.Keys == (set k | k in keys)
    && (forall i :: 0 <= i < |keys| ==> index[keys[i]] == ids[i])
  }

  /** Every buffer holds exactly the bytes of its slice of the file. */
  ghost predicate AgreesWithFile(list: seq<Node>, file: seq<byte>) {
    forall i :: 0 <= i < |list| ==>
      var it := list[i].item;
      && it.offset == it.key.offset && it.length == it.key.length
      && it.offset + it.length <= |file| && it.bytes == file[it.offset..it.offset + it.length]
  }

  lemma DropLastCoupled(keys: seq<Key>, ids: seq<nat>, index: map<Key, nat>, next: nat)
    requires Coupled(keys, ids, index, next) && Distinct(keys) && keys != []
    ensures Coupled(keys[..|keys| - 1], ids[..|ids| - 1], index - {keys[|keys| - 1]}, next)
  {
    var n := |keys| - 1;
    assert keys == keys[..n] + [keys[n]];
    DistinctPrefix(ids[..n], ids);
    assert forall k :: k in keys[..n] ==> k != keys[n];
    assert (index - {keys[n]}).Keys == set k | k in keys[..n];
  }

  lemma DropLastInv(s: State, c: Counters)
    requires Inv(s) && s.entries != []
    ensures var shorter := s.entries[..|s.entries| - 1];
            Inv(s.(entries := shorter, counters := c))
            && Sum(s.entries, Length) == Sum(shorter, Length) + s.entries[|s.entries| - 1].length
  {
    var shorter := s.entries[..|s.entries| - 1];
    var last := s.entries[|s.entries| - 1];
    assert s.entries == shorter + [last];
    SumAppend(shorter, [last], Length);
    DistinctPrefix(shorter, s.entries);
    var t := s.(entries := shorter, counters := c);
    assert forall k :: InRange(s, k) ==> InRange(t, k);
  }

  /** The concrete list, index and byte count represent the abstract state. */
  ghost predicate Represents(s: State, list: seq<Node>, index: map<Key, nat>, next: nat, resident: nat) {
    && Inv(s)
    && Keys(list) == s.entries
    && Coupled(s.entries, Ids(list), index, next)
    && AgreesWithFile(list, s.file)
    && resident == Sum(s.entries, Length)
  }

  lemma DropLastList(list: seq<Node>)
    requires list != []
    ensures Keys(list[..|list| - 1]) == Keys(list)[..|list| - 1] && Ids(list[..|list| - 1]) == Ids(list)[..|list| - 1]
  {
    ListOf(list[..|list| - 1], Keys(list)[..|list| - 1], Ids(list)[..|list| - 1]);
  }

  lemma DropLastAgrees(list: seq<Node>, file: seq<byte>)
    requires AgreesWithFile(list, file) && list != []
    ensures AgreesWithFile(list[..|list| - 1], file)
    ensures list[|list| - 1].item.length == list[|list| - 1].item.key.length
  {
  }

  lemma InvDistinct(s: State)
    requires Inv(s)
    ensures Distinct(s.entries)
  {
  }

  lemma DropLastRepresents(s: State, list: seq<Node>, index: map<Key, nat>, next: nat, resident: nat, c: Counters)
    requires Represents(s, list, index, next, resident) && list != []
    ensures var last := list[|list| - 1].item;
            last.length <= resident &&
            Represents(s.(entries := s.entries[..|s.entries| - 1], counters := c), list[..|list| - 1],
                       index - {last.key}, next, resident - last.length)
  {
    hide Inv, Coupled, InRange, Distinct, Sum, Keys, Ids, AgreesWithFile;
    InvDistinct(s);
    DropLastInv(s, c);
    DropLastCoupled(s.entries, Ids(list), index, next);
    DropLastList(list);
    DropLastAgrees(list, s.file);
  }

  lemma EmptyRepresents(s: State, list: seq<Node>, index: map<Key, nat>, next: nat, resident: nat)
    requires Represents(s, list, index, next, resident)
    ensures Represents(s.(entries := []), [], map[], next, 0)
  {
    var t := s.(entries := []);
    assert forall k :: InRange(s, k) ==> InRange(t, k);
  }

  /** Steps that leave the entries, and under them the file, alone do not concern the representation. */
  lemma FrameRepresents(s: State, op: Op, list: seq<Node>, index: map<Key, nat>, next: nat, resident: nat)
    requires Represents(s, list, index, next, resident) && Enabled(s, op)
    requires Apply(s, op).entries == s.entries && (Apply(s, op).file == s.file || s.entries == [])
    ensures Represents(Apply(s, op), list, index, next, resident)
  {
    hide Inv, Apply, Enabled, Coupled;
    assert Inv(s);
    ApplyKeepsInv(s, op);
  }

  lemma InvBounds(s: State, list: seq<Node>, index: map<Key, nat>, next: nat, resident: nat)
    requires Represents(s, list, index, next, resident)
    ensures |s.file| <= MAX_OFFSET
  {
    hide Coupled, AgreesWithFile;
  }

  lemma InvFacts(s: State, list: seq<Node>, index: map<Key, nat>, next: nat, resident: nat)
    requires Represents(s, list, index, next, resident)
    ensures !s.open ==> s.entries == []
    ensures s.active == if s.worker.Taken? || s.worker.Loaded? then 1 else 0
  {
    hide Coupled, AgreesWithFile;
  }

  lemma MeansAtLoad(s: State, r: Key, served: bool, list: seq<Node>, index: map<Key, nat>, next: nat, resident: nat)
    requires Represents(s, list, index, next, resident)
    ensures s.pageWarm ==> (LoadReturns(s, r, served) <==>
                              s.open && 0 < r.length && r.offset + r.length <= |s.file| && served)
    ensures !s.pageWarm ==> (LoadReturns(s, r, served) <==> r in LoadEffect(s, r, served).entries)
    ensures LoadEffect(s, r, LoadReturns(s, r, served)) == LoadEffect(s, r, served)
  {
    hide Coupled, AgreesWithFile;
    InRangeMeans(s, r);
    ReturnMeans(s, r, served);
  }

  /** Following the index reaches the node of the requested slice. */
  lemma LookupFinds(s: State, list: seq<Node>, index: map<Key, nat>, next: nat, resident: nat, k: Key)
    requires Represents(s, list, index, next, resident)
    ensures k in index <==> k in s.entries
    ensures k in index ==> exists j :: 0 <= j < |list| && list[j].id == index[k]
    ensures forall j :: 0 <= j < |list| && k in index && list[j].id == index[k] ==>
              var it := list[j].item; it.key == k && it.offset == k.offset && it.length == k.length
  {
    if k in index {
      var i :| 0 <= i < |s.entries| && s.entries[i] == k;
      assert Ids(list)[i] == index[k];
      forall j | 0 <= j < |list| && list[j].id == index[k] ensures j == i {
        assert Ids(list)[j] == Ids(list)[i];
      }
    }
  }

  /** `s` with position `i` moved to the front. */
  function Moved<T>(s: seq<T>, i: nat): seq<T>
    requires i < |s|
  {
    [s[i]] + s[..i] + s[i + 1..]
  }

  lemma MovedAt<T>(s: seq<T>, i: nat, j: nat)
    requires i < |s| && j < |s|
    ensures |Moved(s, i)| == |s| && Moved(s, i)[j] == s[if j == 0 then i else if j <= i then j - 1 else j]
  {
  }

  lemma SpliceCoupled(keys: seq<Key>, ids: seq<nat>, i: nat, index: map<Key, nat>, next: nat)
    requires Coupled(keys, ids, index, next) && i < |keys|
    ensures Coupled(Moved(keys, i), Moved(ids, i), index, next)
  {
    hide Distinct, Moved;
    SameMembers(keys, i);
    DistinctSplit(ids, i);
    forall j | 0 <= j < |keys|
      ensures index[Moved(keys, i)[j]] == Moved<nat>(ids, i)[j] < next
    {
      MovedAt(keys, i, j);
      MovedAt(ids, i, j);
    }
  }

  lemma SameMembers(keys: seq<Key>, i: nat)
    requires i < |keys|
    ensures |Moved(keys, i)| == |keys| && forall k :: k in Moved(keys, i) <==> k in keys
  {
    assert keys == keys[..i] + ([keys[i]] + keys[i + 1..]);
  }

  lemma DistinctSplit(ids: seq<nat>, i: nat)
    requires Distinct(ids) && i < |ids|
    ensures |Moved(ids, i)| == |ids| && Distinct(Moved(ids, i))
  {
    forall j, k | 0 <= j < k < |ids| ensures Moved(ids, i)[j] != Moved(ids, i)[k] {
      MovedAt(ids, i, j);
      MovedAt(ids, i, k);
    }
  }

  lemma SpliceRepresents(s: State, list: seq<Node>, i: nat, index: map<Key, nat>, next: nat, resident: nat, c: Counters)
    requires Represents(s, list, index, next, resident) && i < |list|
    ensures list[i].item.key in s.entries
    ensures Represents(s.(entries := Touch(s.entries, list[i].item.key), counters := c), Moved(list, i), index, next,
                       resident)
  {
    hide AgreesWithFile, Coupled, Inv, Moved, Touch, Sum;
    InvDistinct(s);
    var k := list[i].item.key;
    assert s.entries[i] == k;
    TouchIsMoved(s.entries, i);
    SpliceCoupled(s.entries, Ids(list), i, index, next);
    MovedList(list, i);
    TouchInv(s, k, c);
    SpliceAgrees(list, i, s.file);
  }

  lemma TouchIsMoved(keys: seq<Key>, i: nat)
    requires Distinct(keys) && i < |keys|
    ensures Touch(keys, keys[i]) == Moved(keys, i)
  {
    hide Distinct, Without;
    WithoutAt(keys, i);
  }

  lemma MovedList(list: seq<Node>, i: nat)
    requires i < |list|
    ensures Keys(Moved(list, i)) == Moved(Keys(list), i) && Ids(Moved(list, i)) == Moved(Ids(list), i)
  {
    hide Keys, Ids, Moved;
    MovedAt(list, i, 0);
    MovedAt(Keys(list), i, 0);
    MovedAt(Ids(list), i, 0);
    forall j | 0 <= j < |list|
      ensures Moved(Keys(list), i)[j] == Moved(list, i)[j].item.key && Moved(Ids(list), i)[j] == Moved(list, i)[j].id
    {
      MovedAt(list, i, j);
      MovedAt(Keys(list), i, j);
      MovedAt(Ids(list), i, j);
    }
    ListOf(Moved(list, i), Moved(Keys(list), i), Moved(Ids(list), i));
  }

  lemma SpliceAgrees(list: seq<Node>, i: nat, file: seq<byte>)
    requires AgreesWithFile(list, file) && i < |list|
    ensures AgreesWithFile(Moved(list, i), file)
  {
    forall j | 0 <= j < |list| ensures Moved(list, i)[j] in list {
      MovedAt(list, i, j);
    }
  }

  lemma TouchInv(s: State, k: Key, c: Counters)
    requires Inv(s) && k in s.entries
    ensures Inv(s.(entries := Touch(s.entries, k), counters := c))
    ensures Sum(Touch(s.entries, k), Length) == Sum(s.entries, Length)
  {
    HitKeepsInv(s, k);
    SumWithout(s.entries, k, Length);
    assert Touch(s.entries, k)[1..] == Without(s.entries, k);
    var t := s.(entries := Touch(s.entries, k), counters := c);
    assert forall x :: InRange(s, x) ==> InRange(t, x);
  }

  lemma PushCoupled(keys: seq<Key>, ids: seq<nat>, index: map<Key, nat>, next: nat, k: Key)
    requires Coupled(keys, ids, index, next) && k !in keys
    ensures Coupled([k] + keys, [next] + ids, index[k := next], next + 1)
  {
    DistinctCons(next, ids);
    assert forall j :: 0 < j < |keys| + 1 ==> ([k] + keys)[j] == keys[j - 1] && ([next] + ids)[j] == ids[j - 1];
    assert index[k := next].Keys == set x | x in [k] + keys;
  }

  lemma PushInv(s: State, k: Key, c: Counters)
    requires Inv(s) && InRange(s, k) && !s.pageWarm && k !in s.entries && Sum(s.entries, Length) + k.length <= s.budget
    ensures Inv(s.(entries := [k] + s.entries, counters := c))
    ensures Sum([k] + s.entries, Length) == Sum(s.entries, Length) + k.length
  {
    DistinctCons(k, s.entries);
    assert ([k] + s.entries)[1..] == s.entries;
    var t := s.(entries := [k] + s.entries, counters := c);
    assert forall x :: InRange(s, x) ==> InRange(t, x);
  }

  function FreshNode(file: seq<byte>, next: nat, k: Key): Node
    requires k.offset + k.length <= |file|
  {
    Node(next, Item(k, k.offset, k.length, file[k.offset..k.offset + k.length]))
  }

  lemma FinishLoadRepresents(s: State, list: seq<Node>, index: map<Key, nat>, next: nat, resident: nat)
    requires Represents(s, list, index, next, resident) && s.worker.Taken?
    ensures Represents(s.(worker := Loaded(s.worker.request)), list, index, next, resident)
  {
    hide Coupled, AgreesWithFile;
    assert forall x :: InRange(s, x) ==> InRange(s.(worker := Loaded(s.worker.request)), x);
  }

  lemma PushAgrees(list: seq<Node>, file: seq<byte>, next: nat, k: Key)
    requires AgreesWithFile(list, file) && k.offset + k.length <= |file|
    ensures AgreesWithFile([FreshNode(file, next, k)] + list, file)
  {
    var longer := [FreshNode(file, next, k)] + list;
    assert forall j :: 0 < j < |longer| ==> longer[j] == list[j - 1];
  }

  /** Counters play no part in what the cache holds. */
  lemma RecountRepresents(s: State, list: seq<Node>, index: map<Key, nat>, next: nat, resident: nat, c: Counters)
    requires Represents(s, list, index, next, resident)
    ensures Represents(s.(counters := c), list, index, next, resident)
  {
    hide Coupled, AgreesWithFile;
    assert forall x :: InRange(s, x) ==> InRange(s.(counters := c), x);
  }

  /** Pushing a freshly read item to the front. */
  lemma PushRepresents(s: State, list: seq<Node>, index: map<Key, nat>, next: nat, resident: nat, k: Key, c: Counters)
    requires Represents(s, list, index, next, resident)
    requires InRange(s, k) && !s.pageWarm && k !in s.entries && resident + k.length <= s.budget
    ensures Represents(s.(entries := [k] + s.entries, counters := c), [FreshNode(s.file, next, k)] + list,
                       index[k := next], next + 1, resident + k.length)
  {
    hide Coupled, Inv, AgreesWithFile;
    PushInv(s, k, c);
    PushAgrees(list, s.file, next, k);
    PushCoupled(s.entries, Ids(list), index, next, k);
    ListOf([FreshNode(s.file, next, k)] + list, [k] + s.entries, [next] + Ids(list));
  }

  /** The eviction loop's test fails exactly at the lengths that eviction may stop at. */
  lemma EvictionStop(keys: seq<Key>, room: nat, n: nat)
    requires n <= |keys|
    ensures |Fit(keys, Length, room)| <= |keys|
    ensures Sum(keys[..n], Length) <= room <==> n <= |Fit(keys, Length, room)|
    ensures n == |Fit(keys, Length, room)| ==> keys[..n] == Fit(keys, Length, room)
    ensures n == |keys| ==> keys[..n] == keys
  {
    FitIsLongest(keys, Length, room);
    var fit := Fit(keys, Length, room);
    if n <= |fit| {
      assert fit == keys[..n] + fit[n..];
      SumAppend(keys[..n], fit[n..], Length);
    }
  }

  /** Whether the operating system plays along with one load. */
  predicate Served(s: State, r: Key, system: nat -> int, n: nat) {
    if s.pageWarm then system(n) > 0 else Delivers(system, n, r.length)
  }

  /** Rounding down to a page boundary. */
  function PageOf(offset: nat, pageSize: nat): (start: nat)
    requires pageSize > 0
    ensures start <= offset < start + pageSize
  {
    offset - offset % pageSize
  }

  lemma PageStart(offset: nat, pageSize: nat)
    requires pageSize > 0
    ensures PageOf(offset, pageSize) % pageSize == 0
  {
    var q, m := offset / pageSize, offset % pageSize;
    assert offset - m == q * pageSize;
    MultipleOf(q, pageSize);
  }

  const CHUNK := 1024 * 1024

  /** A read never returns more than was asked for. */
  function Answer(n: int, count: nat): int {
    if n > count then count else n
  }

  /** The answers from the n-th system call on deliver `length` more bytes before one fails or ends the file. */
  predicate Delivers(system: nat -> int, n: nat, length: nat)
    decreases length
  {
    length == 0 ||
    (var got := Answer(system(n), if length < CHUNK then length else CHUNK);
     got > 0 && Delivers(system, n + 1, length - got))
  }

  lemma DeliversStep(system: nat -> int, n: nat, length: nat)
    requires length > 0
    ensures var got := Answer(system(n), if length < CHUNK then length else CHUNK);
            Delivers(system, n, length) <==> got > 0 && Delivers(system, n + 1, length - got)
  {
  }

  lemma NothingToDeliver(system: nat -> int, n: nat)
    ensures Delivers(system, n, 0)
  {
  }

  method Find(list: seq<Node>, id: nat) returns (i: nat)
    requires exists j :: 0 <= j < |list| && list[j].id == id
    ensures i < |list| && list[i].id == id
  {
    i := 0;
    while list[i].id != id
      invariant i < |list|
      invariant exists j :: i <= j < |list| && list[j].id == id
      decreases |list| - i
    {
      i := i + 1;
    }
  }

  class ExpertCache {
    var isOpen: bool
    var file: seq<byte>
    var budgetBytes: nat
    var residentBytes: nat
    var stats: Stats
    var lru: seq<Node>
    var index: map<Key, nat>
    var nextNode: nat
    var requests: seq<Key>
    var activeRequests: nat
    var stopping: bool
    var pageWarm: bool
    var worker: Worker
    const system: nat -> int   // what the n-th system call answers
    var calls: nat
    var mappedAt: nat          // the latest range asked to be mapped
    var mappedLength: nat

    ghost function Abs(): State
      reads this
    {
      State(isOpen, file, budgetBytes, Keys(lru),
            Counters(stats.hits, stats.misses, stats.evictions, stats.bytesRead),
            pageWarm, requests, activeRequests, stopping, worker)
    }

    ghost predicate Valid()
      reads this
    {
      Represents(Abs(), lru, index, nextNode, residentBytes)
    }

    constructor (system: nat -> int)
      ensures Valid() && Abs() == INITIAL && this.system == system && calls == 0
    {
      this.system, calls, mappedAt, mappedLength := system, 0, 0, 0;
      isOpen, file, budgetBytes, residentBytes := false, [], 0, 0;
      stats := Stats(0, 0, 0, 0, 0, 0);
      lru, index, nextNode := [], map[], 0;
      requests, activeRequests, stopping, pageWarm, worker := [], 0, false, false, NoWorker;
    }

    method DropEntries()
      requires Valid()
      modifies this`lru, this`index, this`residentBytes
      ensures Valid() && Abs() == old(Abs()).(entries := [])
    {
      hide Represents;
      EmptyRepresents(Abs(), lru, index, nextNode, residentBytes);
      lru, index, residentBytes := [], map[], 0;
    }

    method SetPageWarm(enabled: bool)
      requires Valid()
      modifies this
      ensures Valid() && Abs() == Apply(old(Abs()), Op.SetPageWarm(enabled))
    {
      hide Represents;
      if enabled {
        DropEntries();
        stats := stats.(residentBytes := 0, residentEntries := 0);
      }
      FrameRepresents(Abs(), Op.SetPageWarm(enabled), lru, index, nextNode, residentBytes);
      pageWarm := enabled;
    }

    /** The second half of `open`; `contents` is None when the file cannot be opened or measured. */
    method FinishOpen(contents: Option<seq<byte>>, limit: nat) returns (ok: bool)
      requires Valid() && !isOpen && worker.NoWorker? && stopping && limit <= MAX_OFFSET
      requires contents.Some? ==> |contents.value| <= MAX_OFFSET
      modifies this
      ensures Valid() && ok == contents.Some?
      ensures Abs() == Apply(old(Abs()), if ok then OpenFile(contents.value, limit) else OpenFailed(limit))
    {
      hide Represents;
      ghost var op := if contents.Some? then OpenFile(contents.value, limit) else OpenFailed(limit);
      InvFacts(Abs(), lru, index, nextNode, residentBytes);
      FrameRepresents(Abs(), op, lru, index, nextNode, residentBytes);
      stats := Stats(0, 0, 0, 0, 0, 0);
      budgetBytes := limit;
      if contents.None? {
        return false;
      }
      file, isOpen, stopping, worker := contents.value, true, false, Waiting;
      return true;
    }

    method CloseBegin()
      requires Valid()
      modifies this
      ensures Valid() && Abs() == Apply(old(Abs()), Op.CloseBegin)
    {
      hide Represents;
      FrameRepresents(Abs(), Op.CloseBegin, lru, index, nextNode, residentBytes);
      stopping, requests := true, [];
    }

    /** After the worker has been joined. */
    method CloseEnd()
      requires Valid() && Enabled(Abs(), Op.CloseEnd)
      modifies this
      ensures Valid() && Abs() == Apply(old(Abs()), Op.CloseEnd)
    {
      hide Represents;
      DropEntries();
      FrameRepresents(Abs(), Op.CloseEnd, lru, index, nextNode, residentBytes);
      isOpen, file := false, [];
    }

    method Clear()
      requires Valid()
      modifies this
      ensures Valid() && Abs() == Apply(old(Abs()), Op.Clear)
    {
      hide Represents;
      DropEntries();
      FrameRepresents(Abs(), Op.Clear, lru, index, nextNode, residentBytes);
      requests := [];
      stats := stats.(residentBytes := 0, residentEntries := 0);
    }

    method Prefetch(r: Key) returns (ok: bool)
      requires Valid()
      modifies this
      ensures Valid() && ok == Accepts(old(Abs()), r)
      ensures ok <==> isOpen && 0 < r.length && r.offset + r.length <= |file| && |old(requests)| < 64
      ensures Abs() == Apply(old(Abs()), Op.Prefetch(r))
    {
      hide Represents;
      FrameRepresents(Abs(), Op.Prefetch(r), lru, index, nextNode, residentBytes);
      if !isOpen || r.length == 0 || r.offset > |file| || r.length > |file| - r.offset {
        return false;
      }
      if |requests| >= MAX_PENDING {
        return false;
      }
      requests := requests + [r];
      return true;
    }

    /** One system call: it fails, reports end of file, or delivers between 1 and `count` bytes. */
    method PRead(buffer: array<byte>, at: nat, count: nat, offset: nat) returns (n: int)
      requires at + count <= buffer.Length && offset + count <= |file|
      modifies buffer, this`calls
      ensures calls == old(calls) + 1 && n == Answer(system(old(calls)), count)
      ensures n > 0 ==> buffer[..at + n] == old(buffer[..at]) + file[offset..offset + n]
    {
      n := Answer(system(calls), count);
      calls := calls + 1;
      if n > 0 {
        forall i | at <= i < at + n {
          buffer[i] := file[offset + (i - at)];
        }
      }
    }

    /** Reads one slice into a fresh buffer however the system call fragments it. */
    method ReadSlice(offset: nat, length: nat) returns (bytes: Option<seq<byte>>)
      requires offset + length <= |file|
      modifies this`calls
      ensures bytes == if Delivers(system, old(calls), length) then Some(file[offset..offset + length]) else None
    {
      hide Delivers;
      var buffer := new byte[length](_ => 0);
      var total := 0;
      while total < length
        invariant total <= length
        invariant buffer[..total] == file[offset..offset + total]
        invariant Delivers(system, old(calls), length) == Delivers(system, calls, length - total)
      {
        DeliversStep(system, calls, length - total);
        var chunk := if length - total < CHUNK then length - total else CHUNK;
        var n := PRead(buffer, total, chunk, offset + total);
        if n <= 0 {
          return None;
        }
        assert file[offset..offset + total + n] ==
               file[offset..offset + total] + file[offset + total..offset + total + n];
        total := total + n;
      }
      assert buffer[..] == buffer[..length];
      NothingToDeliver(system, calls);
      return Some(buffer[..]);
    }

    /** Pops items off the old end until `length` more bytes fit. */
    method Evict(length: nat)
      requires Valid() && length <= budgetBytes
      modifies this`lru, this`index, this`residentBytes, this`stats
      ensures Valid() && |lru| <= old(|lru|)
      ensures Keys(lru) == Fit(old(Keys(lru)), Length, budgetBytes - length)
      ensures residentBytes + length <= budgetBytes
      ensures stats == old(stats).(evictions := old(stats.evictions) + old(|lru|) - |lru|)
    {
      hide Represents, Fit, Sum;
      ghost var keys, room := Keys(lru), budgetBytes - length;
      ghost var kept := |Fit(keys, Length, room)|;
      EvictionStop(keys, room, |keys|);
      CountIsExact();
      while residentBytes + length > budgetBytes && lru != []
        invariant Valid() && kept <= |lru| <= |keys| && Keys(lru) == keys[..|lru|]
        invariant stats == old(stats).(evictions := old(stats.evictions) + |keys| - |lru|)
        invariant residentBytes == Sum(Keys(lru), Length)
        decreases |lru|
      {
        // The sum the code tests cannot wrap around.
        CountIsExact();
        assert residentBytes + length <= MAX_U64;
        EvictionStop(keys, room, |lru|);
        PopLast();
        CountIsExact();
      }
      EvictionStop(keys, room, |lru|);
    }

    lemma CountIsExact()
      requires Valid()
      ensures residentBytes == Sum(Keys(lru), Length) && residentBytes <= budgetBytes <= MAX_OFFSET
    {
    }

    method PopLast()
      requires Valid() && lru != []
      modifies this`lru, this`index, this`residentBytes, this`stats
      ensures Valid() && lru == old(lru[..|lru| - 1]) && Keys(lru) == old(Keys(lru)[..|lru| - 1])
      ensures stats == old(stats).(evictions := old(stats.evictions) + 1)
    {
      hide Represents, Keys;
      ghost var s := Abs();
      var last := lru[|lru| - 1];
      DropLastList(lru);
      DropLastRepresents(s, lru, index, nextNode, residentBytes, s.counters.(evictions := stats.evictions + 1));
      residentBytes := residentBytes - last.item.length;
      index := index - {last.item.key};
      lru := lru[..|lru| - 1];
      stats := stats.(evictions := stats.evictions + 1);
      assert Abs() == s.(entries := s.entries[..|s.entries| - 1],
                         counters := s.counters.(evictions := s.counters.evictions + 1));
    }

    /** Page-warm mode: maps the pages of the slice, touches them and keeps nothing.
        `pageSize` is what the system reports, or 4096. */
    method WarmPages(r: Key, pageSize: nat) returns (ok: bool)
      requires Valid() && InRange(Abs(), r) && pageWarm && pageSize > 0
      modifies this
      ensures Valid()
      ensures Abs() == LoadEffect(old(Abs()), r, ok) && (ok <==> system(old(calls)) > 0)
      ensures mappedAt % pageSize == 0 && mappedAt <= r.offset < mappedAt + pageSize
      ensures mappedAt + mappedLength == r.offset + r.length
    {
      hide Represents, Keys, Touch, Fit;
      InvBounds(Abs(), lru, index, nextNode, residentBytes);
      ok := MapPages(r, pageSize);
      CountWarm(r, ok);
    }

    method CountWarm(r: Key, ok: bool)
      requires Valid() && InRange(Abs(), r) && pageWarm
      modifies this`stats
      ensures Valid() && Abs() == LoadEffect(old(Abs()), r, ok)
    {
      hide Represents, Keys, Touch, Fit;
      var counted := stats.(misses := stats.misses + 1, bytesRead := stats.bytesRead + if ok then r.length else 0);
      RecountRepresents(Abs(), lru, index, nextNode, residentBytes,
                        Counters(stats.hits, counted.misses, stats.evictions, counted.bytesRead));
      stats := counted;
    }

    /** Widens the slice to the left up to a page boundary; the guard against overflow never fires. */
    method MapPages(r: Key, pageSize: nat) returns (ok: bool)
      requires pageSize > 0 && r.offset + r.length <= MAX_OFFSET
      modifies this`calls, this`mappedAt, this`mappedLength
      ensures ok <==> system(old(calls)) > 0
      ensures mappedAt % pageSize == 0 && mappedAt <= r.offset < mappedAt + pageSize
      ensures mappedAt + mappedLength == r.offset + r.length
    {
      hide PageOf;
      PageStart(r.offset, pageSize);
      var aligned := PageOf(r.offset, pageSize);
      var delta := r.offset - aligned;
      if r.length > MAX_U64 - delta {
        assert false;
      }
      ok := MapAndTouch(aligned, r.length + delta);
    }

    /** The system maps the range or refuses. */
    method MapAndTouch(offset: nat, length: nat) returns (mapped: bool)
      modifies this`calls, this`mappedAt, this`mappedLength
      ensures mapped <==> system(old(calls)) > 0
      ensures mappedAt == offset && mappedLength == length
    {
      mappedAt, mappedLength := offset, length;
      mapped := system(calls) > 0;
      calls := calls + 1;
    }

    method Hit(r: Key)
      requires Valid() && r in index && !pageWarm && InRange(Abs(), r)
      modifies this
      ensures Valid()
      ensures Abs() == LoadEffect(old(Abs()), r, true)
    {
      hide Inv, Coupled, AgreesWithFile, Sum, Touch, Moved;
      LookupFinds(Abs(), lru, index, nextNode, residentBytes, r);
      var i := Find(lru, index[r]);
      var item := lru[i].item;
      if item.offset == r.offset && item.length == r.length {
        SpliceRepresents(Abs(), lru, i, index, nextNode, residentBytes, Abs().counters.(hits := stats.hits + 1));
        lru := Moved(lru, i);
        stats := stats.(hits := stats.hits + 1);
      } else {
        // A key carries its own range, so a found item never has another one.
        assert false;
      }
    }

    method CountMiss()
      requires Valid()
      modifies this`stats
      ensures Valid() && Abs() == old(Abs()).(counters := old(Abs()).counters.(misses := old(stats.misses) + 1))
    {
      hide Represents;
      RecountRepresents(Abs(), lru, index, nextNode, residentBytes, Abs().counters.(misses := stats.misses + 1));
      stats := stats.(misses := stats.misses + 1);
    }

    method Insert(r: Key, bytes: seq<byte>)
      requires Valid() && ReadsFile(Abs(), r) && residentBytes + r.length <= budgetBytes
      requires bytes == file[r.offset..r.offset + r.length]
      modifies this`lru, this`index, this`nextNode, this`residentBytes, this`stats
      ensures Valid()
      ensures Abs() == old(Abs()).(
                entries := [r] + old(Keys(lru)),
                counters := Counters(old(stats.hits), old(stats.misses) + 1, old(stats.evictions),
                                     old(stats.bytesRead) + r.length))
    {
      hide Coupled, Inv, AgreesWithFile;
      PushRepresents(Abs(), lru, index, nextNode, residentBytes, r,
                     Counters(stats.hits, stats.misses + 1, stats.evictions, stats.bytesRead + r.length));
      assert FreshNode(file, nextNode, r).item.bytes == bytes;
      lru := [Node(nextNode, Item(r, r.offset, r.length, bytes))] + lru;
      index, nextNode := index[r := nextNode], nextNode + 1;
      residentBytes := residentBytes + r.length;
      stats := stats.(misses := stats.misses + 1, bytesRead := stats.bytesRead + r.length,
                      residentBytes := residentBytes, residentEntries := |lru|);
    }

    /** Reads the slice into room that eviction has already made. */
    method Fill(r: Key) returns (ok: bool)
      requires Valid() && ReadsFile(Abs(), r) && residentBytes + r.length <= budgetBytes
      modifies this
      ensures Valid() && (ok <==> Delivers(system, old(calls), r.length))
      ensures Abs() == old(Abs()).(
                entries := if ok then [r] + old(Keys(lru)) else old(Keys(lru)),
                counters := Counters(old(stats.hits), old(stats.misses) + 1, old(stats.evictions),
                                     old(stats.bytesRead) + if ok then r.length else 0))
    {
      hide Represents, Delivers, Keys;
      var bytes := ReadSlice(r.offset, r.length);
      if bytes.None? {
        CountMiss();
        return false;
      }
      Insert(r, bytes.value);
      return true;
    }

    /** A slice that is not resident: refused when it exceeds the budget, otherwise evict and read. */
    method Miss(r: Key) returns (ok: bool)
      requires Valid() && InRange(Abs(), r) && !pageWarm && r !in Keys(lru)
      modifies this
      ensures Valid()
      ensures Abs() == LoadEffect(old(Abs()), r, ok)
      ensures ok <==> 0 < r.length <= budgetBytes && Delivers(system, old(calls), r.length)
    {
      hide Represents, Coupled, Inv, AgreesWithFile, Fit;
      if budgetBytes == 0 || r.length > budgetBytes {
        CountMiss();
        return false;
      }
      FitPrefix(Keys(lru), Length, budgetBytes - r.length);
      Evict(r.length);
      ok := Fill(r);
    }

    /** Loads one slice: warms its pages, finds it resident, or reads it and makes room for it. */
    method Load(r: Key, pageSize: nat) returns (ok: bool)
      requires Valid() && pageSize > 0
      modifies this
      ensures Valid()
      ensures Abs() == Apply(old(Abs()), Op.Load(r, ok))
      ensures ok == LoadReturns(old(Abs()), r, Served(old(Abs()), r, system, old(calls)))
      ensures !pageWarm ==> (ok <==> r in Keys(lru))
      ensures pageWarm ==> (ok <==> isOpen && 0 < r.length && r.offset + r.length <= |file| && system(old(calls)) > 0)
    {
      ghost var served := Served(Abs(), r, system, calls);
      MeansAtLoad(Abs(), r, served, lru, index, nextNode, residentBytes);
      hide Represents, Coupled, Inv, AgreesWithFile;
      if !isOpen || r.length == 0 || r.offset > |file| || r.length > |file| - r.offset {
        return false;
      }
      if pageWarm {
        ok := WarmPages(r, pageSize);
        return;
      }
      LookupFinds(Abs(), lru, index, nextNode, residentBytes, r);
      if r in index {
        Hit(r);
        return true;
      }
      ok := Miss(r);
    }

    // ---------- The worker thread ----------

    method WorkerTake()
      requires Valid() && Enabled(Abs(), Op.WorkerTake)
      modifies this
      ensures Valid() && Abs() == Apply(old(Abs()), Op.WorkerTake)
    {
      hide Represents;
      FrameRepresents(Abs(), Op.WorkerTake, lru, index, nextNode, residentBytes);
      worker := Taken(requests[0]);
      requests := requests[1..];
      activeRequests := activeRequests + 1;
    }

    method WorkerLoad(pageSize: nat) returns (served: bool)
      requires Valid() && Enabled(Abs(), Op.WorkerLoad(true)) && pageSize > 0
      modifies this
      ensures Valid() && Abs() == Apply(old(Abs()), Op.WorkerLoad(served))
    {
      hide Coupled, Inv, AgreesWithFile, LoadEffect;
      var request := worker.request;
      served := Load(request, pageSize);
      LoadFrame(old(Abs()), request, served);
      FinishLoadRepresents(Abs(), lru, index, nextNode, residentBytes);
      worker := Loaded(request);
    }

    method WorkerDone()
      requires Valid() && Enabled(Abs(), Op.WorkerDone)
      modifies this
      ensures Valid() && Abs() == Apply(old(Abs()), Op.WorkerDone)
    {
      hide Represents;
      FrameRepresents(Abs(), Op.WorkerDone, lru, index, nextNode, residentBytes);
      if activeRequests > 0 {
        activeRequests := activeRequests - 1;
      }
      worker := Waiting;
    }

    method WorkerExit()
      requires Valid() && Enabled(Abs(), Op.WorkerExit)
      modifies this
      ensures Valid() && Abs() == Apply(old(Abs()), Op.WorkerExit)
    {
      hide Represents;
      FrameRepresents(Abs(), Op.WorkerExit, lru, index, nextNode, residentBytes);
      worker := NoWorker;
    }

    // ---------- Observers ----------

    /** The condition that `wait_idle` waits for: no request is queued and the worker holds none, whether it is
        loading it or has just loaded it. */
    method IsIdle() returns (idle: bool)
      requires Valid()
      ensures idle <==> |requests| + (if worker.Taken? || worker.Loaded? then 1 else 0) == 0
    {
      hide Represents;
      InvFacts(Abs(), lru, index, nextNode, residentBytes);
      idle := |requests| == 0 && activeRequests == 0;
    }

    /** The reported sizes are recomputed, so a stale stored size never shows. */
    method ReportStats() returns (report: Stats)
      requires Valid()
      ensures report.residentBytes == Sum(Abs().entries, Length) && report.residentEntries == |Abs().entries|
      ensures Counters(report.hits, report.misses, report.evictions, report.bytesRead) == Abs().counters
    {
      report := stats.(residentBytes := residentBytes, residentEntries := |lru|);
    }
  }
}
