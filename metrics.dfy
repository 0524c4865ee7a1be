/**
 * The metric extractors of scripts/parse_log.py (`message_size`,
 * `scheduling_time`, `compute_time`, `process_time`, `roundtrip_time`,
 * `req_on_wire_time`, `resp_on_wire_time`, `memory_usage`), without the
 * statistics and plots they draw from their lists. Each is a filter over
 * the finished log that keeps one field of the entries of one type, in log
 * order: here every extractor is `Pick` with its own selector, and what
 * `Pick` promises is proved once.
 */
module Metrics {
  import opened Wrappers
  import opened ParseLog

  /** A finalized entry as the extractors read it: its timestamp, its attributes, and its travel_time if `load_both` set one. */
  datatype Finished = Finished(timestamp: int, event: Event, travelTime: Option<int>)

  /** The values `f` selects from `logs`, in log order: the list comprehension `[f(l) for l in logs if ...]`. At most one value per entry. */
  function Pick<T>(logs: seq<Finished>, f: Finished -> Option<T>): (r: seq<T>)
    ensures |r| <= |logs|
  {
    if logs == [] then []
    else (if f(logs[0]).Some? then [f(logs[0]).value] else []) + Pick(logs[1..], f)
  }

  /** Picking from a concatenation picks from each part in turn. */
  lemma {:induction false} PickAppend<T>(a: seq<Finished>, b: seq<Finished>, f: Finished -> Option<T>)
    ensures Pick(a + b, f) == Pick(a, f) + Pick(b, f)
  {
    if a == [] {
      assert a + b == b;
    } else {
      var head := if f(a[0]).Some? then [f(a[0]).value] else [];
      assert (a + b)[0] == a[0] && (a + b)[1..] == a[1..] + b;
      assert Pick(a + b, f) == head + Pick(a[1..] + b, f);
      PickAppend(a[1..], b, f);
      assert Pick(a, f) == head + Pick(a[1..], f);
    }
  }

  /** `idx` lists, in increasing order, exactly the positions of `logs` that `f` selects, and `r` holds what it selects there. */
  ghost predicate Selects<T>(logs: seq<Finished>, f: Finished -> Option<T>, r: seq<T>, idx: seq<nat>) {
    && |idx| == |r|
    && (forall k :: 0 <= k < |idx| ==> idx[k] < |logs| && f(logs[idx[k]]) == Some(r[k]))
    && (forall j, k :: 0 <= j < k < |idx| ==> idx[j] < idx[k])
    && (forall i :: 0 <= i < |logs| && f(logs[i]).Some? ==> i in idx)
  }

  function Shifted(idx: seq<nat>): (r: seq<nat>)
    ensures |r| == |idx| && forall k :: 0 <= k < |idx| ==> r[k] == idx[k] + 1
  {
    seq(|idx|, k requires 0 <= k < |idx| => idx[k] + 1)
  }

  /** The positions selected in `logs[1..]`, seen from `logs`. */
  lemma ShiftSelects<T>(logs: seq<Finished>, f: Finished -> Option<T>, rest: seq<nat>) returns (tail: seq<nat>)
    requires logs != [] && Selects(logs[1..], f, Pick(logs[1..], f), rest)
    ensures |tail| == |rest|
    ensures forall k :: 0 <= k < |tail| ==> 1 <= tail[k] < |logs| && f(logs[tail[k]]) == Some(Pick(logs[1..], f)[k])
    ensures forall j, k :: 0 <= j < k < |tail| ==> tail[j] < tail[k]
    ensures forall i :: 1 <= i < |logs| && f(logs[i]).Some? ==> i in tail
  {
    tail := Shifted(rest);
    forall k | 0 <= k < |tail|
      ensures 1 <= tail[k] < |logs| && f(logs[tail[k]]) == Some(Pick(logs[1..], f)[k])
    {
      assert logs[1..][rest[k]] == logs[tail[k]];
    }
    forall i | 1 <= i < |logs| && f(logs[i]).Some?
      ensures i in tail
    {
      assert logs[1..][i - 1] == logs[i];
      var k :| 0 <= k < |rest| && rest[k] == i - 1;
      assert tail[k] == i;
    }
  }

  /** When `f` selects the first entry, the positions selected in `logs` are 0 and those of `logs[1..]` shifted. */
  lemma SelectsHead<T>(logs: seq<Finished>, f: Finished -> Option<T>, tail: seq<nat>) returns (idx: seq<nat>)
    requires logs != [] && f(logs[0]).Some? && |tail| == |Pick(logs[1..], f)|
    requires forall k :: 0 <= k < |tail| ==> 1 <= tail[k] < |logs| && f(logs[tail[k]]) == Some(Pick(logs[1..], f)[k])
    requires forall j, k :: 0 <= j < k < |tail| ==> tail[j] < tail[k]
    requires forall i :: 1 <= i < |logs| && f(logs[i]).Some? ==> i in tail
    ensures Selects(logs, f, Pick(logs, f), idx)
  {
    assert Pick(logs, f) == [f(logs[0]).value] + Pick(logs[1..], f);
    idx := [0] + tail;
    assert forall k :: 0 < k < |idx| ==> idx[k] == tail[k - 1];
  }

  /** When `f` passes over the first entry, the positions selected in `logs` are those of `logs[1..]` shifted. */
  lemma SelectsSkip<T>(logs: seq<Finished>, f: Finished -> Option<T>, tail: seq<nat>)
    requires logs != [] && f(logs[0]).None? && |tail| == |Pick(logs[1..], f)|
    requires forall k :: 0 <= k < |tail| ==> 1 <= tail[k] < |logs| && f(logs[tail[k]]) == Some(Pick(logs[1..], f)[k])
    requires forall j, k :: 0 <= j < k < |tail| ==> tail[j] < tail[k]
    requires forall i :: 1 <= i < |logs| && f(logs[i]).Some? ==> i in tail
    ensures Selects(logs, f, Pick(logs, f), tail)
  {
    var p := Pick(logs[1..], f);
    assert Selects(logs, f, p, tail);
    assert Pick(logs, f) == p;
  }

  /**
   * Every extractor returns exactly the selected field of the entries it
   * selects, one value per such entry, in log order.
   */
  lemma {:induction false} PickInOrder<T>(logs: seq<Finished>, f: Finished -> Option<T>) returns (idx: seq<nat>)
    ensures Selects(logs, f, Pick(logs, f), idx)
  {
    if logs == [] {
      idx := [];
    } else {
      var rest := PickInOrder(logs[1..], f);
      var tail := ShiftSelects(logs, f, rest);
      if f(logs[0]).Some? {
        idx := SelectsHead(logs, f, tail);
      } else {
        SelectsSkip(logs, f, tail);
        idx := tail;
      }
    }
  }

  /** A value is picked exactly when some entry of the log selects it. */
  lemma {:induction false} PickMembers<T>(logs: seq<Finished>, f: Finished -> Option<T>)
    ensures forall i :: 0 <= i < |logs| && f(logs[i]).Some? ==> f(logs[i]).value in Pick(logs, f)
    ensures forall x :: x in Pick(logs, f) ==> exists i :: 0 <= i < |logs| && f(logs[i]) == Some(x)
  {
    if logs != [] {
      var tail := logs[1..];
      PickMembers(tail, f);
      var head := if f(logs[0]).Some? then [f(logs[0]).value] else [];
      assert Pick(logs, f) == head + Pick(tail, f);
      forall i | 0 <= i < |logs| && f(logs[i]).Some?
        ensures f(logs[i]).value in Pick(logs, f)
      {
        if i > 0 {
          assert tail[i - 1] == logs[i];
        }
      }
      forall x | x in Pick(logs, f)
        ensures exists i :: 0 <= i < |logs| && f(logs[i]) == Some(x)
      {
        if x !in head {
          var i :| 0 <= i < |tail| && f(tail[i]) == Some(x);
          assert logs[i + 1] == tail[i];
        }
      }
    }
  }

  function RecvSize(l: Finished): Option<nat> {
    if l.event.RecvMsg? then Some(l.event.size) else None
  }

  function FwdSize(l: Finished): Option<nat> {
    if l.event.FwdMsg? then Some(l.event.size) else None
  }

  function PrepTime(l: Finished): Option<int> {
    if l.event.StartRunning? then Some(l.event.prepTime) else None
  }

  function ComputeTime(l: Finished): Option<int> {
    if l.event.ComputeDone? then Some(l.event.computeTime) else None
  }

  function ProcessTime(l: Finished): Option<int> {
    if l.event.RespSent? then l.event.processTime else None
  }

  function Roundtrip(l: Finished): Option<int> {
    if l.event.TfRpcReturn? then Some(l.event.roundtrip) else None
  }

  function RequestTravel(l: Finished): Option<int> {
    if l.event.RecvEvenlop? then l.travelTime else None
  }

  function ResponseTravel(l: Finished): Option<int> {
    if l.event.TfRpcReturn? then l.travelTime else None
  }

  /** `message_size`: the sizes of the received frames and of the forwarded messages. The ensures give membership; `PickInOrder` gives order and multiplicity. */
  function MessageSizes(logs: seq<Finished>): (r: (seq<nat>, seq<nat>))
    ensures forall x :: x in r.0 <==> exists i :: 0 <= i < |logs| && logs[i].event == RecvMsg(x)
    ensures forall x :: x in r.1 <==> exists i :: 0 <= i < |logs| && logs[i].event == FwdMsg(x)
  {
    PickMembers(logs, RecvSize);
    PickMembers(logs, FwdSize);
    (Pick(logs, RecvSize), Pick(logs, FwdSize))
  }

  /** `scheduling_time`: the prep_time of every start_running. The ensures give membership; `PickInOrder` gives order and multiplicity. */
  function SchedulingTimes(logs: seq<Finished>): (r: seq<int>)
    ensures forall x :: x in r <==> exists i :: 0 <= i < |logs| && logs[i].event.StartRunning? && logs[i].event.prepTime == x
  {
    PickMembers(logs, PrepTime);
    Pick(logs, PrepTime)
  }

  /** `compute_time`: the compute_time of every compute_done, the executor's and the client's vanilla ones alike. The ensures give membership; `PickInOrder` gives order and multiplicity. */
  function ComputeTimes(logs: seq<Finished>): (r: seq<int>)
    ensures forall x :: x in r <==> exists i :: 0 <= i < |logs| && logs[i].event.ComputeDone? && logs[i].event.computeTime == x
  {
    PickMembers(logs, ComputeTime);
    Pick(logs, ComputeTime)
  }

  /** `process_time`: the process_time of the resp_sent entries that have one. The ensures give membership; `PickInOrder` gives order and multiplicity. */
  function ProcessTimes(logs: seq<Finished>): (r: seq<int>)
    ensures forall x :: x in r <==> exists i :: 0 <= i < |logs| && logs[i].event.RespSent? && logs[i].event.processTime == Some(x)
  {
    PickMembers(logs, ProcessTime);
    Pick(logs, ProcessTime)
  }

  /** `roundtrip_time`: the roundtrip of every tf_rpc_return. The ensures give membership; `PickInOrder` gives order and multiplicity. */
  function RoundtripTimes(logs: seq<Finished>): (r: seq<int>)
    ensures forall x :: x in r <==> exists i :: 0 <= i < |logs| && logs[i].event.TfRpcReturn? && logs[i].event.roundtrip == x
  {
    PickMembers(logs, Roundtrip);
    Pick(logs, Roundtrip)
  }

  /** `req_on_wire_time`: the travel_time of the recv_evenlop entries that have one. The ensures give membership; `PickInOrder` gives order and multiplicity. */
  function RequestWireTimes(logs: seq<Finished>): (r: seq<int>)
    ensures forall x :: x in r <==> exists i :: 0 <= i < |logs| && logs[i].event.RecvEvenlop? && logs[i].travelTime == Some(x)
  {
    PickMembers(logs, RequestTravel);
    Pick(logs, RequestTravel)
  }

  /** `resp_on_wire_time`: the travel_time of the tf_rpc_return entries that have one. The ensures give membership; `PickInOrder` gives order and multiplicity. */
  function ResponseWireTimes(logs: seq<Finished>): (r: seq<int>)
    ensures forall x :: x in r <==> exists i :: 0 <= i < |logs| && logs[i].event.TfRpcReturn? && logs[i].travelTime == Some(x)
  {
    PickMembers(logs, ResponseTravel);
    Pick(logs, ResponseTravel)
  }

  /** One row of the frame `memory_usage` builds: a signed change of memory of one type. */
  datatype Activity = Activity(timestamp: int, size: int, memType: string, allocInst: string)

  /** An allocation adds its size, a deallocation takes the size it reported away; nothing else is memory activity. */
  function MemActivity(l: Finished): Option<Activity> {
    match l.event
    case MemAlloc(size, _, b) => Some(Activity(l.timestamp, size, b.memType, b.allocInst))
    case MemDealloc(_, size, b) => Some(Activity(l.timestamp, -(size as int), b.memType, b.allocInst))
    case _ => None
  }

  /** `memory_usage`, up to the frame it builds: the activities of the mem_alloc and mem_dealloc entries, in log order. The ensures give membership; `PickInOrder` gives order and multiplicity. */
  function MemoryUsage(logs: seq<Finished>): (r: seq<Activity>)
    ensures forall a :: a in r <==> exists i :: 0 <= i < |logs| && MemActivity(logs[i]) == Some(a)
  {
    PickMembers(logs, MemActivity);
    Pick(logs, MemActivity)
  }

  /** The loop of `memory_usage` that turns each mem_alloc and mem_dealloc entry into a row, in log order. */
  method CollectActivities(logs: seq<Finished>) returns (acts: seq<Activity>)
    ensures acts == MemoryUsage(logs)
  {
    acts := [];
    for i := 0 to |logs|
      invariant acts == Pick(logs[..i], MemActivity)
    {
      var l := logs[i];
      ghost var before := acts;
      match l.event {
        case MemAlloc(size, _, b) =>
          acts := acts + [Activity(l.timestamp, size, b.memType, b.allocInst)];
        case MemDealloc(_, size, b) =>
          acts := acts + [Activity(l.timestamp, -(size as int), b.memType, b.allocInst)];
        case _ =>
      }
      assert Pick([l], MemActivity) == if MemActivity(l).Some? then [MemActivity(l).value] else [];
      assert acts == before + Pick([l], MemActivity);
      assert logs[..i + 1] == logs[..i] + [l];
      PickAppend(logs[..i], [l], MemActivity);
    }
    assert logs[..|logs|] == logs;
  }

  /** The sum of the activities of type `t`: the last value of that type's cumulative sum. */
  function Total(acts: seq<Activity>, t: string): int {
    if acts == [] then 0 else (if acts[0].memType == t then acts[0].size else 0) + Total(acts[1..], t)
  }

  /** The bytes of type `t` allocated in `logs` minus those deallocated, read off the events directly. */
  function Held(logs: seq<Finished>, t: string): int {
    if logs == [] then 0
    else
      var here: int :=
        match logs[0].event
        case MemAlloc(size, _, b) => if b.memType == t then size else 0
        case MemDealloc(_, size, b) => if b.memType == t then -(size as int) else 0
        case _ => 0;
      here + Held(logs[1..], t)
  }

  lemma {:induction false} TotalAppend(a: seq<Activity>, b: seq<Activity>, t: string)
    ensures Total(a + b, t) == Total(a, t) + Total(b, t)
  {
    if a == [] {
      assert a + b == b;
    } else {
      assert (a + b)[0] == a[0] && (a + b)[1..] == a[1..] + b;
      TotalAppend(a[1..], b, t);
    }
  }

  /** What the usage plot of one memory type ends at: its allocations minus its deallocations. */
  lemma {:induction false} UsageTotal(logs: seq<Finished>, t: string)
    ensures Total(MemoryUsage(logs), t) == Held(logs, t)
  {
    if logs != [] {
      UsageTotal(logs[1..], t);
      var head := if MemActivity(logs[0]).Some? then [MemActivity(logs[0]).value] else [];
      assert Pick(logs, MemActivity) == head + Pick(logs[1..], MemActivity);
      TotalAppend(head, Pick(logs[1..], MemActivity), t);
    }
  }
}
