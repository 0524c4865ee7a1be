/**
 * What the content matchers of scripts/parse_log.py promise, stated over
 * their pure models `MatchExec` and `MatchTf`: which thread bindings they
 * make, which milestones they require and file, how they time a milestone
 * against its predecessor, and what they do to the table of memory blocks.
 * The scenario lemmas at the end chain several matcher calls the way a
 * request's log lines chain them.
 */
module Correlation {
  import opened Wrappers
  import opened Patterns
  import opened Accumulator
  import opened ParseLog

  /** `after` holds `v` under `k`, and every other key exactly as `before` does. */
  ghost predicate SetOnly<K(!new), V>(before: map<K, V>, after: map<K, V>, k: K, v: V) {
    && k in after && after[k] == v
    && forall j :: j != k ==> (j in after <==> j in before) && (j in before ==> after[j] == before[j])
  }

  /** `after` lacks `k`, and holds every other key exactly as `before` does. */
  ghost predicate RemovedOnly<K(!new), V>(before: map<K, V>, after: map<K, V>, k: K) {
    && k !in after
    && forall j :: j != k ==> (j in after <==> j in before) && (j in before ==> after[j] == before[j])
  }

  /** `st'` is `st` with `e` filed as milestone `m` of seq `s`, and nothing else changed. */
  ghost predicate Filed(st: CorrelationState, st': CorrelationState, s: nat, m: Milestone, e: Entry) {
    && SetOnly(st.seqInfo, st'.seqInfo, (s, m), e)
    && st'.threadSeq == st.threadSeq && st'.tfThreadSeq == st.tfThreadSeq && st'.blocks == st.blocks
  }

  /** The recv_evenlop branch files the entry under its seq and reports the request type. */
  lemma RecvEvenlopFiles(st: CorrelationState, e: Entry, env: Envelope)
    ensures var o := MatchExec(st, e, Some(RecvRequestEvenlop(env)));
      && o == Matched(o.state, Some(RecvEvenlop(env.seqNum, env.reqType)))
      && Filed(st, o.state, env.seqNum, RecvEvenlopAt, e)
  {
  }

  /**
   * create_kernel binds the entry's thread to the seq in the executor's
   * map, overwriting an earlier binding and leaving every other thread's
   * as it was, and files the entry as the seq's kernel.
   */
  lemma CreateKernelBinds(st: CorrelationState, e: Entry, s: nat)
    ensures var o := MatchExec(st, e, Some(CreatedOpKernel(s)));
      && o == Matched(o.state, Some(CreateKernel(s)))
      && SetOnly(st.threadSeq, o.state.threadSeq, e.thread, s)
      && SetOnly(st.seqInfo, o.state.seqInfo, (s, CreateKernelAt), e)
      && o.state.tfThreadSeq == st.tfThreadSeq && o.state.blocks == st.blocks
  {
  }

  /**
   * The client's send, sent and recv-resp lines bind the entry's thread to
   * the seq in the client's map, leaving every other binding as it was,
   * and file the entry under the seq.
   */
  lemma ClientLinesBind(st: CorrelationState, e: Entry, c: TfContent)
    requires c.SendingEvenlop? || c.MessageSent? || c.ReceivedEvenlop?
    ensures var s := if c.MessageSent? then c.seqNum else c.env.seqNum;
      var m := if c.SendingEvenlop? then TfSendEvenlopAt else if c.MessageSent? then TfEvenlopSentAt else TfRecvRespAt;
      var o := MatchTf(st, e, Some(c));
      && o.Matched?
      && o.fields == Some(if c.SendingEvenlop? then TfSendEvenlop(s, c.env.reqType)
                          else if c.MessageSent? then TfEvenlopSent(s)
                          else TfRecvResp(s, c.env.reqType))
      && SetOnly(st.tfThreadSeq, o.state.tfThreadSeq, e.thread, s)
      && SetOnly(st.seqInfo, o.state.seqInfo, (s, m), e)
      && o.state.threadSeq == st.threadSeq && o.state.blocks == st.blocks
  {
  }

  /**
   * Both tf_vanilla_start forms file the entry under the seq of the line,
   * bind no thread, and report the start.
   */
  lemma VanillaStartFiles(st: CorrelationState, e: Entry, c: TfContent)
    requires c.VanillaStart? || c.VanillaStartAsync?
    ensures var o := MatchTf(st, e, Some(c));
      && o == Matched(o.state, Some(TfVanillaStart(c.seqNum)))
      && Filed(st, o.state, c.seqNum, TfVanillaStartAt, e)
  {
  }

  /**
   * The executor branches that find their seq through the entry's thread
   * raise when that thread is not in `thread_seq`, before they have
   * changed anything.
   */
  lemma UnboundExecThreadRaises(st: CorrelationState, e: Entry, c: Option<ExecContent>)
    requires e.source == Exec && e.thread !in st.threadSeq
    requires c == Some(ComputeFinished) || (c.Some? && c.value.Running?)
    ensures MatchExec(st, e, c) == Raised(st, ThreadNotFound(e.thread))
  {
  }

  /**
   * The client branch that finds its seq through the entry's thread
   * raises when that thread is not in `tf_thread_seq`, before it has
   * changed anything.
   */
  lemma UnboundClientThreadRaises(st: CorrelationState, e: Entry, d: Option<TfContent>)
    requires e.source == Tf && e.thread !in st.tfThreadSeq
    requires d == Some(RpcReturned)
    ensures MatchTf(st, e, d) == Raised(st, ThreadNotFound(e.thread))
  {
  }

  /**
   * start_running files the entry under the thread's seq whether or not
   * the check that follows passes; it raises exactly when the seq has no
   * recv_evenlop, and otherwise reports the time since it.
   */
  lemma StartRunningRequiresRecv(st: CorrelationState, e: Entry, isAsync: bool)
    requires e.thread in ThreadMap(st, e.source)
    ensures var s := ThreadMap(st, e.source)[e.thread];
      var o := MatchExec(st, e, Some(Running(isAsync)));
      && Filed(st, o.state, s, StartRunningAt, e)
      && (o.Raised? <==> (s, RecvEvenlopAt) !in st.seqInfo)
      && (o.Raised? ==> o.failure == MissingMilestone(s, RecvEvenlopAt))
      && (o.Matched? ==> o.fields == Some(StartRunning(s, isAsync, e.timestamp - st.seqInfo[(s, RecvEvenlopAt)].timestamp)))
  {
  }

  /**
   * Both compute_done forms (the seq from the thread, or from the line)
   * file the entry first; they raise exactly when the seq has no
   * start_running, and otherwise report the time since it.
   */
  lemma ComputeDoneRequiresStart(st: CorrelationState, e: Entry, c: ExecContent)
    requires c.ComputeAsyncFinished? || (c.ComputeFinished? && e.thread in ThreadMap(st, e.source))
    ensures var s := if c.ComputeAsyncFinished? then c.seqNum else ThreadMap(st, e.source)[e.thread];
      var o := MatchExec(st, e, Some(c));
      && Filed(st, o.state, s, ComputeDoneAt, e)
      && (o.Raised? <==> (s, StartRunningAt) !in st.seqInfo)
      && (o.Raised? ==> o.failure == MissingMilestone(s, StartRunningAt))
      && (o.Matched? ==> o.fields == Some(ComputeDone(s, e.timestamp - st.seqInfo[(s, StartRunningAt)].timestamp)))
  {
  }

  /**
   * resp_sent files the entry; only a RunResponse requires compute_done
   * and carries a process time, every other response type is reported
   * without one and never raises.
   */
  lemma RespSentRequiresComputeForRun(st: CorrelationState, e: Entry, env: Envelope)
    ensures var s, o := env.seqNum, MatchExec(st, e, Some(ResponseSent(env)));
      && Filed(st, o.state, s, RespSentAt, e)
      && (o.Raised? <==> env.reqType == "RunResponse" && (s, ComputeDoneAt) !in st.seqInfo)
      && (o.Raised? ==> o.failure == MissingMilestone(s, ComputeDoneAt))
      && (o.Matched? && env.reqType != "RunResponse" ==> o.fields == Some(RespSent(s, env.reqType, None)))
      && (o.Matched? && env.reqType == "RunResponse" ==>
            o.fields == Some(RespSent(s, env.reqType, Some(e.timestamp - st.seqInfo[(s, ComputeDoneAt)].timestamp))))
  {
  }

  /**
   * tf_rpc_return files the entry under the client thread's seq, then
   * reads tf_send_evenlop without checking for it: it raises exactly when
   * that milestone is missing, and otherwise reports the round trip.
   */
  lemma RpcReturnReadsSend(st: CorrelationState, e: Entry)
    requires e.thread in ThreadMap(st, e.source)
    ensures var s := ThreadMap(st, e.source)[e.thread];
      var o := MatchTf(st, e, Some(RpcReturned));
      && Filed(st, o.state, s, TfRpcReturnAt, e)
      && (o.Raised? <==> (s, TfSendEvenlopAt) !in st.seqInfo)
      && (o.Raised? ==> o.failure == MissingMilestone(s, TfSendEvenlopAt))
      && (o.Matched? ==> o.fields == Some(TfRpcReturn(s, e.timestamp - st.seqInfo[(s, TfSendEvenlopAt)].timestamp)))
  {
  }

  /**
   * Both vanilla compute_done forms file the entry as compute_done, then
   * read tf_vanilla_start without checking for it.
   */
  lemma VanillaDoneReadsStart(st: CorrelationState, e: Entry, c: TfContent)
    requires c.VanillaDone? || c.VanillaDoneAsync?
    ensures var o := MatchTf(st, e, Some(c));
      && Filed(st, o.state, c.seqNum, ComputeDoneAt, e)
      && (o.Raised? <==> (c.seqNum, TfVanillaStartAt) !in st.seqInfo)
      && (o.Raised? ==> o.failure == MissingMilestone(c.seqNum, TfVanillaStartAt))
      && (o.Matched? ==> o.fields == Some(ComputeDone(c.seqNum, e.timestamp - st.seqInfo[(c.seqNum, TfVanillaStartAt)].timestamp)))
  {
  }

  /** mem_alloc files the new block under its address, replacing any block already there, and touches nothing else. */
  lemma AllocOverwrites(st: CorrelationState, e: Entry, a: AllocMatch)
    ensures var b := Block(a.size, a.addr, a.memType, a.allocInst);
      var o := MatchExec(st, e, Some(Allocating(a)));
      && o == Matched(o.state, Some(MemAlloc(a.size, a.addr, b)))
      && SetOnly(st.blocks, o.state.blocks, a.addr, b)
      && o.state.seqInfo == st.seqInfo && o.state.threadSeq == st.threadSeq && o.state.tfThreadSeq == st.tfThreadSeq
  {
  }

  /**
   * mem_dealloc of a known address removes exactly that block and reports
   * its size; of an unknown address it raises and changes nothing.
   */
  lemma DeallocRemoves(st: CorrelationState, e: Entry, d: DeallocMatch)
    ensures var o := MatchExec(st, e, Some(Deallocating(d)));
      && (o.Raised? <==> d.addr !in st.blocks)
      && (o.Raised? ==> o == Raised(st, UnboundBlock(d.addr)))
      && (o.Matched? ==>
            && o.fields == Some(MemDealloc(d.addr, st.blocks[d.addr].size, st.blocks[d.addr]))
            && RemovedOnly(st.blocks, o.state.blocks, d.addr)
            && o.state.seqInfo == st.seqInfo && o.state.threadSeq == st.threadSeq && o.state.tfThreadSeq == st.tfThreadSeq)
  {
  }

  /**
   * Content that matches no executor pattern, and client content that
   * matches none or only the `RpcClient::run ... calling rpc` line,
   * changes nothing and finalizes the entry as 'unknown'.
   */
  lemma UnmatchedIsUnknown(g: Grammar, st: CorrelationState, e: Entry, content: string)
    requires e.source == Exec ==> DispatchExec(g.execContent(content)).None?
    requires e.source == Tf ==> DispatchTf(g.tfContent(content)) in {None, Some(RpcRun)}
    ensures Match(g, st, e, content) == Matched(st, None)
    ensures EventOf(Match(g, st, e, content).fields) == Unknown
  {
  }

  /** A dealloc of the address just allocated reports the allocated size and leaves the other blocks as they were. */
  lemma AllocThenDealloc(st: CorrelationState, e1: Entry, e2: Entry, a: AllocMatch, d: DeallocMatch)
    requires d.addr == a.addr
    ensures var st1 := MatchExec(st, e1, Some(Allocating(a))).state;
      var o := MatchExec(st1, e2, Some(Deallocating(d)));
      && o.Matched? && o.fields.Some? && o.fields.value.MemDealloc? && o.fields.value.size == a.size
      && RemovedOnly(st.blocks, o.state.blocks, a.addr)
  {
    var st1 := MatchExec(st, e1, Some(Allocating(a))).state;
    AllocOverwrites(st, e1, a);
    DeallocRemoves(st1, e2, d);
  }

  /**
   * The binding round trip on the executor: once create_kernel binds a
   * thread to a seq, a start_running line of that thread is filed under
   * the same seq.
   */
  lemma KernelThenRunning(st: CorrelationState, e1: Entry, e2: Entry, s: nat, isAsync: bool)
    requires e2.source == Exec && e2.thread == e1.thread
    ensures var st1 := MatchExec(st, e1, Some(CreatedOpKernel(s))).state;
      var o := MatchExec(st1, e2, Some(Running(isAsync)));
      && o.state.seqInfo[(s, StartRunningAt)] == e2
      && (o.Raised? <==> (s, RecvEvenlopAt) !in st.seqInfo)
  {
    var st1 := MatchExec(st, e1, Some(CreatedOpKernel(s))).state;
    CreateKernelBinds(st, e1, s);
    StartRunningRequiresRecv(st1, e2, isAsync);
  }

  /**
   * The binding round trip on the client: once a send binds a thread to a
   * seq, the rpc_return of that thread times the round trip from that send.
   */
  lemma SendThenReturn(st: CorrelationState, e1: Entry, e2: Entry, env: Envelope)
    requires e2.source == Tf && e2.thread == e1.thread
    ensures var st1 := MatchTf(st, e1, Some(SendingEvenlop(env))).state;
      MatchTf(st1, e2, Some(RpcReturned)).fields == Some(TfRpcReturn(env.seqNum, e2.timestamp - e1.timestamp))
  {
    var st1 := MatchTf(st, e1, Some(SendingEvenlop(env))).state;
    ClientLinesBind(st, e1, SendingEvenlop(env));
    RpcReturnReadsSend(st1, e2);
  }

  /**
   * One request's executor lines in order: recv_evenlop of the request,
   * create_kernel, start_running and compute_done on the kernel's thread,
   * then the RunResponse for the same seq. All five are filed; the prep
   * time runs from recv_evenlop (create_kernel is not a timing point), the
   * compute time from start_running, and the process time from
   * compute_done.
   */
  lemma ExecLifecycle(st: CorrelationState, e1: Entry, e2: Entry, e3: Entry, e4: Entry, e5: Entry, req: Envelope, resp: Envelope, isAsync: bool)
    requires req.seqNum == resp.seqNum && resp.reqType == "RunResponse"
    requires e3.source == Exec && e4.source == Exec && e2.thread == e3.thread == e4.thread
    ensures var s := req.seqNum;
      var o1 := MatchExec(st, e1, Some(RecvRequestEvenlop(req)));
      var o2 := MatchExec(o1.state, e2, Some(CreatedOpKernel(s)));
      var o3 := MatchExec(o2.state, e3, Some(Running(isAsync)));
      var o4 := MatchExec(o3.state, e4, Some(ComputeFinished));
      var o5 := MatchExec(o4.state, e5, Some(ResponseSent(resp)));
      && o1.fields == Some(RecvEvenlop(s, req.reqType))
      && o3.fields == Some(StartRunning(s, isAsync, e3.timestamp - e1.timestamp))
      && o4.fields == Some(ComputeDone(s, e4.timestamp - e3.timestamp))
      && o5.fields == Some(RespSent(s, resp.reqType, Some(e5.timestamp - e4.timestamp)))
      && o5.state.seqInfo[(s, RecvEvenlopAt)] == e1 && o5.state.seqInfo[(s, CreateKernelAt)] == e2
      && o5.state.seqInfo[(s, StartRunningAt)] == e3 && o5.state.seqInfo[(s, ComputeDoneAt)] == e4
      && o5.state.seqInfo[(s, RespSentAt)] == e5
  {
    var s := req.seqNum;
    var o1 := MatchExec(st, e1, Some(RecvRequestEvenlop(req)));
    RecvEvenlopFiles(st, e1, req);
    var o2 := MatchExec(o1.state, e2, Some(CreatedOpKernel(s)));
    CreateKernelBinds(o1.state, e2, s);
    var o3 := MatchExec(o2.state, e3, Some(Running(isAsync)));
    StartRunningRequiresRecv(o2.state, e3, isAsync);
    var o4 := MatchExec(o3.state, e4, Some(ComputeFinished));
    ComputeDoneRequiresStart(o3.state, e4, ComputeFinished);
    RespSentRequiresComputeForRun(o4.state, e5, resp);
  }
}
