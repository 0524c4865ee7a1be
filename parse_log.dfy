/**
 * The log-correlation engine of scripts/parse_log.py.
 *
 * The script keeps its correlation tables in module globals
 * (`thread_seq_map`, `tf_thread_seq_map`, `seq_info`, `blocks`); here they
 * are the fields of one `Engine` object, which is created once and never
 * reset, as the globals are. `seq_info` holds references to `Entry`
 * objects, so when `load_both` sets `travel_time` on a milestone it sets it
 * on the very object that sits in the returned log.
 *
 * Each content matcher is written twice: as a pure function over a value
 * of the tables (`MatchExec`, `MatchTf`), which the lemmas talk about, and
 * as the method that updates the engine's fields in place
 * (`Engine.MatchExecContent`, `Engine.MatchTfContent`), proved to agree
 * with it.
 */
module ParseLog {
  import opened Wrappers
  import opened Patterns
  import opened Accumulator

  /** The keys of the inner dicts of `seq_info` ('recv_evenlop', 'create_kernel', ...). */
  datatype Milestone =
    | RecvEvenlopAt | CreateKernelAt | StartRunningAt | ComputeDoneAt | RespSentAt
    | TfSendEvenlopAt | TfEvenlopSentAt | TfRecvRespAt | TfRpcReturnAt | TfVanillaStartAt

  /** A record of `blocks`: the dict built by the mem_alloc branch. */
  datatype Block = Block(size: nat, addr: string, memType: string, allocInst: string)

  /**
   * The attributes a matcher gives a finalized entry, one variant per value
   * of its 'type'; `Unknown` is 'unknown'. Durations are integer
   * microseconds (the script's `total_seconds()` of the same difference).
   */
  datatype Event =
    | RecvMsg(size: nat)
    | RecvEvenlop(seqNum: nat, reqType: string)
    | CreateKernel(seqNum: nat)
    | StartRunning(seqNum: nat, isAsync: bool, prepTime: int)
    | ComputeDone(seqNum: nat, computeTime: int)
    | RespSent(seqNum: nat, respType: string, processTime: Option<int>)
    | FwdMsg(size: nat)
    | MemAlloc(size: nat, addr: string, block: Block)
    | MemDealloc(addr: string, size: nat, block: Block)
    | TfSendEvenlop(seqNum: nat, reqType: string)
    | TfEvenlopSent(seqNum: nat)
    | TfRecvResp(seqNum: nat, respType: string)
    | TfRpcReturn(seqNum: nat, roundtrip: int)
    | TfVanillaStart(seqNum: nat)
    | Unknown

  /** The exceptions a matcher raises. */
  datatype Failure =
    | ThreadNotFound(thread: nat)                        // ValueError in seq_from_entry
    | MissingMilestone(seqNum: nat, milestone: Milestone) // ValueError on a checked predecessor, KeyError on an unchecked one
    | UnboundBlock(addr: string)                         // the mem_dealloc branch reads `block` that was never bound

  /** An entry holds its raw text until `finalize` deletes it and adds the matcher's attributes. */
  datatype EntryState = Open(rawContent: string) | Finalized(event: Event)

  /**
   * `seq_info`, the two thread maps and `blocks`, as a value. `seq_info`
   * is a dict of dicts (`seq_info[s][m]`); here it is one map keyed by the
   * pair (s, m). Every inner dict the script creates is created by a store
   * into it, so the two hold the same entries under the same keys.
   */
  datatype CorrelationState = CorrelationState(
    threadSeq: map<nat, nat>,
    tfThreadSeq: map<nat, nat>,
    seqInfo: map<(nat, Milestone), Entry>,
    blocks: map<string, Block>)

  /** What a matcher did: the tables afterwards, and either its dict of attributes (`None` for `{}`) or the exception. */
  datatype Outcome = Matched(state: CorrelationState, fields: Option<Event>) | Raised(state: CorrelationState, failure: Failure)

  function Reported(o: Outcome): Result<Option<Event>, Failure> {
    match o
    case Matched(_, f) => Ok(f)
    case Raised(_, f) => Err(f)
  }

  /** `finalize`: an empty dict gets the type 'unknown'. */
  function EventOf(fields: Option<Event>): Event {
    fields.GetOr(Unknown)
  }

  /** `seq_info[s][m] = e`. */
  function Record(st: CorrelationState, s: nat, m: Milestone, e: Entry): CorrelationState {
    st.(seqInfo := st.seqInfo[(s, m) := e])
  }

  /** `tf_thread_seq_map[thread] = s`. */
  function BindClient(st: CorrelationState, thread: nat, s: nat): CorrelationState {
    st.(tfThreadSeq := st.tfThreadSeq[thread := s])
  }

  /** The thread map `seq_from_entry` consults: the client's for 'tf' entries, the executor's otherwise. */
  function ThreadMap(st: CorrelationState, source: Source): map<nat, nat> {
    if source == Tf then st.tfThreadSeq else st.threadSeq
  }

  /** `seq_from_entry`: the seq the entry's thread is bound to; it raises exactly when the thread is unbound. */
  function SeqFromEntry(st: CorrelationState, e: Entry): (r: Result<nat, Failure>)
    ensures r.Err? <==> e.thread !in ThreadMap(st, e.source)
    ensures r.Ok? ==> r.value == ThreadMap(st, e.source)[e.thread]
    ensures r.Err? ==> r.error == ThreadNotFound(e.thread)
  {
    var m := ThreadMap(st, e.source);
    if e.thread in m then Ok(m[e.thread]) else Err(ThreadNotFound(e.thread))
  }

  /** `now` minus the timestamp of milestone `m` of seq `s`; a missing milestone raises. */
  function Since(st: CorrelationState, s: nat, m: Milestone, now: int): (r: Result<int, Failure>)
    ensures r.Err? <==> (s, m) !in st.seqInfo
    ensures r.Ok? ==> r.value == now - st.seqInfo[(s, m)].timestamp
    ensures r.Err? ==> r.error == MissingMilestone(s, m)
  {
    if (s, m) in st.seqInfo then Ok(now - st.seqInfo[(s, m)].timestamp) else Err(MissingMilestone(s, m))
  }

  /** The running branch: resolve the seq by thread, store start_running, then require recv_evenlop. */
  function StartRunningOf(st: CorrelationState, e: Entry, isAsync: bool): (r: Outcome)
    ensures SeqFromEntry(st, e).Err? ==> r == Raised(st, ThreadNotFound(e.thread))
    ensures SeqFromEntry(st, e).Ok? ==>
      var s := SeqFromEntry(st, e).value;
      && (s, StartRunningAt) in r.state.seqInfo && r.state.seqInfo[(s, StartRunningAt)] == e
      && (r.Raised? <==> (s, RecvEvenlopAt) !in st.seqInfo)
    ensures r.state.threadSeq == st.threadSeq && r.state.tfThreadSeq == st.tfThreadSeq && r.state.blocks == st.blocks
  {
    match SeqFromEntry(st, e)
    case Err(f) => Raised(st, f)
    case Ok(s) =>
      var st' := Record(st, s, StartRunningAt, e);
      match Since(st', s, RecvEvenlopAt, e.timestamp)
      case Err(f) => Raised(st', f)
      case Ok(d) => Matched(st', Some(StartRunning(s, isAsync, d)))
  }

  /** Both executor compute_done forms once the seq is known: store compute_done, then require start_running. */
  function ComputeDoneOf(st: CorrelationState, e: Entry, s: nat): (r: Outcome)
    ensures (s, ComputeDoneAt) in r.state.seqInfo && r.state.seqInfo[(s, ComputeDoneAt)] == e
    ensures r.Raised? <==> (s, StartRunningAt) !in st.seqInfo
    ensures r.state.threadSeq == st.threadSeq && r.state.tfThreadSeq == st.tfThreadSeq && r.state.blocks == st.blocks
  {
    var st' := Record(st, s, ComputeDoneAt, e);
    match Since(st', s, StartRunningAt, e.timestamp)
    case Err(f) => Raised(st', f)
    case Ok(d) => Matched(st', Some(ComputeDone(s, d)))
  }

  /** The resp_sent branch: store resp_sent; only a RunResponse requires compute_done and carries a process time. */
  function RespSentOf(st: CorrelationState, e: Entry, env: Envelope): (r: Outcome)
    ensures (env.seqNum, RespSentAt) in r.state.seqInfo && r.state.seqInfo[(env.seqNum, RespSentAt)] == e
    ensures r.Raised? <==> env.reqType == "RunResponse" && (env.seqNum, ComputeDoneAt) !in st.seqInfo
    ensures r.Matched? ==> r.fields.Some? && r.fields.value.RespSent? && (r.fields.value.processTime.Some? <==> env.reqType == "RunResponse")
    ensures r.state.threadSeq == st.threadSeq && r.state.tfThreadSeq == st.tfThreadSeq && r.state.blocks == st.blocks
  {
    var st' := Record(st, env.seqNum, RespSentAt, e);
    if env.reqType != "RunResponse" then Matched(st', Some(RespSent(env.seqNum, env.reqType, None)))
    else
      match Since(st', env.seqNum, ComputeDoneAt, e.timestamp)
      case Err(f) => Raised(st', f)
      case Ok(d) => Matched(st', Some(RespSent(env.seqNum, env.reqType, Some(d))))
  }

  /** The mem_dealloc branch: a known block is removed and reported; an unknown one leaves `block` unbound. */
  function DeallocOf(st: CorrelationState, d: DeallocMatch): (r: Outcome)
    ensures r.Raised? <==> d.addr !in st.blocks
    ensures d.addr !in r.state.blocks && r.state.blocks.Keys == st.blocks.Keys - {d.addr}
    ensures r.Matched? ==> r.fields.Some? && r.fields.value.MemDealloc? && r.fields.value.size == st.blocks[d.addr].size
    ensures r.state.seqInfo == st.seqInfo && r.state.threadSeq == st.threadSeq && r.state.tfThreadSeq == st.tfThreadSeq
  {
    if d.addr in st.blocks then
      var b := st.blocks[d.addr];
      Matched(st.(blocks := st.blocks - {d.addr}), Some(MemDealloc(d.addr, b.size, b)))
    else Raised(st, UnboundBlock(d.addr))
  }

  /** `match_exec_content`, given the pattern that won. */
  function MatchExec(st: CorrelationState, e: Entry, c: Option<ExecContent>): (r: Outcome)
    ensures r.state.tfThreadSeq == st.tfThreadSeq
    ensures r.state.threadSeq != st.threadSeq ==> c.Some? && c.value.CreatedOpKernel?
    ensures r.state.blocks != st.blocks ==> c.Some? && (c.value.Allocating? || c.value.Deallocating?)
    ensures r.Raised? ==>
      c.Some? && (c.value.Running? || c.value.ComputeFinished? || c.value.ComputeAsyncFinished? || c.value.ResponseSent? || c.value.Deallocating?)
  {
    match c
    case None => Matched(st, None)
    case Some(RecvFrame(size)) => Matched(st, Some(RecvMsg(size)))
    case Some(RecvRequestEvenlop(env)) =>
      Matched(Record(st, env.seqNum, RecvEvenlopAt, e), Some(RecvEvenlop(env.seqNum, env.reqType)))
    case Some(CreatedOpKernel(s)) =>
      Matched(Record(st.(threadSeq := st.threadSeq[e.thread := s]), s, CreateKernelAt, e), Some(CreateKernel(s)))
    case Some(Running(isAsync)) => StartRunningOf(st, e, isAsync)
    case Some(ComputeFinished) =>
      (match SeqFromEntry(st, e)
       case Err(f) => Raised(st, f)
       case Ok(s) => ComputeDoneOf(st, e, s))
    case Some(ComputeAsyncFinished(s)) => ComputeDoneOf(st, e, s)
    case Some(ResponseSent(env)) => RespSentOf(st, e, env)
    case Some(ForwardingMessage(size)) => Matched(st, Some(FwdMsg(size)))
    case Some(Allocating(a)) =>
      var b := Block(a.size, a.addr, a.memType, a.allocInst);
      Matched(st.(blocks := st.blocks[a.addr := b]), Some(MemAlloc(a.size, a.addr, b)))
    case Some(Deallocating(d)) => DeallocOf(st, d)
  }

  /** The tf_rpc_return branch: resolve the seq by thread, store the milestone, then read tf_send_evenlop unchecked. */
  function RpcReturnOf(st: CorrelationState, e: Entry): (r: Outcome)
    ensures SeqFromEntry(st, e).Err? ==> r == Raised(st, ThreadNotFound(e.thread))
    ensures SeqFromEntry(st, e).Ok? ==>
      var s := SeqFromEntry(st, e).value;
      && (s, TfRpcReturnAt) in r.state.seqInfo && r.state.seqInfo[(s, TfRpcReturnAt)] == e
      && (r.Raised? <==> (s, TfSendEvenlopAt) !in st.seqInfo)
    ensures r.state.threadSeq == st.threadSeq && r.state.tfThreadSeq == st.tfThreadSeq && r.state.blocks == st.blocks
  {
    match SeqFromEntry(st, e)
    case Err(f) => Raised(st, f)
    case Ok(s) =>
      var st' := Record(st, s, TfRpcReturnAt, e);
      match Since(st', s, TfSendEvenlopAt, e.timestamp)
      case Err(f) => Raised(st', f)
      case Ok(d) => Matched(st', Some(TfRpcReturn(s, d)))
  }

  /** The vanilla compute_done forms: store compute_done, then read tf_vanilla_start unchecked. */
  function VanillaDoneOf(st: CorrelationState, e: Entry, s: nat): (r: Outcome)
    ensures (s, ComputeDoneAt) in r.state.seqInfo && r.state.seqInfo[(s, ComputeDoneAt)] == e
    ensures r.Raised? <==> (s, TfVanillaStartAt) !in st.seqInfo
    ensures r.state.threadSeq == st.threadSeq && r.state.tfThreadSeq == st.tfThreadSeq && r.state.blocks == st.blocks
  {
    var st' := Record(st, s, ComputeDoneAt, e);
    match Since(st', s, TfVanillaStartAt, e.timestamp)
    case Err(f) => Raised(st', f)
    case Ok(d) => Matched(st', Some(ComputeDone(s, d)))
  }

  /** `match_tf_content`, given the pattern that won. */
  function MatchTf(st: CorrelationState, e: Entry, c: Option<TfContent>): (r: Outcome)
    ensures r.state.threadSeq == st.threadSeq && r.state.blocks == st.blocks
    ensures r.state.tfThreadSeq != st.tfThreadSeq ==>
      c.Some? && (c.value.SendingEvenlop? || c.value.MessageSent? || c.value.ReceivedEvenlop?)
    ensures r.Raised? ==> c.Some? && (c.value.RpcReturned? || c.value.VanillaDone? || c.value.VanillaDoneAsync?)
  {
    match c
    case None => Matched(st, None)
    case Some(RpcRun) => Matched(st, None)
    case Some(SendingEvenlop(env)) =>
      Matched(Record(BindClient(st, e.thread, env.seqNum), env.seqNum, TfSendEvenlopAt, e), Some(TfSendEvenlop(env.seqNum, env.reqType)))
    case Some(MessageSent(s)) =>
      Matched(Record(BindClient(st, e.thread, s), s, TfEvenlopSentAt, e), Some(TfEvenlopSent(s)))
    case Some(ReceivedEvenlop(env)) =>
      Matched(Record(BindClient(st, e.thread, env.seqNum), env.seqNum, TfRecvRespAt, e), Some(TfRecvResp(env.seqNum, env.reqType)))
    case Some(RpcReturned) => RpcReturnOf(st, e)
    case Some(VanillaStart(s)) => Matched(Record(st, s, TfVanillaStartAt, e), Some(TfVanillaStart(s)))
    case Some(VanillaDone(s)) => VanillaDoneOf(st, e, s)
    case Some(VanillaStartAsync(s)) => Matched(Record(st, s, TfVanillaStartAt, e), Some(TfVanillaStart(s)))
    case Some(VanillaDoneAsync(s)) => VanillaDoneOf(st, e, s)
  }

  /** `Entry.finalize`'s call of the matcher for the entry's source on its text. */
  function Match(g: Grammar, st: CorrelationState, e: Entry, content: string): (r: Outcome)
    ensures e.source == Exec ==> r.state.tfThreadSeq == st.tfThreadSeq
    ensures e.source == Tf ==> r.state.threadSeq == st.threadSeq && r.state.blocks == st.blocks
  {
    if e.source == Exec then MatchExec(st, e, DispatchExec(g.execContent(content)))
    else MatchTf(st, e, DispatchTf(g.tfContent(content)))
  }

  /** A block is filed under its own address. */
  ghost predicate BlocksFiled(st: CorrelationState) {
    forall a :: a in st.blocks ==> st.blocks[a].addr == a
  }

  /** An executor thread is bound only to a seq whose kernel was created. */
  ghost predicate ExecThreadsBound(st: CorrelationState) {
    forall t :: t in st.threadSeq ==> (st.threadSeq[t], CreateKernelAt) in st.seqInfo
  }

  /** A client thread is bound only by a send, sent or recv-resp milestone of its seq. */
  ghost predicate ClientBound(st: CorrelationState, s: nat) {
    (s, TfSendEvenlopAt) in st.seqInfo || (s, TfEvenlopSentAt) in st.seqInfo || (s, TfRecvRespAt) in st.seqInfo
  }

  ghost predicate ClientThreadsBound(st: CorrelationState) {
    forall t :: t in st.tfThreadSeq ==> ClientBound(st, st.tfThreadSeq[t])
  }

  /** No entry is filed under two (seq, milestone) keys. */
  ghost predicate FiledOnce(st: CorrelationState) {
    forall k1, k2 :: k1 in st.seqInfo && k2 in st.seqInfo && st.seqInfo[k1] == st.seqInfo[k2] ==> k1 == k2
  }

  /** What every run of the matchers keeps true of the tables. */
  ghost predicate Consistent(st: CorrelationState) {
    BlocksFiled(st) && ExecThreadsBound(st) && ClientThreadsBound(st) && FiledOnce(st)
  }

  /** Milestones are never removed, and the only entry that can newly appear in `seq_info` is `e`. */
  ghost predicate Grows(st: CorrelationState, st': CorrelationState, e: Entry) {
    st.seqInfo.Keys <= st'.seqInfo.Keys && st'.seqInfo.Values <= st.seqInfo.Values + {e}
  }

  lemma RecordKeepsConsistent(st: CorrelationState, s: nat, m: Milestone, e: Entry)
    ensures Grows(st, Record(st, s, m, e), e)
    ensures Consistent(st) && e !in st.seqInfo.Values ==> Consistent(Record(st, s, m, e))
  {
    var st' := Record(st, s, m, e);
    if FiledOnce(st) && e !in st.seqInfo.Values {
      forall k1, k2 | k1 in st'.seqInfo && k2 in st'.seqInfo && st'.seqInfo[k1] == st'.seqInfo[k2]
        ensures k1 == k2
      {
        if k1 != (s, m) && k2 != (s, m) {
          assert st.seqInfo[k1] == st'.seqInfo[k1];
        }
      }
    }
    forall x | x in st'.seqInfo.Values ensures x in st.seqInfo.Values + {e} {
      var k :| k in st'.seqInfo && st'.seqInfo[k] == x;
      if k != (s, m) {
        assert st.seqInfo[k] == x;
      }
    }
  }

  /** create_kernel binds the thread to a seq whose kernel it files at the same time. */
  lemma BindKernelKeepsConsistent(st: CorrelationState, s: nat, e: Entry)
    ensures Grows(st, Record(st.(threadSeq := st.threadSeq[e.thread := s]), s, CreateKernelAt, e), e)
    ensures Consistent(st) && e !in st.seqInfo.Values ==>
      Consistent(Record(st.(threadSeq := st.threadSeq[e.thread := s]), s, CreateKernelAt, e))
  {
    var st1 := st.(threadSeq := st.threadSeq[e.thread := s]);
    RecordKeepsConsistent(st, s, CreateKernelAt, e);
    assert Record(st1, s, CreateKernelAt, e) == Record(st, s, CreateKernelAt, e).(threadSeq := st1.threadSeq);
  }

  /** tf send, sent and recv-resp bind the client thread to a seq whose milestone they file at the same time. */
  lemma BindClientKeepsConsistent(st: CorrelationState, s: nat, m: Milestone, e: Entry)
    requires m == TfSendEvenlopAt || m == TfEvenlopSentAt || m == TfRecvRespAt
    ensures Grows(st, Record(BindClient(st, e.thread, s), s, m, e), e)
    ensures Consistent(st) && e !in st.seqInfo.Values ==> Consistent(Record(BindClient(st, e.thread, s), s, m, e))
  {
    RecordKeepsConsistent(st, s, m, e);
    assert Record(BindClient(st, e.thread, s), s, m, e) == BindClient(Record(st, s, m, e), e.thread, s);
  }

  lemma MatchExecKeepsConsistent(st: CorrelationState, e: Entry, c: Option<ExecContent>)
    ensures Grows(st, MatchExec(st, e, c).state, e)
    ensures Consistent(st) && e !in st.seqInfo.Values ==> Consistent(MatchExec(st, e, c).state)
  {
    var st' := MatchExec(st, e, c).state;
    match c
    case None =>
    case Some(RecvFrame(_)) =>
    case Some(RecvRequestEvenlop(env)) =>
      assert st' == Record(st, env.seqNum, RecvEvenlopAt, e);
      RecordKeepsConsistent(st, env.seqNum, RecvEvenlopAt, e);
    case Some(CreatedOpKernel(s)) =>
      assert st' == Record(st.(threadSeq := st.threadSeq[e.thread := s]), s, CreateKernelAt, e);
      BindKernelKeepsConsistent(st, s, e);
    case Some(Running(_)) =>
      if e.thread in ThreadMap(st, e.source) {
        var s := ThreadMap(st, e.source)[e.thread];
        assert st' == Record(st, s, StartRunningAt, e);
        RecordKeepsConsistent(st, s, StartRunningAt, e);
      } else {
        assert st' == st;
      }
    case Some(ComputeFinished) =>
      if e.thread in ThreadMap(st, e.source) {
        var s := ThreadMap(st, e.source)[e.thread];
        assert st' == Record(st, s, ComputeDoneAt, e);
        RecordKeepsConsistent(st, s, ComputeDoneAt, e);
      } else {
        assert st' == st;
      }
    case Some(ComputeAsyncFinished(s)) =>
      assert st' == Record(st, s, ComputeDoneAt, e);
      RecordKeepsConsistent(st, s, ComputeDoneAt, e);
    case Some(ResponseSent(env)) =>
      assert st' == Record(st, env.seqNum, RespSentAt, e);
      RecordKeepsConsistent(st, env.seqNum, RespSentAt, e);
    case Some(ForwardingMessage(_)) =>
    case Some(Allocating(a)) =>
      assert st' == st.(blocks := st.blocks[a.addr := Block(a.size, a.addr, a.memType, a.allocInst)]);
    case Some(Deallocating(d)) =>
      assert st' == if d.addr in st.blocks then st.(blocks := st.blocks - {d.addr}) else st;
  }

  lemma MatchTfKeepsConsistent(st: CorrelationState, e: Entry, c: Option<TfContent>)
    ensures Grows(st, MatchTf(st, e, c).state, e)
    ensures Consistent(st) && e !in st.seqInfo.Values ==> Consistent(MatchTf(st, e, c).state)
  {
    var st' := MatchTf(st, e, c).state;
    match c
    case None =>
    case Some(RpcRun) =>
    case Some(SendingEvenlop(env)) =>
      assert st' == Record(BindClient(st, e.thread, env.seqNum), env.seqNum, TfSendEvenlopAt, e);
      BindClientKeepsConsistent(st, env.seqNum, TfSendEvenlopAt, e);
    case Some(MessageSent(s)) =>
      assert st' == Record(BindClient(st, e.thread, s), s, TfEvenlopSentAt, e);
      BindClientKeepsConsistent(st, s, TfEvenlopSentAt, e);
    case Some(ReceivedEvenlop(env)) =>
      assert st' == Record(BindClient(st, e.thread, env.seqNum), env.seqNum, TfRecvRespAt, e);
      BindClientKeepsConsistent(st, env.seqNum, TfRecvRespAt, e);
    case Some(RpcReturned) =>
      if e.thread in ThreadMap(st, e.source) {
        var s := ThreadMap(st, e.source)[e.thread];
        assert st' == Record(st, s, TfRpcReturnAt, e);
        RecordKeepsConsistent(st, s, TfRpcReturnAt, e);
      } else {
        assert st' == st;
      }
    case Some(VanillaStart(s)) =>
      assert st' == Record(st, s, TfVanillaStartAt, e);
      RecordKeepsConsistent(st, s, TfVanillaStartAt, e);
    case Some(VanillaDone(s)) =>
      assert st' == Record(st, s, ComputeDoneAt, e);
      RecordKeepsConsistent(st, s, ComputeDoneAt, e);
    case Some(VanillaStartAsync(s)) =>
      assert st' == Record(st, s, TfVanillaStartAt, e);
      RecordKeepsConsistent(st, s, TfVanillaStartAt, e);
    case Some(VanillaDoneAsync(s)) =>
      assert st' == Record(st, s, ComputeDoneAt, e);
      RecordKeepsConsistent(st, s, ComputeDoneAt, e);
  }

  /**
   * The matchers never drop a milestone and file no entry but their own,
   * and they keep the tables consistent, whether they return or raise, when
   * the entry is not yet filed.
   */
  lemma MatchKeepsConsistent(g: Grammar, st: CorrelationState, e: Entry, content: string)
    ensures Grows(st, Match(g, st, e, content).state, e)
    ensures Consistent(st) && e !in st.seqInfo.Values ==> Consistent(Match(g, st, e, content).state)
  {
    if e.source == Exec {
      MatchExecKeepsConsistent(st, e, DispatchExec(g.execContent(content)));
    } else {
      MatchTfKeepsConsistent(st, e, DispatchTf(g.tfContent(content)));
    }
  }

  /**
   * The travel time the merge of `load_both` gives the entry filed under
   * `k`: a recv_evenlop is timed from the client's tf_send_evenlop of the
   * same seq, a tf_rpc_return from the executor's resp_sent; any other
   * entry, or one whose partner milestone is missing, gets none.
   */
  function TravelOf(st: CorrelationState, k: (nat, Milestone)): (r: Option<int>)
    requires k in st.seqInfo
    ensures r.Some? <==>
      || (k.1 == RecvEvenlopAt && (k.0, TfSendEvenlopAt) in st.seqInfo)
      || (k.1 == TfRpcReturnAt && (k.0, RespSentAt) in st.seqInfo)
    ensures r.Some? && k.1 == RecvEvenlopAt ==>
      r.value == st.seqInfo[k].timestamp - st.seqInfo[(k.0, TfSendEvenlopAt)].timestamp
    ensures r.Some? && k.1 == TfRpcReturnAt ==>
      r.value == st.seqInfo[k].timestamp - st.seqInfo[(k.0, RespSentAt)].timestamp
  {
    var (s, m) := k;
    if m == RecvEvenlopAt && (s, TfSendEvenlopAt) in st.seqInfo then
      Some(st.seqInfo[k].timestamp - st.seqInfo[(s, TfSendEvenlopAt)].timestamp)
    else if m == TfRpcReturnAt && (s, RespSentAt) in st.seqInfo then
      Some(st.seqInfo[k].timestamp - st.seqInfo[(s, RespSentAt)].timestamp)
    else None
  }

  /** The travel time of the entry filed under `k` after the merge, given the one it had before. */
  function Travelled(st: CorrelationState, k: (nat, Milestone), prior: Option<int>): Option<int>
    requires k in st.seqInfo
  {
    if TravelOf(st, k).Some? then TravelOf(st, k) else prior
  }

  /**
   * The log so far: entry j carries the header of the j-th closed entry,
   * was finalized to event j, and has no travel time yet.
   */
  ghost predicate Logged(logs: seq<Entry>, events: seq<Event>, closed: seq<Pending>)
    reads logs
  {
    && |logs| == |events| == |closed|
    && forall j :: 0 <= j < |logs| ==>
         logs[j].Holds(closed[j]) && logs[j].state == Finalized(events[j]) && logs[j].travelTime == None
  }

  lemma LoggedSnoc(logs: seq<Entry>, events: seq<Event>, closed: seq<Pending>, e: Entry, ev: Event, p: Pending)
    requires Logged(logs, events, closed)
    requires e.Holds(p) && e.state == Finalized(ev) && e.travelTime == None
    ensures Logged(logs + [e], events + [ev], closed + [p])
  {
  }

  /** Two logs side by side: each entry of the concatenation carries the event at its position, and no travel time. */
  lemma LoggedConcat(log1: seq<Entry>, events1: seq<Event>, c1: seq<Pending>, log2: seq<Entry>, events2: seq<Event>, c2: seq<Pending>)
    requires Logged(log1, events1, c1) && Logged(log2, events2, c2)
    ensures |log1 + log2| == |events1 + events2| == |c1 + c2|
    ensures forall j :: 0 <= j < |log1 + log2| ==>
      && (log1 + log2)[j].Holds((c1 + c2)[j])
      && (log1 + log2)[j].state == Finalized((events1 + events2)[j]) && (log1 + log2)[j].travelTime == None
  {
    forall j | 0 <= j < |log1 + log2|
      ensures (log1 + log2)[j].Holds((c1 + c2)[j])
      ensures (log1 + log2)[j].state == Finalized((events1 + events2)[j]) && (log1 + log2)[j].travelTime == None
    {
      if j >= |log1| {
        assert (log1 + log2)[j] == log2[j - |log1|] && (events1 + events2)[j] == events2[j - |log1|];
        assert (c1 + c2)[j] == c2[j - |log1|];
      }
    }
  }

  /** The entries finalized so far carry the headers of the first closed entries, in order, and no travel time yet. */
  ghost predicate Tried(tried: seq<Entry>, closed: seq<Pending>)
    reads tried
  {
    |tried| <= |closed| && forall j :: 0 <= j < |tried| ==> tried[j].Holds(closed[j]) && tried[j].travelTime == None
  }

  lemma LoggedTried(logs: seq<Entry>, events: seq<Event>, closed: seq<Pending>)
    requires Logged(logs, events, closed)
    ensures Tried(logs, closed)
  {
  }

  lemma TriedSnoc(logs: seq<Entry>, events: seq<Event>, closed: seq<Pending>, e: Entry, p: Pending)
    requires Logged(logs, events, closed) && e.Holds(p) && e.travelTime == None
    ensures Tried(logs + [e], closed + [p])
  {
  }

  lemma TriedExtends(tried: seq<Entry>, prefix: seq<Pending>, closed: seq<Pending>)
    requires Tried(tried, prefix) && |prefix| <= |closed| && prefix == closed[..|prefix|]
    ensures Tried(tried, closed)
  {
    forall j | 0 <= j < |tried| ensures tried[j].Holds(closed[j]) {
      assert closed[j] == prefix[j];
    }
  }

  /** What `load_file` leaves behind: the tables and the finalized events, or the tables and the exception that ended it. */
  datatype RunResult = Completed(state: CorrelationState, events: seq<Event>) | Stopped(state: CorrelationState, failure: Failure)

  /**
   * `finalize` on each of the entries `es` in turn, each on the text of
   * the closed entry at its position: every call sees the tables the
   * previous ones left, and the first exception ends the run.
   */
  function Run(g: Grammar, st: CorrelationState, es: seq<Entry>, closed: seq<Pending>): (r: RunResult)
    requires |es| <= |closed|
    ensures r.Completed? ==> |r.events| == |es|
    decreases |es|, 1, 0
  {
    if es == [] then Completed(st, []) else RunFrom(g, st, es, closed)
  }

  /** A run of at least one entry: the first entry, on its own closed text, then the rest. */
  function RunFrom(g: Grammar, st: CorrelationState, es: seq<Entry>, closed: seq<Pending>): (r: RunResult)
    requires 0 < |es| <= |closed|
    ensures r.Completed? ==> |r.events| == |es|
    decreases |es|, 0, 1
  {
    Step(g, st, es[0], closed[0].content, es[1..], closed[1..])
  }

  /** Finalize `e` on `content`, then run `rest` on the tables that left. */
  function Step(g: Grammar, st: CorrelationState, e: Entry, content: string, rest: seq<Entry>, closed: seq<Pending>): (r: RunResult)
    requires |rest| <= |closed|
    ensures r.Completed? ==> |r.events| == |rest| + 1
    decreases |rest| + 1, 0, 0
  {
    match Match(g, st, e, content)
    case Raised(st', f) => Stopped(st', f)
    case Matched(st', fields) =>
      match Run(g, st', rest, closed)
      case Stopped(st'', f) => Stopped(st'', f)
      case Completed(st'', evs) => Completed(st'', [EventOf(fields)] + evs)
  }

  /** One more entry after a run that completed: it is finalized on the tables the run left, on its own closed text. */
  lemma {:induction false} RunSnoc(g: Grammar, st: CorrelationState, es: seq<Entry>, closed: seq<Pending>, e: Entry,
                                   st': CorrelationState, evs: seq<Event>, content: string)
    requires |es| < |closed| && closed[|es|].content == content
    requires Run(g, st, es, closed) == Completed(st', evs)
    ensures Run(g, st, es + [e], closed) ==
      match Match(g, st', e, content)
      case Raised(st'', f) => Stopped(st'', f)
      case Matched(st'', fields) => Completed(st'', evs + [EventOf(fields)])
    decreases |es|
  {
    if es == [] {
      assert [e][1..] == [];
      assert Run(g, st, [e], closed) == RunFrom(g, st, [e], closed) == Step(g, st, e, closed[0].content, [], closed[1..]);
    } else {
      assert (es + [e])[1..] == es[1..] + [e];
      assert Run(g, st, es + [e], closed) == RunFrom(g, st, es + [e], closed) == Step(g, st, es[0], closed[0].content, es[1..] + [e], closed[1..]);
      assert Run(g, st, es, closed) == RunFrom(g, st, es, closed) == Step(g, st, es[0], closed[0].content, es[1..], closed[1..]);
      match Match(g, st, es[0], closed[0].content)
      case Matched(st1, fields) =>
        var rest := Run(g, st1, es[1..], closed[1..]);
        assert rest.Completed? && rest.state == st' && evs == [EventOf(fields)] + rest.events;
        RunSnoc(g, st1, es[1..], closed[1..], e, st', rest.events, content);
        match Match(g, st', e, content)
        case Raised(_, _) =>
        case Matched(_, f) =>
          assert [EventOf(fields)] + (rest.events + [EventOf(f)]) == evs + [EventOf(f)];
    }
  }

  /** A run reads only the closed entries at the positions of its entries. */
  lemma {:induction false} RunPrefix(g: Grammar, st: CorrelationState, es: seq<Entry>, closed: seq<Pending>, closed': seq<Pending>)
    requires |es| <= |closed| && |es| <= |closed'| && closed[..|es|] == closed'[..|es|]
    ensures Run(g, st, es, closed) == Run(g, st, es, closed')
    decreases |es|
  {
    if es != [] {
      assert Run(g, st, es, closed) == RunFrom(g, st, es, closed) == Step(g, st, es[0], closed[0].content, es[1..], closed[1..]);
      assert Run(g, st, es, closed') == RunFrom(g, st, es, closed') == Step(g, st, es[0], closed'[0].content, es[1..], closed'[1..]);
      assert closed[0] == closed[..|es|][0] && closed'[0] == closed'[..|es|][0];
      assert closed[1..][..|es| - 1] == closed[..|es|][1..] && closed'[1..][..|es| - 1] == closed'[..|es|][1..];
      match Match(g, st, es[0], closed[0].content)
      case Raised(_, _) =>
      case Matched(st', _) => RunPrefix(g, st', es[1..], closed[1..], closed'[1..]);
    }
  }

  /** No entry occurs twice. */
  ghost predicate Distinct(es: seq<Entry>) {
    forall j, k :: 0 <= j < k < |es| ==> es[j] != es[k]
  }

  /**
   * A run only adds milestones, and files no entry but its own; from
   * consistent tables, with entries that are new and distinct, it leaves
   * consistent tables, whether it completes or stops.
   */
  lemma {:induction false} RunKeepsConsistent(g: Grammar, st: CorrelationState, es: seq<Entry>, closed: seq<Pending>)
    requires |es| <= |closed|
    ensures var st' := Run(g, st, es, closed).state;
      && st.seqInfo.Keys <= st'.seqInfo.Keys
      && forall x :: x in st'.seqInfo.Values ==> x in st.seqInfo.Values || x in es
    ensures Consistent(st) && Distinct(es) && (forall x :: x in es ==> x !in st.seqInfo.Values) ==>
      Consistent(Run(g, st, es, closed).state)
    decreases |es|
  {
    if es != [] {
      assert Run(g, st, es, closed) == RunFrom(g, st, es, closed) == Step(g, st, es[0], closed[0].content, es[1..], closed[1..]);
      MatchKeepsConsistent(g, st, es[0], closed[0].content);
      var o := Match(g, st, es[0], closed[0].content);
      if o.Matched? {
        RunKeepsConsistent(g, o.state, es[1..], closed[1..]);
        if Consistent(st) && Distinct(es) && (forall x :: x in es ==> x !in st.seqInfo.Values) {
          forall x | x in es[1..] ensures x !in o.state.seqInfo.Values {
            var k :| 1 <= k < |es| && es[k] == x;
            assert es[0] != es[k];
          }
          assert Distinct(es[1..]) by {
            forall j, k | 0 <= j < k < |es| - 1 ensures es[1..][j] != es[1..][k] {
              assert es[j + 1] != es[k + 1];
            }
          }
        }
      }
    }
  }

  /** A run that stopped within the entries closed by the first `n` lines stops the same way on the entries of all of them. */
  lemma StopExtends(g: Grammar, st0: CorrelationState, lines: seq<string>, n: nat, tried: seq<Entry>, st: CorrelationState, f: Failure)
    requires n <= |lines|
    requires var c := Accumulate(g, lines[..n]).closed;
      |c| == |tried| && Tried(tried, c) && Run(g, st0, tried, c) == Stopped(st, f)
    ensures var c := Accumulate(g, lines).closed;
      Tried(tried, c) && Run(g, st0, tried, c) == Stopped(st, f)
  {
    AccumulateExtends(g, lines, n);
    var c, c' := Accumulate(g, lines[..n]).closed, Accumulate(g, lines).closed;
    TriedExtends(tried, c, c');
    RunPrefix(g, st0, tried, c, c');
  }

  /** A log entry: header fields fixed at creation, raw text until finalized, and `travel_time` once `load_both` sets it. */
  class Entry {
    const source: Source
    const timestamp: int
    const thread: nat
    const loc: string
    const level: string
    var state: EntryState
    var travelTime: Option<int>

    /** The entry carries the header fields of `p`. */
    predicate Holds(p: Pending) {
      source == p.source && timestamp == p.header.timestamp && thread == p.header.thread &&
      loc == p.header.loc && level == p.header.level
    }

    /** The entry is still open with the header and text of `p`, and has no travel time. */
    predicate OpenAs(p: Pending)
      reads this
    {
      Holds(p) && state == Open(p.content) && travelTime == None
    }

    constructor (source: Source, h: Header)
      ensures Holds(Pending(source, h, h.content))
      ensures state == Open(h.content) && travelTime == None
    {
      this.source := source;
      timestamp := h.timestamp;
      thread := h.thread;
      loc := h.loc;
      level := h.level;
      state := Open(h.content);
      travelTime := None;
    }

    /** `update`: the continuation line is appended after one newline. */
    method Update(content: string)
      requires state.Open?
      modifies this
      ensures state == Open(old(state.rawContent) + "\n" + content)
      ensures travelTime == old(travelTime)
    {
      state := Open(state.rawContent + "\n" + content);
    }

    /**
     * `finalize`: run the matcher of the entry's source on its text; on
     * success the text is replaced by the matcher's attributes (type
     * 'unknown' when it returned none); on an exception the entry stays
     * open and the tables keep what the matcher wrote before raising.
     */
    method Finalize(eng: Engine) returns (r: Result<Entry, Failure>)
      requires state.Open?
      modifies this, eng
      ensures var o := Match(eng.grammar, old(eng.State()), this, old(state.rawContent));
        && eng.State() == o.state
        && (o.Matched? ==> r == Ok(this) && state == Finalized(EventOf(o.fields)))
        && (o.Raised? ==> r == Err(o.failure) && state == old(state))
      ensures travelTime == old(travelTime)
    {
      var d;
      if source == Exec {
        d := eng.MatchExecContent(DispatchExec(eng.grammar.execContent(state.rawContent)), this);
      } else {
        d := eng.MatchTfContent(DispatchTf(eng.grammar.tfContent(state.rawContent)), this);
      }
      match d
      case Err(f) =>
        r := Err(f);
      case Ok(fields) =>
        state := Finalized(EventOf(fields));
        r := Ok(this);
    }
  }

  /** The engine: the module globals of parse_log.py and its compiled patterns. */
  class Engine {
    const grammar: Grammar
    var threadSeqMap: map<nat, nat>
    var tfThreadSeqMap: map<nat, nat>
    var seqInfo: map<(nat, Milestone), Entry>
    var blocks: map<string, Block>

    function State(): CorrelationState
      reads this
    {
      CorrelationState(threadSeqMap, tfThreadSeqMap, seqInfo, blocks)
    }

    ghost predicate Valid()
      reads this
    {
      Consistent(State())
    }

    /** The globals as the module defines them: all empty. */
    constructor (g: Grammar)
      ensures grammar == g && Valid()
      ensures State() == CorrelationState(map[], map[], map[], map[])
    {
      grammar := g;
      threadSeqMap, tfThreadSeqMap, seqInfo, blocks := map[], map[], map[], map[];
    }

    /** `seq_info[s][m] = entry` */
    method Store(s: nat, m: Milestone, entry: Entry)
      modifies this
      ensures State() == Record(old(State()), s, m, entry)
    {
      seqInfo := seqInfo[(s, m) := entry];
    }

    /** `seq_from_entry`: look the entry's thread up in the thread map of its source. */
    method LookupSeq(entry: Entry) returns (r: Result<nat, Failure>)
      ensures r == SeqFromEntry(State(), entry)
    {
      var mapToUse := threadSeqMap;
      if entry.source == Tf {
        mapToUse := tfThreadSeqMap;
      }
      if entry.thread !in mapToUse {
        return Err(ThreadNotFound(entry.thread));
      }
      return Ok(mapToUse[entry.thread]);
    }

    /**
     * The state of the loop of `load_file` once the lines read so far gave
     * the scan `sc`: the finalized entries and their events, the open entry,
     * and the tables that finalizing them from `st0` left.
     */
    ghost predicate Loading(st0: CorrelationState, sc: Scan, logs: seq<Entry>, events: seq<Event>, entry: Entry?)
      reads this, logs, entry
    {
      && Settled(st0, sc.closed, logs, events)
      && (entry == null <==> sc.open.None?)
      && (entry != null ==> entry !in logs && entry.OpenAs(sc.open.value))
    }

    /** The closed entries so far are logged and the tables are what finalizing them from `st0` left. */
    ghost predicate Settled(st0: CorrelationState, closed: seq<Pending>, logs: seq<Entry>, events: seq<Event>)
      reads this, logs
    {
      && Logged(logs, events, closed)
      && Distinct(logs)
      && Run(grammar, st0, logs, closed) == Completed(State(), events)
    }

    /**
     * `load_file` over the lines of one file. Each header line finalizes
     * the open entry, appending it to the log, and opens a new one; any
     * other line is appended to the open entry, or reported and dropped
     * when there is none; the entry still open at the end is not appended.
     * The exception of a `finalize` ends the call, and the tables keep what
     * the matchers wrote up to it. `tried` are the entries finalized, the
     * failing one last.
     */
    method LoadFile(lines: seq<string>) returns (r: Result<seq<Entry>, Failure>, ghost tried: seq<Entry>, ghost events: seq<Event>)
      requires Valid()
      modifies this
      ensures Valid()
      ensures var closed := Accumulate(grammar, lines).closed;
        && Tried(tried, closed) && Distinct(tried) && (forall x :: x in tried ==> fresh(x))
        && (r.Ok? ==>
              && r.value == tried && Logged(tried, events, closed)
              && Run(grammar, old(State()), tried, closed) == Completed(State(), events))
        && (r.Err? ==>
              && |tried| > 0
              && Run(grammar, old(State()), tried, closed) == Stopped(State(), r.error))
      ensures forall x :: x in State().seqInfo.Values ==> x in old(State()).seqInfo.Values || x in tried
    {
      ghost var st0 := State();
      var logs: seq<Entry> := [];
      var entry: Entry? := null;
      events := [];
      var i := 0;
      while i < |lines|
        invariant 0 <= i <= |lines|
        invariant Loading(st0, Accumulate(grammar, lines[..i]), logs, events, entry)
        invariant forall x :: x in logs ==> fresh(x)
        invariant entry != null ==> fresh(entry)
      {
        var logs', next, raised;
        ghost var events';
        logs', next, raised, events' := ReadLine(lines, i, logs, entry, st0, events);
        if raised.Some? {
          tried := logs';
          r := Err(raised.value);
          RunKeepsConsistent(grammar, st0, tried, Accumulate(grammar, lines).closed);
          assert Run(grammar, st0, tried, Accumulate(grammar, lines).closed).state == State();
          return;
        }
        logs, entry, events := logs', next, events';
        i := i + 1;
      }
      assert lines[..i] == lines;
      r := Ok(logs);
      tried := logs;
      LoggedTried(logs, events, Accumulate(grammar, lines).closed);
      RunKeepsConsistent(grammar, st0, tried, Accumulate(grammar, lines).closed);
      assert Run(grammar, st0, tried, Accumulate(grammar, lines).closed).state == State();
    }

    /**
     * `load_both`: load the executor's log, then the client's, on the same
     * tables, and merge. An exception in either load propagates before the
     * merge; a failing first load leaves the second file unread.
     */
    method LoadBoth(execLines: seq<string>, tfLines: seq<string>)
      returns (r: Result<seq<Entry>, Failure>, ghost log1: seq<Entry>, ghost log2: seq<Entry>, ghost mid: CorrelationState,
               ghost events1: seq<Event>, ghost events2: seq<Event>)
      requires Valid()
      modifies this, seqInfo.Values`travelTime
      ensures Valid()
      ensures var c1, c2 := Accumulate(grammar, execLines).closed, Accumulate(grammar, tfLines).closed;
        && |log1| <= |c1| && |log2| <= |c2|
        && (r.Ok? ==>
              && r.value == log1 + log2
              && Run(grammar, old(State()), log1, c1) == Completed(mid, events1)
              && Run(grammar, mid, log2, c2) == Completed(State(), events2))
        && (r.Err? ==>
              || (log2 == [] && Run(grammar, old(State()), log1, c1) == Stopped(State(), r.error))
              || (&& Run(grammar, old(State()), log1, c1).Completed? && Run(grammar, old(State()), log1, c1).state == mid
                  && Run(grammar, mid, log2, c2) == Stopped(State(), r.error)))
      ensures var c1, c2 := Accumulate(grammar, execLines).closed, Accumulate(grammar, tfLines).closed;
        r.Ok? ==>
          && |r.value| == |events1 + events2| == |c1 + c2|
          && forall j :: 0 <= j < |r.value| ==>
               r.value[j].Holds((c1 + c2)[j]) && r.value[j].state == Finalized((events1 + events2)[j])
      ensures r.Ok? ==> forall k :: k in seqInfo ==>
        var x := seqInfo[k];
        x.travelTime == Travelled(State(), k, if x in old(seqInfo.Values) then old(x.travelTime) else None)
      ensures r.Ok? ==> forall x :: x in r.value && x !in seqInfo.Values ==> x.travelTime == None
      ensures r.Err? ==> forall x :: x in old(seqInfo.Values) ==> x.travelTime == old(x.travelTime)
    {
      r, log1, log2, mid, events1, events2 := LoadLogs(execLines, tfLines);
      if r.Ok? {
        LoggedConcat(log1, events1, Accumulate(grammar, execLines).closed, log2, events2, Accumulate(grammar, tfLines).closed);
        Merge();
      }
    }

    /**
     * The two loads of `load_both`, on the same tables: the executor's
     * file, then, when that loaded, the client's. The entries filed are
     * those filed before and those of the two logs.
     */
    method LoadLogs(execLines: seq<string>, tfLines: seq<string>)
      returns (r: Result<seq<Entry>, Failure>, ghost log1: seq<Entry>, ghost log2: seq<Entry>, ghost mid: CorrelationState,
               ghost events1: seq<Event>, ghost events2: seq<Event>)
      requires Valid()
      modifies this
      ensures Valid()
      ensures var c1, c2 := Accumulate(grammar, execLines).closed, Accumulate(grammar, tfLines).closed;
        && |log1| <= |c1| && |log2| <= |c2|
        && (r.Ok? ==>
              && r.value == log1 + log2 && Logged(log1, events1, c1) && Logged(log2, events2, c2)
              && Run(grammar, old(State()), log1, c1) == Completed(mid, events1)
              && Run(grammar, mid, log2, c2) == Completed(State(), events2))
        && (r.Err? ==>
              || (log2 == [] && Run(grammar, old(State()), log1, c1) == Stopped(State(), r.error))
              || (&& Run(grammar, old(State()), log1, c1).Completed? && Run(grammar, old(State()), log1, c1).state == mid
                  && Run(grammar, mid, log2, c2) == Stopped(State(), r.error)))
      ensures forall x :: x in seqInfo.Values ==> x in old(seqInfo.Values) || x in log1 || x in log2
      ensures forall x :: x in log1 || x in log2 ==> fresh(x)
    {
      var r1;
      r1, log1, events1 := LoadFile(execLines);
      mid := State();
      log2, events2 := [], [];
      if r1.Err? {
        return Err(r1.error), log1, log2, mid, events1, events2;
      }
      var r2;
      r2, log2, events2 := LoadFile(tfLines);
      if r2.Err? {
        return Err(r2.error), log1, log2, mid, events1, events2;
      }
      r := Ok(r1.value + r2.value);
    }

    /**
     * The merge loop of `load_both`: for every seq of `seq_info`, time its
     * recv_evenlop and its tf_rpc_return when their partner milestones are
     * present. The tables are untouched; only the filed entries change, and
     * since no entry is filed twice, each is written at most once.
     */
    method Merge()
      requires Valid()
      ensures forall k :: k in seqInfo ==> seqInfo[k].travelTime == Travelled(State(), k, old(seqInfo[k].travelTime))
      modifies seqInfo.Values`travelTime
    {
      ghost var before := map k | k in seqInfo :: seqInfo[k].travelTime;
      var todo := set k | k in seqInfo :: k.0;
      ghost var done: set<nat> := {};
      while todo != {}
        invariant todo !! done
        invariant forall k :: k in seqInfo ==> k.0 in todo || k.0 in done
        invariant forall k :: k in seqInfo ==>
          seqInfo[k].travelTime == if k.0 in done then Travelled(State(), k, before[k]) else before[k]
        decreases todo
      {
        var s :| s in todo;
        TimeSeq(s);
        todo, done := todo - {s}, done + {s};
      }
    }

    /** One pass of the merge loop: time the recv_evenlop and the tf_rpc_return of seq `s`, if their partners are there. */
    method TimeSeq(s: nat)
      requires FiledOnce(State())
      modifies seqInfo.Values`travelTime
      ensures forall k :: k in seqInfo ==>
        seqInfo[k].travelTime == if k.0 == s then Travelled(State(), k, old(seqInfo[k].travelTime)) else old(seqInfo[k].travelTime)
    {
      TimeAgainst((s, RecvEvenlopAt), TfSendEvenlopAt);
      TimeAgainst((s, TfRpcReturnAt), RespSentAt);
    }

    /** `info[m].travel_time` is set from the partner milestone `partner` of the same seq, when both are filed. */
    method TimeAgainst(k: (nat, Milestone), partner: Milestone)
      requires FiledOnce(State()) && k.1 != partner
      modifies seqInfo.Values`travelTime
      ensures forall j :: j in seqInfo ==>
        seqInfo[j].travelTime ==
          if j == k && (k.0, partner) in seqInfo then Some(seqInfo[k].timestamp - seqInfo[(k.0, partner)].timestamp)
          else old(seqInfo[j].travelTime)
    {
      if k in seqInfo && (k.0, partner) in seqInfo {
        seqInfo[k].travelTime := Some(seqInfo[k].timestamp - seqInfo[(k.0, partner)].timestamp);
      }
    }

    /**
     * One iteration of the loop of `load_file`, on line `i`. A header line
     * finalizes the open entry, appending it to the log, and opens a new
     * one; any other line is appended to the open entry, or dropped when
     * there is none. An exception of `finalize` is returned in `raised`;
     * the entry that raised it is the one that was open.
     */
    method ReadLine(lines: seq<string>, i: nat, logs: seq<Entry>, entry: Entry?, ghost st0: CorrelationState, ghost events: seq<Event>)
      returns (logs': seq<Entry>, next: Entry?, raised: Option<Failure>, ghost events': seq<Event>)
      requires i < |lines| && Loading(st0, Accumulate(grammar, lines[..i]), logs, events, entry)
      modifies this, entry
      ensures raised.None? ==> Loading(st0, Accumulate(grammar, lines[..i + 1]), logs', events', next)
      ensures raised.None? ==> logs' == logs || (entry != null && logs' == logs + [entry])
      ensures raised.Some? ==>
        var closed := Accumulate(grammar, lines).closed;
        && entry != null && logs' == logs + [entry] && Tried(logs', closed) && Distinct(logs')
        && Run(grammar, st0, logs', closed) == Stopped(State(), raised.value)
      ensures next == entry || fresh(next)
    {
      var raw := lines[i];
      ghost var sc := Accumulate(grammar, lines[..i]);
      assert lines[..i + 1] == lines[..i] + [raw];
      AccumulateSnoc(grammar, lines[..i], raw);
      logs', events', raised := logs, events, None;
      var line := RStripNewlines(raw);
      // the executor header grammar is tried first, then the client's
      var kind := Classify(grammar, line);
      if !kind.Continuation? {
        FeedHeader(grammar, sc, raw);
        if entry != null {
          var done := CloseEntry(entry, st0, sc, logs, events, lines, i + 1);
          if done.Err? {
            return logs + [entry], entry, Some(done.error), events';
          }
          logs', events' := logs + [entry], events + [entry.state.event];
        } else {
          assert sc.closed + Closing(sc.open) == sc.closed;
        }
        var source := if kind.ExecLine? then Exec else Tf;
        var header := if kind.ExecLine? then ExecHeader(kind.exec) else TfHeader(kind.tf);
        next := new Entry(source, header);
      } else {
        FeedContinuation(grammar, sc, raw);
        next := entry;
        if entry != null {
          entry.Update(line);
        }
        // otherwise the line is reported as unhandled and dropped
      }
    }

    /**
     * The header branch of `load_file` when an entry is open: finalize it
     * on the tables the entries before it left; on success it joins the log.
     */
    method CloseEntry(entry: Entry, ghost st0: CorrelationState, ghost sc: Scan, ghost logs: seq<Entry>, ghost events: seq<Event>, ghost lines: seq<string>, ghost n: nat)
      returns (done: Result<Entry, Failure>)
      requires Loading(st0, sc, logs, events, entry)
      requires n <= |lines| && Accumulate(grammar, lines[..n]).closed == sc.closed + [sc.open.value]
      modifies this, entry
      ensures done.Ok? ==>
        entry.state.Finalized? && Settled(st0, sc.closed + [sc.open.value], logs + [entry], events + [entry.state.event])
      ensures done.Err? ==>
        var closed := Accumulate(grammar, lines).closed;
        && Tried(logs + [entry], closed) && Distinct(logs + [entry])
        && Run(grammar, st0, logs + [entry], closed) == Stopped(State(), done.error)
    {
      ghost var p := sc.open.value;
      RunPrefix(grammar, st0, logs, sc.closed, sc.closed + [p]);
      RunSnoc(grammar, st0, logs, sc.closed + [p], entry, State(), events, entry.state.rawContent);
      done := entry.Finalize(this);
      if done.Ok? {
        LoggedSnoc(logs, events, sc.closed, entry, entry.state.event, p);
      } else {
        TriedSnoc(logs, events, sc.closed, entry, p);
        StopExtends(grammar, st0, lines, n, logs + [entry], State(), done.error);
      }
    }

    /** The running branch of `match_exec_content`. */
    method StartRunningBranch(entry: Entry, isAsync: bool) returns (d: Result<Option<Event>, Failure>)
      modifies this
      ensures var o := MatchExec(old(State()), entry, Some(Running(isAsync)));
        State() == o.state && d == Reported(o)
    {
      var found := LookupSeq(entry);
      if found.Err? {
        return Err(found.error);
      }
      var s := found.value;
      Store(s, StartRunningAt, entry);
      if (s, RecvEvenlopAt) !in seqInfo {
        return Err(MissingMilestone(s, RecvEvenlopAt));
      }
      var gotEvenlopTime := seqInfo[(s, RecvEvenlopAt)].timestamp;
      return Ok(Some(StartRunning(s, isAsync, entry.timestamp - gotEvenlopTime)));
    }

    /** The two compute_done branches of `match_exec_content` once the seq is known. */
    method ComputeDoneBranch(entry: Entry, s: nat) returns (d: Result<Option<Event>, Failure>)
      modifies this
      ensures var o := MatchExec(old(State()), entry, Some(ComputeAsyncFinished(s)));
        State() == o.state && d == Reported(o)
    {
      Store(s, ComputeDoneAt, entry);
      if (s, StartRunningAt) !in seqInfo {
        return Err(MissingMilestone(s, StartRunningAt));
      }
      var startRunningStamp := seqInfo[(s, StartRunningAt)].timestamp;
      return Ok(Some(ComputeDone(s, entry.timestamp - startRunningStamp)));
    }

    /** The resp_sent branch of `match_exec_content`. */
    method RespSentBranch(entry: Entry, env: Envelope) returns (d: Result<Option<Event>, Failure>)
      modifies this
      ensures var o := MatchExec(old(State()), entry, Some(ResponseSent(env)));
        State() == o.state && d == Reported(o)
    {
      var s := env.seqNum;
      Store(s, RespSentAt, entry);
      if env.reqType != "RunResponse" {
        return Ok(Some(RespSent(s, env.reqType, None)));
      }
      if (s, ComputeDoneAt) !in seqInfo {
        return Err(MissingMilestone(s, ComputeDoneAt));
      }
      var computeDoneStamp := seqInfo[(s, ComputeDoneAt)].timestamp;
      return Ok(Some(RespSent(s, env.reqType, Some(entry.timestamp - computeDoneStamp))));
    }

    /** The mem_dealloc branch of `match_exec_content`. */
    method DeallocBranch(entry: Entry, dm: DeallocMatch) returns (d: Result<Option<Event>, Failure>)
      modifies this
      ensures var o := MatchExec(old(State()), entry, Some(Deallocating(dm)));
        State() == o.state && d == Reported(o)
    {
      var addr := dm.addr;
      if addr !in blocks {
        return Err(UnboundBlock(addr));
      }
      var block := blocks[addr];
      blocks := blocks - {addr};
      return Ok(Some(MemDealloc(addr, block.size, block)));
    }

    /**
     * `match_exec_content`, given `found`, what the first of the executor
     * patterns that matches the content captured (`DispatchExec`).
     */
    method MatchExecContent(found: Option<ExecContent>, entry: Entry) returns (d: Result<Option<Event>, Failure>)
      modifies this
      ensures var o := MatchExec(old(State()), entry, found);
        State() == o.state && d == Reported(o)
    {
      match found
      case None =>
        d := Ok(None);
      case Some(RecvFrame(size)) =>
        d := Ok(Some(RecvMsg(size)));
      case Some(RecvRequestEvenlop(env)) =>
        Store(env.seqNum, RecvEvenlopAt, entry);
        d := Ok(Some(RecvEvenlop(env.seqNum, env.reqType)));
      case Some(CreatedOpKernel(s)) =>
        threadSeqMap := threadSeqMap[entry.thread := s];
        Store(s, CreateKernelAt, entry);
        d := Ok(Some(CreateKernel(s)));
      case Some(Running(isAsync)) =>
        d := StartRunningBranch(entry, isAsync);
      case Some(ComputeFinished) =>
        var found := LookupSeq(entry);
        if found.Err? {
          return Err(found.error);
        }
        d := ComputeDoneBranch(entry, found.value);
      case Some(ComputeAsyncFinished(s)) =>
        d := ComputeDoneBranch(entry, s);
      case Some(ResponseSent(env)) =>
        d := RespSentBranch(entry, env);
      case Some(ForwardingMessage(size)) =>
        d := Ok(Some(FwdMsg(size)));
      case Some(Allocating(a)) =>
        var block := Block(a.size, a.addr, a.memType, a.allocInst);
        blocks := blocks[a.addr := block];
        d := Ok(Some(MemAlloc(a.size, a.addr, block)));
      case Some(Deallocating(dm)) =>
        d := DeallocBranch(entry, dm);
    }

    /** The tf_rpc_return branch of `match_tf_content`. */
    method RpcReturnBranch(entry: Entry) returns (d: Result<Option<Event>, Failure>)
      modifies this
      ensures var o := RpcReturnOf(old(State()), entry);
        State() == o.state && d == Reported(o)
    {
      var found := LookupSeq(entry);
      if found.Err? {
        return Err(found.error);
      }
      var s := found.value;
      Store(s, TfRpcReturnAt, entry);
      if (s, TfSendEvenlopAt) !in seqInfo {
        return Err(MissingMilestone(s, TfSendEvenlopAt));
      }
      return Ok(Some(TfRpcReturn(s, entry.timestamp - seqInfo[(s, TfSendEvenlopAt)].timestamp)));
    }

    /** The two vanilla compute_done branches of `match_tf_content`. */
    method VanillaDoneBranch(entry: Entry, s: nat) returns (d: Result<Option<Event>, Failure>)
      modifies this
      ensures var o := VanillaDoneOf(old(State()), entry, s);
        State() == o.state && d == Reported(o)
    {
      Store(s, ComputeDoneAt, entry);
      if (s, TfVanillaStartAt) !in seqInfo {
        return Err(MissingMilestone(s, TfVanillaStartAt));
      }
      return Ok(Some(ComputeDone(s, entry.timestamp - seqInfo[(s, TfVanillaStartAt)].timestamp)));
    }

    /**
     * `match_tf_content`, given `found`, what the first of the client-side
     * patterns that matches the content captured (`DispatchTf`).
     */
    method MatchTfContent(found: Option<TfContent>, entry: Entry) returns (d: Result<Option<Event>, Failure>)
      modifies this
      ensures var o := MatchTf(old(State()), entry, found);
        State() == o.state && d == Reported(o)
    {
      match found
      case None =>
        d := Ok(None);
      case Some(RpcRun) =>
        d := Ok(None);
      case Some(SendingEvenlop(env)) =>
        tfThreadSeqMap := tfThreadSeqMap[entry.thread := env.seqNum];
        Store(env.seqNum, TfSendEvenlopAt, entry);
        d := Ok(Some(TfSendEvenlop(env.seqNum, env.reqType)));
      case Some(MessageSent(s)) =>
        tfThreadSeqMap := tfThreadSeqMap[entry.thread := s];
        Store(s, TfEvenlopSentAt, entry);
        d := Ok(Some(TfEvenlopSent(s)));
      case Some(ReceivedEvenlop(env)) =>
        tfThreadSeqMap := tfThreadSeqMap[entry.thread := env.seqNum];
        Store(env.seqNum, TfRecvRespAt, entry);
        d := Ok(Some(TfRecvResp(env.seqNum, env.reqType)));
      case Some(RpcReturned) =>
        d := RpcReturnBranch(entry);
      case Some(VanillaStart(s)) =>
        Store(s, TfVanillaStartAt, entry);
        d := Ok(Some(TfVanillaStart(s)));
      case Some(VanillaDone(s)) =>
        d := VanillaDoneBranch(entry, s);
      case Some(VanillaStartAsync(s)) =>
        Store(s, TfVanillaStartAt, entry);
        d := Ok(Some(TfVanillaStart(s)));
      case Some(VanillaDoneAsync(s)) =>
        d := VanillaDoneBranch(entry, s);
    }
  }
}
