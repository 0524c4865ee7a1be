/**
 * The regular expressions of scripts/parse_log.py, seen from outside.
 *
 * The regex engine and `datetime.strptime` are not modelled: a `Grammar`
 * supplies, for a line or a content, what each pattern alone extracts from
 * it (`None` when that pattern does not match). What IS modelled is the
 * order in which the script tries the patterns (first match wins), the
 * fields each pattern yields, and how the header timestamp becomes an
 * integer number of microseconds.
 */
module Patterns {
  import opened Wrappers

  /** The nine fractional digits of an executor timestamp (the regex keeps six, drops three). */
  type Nanos = n: nat | n < 1_000_000_000

  /** The six fractional digits of a client-side timestamp. */
  type Micros = n: nat | n < 1_000_000

  /** What `ptn_exec` extracts from a header line; `seconds` is the date-time part, whole seconds. */
  datatype ExecHeaderMatch = ExecHeaderMatch(seconds: int, nanos: Nanos, thread: nat, loc: string, level: string, content: string)

  /** What `ptn_tf` extracts from a header line. */
  datatype TfHeaderMatch = TfHeaderMatch(seconds: int, micros: Micros, level: string, loc: string, thread: nat, content: string)

  /** The fields an Entry is built from; `timestamp` in microseconds. */
  datatype Header = Header(timestamp: int, thread: nat, loc: string, level: string, content: string)

  /** `ptn_exec` captures only the first six fractional digits, so the last three never reach the timestamp. */
  function ExecStamp(seconds: int, nanos: Nanos): (t: int)
    ensures t * 1000 <= seconds * 1_000_000_000 + nanos < t * 1000 + 1000
  {
    seconds * 1_000_000 + nanos / 1000
  }

  /** The whole seconds and the six fractional digits are both recoverable from the timestamp. */
  function TfStamp(seconds: int, micros: Micros): (t: int)
    ensures t / 1_000_000 == seconds && t % 1_000_000 == micros
  {
    seconds * 1_000_000 + micros
  }

  function ExecHeader(m: ExecHeaderMatch): Header {
    Header(ExecStamp(m.seconds, m.nanos), m.thread, m.loc, m.level, m.content)
  }

  function TfHeader(m: TfHeaderMatch): Header {
    Header(TfStamp(m.seconds, m.micros), m.thread, m.loc, m.level, m.content)
  }

  /** Two executor headers whose timestamps differ only in the three dropped digits get the same timestamp. */
  lemma ExecStampIgnoresDroppedDigits(seconds: int, a: Nanos, b: Nanos)
    requires a / 1000 == b / 1000
    ensures ExecStamp(seconds, a) == ExecStamp(seconds, b)
  {
  }

  /** The seq/type pair of a request or response envelope. */
  datatype Envelope = Envelope(seqNum: nat, reqType: string)

  datatype AllocMatch = AllocMatch(size: nat, addr: string, memType: string, allocInst: string)

  /** `ptn_mem_dealloc` has no size group. */
  datatype DeallocMatch = DeallocMatch(addr: string, memType: string, allocInst: string)

  /** What each executor content pattern of parse_log.py, tried alone, makes of one content. */
  datatype ExecMatches = ExecMatches(
    recvFrame: Option<nat>,            // ptn_recv_frame: size
    recvEvenlop: Option<Envelope>,     // ptn_recv_evenlop
    createOpKernel: Option<nat>,       // ptn_create_opkernel: seq
    running: Option<bool>,             // ptn_running: whether " async" was present
    computeDone: bool,                 // ptn_compute_done
    computeAsyncDone: Option<nat>,     // ptn_compute_async_done: seq
    respSent: Option<Envelope>,        // ptn_resp_sent
    fwdMsg: Option<nat>,               // ptn_fwd_msg: size
    memAlloc: Option<AllocMatch>,      // ptn_mem_alloc
    memDealloc: Option<DeallocMatch>)  // ptn_mem_dealloc

  /** The executor content grammar: one variant per pattern of `match_exec_content`. */
  datatype ExecContent =
    | RecvFrame(size: nat)
    | RecvRequestEvenlop(env: Envelope)
    | CreatedOpKernel(seqNum: nat)
    | Running(isAsync: bool)
    | ComputeFinished
    | ComputeAsyncFinished(seqNum: nat)
    | ResponseSent(env: Envelope)
    | ForwardingMessage(size: nat)
    | Allocating(alloc: AllocMatch)
    | Deallocating(dealloc: DeallocMatch)

  /** What each client-side content pattern of parse_log.py, tried alone, makes of one content. */
  datatype TfMatches = TfMatches(
    rpcRun: bool,                      // ptn_rpc_run
    sendEvenlop: Option<Envelope>,     // ptn_send_evenlop
    evenlopSent: Option<nat>,          // ptn_evenlop_sent: seq
    recvResp: Option<Envelope>,        // ptn_recv_resp
    rpcReturn: bool,                   // ptn_rpc_return
    vanillaStart: Option<nat>,         // ptn_tf_vanilla_start: seq
    vanillaDone: Option<nat>,          // ptn_tf_vanilla_done: seq
    vanillaStartAsync: Option<nat>,    // ptn_tf_vanilla_start_async: seq
    vanillaDoneAsync: Option<nat>)     // ptn_tf_vanilla_done_async: seq

  /** The client-side content grammar: one variant per pattern of `match_tf_content`. */
  datatype TfContent =
    | RpcRun
    | SendingEvenlop(env: Envelope)
    | MessageSent(seqNum: nat)
    | ReceivedEvenlop(env: Envelope)
    | RpcReturned
    | VanillaStart(seqNum: nat)
    | VanillaDone(seqNum: nat)
    | VanillaStartAsync(seqNum: nat)
    | VanillaDoneAsync(seqNum: nat)

  /**
   * The regex engine: header grammars for lines and content grammars for
   * finalized entry text. Any functions may be supplied.
   */
  datatype Grammar = Grammar(
    execHeader: string -> Option<ExecHeaderMatch>,
    tfHeader: string -> Option<TfHeaderMatch>,
    execContent: string -> ExecMatches,
    tfContent: string -> TfMatches)

  function OptionIf<T>(b: bool, x: T): Option<T> {
    if b then Some(x) else None
  }

  /** The first entry of an ordered table that matched. */
  function FirstMatch<T>(table: seq<Option<T>>): Option<T> {
    FirstMatchFrom(table, 0)
  }

  /** The first entry at or after position `k` that matched. */
  function FirstMatchFrom<T>(table: seq<Option<T>>, k: nat): Option<T>
    decreases |table| - k
  {
    if k >= |table| then None
    else if table[k].Some? then table[k]
    else FirstMatchFrom(table, k + 1)
  }

  /** No entry matched exactly when the table yields nothing; otherwise the result is the earliest match. */
  lemma FirstMatchIsEarliest<T>(table: seq<Option<T>>)
    ensures FirstMatch(table).None? <==> forall i :: 0 <= i < |table| ==> table[i].None?
    ensures FirstMatch(table).Some? ==>
      exists i :: 0 <= i < |table| && table[i] == FirstMatch(table) && forall j :: 0 <= j < i ==> table[j].None?
  {
    EarliestFrom(table, 0);
  }

  lemma {:induction false} EarliestFrom<T>(table: seq<Option<T>>, k: nat)
    ensures FirstMatchFrom(table, k).None? <==> forall i :: k <= i < |table| ==> table[i].None?
    ensures FirstMatchFrom(table, k).Some? ==>
      exists i :: k <= i < |table| && table[i] == FirstMatchFrom(table, k) && forall j :: k <= j < i ==> table[j].None?
    decreases |table| - k
  {
    if k < |table| && table[k].None? {
      EarliestFrom(table, k + 1);
      if FirstMatchFrom(table, k).Some? {
        var i :| k + 1 <= i < |table| && table[i] == FirstMatchFrom(table, k + 1) && forall j :: k + 1 <= j < i ==> table[j].None?;
        assert forall j :: k <= j < i ==> table[j].None?;
      }
    }
  }

  /** The executor patterns in the order `match_exec_content` tries them. */
  function ExecTable(m: ExecMatches): seq<Option<ExecContent>> {
    [ OptionIf(m.recvFrame.Some?, RecvFrame(m.recvFrame.GetOr(0))),
      OptionIf(m.recvEvenlop.Some?, RecvRequestEvenlop(m.recvEvenlop.GetOr(Envelope(0, "")))),
      OptionIf(m.createOpKernel.Some?, CreatedOpKernel(m.createOpKernel.GetOr(0))),
      OptionIf(m.running.Some?, Running(m.running.GetOr(false))),
      OptionIf(m.computeDone, ComputeFinished),
      OptionIf(m.computeAsyncDone.Some?, ComputeAsyncFinished(m.computeAsyncDone.GetOr(0))),
      OptionIf(m.respSent.Some?, ResponseSent(m.respSent.GetOr(Envelope(0, "")))),
      OptionIf(m.fwdMsg.Some?, ForwardingMessage(m.fwdMsg.GetOr(0))),
      OptionIf(m.memAlloc.Some?, Allocating(m.memAlloc.GetOr(AllocMatch(0, "", "", "")))),
      OptionIf(m.memDealloc.Some?, Deallocating(m.memDealloc.GetOr(DeallocMatch("", "", "")))) ]
  }

  /** The client-side patterns in the order `match_tf_content` tries them. */
  function TfTable(m: TfMatches): seq<Option<TfContent>> {
    [ OptionIf(m.rpcRun, RpcRun),
      OptionIf(m.sendEvenlop.Some?, SendingEvenlop(m.sendEvenlop.GetOr(Envelope(0, "")))),
      OptionIf(m.evenlopSent.Some?, MessageSent(m.evenlopSent.GetOr(0))),
      OptionIf(m.recvResp.Some?, ReceivedEvenlop(m.recvResp.GetOr(Envelope(0, "")))),
      OptionIf(m.rpcReturn, RpcReturned),
      OptionIf(m.vanillaStart.Some?, VanillaStart(m.vanillaStart.GetOr(0))),
      OptionIf(m.vanillaDone.Some?, VanillaDone(m.vanillaDone.GetOr(0))),
      OptionIf(m.vanillaStartAsync.Some?, VanillaStartAsync(m.vanillaStartAsync.GetOr(0))),
      OptionIf(m.vanillaDoneAsync.Some?, VanillaDoneAsync(m.vanillaDoneAsync.GetOr(0))) ]
  }

  function DispatchExec(m: ExecMatches): Option<ExecContent> {
    FirstMatch(ExecTable(m))
  }

  function DispatchTf(m: TfMatches): Option<TfContent> {
    FirstMatch(TfTable(m))
  }

  /** `match_exec_content` tries its patterns in exactly this order; the first that matches decides. */
  lemma ExecDispatchOrder(m: ExecMatches)
    ensures DispatchExec(m) ==
      if m.recvFrame.Some? then Some(RecvFrame(m.recvFrame.value))
      else if m.recvEvenlop.Some? then Some(RecvRequestEvenlop(m.recvEvenlop.value))
      else if m.createOpKernel.Some? then Some(CreatedOpKernel(m.createOpKernel.value))
      else if m.running.Some? then Some(Running(m.running.value))
      else if m.computeDone then Some(ComputeFinished)
      else if m.computeAsyncDone.Some? then Some(ComputeAsyncFinished(m.computeAsyncDone.value))
      else if m.respSent.Some? then Some(ResponseSent(m.respSent.value))
      else if m.fwdMsg.Some? then Some(ForwardingMessage(m.fwdMsg.value))
      else if m.memAlloc.Some? then Some(Allocating(m.memAlloc.value))
      else if m.memDealloc.Some? then Some(Deallocating(m.memDealloc.value))
      else None
  {
    ExecDispatchHead(m);
    ExecDispatchTail(m);
  }

  /** The first five executor patterns; the rest of the table is tried when none of them matched. */
  lemma ExecDispatchHead(m: ExecMatches)
    ensures DispatchExec(m) ==
      if m.recvFrame.Some? then Some(RecvFrame(m.recvFrame.value))
      else if m.recvEvenlop.Some? then Some(RecvRequestEvenlop(m.recvEvenlop.value))
      else if m.createOpKernel.Some? then Some(CreatedOpKernel(m.createOpKernel.value))
      else if m.running.Some? then Some(Running(m.running.value))
      else if m.computeDone then Some(ComputeFinished)
      else FirstMatchFrom(ExecTable(m), 5)
  {
    var t := ExecTable(m);
    assert FirstMatchFrom(t, 4) == if t[4].Some? then t[4] else FirstMatchFrom(t, 5);
    assert FirstMatchFrom(t, 3) == if t[3].Some? then t[3] else FirstMatchFrom(t, 4);
    assert FirstMatchFrom(t, 2) == if t[2].Some? then t[2] else FirstMatchFrom(t, 3);
    assert FirstMatchFrom(t, 1) == if t[1].Some? then t[1] else FirstMatchFrom(t, 2);
  }

  /** The last five executor patterns, tried when none of the first five matched. */
  lemma ExecDispatchTail(m: ExecMatches)
    ensures FirstMatchFrom(ExecTable(m), 5) ==
      if m.computeAsyncDone.Some? then Some(ComputeAsyncFinished(m.computeAsyncDone.value))
      else if m.respSent.Some? then Some(ResponseSent(m.respSent.value))
      else if m.fwdMsg.Some? then Some(ForwardingMessage(m.fwdMsg.value))
      else if m.memAlloc.Some? then Some(Allocating(m.memAlloc.value))
      else if m.memDealloc.Some? then Some(Deallocating(m.memDealloc.value))
      else None
  {
    var t := ExecTable(m);
    assert FirstMatchFrom(t, 9) == t[9];
    assert FirstMatchFrom(t, 8) == if t[8].Some? then t[8] else t[9];
    assert FirstMatchFrom(t, 7) == if t[7].Some? then t[7] else FirstMatchFrom(t, 8);
    assert FirstMatchFrom(t, 6) == if t[6].Some? then t[6] else FirstMatchFrom(t, 7);
  }

  /** `match_tf_content` tries its patterns in exactly this order; the first that matches decides. */
  lemma TfDispatchOrder(m: TfMatches)
    ensures DispatchTf(m) ==
      if m.rpcRun then Some(RpcRun)
      else if m.sendEvenlop.Some? then Some(SendingEvenlop(m.sendEvenlop.value))
      else if m.evenlopSent.Some? then Some(MessageSent(m.evenlopSent.value))
      else if m.recvResp.Some? then Some(ReceivedEvenlop(m.recvResp.value))
      else if m.rpcReturn then Some(RpcReturned)
      else if m.vanillaStart.Some? then Some(VanillaStart(m.vanillaStart.value))
      else if m.vanillaDone.Some? then Some(VanillaDone(m.vanillaDone.value))
      else if m.vanillaStartAsync.Some? then Some(VanillaStartAsync(m.vanillaStartAsync.value))
      else if m.vanillaDoneAsync.Some? then Some(VanillaDoneAsync(m.vanillaDoneAsync.value))
      else None
  {
    TfDispatchHead(m);
    TfDispatchTail(m);
  }

  /** The first four client-side patterns; the rest of the table is tried when none of them matched. */
  lemma TfDispatchHead(m: TfMatches)
    ensures DispatchTf(m) ==
      if m.rpcRun then Some(RpcRun)
      else if m.sendEvenlop.Some? then Some(SendingEvenlop(m.sendEvenlop.value))
      else if m.evenlopSent.Some? then Some(MessageSent(m.evenlopSent.value))
      else if m.recvResp.Some? then Some(ReceivedEvenlop(m.recvResp.value))
      else FirstMatchFrom(TfTable(m), 4)
  {
    var t := TfTable(m);
    assert FirstMatchFrom(t, 3) == if t[3].Some? then t[3] else FirstMatchFrom(t, 4);
    assert FirstMatchFrom(t, 2) == if t[2].Some? then t[2] else FirstMatchFrom(t, 3);
    assert FirstMatchFrom(t, 1) == if t[1].Some? then t[1] else FirstMatchFrom(t, 2);
  }

  /** The last five client-side patterns, tried when none of the first four matched. */
  lemma TfDispatchTail(m: TfMatches)
    ensures FirstMatchFrom(TfTable(m), 4) ==
      if m.rpcReturn then Some(RpcReturned)
      else if m.vanillaStart.Some? then Some(VanillaStart(m.vanillaStart.value))
      else if m.vanillaDone.Some? then Some(VanillaDone(m.vanillaDone.value))
      else if m.vanillaStartAsync.Some? then Some(VanillaStartAsync(m.vanillaStartAsync.value))
      else if m.vanillaDoneAsync.Some? then Some(VanillaDoneAsync(m.vanillaDoneAsync.value))
      else None
  {
    var t := TfTable(m);
    assert FirstMatchFrom(t, 8) == t[8];
    assert FirstMatchFrom(t, 7) == if t[7].Some? then t[7] else t[8];
    assert FirstMatchFrom(t, 6) == if t[6].Some? then t[6] else FirstMatchFrom(t, 7);
    assert FirstMatchFrom(t, 5) == if t[5].Some? then t[5] else FirstMatchFrom(t, 6);
  }

  /** How a raw line is classified by `load_file`. */
  datatype LineKind = ExecLine(exec: ExecHeaderMatch) | TfLine(tf: TfHeaderMatch) | Continuation

  /** `ptn_exec` is tried before `ptn_tf`; a line neither matches continues the open entry. */
  function Classify(g: Grammar, line: string): (k: LineKind)
    ensures g.execHeader(line).Some? ==> k == ExecLine(g.execHeader(line).value)
    ensures k.TfLine? <==> g.execHeader(line).None? && g.tfHeader(line).Some?
    ensures k.TfLine? ==> k.tf == g.tfHeader(line).value
    ensures k.Continuation? <==> g.execHeader(line).None? && g.tfHeader(line).None?
  {
    match g.execHeader(line)
    case Some(h) => ExecLine(h)
    case None =>
      match g.tfHeader(line)
      case Some(h) => TfLine(h)
      case None => Continuation
  }
}
