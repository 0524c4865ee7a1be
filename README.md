# Salus log correlation, modelled in Dafny

This project models the log-correlation engine of `scripts/parse_log.py` and the
request/response replay of `scripts/simulate_tf.py`.

**What `parse_log.py` does.**
- It reads an executor ("exec") log and a TensorFlow client ("tf") log.
- It groups lines into entries: a header line opens an entry, and continuation lines are appended to it.
- Each entry is finalized by an ordered, first-match-wins table of content patterns. A match either updates the correlation tables or raises:
  - the correlation tables are `thread_seq_map`, `tf_thread_seq_map`, `seq_info` and `blocks`;
  - it raises when the entry's thread is unbound, when a predecessor milestone is missing, or when a deallocation names an address that is not a known block.
- `load_both` loads both files on the same tables. It then merges them, giving request and response messages their one-way travel times.
- The metric extractors filter the finished log by event type.

**What `simulate_tf.py` does.** It replays the client log. Per request type, it keeps the set of seqs sent and not yet answered, and it reports duplicates and unmatched responses.

**Modules:**
- `Wrappers`: the `Option` and `Result` types.
- `Patterns`:
  - the header and content grammars, as abstract matchers;
  - the dispatch order of the content patterns;
  - the timestamp arithmetic of the two header formats.
- `Accumulator`: the line-by-line scan of `load_file`, as a pure function of the lines read so far.
- `ParseLog`:
  - the `Entry` class;
  - the `Engine` class, whose fields are the module globals;
  - the content matchers, both as pure functions over a value of the tables and as methods that update the engine in place and are proved to agree with those functions;
  - `load_file`, `load_both` and the merge.
- `Correlation`: what the matchers promise (binding, predecessor requirements, timings, block bookkeeping), plus scenarios that chain several matcher calls.
- `Metrics`: the extractors, as one proved filter `Pick`, and the signed memory activities.
- `SimulateTf`: the loop of `simulate_tf.py` as a method, proved against a fold `Replay` whose results are characterised line by line.

**Representation choices:**
- Timestamps are integer microseconds. Durations are integer differences, standing for `total_seconds()` of the same difference.
- `seq_info`, a dict of dicts, is one map keyed by (seq, milestone).
- An exception is an `Err`. The tables keep whatever the matcher wrote before raising.

## Model

| member | source | states |
|---|---|---|
| Patterns.ExecStamp | scripts/parse_log.py:13 | the exec header's 9 fractional digits become microseconds by dropping the last 3: the result is the floor of the nanosecond time divided by 1000 |
| Patterns.TfStamp | scripts/parse_log.py:20 | the whole seconds and the 6 fractional digits (microseconds) of a tf header can both be read back from its stamp: quotient and remainder by 10^6 |
| Patterns.ExecStampIgnoresDroppedDigits | scripts/parse_log.py:13 | two exec stamps that differ only in the 3 discarded digits are the same timestamp |
| Patterns.FirstMatchIsEarliest | scripts/parse_log.py:175-310 | a pattern table yields nothing iff no pattern matched, and otherwise the result of the first pattern that matched |
| Patterns.EarliestFrom | scripts/parse_log.py:175-310 | the same first-match characterisation for the table from any position on |
| Patterns.ExecDispatchOrder | scripts/parse_log.py:175-310 | the executor content is tried as recv frame, recv evenlop, create kernel, running, compute done, async compute done, resp sent, fwd msg, mem alloc, mem dealloc, in this order, and falls through to no match |
| Patterns.ExecDispatchHead | scripts/parse_log.py:175-229 | the first five executor patterns take priority over the rest of the table |
| Patterns.ExecDispatchTail | scripts/parse_log.py:230-310 | the order of the last five executor patterns |
| Patterns.TfDispatchOrder | scripts/parse_log.py:320-409 | the client content is tried as rpc run, send evenlop, evenlop sent, recv resp, rpc return, vanilla start, vanilla done, async start, async done, in this order, and falls through to no match |
| Patterns.TfDispatchHead | scripts/parse_log.py:320-356 | the first four client patterns take priority over the rest of the table |
| Patterns.TfDispatchTail | scripts/parse_log.py:357-409 | the order of the last five client patterns |
| Patterns.Classify | scripts/parse_log.py:79-98 | the exec header grammar is tried first, then the tf grammar, and a line matching neither is a continuation |
| Accumulator.RStripNewlinesTrims | scripts/parse_log.py:77 | `rstrip('\n')` returns a prefix that does not end in a newline, and everything it removed is newlines |
| Accumulator.Feed | scripts/parse_log.py:77-101 | one line never takes back a closed entry or a reported line; it closes an entry iff it is a header and an entry is open; it closes one entry or reports one line, never both; an entry once open stays open |
| Accumulator.Accumulate | scripts/parse_log.py:76-102 | nothing is handed to `logs` while no entry is open: with no entry open after a prefix, no entry has been closed |
| Accumulator.JoinSnoc | scripts/parse_log.py:50-52 | appending one more part adds one newline and the part at the end of the joined text |
| Accumulator.AccumulateCounts | scripts/parse_log.py:79-102 | an entry is open iff some header was read, and the entries closed number one fewer than the headers: the last open entry is never emitted |
| Accumulator.AccumulateExtends | scripts/parse_log.py:76-102 | reading more lines only appends to the closed entries, so closed entries never change |
| Accumulator.AccumulateSnoc | scripts/parse_log.py:76-101 | the scan of one more line is the loop body applied to the scan so far |
| Accumulator.FeedHeader | scripts/parse_log.py:79-95 | a header line closes the open entry, if any, and opens one with its own header and text |
| Accumulator.FeedContinuation | scripts/parse_log.py:97-101 | any other line is appended after a newline to the open entry, or dropped as unhandled when none is open |
| Accumulator.ContinuationsJoin | scripts/parse_log.py:50-52 | a header followed by continuation lines gives one open entry whose text is all of their contents joined by single newlines, in order |
| Accumulator.ContinuationsExtend | scripts/parse_log.py:97-99 | continuation lines after any prefix with an open entry extend that entry's text, each after one newline, and change nothing else |
| Accumulator.HeaderStep | scripts/parse_log.py:79-95 | a header line closes the open entry, if any, and opens its own |
| Accumulator.ContinuationStep | scripts/parse_log.py:97-99 | a continuation line with an open entry extends that entry's text by a newline and the line |
| Accumulator.JoinedSnoc | scripts/parse_log.py:50-52 | joining one more stripped continuation appends a newline and that line |
| Accumulator.DroppedStep | scripts/parse_log.py:100-101 | a continuation line with no open entry is dropped and closes nothing |
| Accumulator.StrippedSnoc | scripts/parse_log.py:77 | stripping is line by line |
| Accumulator.UnattributedLinesDropped | scripts/parse_log.py:97-102 | a file with no header line closes and opens nothing, and every line is reported as unhandled |
| ParseLog.SeqFromEntry | scripts/parse_log.py:165-172 | the lookup fails iff the entry's thread is absent from the thread map of its source (tf or exec), with ThreadNotFound; otherwise it returns the bound seq |
| ParseLog.Since | scripts/parse_log.py:209-214 | a duration is the current timestamp minus the milestone's, and fails iff the milestone is missing |
| ParseLog.StartRunningOf | scripts/parse_log.py:203-215 | an unbound thread raises ThreadNotFound with nothing changed; otherwise start_running is filed under the thread's seq whatever follows, and the branch raises iff that seq has no recv_evenlop; no thread map or block changes |
| ParseLog.ComputeDoneOf | scripts/parse_log.py:217-242 | compute_done is filed under the seq, and the branch raises iff the seq has no start_running; no thread map or block changes |
| ParseLog.RespSentOf | scripts/parse_log.py:244-262 | resp_sent is filed under the seq; the branch raises iff it is a RunResponse whose seq has no compute_done; a reported resp_sent carries a process time iff it is a RunResponse |
| ParseLog.DeallocOf | scripts/parse_log.py:293-308 | the branch raises iff the address is not a known block; afterwards the address is gone and every other block address stays; a reported dealloc carries the stored block's size; seq_info and the thread maps are untouched |
| ParseLog.MatchExec | scripts/parse_log.py:175-310 | match_exec_content never touches the client thread map; only create_kernel changes thread_seq_map; only mem_alloc and mem_dealloc change blocks; only running, the compute_done forms, resp_sent and mem_dealloc can raise |
| ParseLog.RpcReturnOf | scripts/parse_log.py:357-365 | an unbound client thread raises ThreadNotFound with nothing changed; otherwise tf_rpc_return is filed under the thread's seq, and the branch raises iff that seq has no tf_send_evenlop |
| ParseLog.VanillaDoneOf | scripts/parse_log.py:377-407 | the vanilla compute_done is filed under the seq, and the branch raises iff the seq has no tf_vanilla_start |
| ParseLog.MatchTf | scripts/parse_log.py:320-409 | match_tf_content never touches thread_seq_map or blocks; only the send, sent and recv-resp lines change the client thread map; only rpc return and the vanilla compute_done forms can raise |
| ParseLog.Match | scripts/parse_log.py:54-67 | an exec entry never changes the client thread map, and a tf entry never changes the executor thread map or the blocks |
| ParseLog.RecordKeepsConsistent | scripts/parse_log.py:186 | filing a new entry under a (seq, milestone) key only adds keys, adds only that entry, and keeps the tables consistent |
| ParseLog.BindKernelKeepsConsistent | scripts/parse_log.py:196-197 | create_kernel's binding plus filing keeps every executor thread bound to a seq with a created kernel |
| ParseLog.BindClientKeepsConsistent | scripts/parse_log.py:328-350 | the client bindings plus filing keep every client thread bound to a seq with a send, sent or recv-resp milestone |
| ParseLog.MatchExecKeepsConsistent | scripts/parse_log.py:175-310 | every branch of match_exec_content only adds milestones, files no entry but its own, and keeps the tables consistent, whether it returns or raises |
| ParseLog.MatchTfKeepsConsistent | scripts/parse_log.py:320-409 | the same for every branch of match_tf_content |
| ParseLog.MatchKeepsConsistent | scripts/parse_log.py:54-67 | finalize picks the matcher by entry type, and either way keeps the tables consistent |
| ParseLog.TravelOf | scripts/parse_log.py:116-127 | a recv_evenlop gets a travel time iff its seq has a tf_send_evenlop, a tf_rpc_return iff its seq has a resp_sent, and the time is its timestamp minus the partner's |
| ParseLog.LoggedSnoc | scripts/parse_log.py:82 | appending a finalized entry to the log keeps the log in step with the closed entries |
| ParseLog.LoggedConcat | scripts/parse_log.py:115 | the concatenated log of two loads holds, position by position, the headers of the exec file's closed entries followed by the tf file's, the events of the two runs in the same order, and no travel time yet |
| ParseLog.LoggedTried | scripts/parse_log.py:70-102 | a log of finalized entries carries the headers of the first closed entries, in order |
| ParseLog.TriedSnoc | scripts/parse_log.py:81-82 | the entry that raised in finalize carries the header of the next closed entry |
| ParseLog.TriedExtends | scripts/parse_log.py:76-102 | what was finalized from a prefix of the file sits at the same positions in the whole file's entries |
| ParseLog.Run | scripts/parse_log.py:54-67 | finalizing entries in turn, on the tables each left, yields one event per entry when no exception ends it |
| ParseLog.RunSnoc | scripts/parse_log.py:81-82 | finalizing one more entry after a completed run matches it on the tables the run left, appending its event or stopping with its exception |
| ParseLog.RunPrefix | scripts/parse_log.py:76-102 | a run reads only the closed entries at its own positions |
| ParseLog.RunKeepsConsistent | scripts/parse_log.py:132-135 | any run of finalizes only adds milestones, files only its own entries, and keeps the globals consistent whether it completes or raises |
| ParseLog.StopExtends | scripts/parse_log.py:76-102 | an exception raised partway through a file is the exception of the whole load |
| ParseLog.Entry.constructor | scripts/parse_log.py:36-45 | a new entry holds its header fields and its raw content, and has no travel time |
| ParseLog.Entry.Update | scripts/parse_log.py:50-52 | the continuation text is appended after one newline, and nothing else changes |
| ParseLog.Entry.Finalize | scripts/parse_log.py:54-67 | the matcher of the entry's source runs on its text; the entry becomes its event, 'unknown' when no fields were given, or the exception propagates, leaving the tables as the matcher left them |
| ParseLog.Engine.constructor | scripts/parse_log.py:132-135 | the globals start out empty and consistent |
| ParseLog.Engine.Store | scripts/parse_log.py:186 | a store into seq_info changes only the entry under that (seq, milestone) |
| ParseLog.Engine.LookupSeq | scripts/parse_log.py:165-172 | the method agrees with SeqFromEntry |
| ParseLog.Engine.LoadFile | scripts/parse_log.py:70-102 | it returns the entries closed by the lines, finalized in order on the tables the previous ones left, or the first exception with the tables as it left them; the globals stay consistent |
| ParseLog.Engine.LoadBoth | scripts/parse_log.py:105-129 | both files are loaded on the same tables, the exec file first; the result is the exec entries followed by the tf entries: entry j carries the source, timestamp, thread, location and level of header j of the two files' closed entries, and is finalized with event j of the two runs; afterwards every filed recv_evenlop and tf_rpc_return carries exactly the travel time TravelOf gives it, and a returned entry that is not filed has none; only travel times change in the merge; an exception stops it before the merge and changes no travel time |
| ParseLog.Engine.LoadLogs | scripts/parse_log.py:105-112 | the exec file is loaded, then, only when it loaded, the tf file, on the tables the first left; the runs and their events are those of the two loads, and the entries filed afterwards are those filed before and those of the two logs |
| ParseLog.Engine.Merge | scripts/parse_log.py:116-127 | the loop over every seq gives each filed entry the travel time TravelOf assigns, and leaves every other travel time as it was; it may write only travel times |
| ParseLog.Engine.TimeSeq | scripts/parse_log.py:117-127 | one pass times the two milestones of one seq and changes no other travel time, and nothing but travel times |
| ParseLog.Engine.TimeAgainst | scripts/parse_log.py:117-119 | a milestone is timed against its partner only when both are filed; no other travel time changes, and nothing but travel times |
| ParseLog.Engine.ReadLine | scripts/parse_log.py:77-101 | one line closes and finalizes the open entry on a header, extends it otherwise, and keeps the loop's state in step with the scan of the lines read |
| ParseLog.Engine.CloseEntry | scripts/parse_log.py:81-83 | the open entry is finalized on the tables the earlier entries left, and joins the log, or its exception ends the load |
| ParseLog.Engine.StartRunningBranch | scripts/parse_log.py:203-215 | the running branch updates the tables and reports exactly as the model of the branch does |
| ParseLog.Engine.ComputeDoneBranch | scripts/parse_log.py:230-242 | the compute_done branch, once the seq is known, agrees with its model |
| ParseLog.Engine.RespSentBranch | scripts/parse_log.py:244-262 | the resp_sent branch agrees with its model |
| ParseLog.Engine.DeallocBranch | scripts/parse_log.py:293-308 | the mem_dealloc branch agrees with its model |
| ParseLog.Engine.MatchExecContent | scripts/parse_log.py:175-310 | match_exec_content updates the globals and returns its fields or exception exactly as MatchExec does |
| ParseLog.Engine.RpcReturnBranch | scripts/parse_log.py:357-365 | the tf_rpc_return branch agrees with its model |
| ParseLog.Engine.VanillaDoneBranch | scripts/parse_log.py:377-407 | the vanilla compute_done branches agree with their model |
| ParseLog.Engine.MatchTfContent | scripts/parse_log.py:320-409 | match_tf_content updates the globals and returns its fields or exception exactly as MatchTf does |
| Correlation.RecvEvenlopFiles | scripts/parse_log.py:183-191 | recv_evenlop files the entry under its seq, changes nothing else, and reports the seq and request type |
| Correlation.CreateKernelBinds | scripts/parse_log.py:193-201 | create_kernel binds the thread to the seq, overwriting any earlier binding and leaving other threads alone, files the kernel, and changes nothing else |
| Correlation.ClientLinesBind | scripts/parse_log.py:325-355 | tf send, sent and recv-resp bind the client thread to their seq, leaving other bindings alone, file their own milestone only, and report tf_send_evenlop with the request type, tf_evenlop_sent, or tf_recv_resp with the response type |
| Correlation.VanillaStartFiles | scripts/parse_log.py:367-375 | both tf_vanilla_start forms file the entry under the seq of the line, bind no thread, change nothing else, and report the start |
| Correlation.UnboundExecThreadRaises | scripts/parse_log.py:165-170 | for an exec entry, running and compute done raise ThreadNotFound, with the tables unchanged, when the thread is not in thread_seq_map |
| Correlation.UnboundClientThreadRaises | scripts/parse_log.py:357-359 | for a tf entry, rpc return raises ThreadNotFound, with the tables unchanged, when the thread is not in tf_thread_seq_map |
| Correlation.StartRunningRequiresRecv | scripts/parse_log.py:203-215 | start_running is filed even when it then fails; it raises iff recv_evenlop is missing, and otherwise reports prep time = its timestamp minus recv_evenlop's |
| Correlation.ComputeDoneRequiresStart | scripts/parse_log.py:217-242 | both compute_done forms are filed first, raise iff start_running is missing, and otherwise report compute time = their timestamp minus start_running's |
| Correlation.RespSentRequiresComputeForRun | scripts/parse_log.py:244-262 | resp_sent is filed first; it raises iff it is a RunResponse and compute_done is missing; only a RunResponse carries a process time, its timestamp minus compute_done's |
| Correlation.RpcReturnReadsSend | scripts/parse_log.py:357-365 | tf_rpc_return is filed first, raises iff tf_send_evenlop is missing, and otherwise reports the round trip from the send |
| Correlation.VanillaDoneReadsStart | scripts/parse_log.py:377-407 | the vanilla compute_done forms are filed first, raise iff tf_vanilla_start is missing, and otherwise report compute time from the start |
| Correlation.AllocOverwrites | scripts/parse_log.py:271-291 | mem_alloc sets the block at its address, overwriting any existing one, and leaves every other address and table alone |
| Correlation.DeallocRemoves | scripts/parse_log.py:293-308 | mem_dealloc raises iff the address is unknown, with nothing changed; otherwise it removes exactly that address and reports the stored block and its size |
| Correlation.UnmatchedIsUnknown | scripts/parse_log.py:62-63 | content that matches no pattern, and the rpc-run line, change nothing and finalize as 'unknown' |
| Correlation.AllocThenDealloc | scripts/parse_log.py:271-308 | a dealloc after an alloc at the same address succeeds, reports the allocated size, and leaves the blocks as they were before the alloc, minus that address |
| Correlation.KernelThenRunning | scripts/parse_log.py:193-215 | a running line on the thread that created a kernel is filed under that kernel's seq, and fails iff the seq had no recv_evenlop |
| Correlation.SendThenReturn | scripts/parse_log.py:325-365 | an rpc return on the thread that sent an evenlop reports the round trip since that send |
| Correlation.ExecLifecycle | scripts/parse_log.py:183-262 | a request's five executor lines, its recv_evenlop with the request's own type and a RunResponse for the same seq, file all five milestones; recv_evenlop reports the request type; prep time runs from recv_evenlop to start_running (create_kernel is not a timing point), compute time from start_running to compute_done, and process time from compute_done to resp_sent |
| Metrics.Pick | scripts/parse_log.py:412-594 | a filter keeps at most one value per entry of the log |
| Metrics.PickAppend | scripts/parse_log.py:412-594 | filtering a concatenated log filters each part in turn |
| Metrics.ShiftSelects | scripts/parse_log.py:412-594 | the selected positions of the tail of a log are selected positions of the whole log, shifted by one |
| Metrics.SelectsHead | scripts/parse_log.py:412-594 | when the first entry is selected, its value comes first, followed by the tail's |
| Metrics.SelectsSkip | scripts/parse_log.py:412-594 | when the first entry is not selected, the selection is the tail's |
| Metrics.PickInOrder | scripts/parse_log.py:412-594 | a filter returns exactly the selected values, at strictly increasing positions covering every selected entry: the values of the entries of its type, in log order |
| Metrics.PickMembers | scripts/parse_log.py:412-594 | a value is in the filter iff some entry selects it |
| Metrics.MessageSizes | scripts/parse_log.py:412-445 | the two lists hold exactly the sizes of the recv_msg and of the fwd_msg entries |
| Metrics.SchedulingTimes | scripts/parse_log.py:448-464 | the list holds exactly the prep times of the start_running entries |
| Metrics.ComputeTimes | scripts/parse_log.py:467-483 | the list holds exactly the compute times of the compute_done entries |
| Metrics.ProcessTimes | scripts/parse_log.py:486-502 | the list holds exactly the process times of the resp_sent entries that have one |
| Metrics.RoundtripTimes | scripts/parse_log.py:505-521 | the list holds exactly the round trips of the tf_rpc_return entries |
| Metrics.RequestWireTimes | scripts/parse_log.py:524-540 | the list holds exactly the travel times of the recv_evenlop entries that have one |
| Metrics.ResponseWireTimes | scripts/parse_log.py:543-559 | the list holds exactly the travel times of the tf_rpc_return entries that have one |
| Metrics.MemoryUsage | scripts/parse_log.py:562-583 | the activities are exactly those of the mem_alloc and mem_dealloc entries: +size for an alloc, -size for a dealloc, with the block's memory type and allocator |
| Metrics.CollectActivities | scripts/parse_log.py:565-582 | the loop appends one row per mem_alloc or mem_dealloc entry, in log order, giving exactly MemoryUsage |
| Metrics.TotalAppend | scripts/parse_log.py:587-588 | the total of a concatenation is the sum of the totals |
| Metrics.UsageTotal | scripts/parse_log.py:562-588 | the final value of a memory type's cumulative sum is its bytes allocated minus its bytes deallocated |
| SimulateTf.RenamedSuffix | scripts/simulate_tf.py:44-46 | a type with 'Response' only as its suffix is looked up with 'Request' in its place |
| SimulateTf.ReplaceSuffix | scripts/simulate_tf.py:46 | replacing a pattern that occurs only as a suffix replaces just that suffix |
| SimulateTf.Renamed | scripts/simulate_tf.py:44-46 | the looked-up type is never longer than the received one, and strictly shorter when the received one ends in 'Response' |
| SimulateTf.RenamedOther | scripts/simulate_tf.py:45 | a type that does not end in 'Response' is looked up unchanged |
| SimulateTf.Step | scripts/simulate_tf.py:30-65 | one line never takes back a report and adds at most one |
| SimulateTf.Replay | scripts/simulate_tf.py:30-65 | replaying the lines yields at most one report per line |
| SimulateTf.Simulate | scripts/simulate_tf.py:25-65 | the loop leaves requests, rrequests and the reports exactly as the fold Replay of its lines |
| SimulateTf.StepTouchesOneSet | scripts/simulate_tf.py:30-65 | each line changes at most one of the two tables; a rendezvous receipt never changes requests; a reported line changes neither and adds one report |
| SimulateTf.SendAdds | scripts/simulate_tf.py:31-40 | a send of a seq not yet outstanding adds it under its type and touches no other type; a duplicate send is reported and changes nothing |
| SimulateTf.ResponseMatches | scripts/simulate_tf.py:56-65 | a response of unknown type or unknown seq is reported and changes nothing; a matching one removes exactly its seq from its type |
| SimulateTf.StepTypes | scripts/simulate_tf.py:35 | a line creates a type in requests exactly when it is a send of that type, and removes none |
| SimulateTf.StepOutstanding | scripts/simulate_tf.py:31-65 | a seq is outstanding after a line iff the line sends it, or it was outstanding and the line is not its matching response |
| SimulateTf.StepRendez | scripts/simulate_tf.py:48-54 | rrequests holds only the rendezvous type, and gains exactly the seqs of rendezvous receipts; a rendezvous receipt of a seq already there is reported and changes nothing else |
| SimulateTf.ReplayTypes | scripts/simulate_tf.py:70 | the types listed at the end are exactly those some line sent |
| SimulateTf.ReplayOutstanding | scripts/simulate_tf.py:70-73 | the seqs listed at the end under a type are exactly those sent and not answered since their last send |
| SimulateTf.ReplayRendez | scripts/simulate_tf.py:75-78 | the rendezvous seqs listed at the end are exactly those of the rendezvous receipts read |
| SimulateTf.RendezSeenSnoc | scripts/simulate_tf.py:48-54 | a rendezvous receipt has been read after one more line iff it was read before or the line is one |
| SimulateTf.RequestsOnlyGrowKeys | scripts/simulate_tf.py:35 | reading more lines never removes a type from requests |

## Left out

- File opening and reading, the `print` diagnostics of `parse_log.py`, and the debugger breakpoints of `simulate_tf.py` are left out. The lines of a file are the input. `simulate_tf.py`'s messages are the `reports` sequence.
- Regular-expression matching and `datetime.strptime` are left out: the grammars are abstract functions from a line to what each pattern captures. The dispatch order is kept exactly.
- The ValueError `strptime` raises on a header whose date matches the pattern but does not exist (month 13, say) is not modelled: every header the grammar accepts has a timestamp.
- `total_seconds()` floats are left out: durations are integer microseconds.
- The statistics, quantiles, pandas frames and plots of the metric functions are left out. The model covers only their list filters and memory deltas.
- Metrics.MemoryUsage: the frame's sort by timestamp and its per-type `groupby().cumsum()` are not modelled. Metrics.UsageTotal states only the final value of each cumulative sum.
- The metric functions read finalized entries as values (timestamp, event, travel time) rather than as `Entry` objects.
- `seq_info`'s empty inner dicts are not represented. The flat map has no key for a seq until a milestone is filed, and no code path creates an empty inner dict that is read before a store.
- `thread_alloc_type_map` (`scripts/parse_log.py:136`) is never read or written by the code and is left out.
- `Log` (`scripts/parse_log.py:27-31`) is unused and is left out.
- The rest of the repository (the C++ server, the benchmark drivers, the paper scripts) is not part of this model.
