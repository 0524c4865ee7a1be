/**
 * scripts/simulate_tf.py: replay the client's log and pair every request
 * it sent with the response it received, per request type, then list what
 * is left unanswered.
 *
 * The two regular expressions are searched for in every line; what each
 * search finds is the input here (`Searched`). The script's `print`
 * diagnostics become `Report`s appended in order; its debugger breakpoints
 * are not modelled.
 */
module SimulateTf {
  import opened Wrappers

  /** What a search for `pat_send` or `pat_recv` captures: the type and the seq, both as text. */
  datatype Msg = Msg(reqType: string, seqNum: string)

  /** One line: what `pat_send.search` and `pat_recv.search` found in it. */
  datatype Searched = Searched(send: Option<Msg>, recv: Option<Msg>)

  /** The diagnostics the loop prints before skipping a line. */
  datatype Report =
    | SentTwice(msg: Msg)          // 'Request sent twice'
    | RendezRecvTwice(msg: Msg)    // 'Sending out twice requests'
    | UnknownType(msg: Msg)        // 'Response for non-exist request'
    | UnknownSeq(msg: Msg)         // 'Response for non-exist request seq'

  /** `requests` and `rrequests` (type -> set of seqs), and the diagnostics so far. */
  datatype Tables = Tables(requests: map<string, set<string>>, rrequests: map<string, set<string>>, reports: seq<Report>)

  /** The one request type whose receipts go to `rrequests`. */
  const Rendez := "executor.TFRendezRecvRequests"

  /** `d[k]` of a `defaultdict(set)`: the set under `k`, or the empty set it would create. */
  function Get(d: map<string, set<string>>, k: string): set<string> {
    if k in d then d[k] else {}
  }

  function EndsWith(s: string, suffix: string): bool {
    |suffix| <= |s| && s[|s| - |suffix|..] == suffix
  }

  function StartsWith(s: string, prefix: string): bool {
    |prefix| <= |s| && s[..|prefix|] == prefix
  }

  /** `str.replace`: every occurrence of `pat`, scanning left to right without overlap, becomes `rep`. */
  function ReplaceAll(s: string, pat: string, rep: string): (r: string)
    requires pat != []
    ensures |rep| <= |pat| ==> |r| <= |s|
    ensures |rep| < |pat| && EndsWith(s, pat) ==> |r| < |s|
    decreases |s|
  {
    if |s| < |pat| then s
    else if StartsWith(s, pat) then rep + ReplaceAll(s[|pat|..], pat, rep)
    else
      assert EndsWith(s, pat) ==> s[1..][|s| - 1 - |pat|..] == s[|s| - |pat|..];
      [s[0]] + ReplaceAll(s[1..], pat, rep)
  }

  /**
   * The type a received response is looked up under: a type ending in
   * 'Response' has 'Response' replaced by 'Request', so it comes out
   * strictly shorter; any other type is never lengthened.
   */
  function Renamed(t: string): (r: string)
    ensures |r| <= |t|
    ensures EndsWith(t, "Response") ==> |r| < |t|
  {
    if EndsWith(t, "Response") then ReplaceAll(t, "Response", "Request") else t
  }

  /**
   * A type in which 'Response' occurs only as its suffix is looked up
   * under the same name with the suffix 'Request'.
   */
  lemma {:induction false} RenamedSuffix(x: string)
    requires forall p :: 0 <= p < |x| ==> !StartsWith((x + "Response")[p..], "Response")
    ensures Renamed(x + "Response") == x + "Request"
  {
    assert EndsWith(x + "Response", "Response");
    ReplaceSuffix(x, "Response", "Request");
  }

  /** Replacing a pattern that occurs only as the suffix replaces just that suffix. */
  lemma {:induction false} ReplaceSuffix(x: string, pat: string, rep: string)
    requires pat != []
    requires forall p :: 0 <= p < |x| ==> !StartsWith((x + pat)[p..], pat)
    ensures ReplaceAll(x + pat, pat, rep) == x + rep
  {
    var s := x + pat;
    if x == [] {
      assert s == pat && StartsWith(s, pat);
      assert s[|pat|..] == [];
      assert ReplaceAll(s[|pat|..], pat, rep) == [];
    } else {
      assert s[0..] == s;
      assert !StartsWith(s, pat);
      assert ReplaceAll(s, pat, rep) == [s[0]] + ReplaceAll(s[1..], pat, rep);
      assert s[1..] == x[1..] + pat;
      forall p | 0 <= p < |x[1..]|
        ensures !StartsWith((x[1..] + pat)[p..], pat)
      {
        assert (x[1..] + pat)[p..] == s[p + 1..];
      }
      ReplaceSuffix(x[1..], pat, rep);
      assert [s[0]] + (x[1..] + rep) == x + rep;
    }
  }

  /** A type that does not end in 'Response' is looked up as it is. */
  lemma RenamedOther(t: string)
    requires !EndsWith(t, "Response")
    ensures Renamed(t) == t
  {
  }

  /**
   * One pass of the loop body. A send is tried first: it adds its seq
   * under its type, or reports a duplicate. Otherwise a receipt is looked
   * up under its renamed type: rendezvous receipts are collected in
   * `rrequests` (a duplicate is reported); any other one removes its seq
   * from `requests`, or is reported when the type or the seq is unknown.
   */
  function Step(st: Tables, l: Searched): (r: Tables)
    ensures st.reports <= r.reports && |r.reports| <= |st.reports| + 1
  {
    if l.send.Some? then
      var m := l.send.value;
      var s := Get(st.requests, m.reqType);
      if m.seqNum in s then st.(reports := st.reports + [SentTwice(m)])
      else st.(requests := st.requests[m.reqType := s + {m.seqNum}])
    else if l.recv.Some? then
      var m := l.recv.value;
      var t := Renamed(m.reqType);
      if t == Rendez then
        var s := Get(st.rrequests, t);
        if m.seqNum in s then st.(reports := st.reports + [RendezRecvTwice(m)])
        else st.(rrequests := st.rrequests[t := s + {m.seqNum}])
      else if t !in st.requests then st.(reports := st.reports + [UnknownType(m)])
      else if m.seqNum !in st.requests[t] then st.(reports := st.reports + [UnknownSeq(m)])
      else st.(requests := st.requests[t := st.requests[t] - {m.seqNum}])
    else st
  }

  /** The tables after the loop has read `lines`; at most one diagnostic per line. */
  function Replay(lines: seq<Searched>): (r: Tables)
    ensures |r.reports| <= |lines|
  {
    if lines == [] then Tables(map[], map[], [])
    else Step(Replay(lines[..|lines| - 1]), lines[|lines| - 1])
  }

  /** The script's loop over the lines of tf.output. */
  method Simulate(lines: seq<Searched>) returns (requests: map<string, set<string>>, rrequests: map<string, set<string>>, reports: seq<Report>)
    ensures Tables(requests, rrequests, reports) == Replay(lines)
  {
    requests, rrequests, reports := map[], map[], [];
    var i := 0;
    while i < |lines|
      invariant 0 <= i <= |lines|
      invariant Tables(requests, rrequests, reports) == Replay(lines[..i])
    {
      assert lines[..i + 1][..i] == lines[..i];
      var line := lines[i];
      i := i + 1;
      if line.send.Some? {
        var m := line.send.value;
        var s := if m.reqType in requests then requests[m.reqType] else {};
        if m.seqNum in s {
          reports := reports + [SentTwice(m)];
          continue;
        }
        requests := requests[m.reqType := s + {m.seqNum}];
      } else if line.recv.Some? {
        var m := line.recv.value;
        var reqtype := m.reqType;
        if EndsWith(reqtype, "Response") {
          reqtype := ReplaceAll(reqtype, "Response", "Request");
        }
        if reqtype == Rendez {
          var s := if reqtype in rrequests then rrequests[reqtype] else {};
          if m.seqNum in s {
            reports := reports + [RendezRecvTwice(m)];
            continue;
          }
          rrequests := rrequests[reqtype := s + {m.seqNum}];
          continue;
        }
        if reqtype !in requests {
          reports := reports + [UnknownType(m)];
          continue;
        }
        var s := requests[reqtype];
        if m.seqNum !in s {
          reports := reports + [UnknownSeq(m)];
          continue;
        }
        requests := requests[reqtype := s - {m.seqNum}];
      }
    }
    assert lines[..i] == lines;
  }

  /**
   * What one line does to the tables: a send touches only `requests`, a
   * rendezvous receipt only `rrequests`, any other receipt only
   * `requests`, and a line that is reported changes neither set.
   */
  lemma StepTouchesOneSet(st: Tables, l: Searched)
    ensures Step(st, l).requests == st.requests || Step(st, l).rrequests == st.rrequests
    ensures l.recv.Some? && l.send.None? && Renamed(l.recv.value.reqType) == Rendez ==> Step(st, l).requests == st.requests
    ensures |Step(st, l).reports| > |st.reports| ==>
      Step(st, l).requests == st.requests && Step(st, l).rrequests == st.rrequests && |Step(st, l).reports| == |st.reports| + 1
  {
  }

  /** A send of a seq not yet outstanding under its type adds it there; a duplicate leaves the set as it was and is reported. */
  lemma SendAdds(st: Tables, l: Searched)
    requires l.send.Some?
    ensures var m, st' := l.send.value, Step(st, l);
      && st'.rrequests == st.rrequests
      && (m.seqNum in Get(st.requests, m.reqType) ==> st'.requests == st.requests && st'.reports == st.reports + [SentTwice(m)])
      && (m.seqNum !in Get(st.requests, m.reqType) ==>
            && m.reqType in st'.requests && st'.requests[m.reqType] == Get(st.requests, m.reqType) + {m.seqNum}
            && (forall t :: t != m.reqType ==> (t in st'.requests <==> t in st.requests) && Get(st'.requests, t) == Get(st.requests, t))
            && st'.reports == st.reports)
  {
  }

  /**
   * A receipt whose renamed type is unknown, or whose seq is not
   * outstanding under it, is reported and changes nothing else; a
   * matching one removes exactly that seq.
   */
  lemma ResponseMatches(st: Tables, l: Searched)
    requires l.send.None? && l.recv.Some? && Renamed(l.recv.value.reqType) != Rendez
    ensures var m, t, st' := l.recv.value, Renamed(l.recv.value.reqType), Step(st, l);
      && st'.rrequests == st.rrequests
      && (t !in st.requests ==> st' == st.(reports := st.reports + [UnknownType(m)]))
      && (t in st.requests && m.seqNum !in st.requests[t] ==> st' == st.(reports := st.reports + [UnknownSeq(m)]))
      && (t in st.requests && m.seqNum in st.requests[t] ==>
            && st'.requests.Keys == st.requests.Keys && st'.requests[t] == st.requests[t] - {m.seqNum}
            && (forall u :: u in st.requests && u != t ==> st'.requests[u] == st.requests[u])
            && st'.reports == st.reports)
  {
  }

  /** The types `requests` has a set for: those some send in `lines` had. */
  ghost predicate SentType(lines: seq<Searched>, t: string) {
    exists i :: 0 <= i < |lines| && lines[i].send.Some? && lines[i].send.value.reqType == t
  }

  /**
   * Whether seq `q` of type `t` is outstanding, followed through the lines
   * about it alone: a send of it makes it outstanding, a receipt whose
   * renamed type is `t` (other than the rendezvous type) answers it, and
   * every other line leaves it as it was.
   */
  function Outstanding(lines: seq<Searched>, t: string, q: string): bool {
    if lines == [] then false
    else
      var l := lines[|lines| - 1];
      if l.send.Some? then l.send.value == Msg(t, q) || Outstanding(lines[..|lines| - 1], t, q)
      else if l.recv.Some? && Renamed(l.recv.value.reqType) == t && t != Rendez && l.recv.value.seqNum == q then false
      else Outstanding(lines[..|lines| - 1], t, q)
  }

  /** The line is a receipt, not a send, of seq `q` of the rendezvous type. */
  predicate RendezRecv(l: Searched, q: string) {
    l.send.None? && l.recv.Some? && Renamed(l.recv.value.reqType) == Rendez && l.recv.value.seqNum == q
  }

  /** Whether a receipt of seq `q` of the rendezvous type is among `lines`. */
  ghost predicate RendezSeen(lines: seq<Searched>, q: string) {
    exists i :: 0 <= i < |lines| && RendezRecv(lines[i], q)
  }

  /** A line adds a type to `requests` exactly when it is a send of that type, and removes none. */
  lemma StepTypes(st: Tables, l: Searched)
    ensures forall t :: t in Step(st, l).requests <==> t in st.requests || (l.send.Some? && l.send.value.reqType == t)
  {
  }

  /** Whether `q` is outstanding under `t` after a line, from whether it was before. */
  lemma StepOutstanding(st: Tables, l: Searched, t: string, q: string)
    ensures q in Get(Step(st, l).requests, t) <==>
      if l.send.Some? then l.send.value == Msg(t, q) || q in Get(st.requests, t)
      else if l.recv.Some? && Renamed(l.recv.value.reqType) == t && t != Rendez && l.recv.value.seqNum == q then false
      else q in Get(st.requests, t)
  {
  }

  /**
   * A line adds a seq to `rrequests` exactly when it is a rendezvous
   * receipt of it, and only under the rendezvous type; a second receipt of
   * a seq already there is reported and changes nothing else.
   */
  lemma StepRendez(st: Tables, l: Searched)
    ensures st.rrequests.Keys <= {Rendez} ==> Step(st, l).rrequests.Keys <= {Rendez}
    ensures forall q :: q in Get(Step(st, l).rrequests, Rendez) <==> q in Get(st.rrequests, Rendez) || RendezRecv(l, q)
    ensures l.recv.Some? && RendezRecv(l, l.recv.value.seqNum) && l.recv.value.seqNum in Get(st.rrequests, Rendez) ==>
      Step(st, l) == st.(reports := st.reports + [RendezRecvTwice(l.recv.value)])
  {
  }

  /** The final printout lists a set exactly for the types some line sent. */
  lemma {:induction false} ReplayTypes(lines: seq<Searched>)
    ensures forall t :: t in Replay(lines).requests <==> SentType(lines, t)
  {
    if lines != [] {
      var init, l := lines[..|lines| - 1], lines[|lines| - 1];
      ReplayTypes(init);
      StepTypes(Replay(init), l);
      forall t
        ensures SentType(lines, t) <==> SentType(init, t) || (l.send.Some? && l.send.value.reqType == t)
      {
        if SentType(lines, t) && !(l.send.Some? && l.send.value.reqType == t) {
          var i :| 0 <= i < |lines| && lines[i].send.Some? && lines[i].send.value.reqType == t;
          assert i < |init| && init[i] == lines[i];
        }
        if SentType(init, t) {
          var i :| 0 <= i < |init| && init[i].send.Some? && init[i].send.value.reqType == t;
          assert lines[i] == init[i];
        }
      }
    }
  }

  /**
   * The seqs the final printout lists under a type are exactly those sent
   * and not answered since.
   */
  lemma {:induction false} ReplayOutstanding(lines: seq<Searched>)
    ensures forall t, q :: q in Get(Replay(lines).requests, t) <==> Outstanding(lines, t, q)
  {
    if lines != [] {
      var init, l := lines[..|lines| - 1], lines[|lines| - 1];
      ReplayOutstanding(init);
      forall t, q
        ensures q in Get(Replay(lines).requests, t) <==> Outstanding(lines, t, q)
      {
        StepOutstanding(Replay(init), l, t, q);
      }
    }
  }

  /** `rrequests` has a set only for the rendezvous type, holding every seq of it received. */
  lemma {:induction false} ReplayRendez(lines: seq<Searched>)
    ensures Replay(lines).rrequests.Keys <= {Rendez}
    ensures forall q :: q in Get(Replay(lines).rrequests, Rendez) <==> RendezSeen(lines, q)
  {
    if lines != [] {
      var init, l := lines[..|lines| - 1], lines[|lines| - 1];
      ReplayRendez(init);
      StepRendez(Replay(init), l);
      assert lines == init + [l];
      forall q
        ensures RendezSeen(lines, q) <==> RendezSeen(init, q) || RendezRecv(l, q)
      {
        RendezSeenSnoc(init, l, q);
      }
    }
  }

  /** One more line adds to the rendezvous receipts seen exactly when it is one. */
  lemma RendezSeenSnoc(init: seq<Searched>, l: Searched, q: string)
    ensures RendezSeen(init + [l], q) <==> RendezSeen(init, q) || RendezRecv(l, q)
  {
    var lines := init + [l];
    if RendezSeen(init, q) {
      var i :| 0 <= i < |init| && RendezRecv(init[i], q);
      assert lines[i] == init[i];
    }
    if RendezSeen(lines, q) {
      var i :| 0 <= i < |lines| && RendezRecv(lines[i], q);
      if i < |init| {
        assert init[i] == lines[i];
      }
    }
    if RendezRecv(l, q) {
      assert lines[|init|] == l;
    }
  }

  /** No line removes a type from `requests`: once a type has been sent, receipts of it are never reported as of an unknown type. */
  lemma {:induction false} RequestsOnlyGrowKeys(lines: seq<Searched>, more: seq<Searched>)
    ensures Replay(lines).requests.Keys <= Replay(lines + more).requests.Keys
    decreases |more|
  {
    if more == [] {
      assert lines + more == lines;
    } else {
      var init := more[..|more| - 1];
      RequestsOnlyGrowKeys(lines, init);
      assert (lines + more)[..|lines + more| - 1] == lines + init;
      StepTypes(Replay(lines + init), more[|more| - 1]);
    }
  }
}
