/**
 * The line loop of `load_file` (scripts/parse_log.py) as a pure scan:
 * which lines open entries, which continue the open one, which are
 * dropped, and what each entry's text is when it is closed. The class
 * `ParseLog.Entry` and `ParseLog.Engine.LoadFile` are proved to follow it.
 */
module Accumulator {
  import opened Wrappers
  import opened Patterns

  /** Which header grammar opened an entry (`entry_type` 'exec' or 'tf'). */
  datatype Source = Exec | Tf

  /** An entry while it is open: its source, its header and its text so far. */
  datatype Pending = Pending(source: Source, header: Header, content: string)

  /** The loop's state after a prefix of the lines: entries handed to `logs`, the open entry, the lines reported as unhandled. */
  datatype Scan = Scan(closed: seq<Pending>, open: Option<Pending>, unhandled: seq<string>)

  /** `line.rstrip('\n')`. */
  function RStripNewlines(s: string): string
    decreases |s|
  {
    if |s| > 0 && s[|s| - 1] == '\n' then RStripNewlines(s[..|s| - 1]) else s
  }

  /** Every trailing newline goes, and nothing else: the result is a prefix of `s` and the rest of `s` is newlines. */
  lemma {:induction false} RStripNewlinesTrims(s: string)
    ensures var r := RStripNewlines(s);
      && |r| <= |s| && r == s[..|r|]
      && (r == [] || r[|r| - 1] != '\n')
      && forall i :: |r| <= i < |s| ==> s[i] == '\n'
    decreases |s|
  {
    if |s| > 0 && s[|s| - 1] == '\n' {
      RStripNewlinesTrims(s[..|s| - 1]);
    }
  }

  function Closing(open: Option<Pending>): seq<Pending> {
    match open
    case Some(p) => [p]
    case None => []
  }

  /**
   * One iteration of the loop of `load_file` over a raw line. It never
   * takes back a closed entry or a reported line; it closes an entry
   * exactly when a header arrives while one is open, and it either closes
   * one entry or reports one line, never both.
   */
  function Feed(g: Grammar, sc: Scan, raw: string): (r: Scan)
    ensures sc.closed <= r.closed && sc.unhandled <= r.unhandled
    ensures |r.closed| == |sc.closed| + 1 <==> sc.open.Some? && IsHeader(g, raw)
    ensures |r.closed| + |r.unhandled| <= |sc.closed| + |sc.unhandled| + 1
    ensures r.open.None? ==> sc.open.None? && r.closed == sc.closed
  {
    var line := RStripNewlines(raw);
    match Classify(g, line)
    case ExecLine(h) => Scan(sc.closed + Closing(sc.open), Some(Pending(Exec, ExecHeader(h), h.content)), sc.unhandled)
    case TfLine(h) => Scan(sc.closed + Closing(sc.open), Some(Pending(Tf, TfHeader(h), h.content)), sc.unhandled)
    case Continuation =>
      match sc.open
      case Some(p) => Scan(sc.closed, Some(p.(content := p.content + "\n" + line)), sc.unhandled)
      case None => Scan(sc.closed, None, sc.unhandled + [line])
  }

  /** The loop of `load_file` over a prefix of the file's lines: nothing is handed to `logs` until an entry is open. */
  function Accumulate(g: Grammar, lines: seq<string>): (r: Scan)
    ensures r.open.None? ==> r.closed == []
    decreases |lines|, 1
  {
    if lines == [] then Scan([], None, []) else FeedLast(g, lines)
  }

  /** The last of `lines` fed to the scan of the lines before it. */
  function FeedLast(g: Grammar, lines: seq<string>): (r: Scan)
    requires lines != []
    ensures r.open.None? ==> r.closed == []
    decreases |lines|, 0
  {
    Feed(g, Accumulate(g, lines[..|lines| - 1]), lines[|lines| - 1])
  }

  predicate IsHeader(g: Grammar, raw: string) {
    !Classify(g, RStripNewlines(raw)).Continuation?
  }

  /** The entry a header line opens. */
  function Opened(g: Grammar, raw: string): Pending
    requires IsHeader(g, raw)
  {
    match Classify(g, RStripNewlines(raw))
    case ExecLine(h) => Pending(Exec, ExecHeader(h), h.content)
    case TfLine(h) => Pending(Tf, TfHeader(h), h.content)
  }

  /** The number of header lines. */
  function Headers(g: Grammar, lines: seq<string>): nat
    decreases |lines|
  {
    if lines == [] then 0
    else Headers(g, lines[..|lines| - 1]) + (if IsHeader(g, lines[|lines| - 1]) then 1 else 0)
  }

  function Stripped(lines: seq<string>): (r: seq<string>)
    ensures |r| == |lines| && forall i :: 0 <= i < |lines| ==> r[i] == RStripNewlines(lines[i])
  {
    seq(|lines|, i requires 0 <= i < |lines| => RStripNewlines(lines[i]))
  }

  /** Lines joined by single newlines, in order. */
  function Join(parts: seq<string>): string
    requires |parts| > 0
    decreases |parts|
  {
    if |parts| == 1 then parts[0] else parts[0] + "\n" + Join(parts[1..])
  }

  lemma {:induction false} JoinSnoc(parts: seq<string>, x: string)
    requires |parts| > 0
    ensures Join(parts + [x]) == Join(parts) + "\n" + x
    decreases |parts|
  {
    if |parts| == 1 {
      assert (parts + [x])[1..] == [x];
    } else {
      assert (parts + [x])[1..] == parts[1..] + [x];
      JoinSnoc(parts[1..], x);
    }
  }

  /**
   * Every header but the last is handed to `logs`: the entry still open at
   * end of input is never appended.
   */
  lemma {:induction false} AccumulateCounts(g: Grammar, lines: seq<string>)
    ensures Accumulate(g, lines).open.Some? <==> Headers(g, lines) > 0
    ensures |Accumulate(g, lines).closed| == if Headers(g, lines) == 0 then 0 else Headers(g, lines) - 1
    decreases |lines|
  {
    if lines != [] {
      AccumulateCounts(g, lines[..|lines| - 1]);
    }
  }

  /** Lines never take back an entry already handed to `logs`: the closed entries of a prefix begin those of the whole. */
  lemma {:induction false} AccumulateExtends(g: Grammar, lines: seq<string>, k: nat)
    requires k <= |lines|
    ensures |Accumulate(g, lines[..k]).closed| <= |Accumulate(g, lines).closed|
    ensures Accumulate(g, lines[..k]).closed == Accumulate(g, lines).closed[..|Accumulate(g, lines[..k]).closed|]
    decreases |lines| - k
  {
    if k < |lines| {
      AccumulateExtends(g, lines, k + 1);
      assert lines[..k + 1][..k] == lines[..k];
    } else {
      assert lines[..k] == lines;
    }
  }

  /** Accumulate over one more line is Feed over that line. */
  lemma AccumulateSnoc(g: Grammar, lines: seq<string>, raw: string)
    ensures Accumulate(g, lines + [raw]) == Feed(g, Accumulate(g, lines), raw)
  {
    assert (lines + [raw])[..|lines + [raw]| - 1] == lines;
  }

  lemma FeedHeader(g: Grammar, sc: Scan, raw: string)
    requires IsHeader(g, raw)
    ensures Feed(g, sc, raw) == Scan(sc.closed + Closing(sc.open), Some(Opened(g, raw)), sc.unhandled)
  {
  }

  lemma FeedContinuation(g: Grammar, sc: Scan, raw: string)
    requires !IsHeader(g, raw)
    ensures sc.open.Some? ==> Feed(g, sc, raw) == Scan(sc.closed, Some(sc.open.value.(content := sc.open.value.content + "\n" + RStripNewlines(raw))), sc.unhandled)
    ensures sc.open.None? ==> Feed(g, sc, raw) == Scan(sc.closed, None, sc.unhandled + [RStripNewlines(raw)])
  {
  }

  /**
   * A header followed by continuation lines gives one entry whose text is
   * the header's content and the (newline-stripped) continuations joined by
   * single newlines, in order; the entry open before the header is handed
   * to `logs`, once.
   */
  lemma ContinuationsJoin(g: Grammar, pre: seq<string>, h: string, cs: seq<string>)
    requires IsHeader(g, h)
    requires forall i :: 0 <= i < |cs| ==> !IsHeader(g, cs[i])
    ensures var before := Accumulate(g, pre);
      Accumulate(g, pre + [h] + cs)
      == Scan(before.closed + Closing(before.open),
              Some(Opened(g, h).(content := Join([Opened(g, h).content] + Stripped(cs)))),
              before.unhandled)
  {
    HeaderStep(g, pre, h);
    ContinuationsExtend(g, pre + [h], cs);
  }

  /** Continuation lines after an open entry extend its text, each after one newline, and change nothing else. */
  lemma {:induction false} ContinuationsExtend(g: Grammar, lines: seq<string>, cs: seq<string>)
    requires Accumulate(g, lines).open.Some?
    requires forall i :: 0 <= i < |cs| ==> !IsHeader(g, cs[i])
    ensures var sc := Accumulate(g, lines); var p := sc.open.value;
      Accumulate(g, lines + cs) == Scan(sc.closed, Some(p.(content := Join([p.content] + Stripped(cs)))), sc.unhandled)
    decreases |cs|
  {
    var p := Accumulate(g, lines).open.value;
    if cs == [] {
      assert lines + cs == lines;
      assert [p.content] + Stripped(cs) == [p.content];
    } else {
      var last := cs[|cs| - 1];
      var init := cs[..|cs| - 1];
      ContinuationsExtend(g, lines, init);
      assert !IsHeader(g, last);
      ContinuationStep(g, lines + init, last);
      assert lines + cs == (lines + init) + [last];
      assert cs == init + [last];
      JoinedSnoc(p.content, init, last);
    }
  }

  /** A header line closes the open entry, if any, and opens its own. */
  lemma HeaderStep(g: Grammar, lines: seq<string>, h: string)
    requires IsHeader(g, h)
    ensures var sc := Accumulate(g, lines);
      Accumulate(g, lines + [h]) == Scan(sc.closed + Closing(sc.open), Some(Opened(g, h)), sc.unhandled)
  {
    AccumulateSnoc(g, lines, h);
    FeedHeader(g, Accumulate(g, lines), h);
  }

  /** A continuation line appended to an open entry. */
  lemma ContinuationStep(g: Grammar, lines: seq<string>, last: string)
    requires Accumulate(g, lines).open.Some? && !IsHeader(g, last)
    ensures var sc := Accumulate(g, lines); var p := sc.open.value;
      Accumulate(g, lines + [last]) == Scan(sc.closed, Some(p.(content := p.content + "\n" + RStripNewlines(last))), sc.unhandled)
  {
    AccumulateSnoc(g, lines, last);
    FeedContinuation(g, Accumulate(g, lines), last);
  }

  /** One more continuation line joins the text after one newline. */
  lemma JoinedSnoc(first: string, init: seq<string>, last: string)
    ensures Join([first] + Stripped(init + [last])) == Join([first] + Stripped(init)) + "\n" + RStripNewlines(last)
  {
    StrippedSnoc(init, last);
    assert [first] + Stripped(init + [last]) == ([first] + Stripped(init)) + [RStripNewlines(last)];
    JoinSnoc([first] + Stripped(init), RStripNewlines(last));
  }

  /** A continuation line with no entry open is reported and dropped. */
  lemma DroppedStep(g: Grammar, lines: seq<string>, last: string)
    requires Accumulate(g, lines).open.None? && !IsHeader(g, last)
    ensures var sc := Accumulate(g, lines);
      Accumulate(g, lines + [last]) == Scan(sc.closed, None, sc.unhandled + [RStripNewlines(last)])
  {
    AccumulateSnoc(g, lines, last);
    FeedContinuation(g, Accumulate(g, lines), last);
  }

  lemma StrippedSnoc(lines: seq<string>, last: string)
    ensures Stripped(lines + [last]) == Stripped(lines) + [RStripNewlines(last)]
  {
  }

  /** With no header among them, every line is reported and dropped: nothing is handed to `logs` and no entry is opened. */
  lemma {:induction false} UnattributedLinesDropped(g: Grammar, lines: seq<string>)
    requires Headers(g, lines) == 0
    ensures Accumulate(g, lines) == Scan([], None, Stripped(lines))
    decreases |lines|
  {
    if lines != [] {
      var init, last := lines[..|lines| - 1], lines[|lines| - 1];
      assert !IsHeader(g, last);
      UnattributedLinesDropped(g, init);
      assert lines == init + [last];
      DroppedStep(g, init, last);
      StrippedSnoc(init, last);
    }
  }
}
