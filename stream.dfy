/** The progress stream of a job (app.py `progress.generate`) and the point
    lookup (app.py `check_progress`). Real time is replaced by a sequence of
    snapshots of the job's entry in the progress table: poll `k` reads
    snapshot `k`, and the table keeps its last state once the snapshots run
    out. */
module Stream {
  import opened Wrappers
  import opened Progress

  /** The number of polls before the stream gives up (five minutes of half
      second waits). */
  const MaxWait: nat := 300

  /** `download_progress.get(progress_id)` at poll `k`. */
  function Poll(snaps: seq<Option<Record>>, k: nat): Option<Record> {
    if k < |snaps| then snaps[k]
    else if snaps == [] then None
    else snaps[|snaps| - 1]
  }

  /** `if not data`: a missing entry and an empty record are both skipped. */
  predicate Present(data: Option<Record>) {
    data.Some? && data.value != map[]
  }

  /** What the stream yields from poll `k` on, after last yielding `last`,
      and how many polls it makes. */
  datatype StreamRun = StreamRun(emitted: seq<Record>, polls: nat)

  /** The specification of the loop: each present record that differs from the
      last one yielded is yielded; a terminal record is yielded (once more)
      and ends the stream; after `MaxWait` polls the stream ends. */
  function StreamFrom(snaps: seq<Option<Record>>, k: nat, last: Option<Record>): (run: StreamRun)
    ensures k <= MaxWait ==> k + run.polls <= MaxWait
    ensures |run.emitted| <= run.polls + 1
    decreases MaxWait - k
  {
    if k >= MaxWait then StreamRun([], 0)
    else
      var data := Poll(snaps, k);
      if !Present(data) then
        var rest := StreamFrom(snaps, k + 1, last);
        StreamRun(rest.emitted, rest.polls + 1)
      else
        var r := data.value;
        var head := if last != Some(r) then [r] else [];
        if IsTerminal(r) then StreamRun(head + [r], 1)
        else
          var rest := StreamFrom(snaps, k + 1, Some(r));
          StreamRun(head + rest.emitted, rest.polls + 1)
  }

  /** The whole stream of a job. */
  function Stream(snaps: seq<Option<Record>>): StreamRun {
    StreamFrom(snaps, 0, None)
  }

  /** The loop's invariant: what was yielded so far followed by what the
      stream yields from poll `k` on, after last yielding `last`, is the whole
      stream `whole`. */
  ghost predicate Pending(snaps: seq<Option<Record>>, whole: StreamRun, k: nat, last: Option<Record>, emitted: seq<Record>) {
    && whole.emitted == emitted + StreamFrom(snaps, k, last).emitted
    && whole.polls == k + StreamFrom(snaps, k, last).polls
  }

  /** `generate`: polls the job's entry, yields it when it changed, and stops
      after yielding a terminal record a second time or after `MaxWait` polls. */
  method Generate(snaps: seq<Option<Record>>) returns (emitted: seq<Record>, polls: nat)
    ensures StreamRun(emitted, polls) == Stream(snaps)
    ensures polls <= MaxWait
  {
    emitted, polls := [], 0;
    var last: Option<Record> := None;
    var waitCount: nat := 0;
    ghost var whole := Stream(snaps);
    while waitCount < MaxWait
      invariant waitCount <= MaxWait
      invariant Pending(snaps, whole, waitCount, last, emitted)
      decreases MaxWait - waitCount
    {
      var data := Poll(snaps, waitCount);
      ghost var last0, emitted0 := last, emitted;
      if Present(data) {
        var r := data.value;
        if last != Some(r) {
          emitted := emitted + [r];
          last := Some(r);
        }
        if IsTerminal(r) {
          emitted := emitted + [r];
          polls := waitCount + 1;
          EndStep(snaps, waitCount, last0, emitted0, whole, r, emitted);
          return;
        }
        YieldStep(snaps, waitCount, last0, emitted0, whole, r, emitted);
      } else {
        SkipStep(snaps, waitCount, last, emitted, whole);
      }
      waitCount := waitCount + 1;
    }
    Exhausted(snaps, whole, last, emitted);
    polls := waitCount;
  }

  /** Past the limit the stream neither polls nor yields. */
  lemma Exhausted(snaps: seq<Option<Record>>, whole: StreamRun, last: Option<Record>, emitted: seq<Record>)
    requires Pending(snaps, whole, MaxWait, last, emitted)
    ensures whole == StreamRun(emitted, MaxWait)
  {
    assert emitted + [] == emitted;
  }

  /** A poll that finds no record yields nothing. */
  lemma SkipStep(snaps: seq<Option<Record>>, k: nat, last: Option<Record>, emitted: seq<Record>, whole: StreamRun)
    requires k < MaxWait && !Present(Poll(snaps, k))
    requires Pending(snaps, whole, k, last, emitted)
    ensures Pending(snaps, whole, k + 1, last, emitted)
  {
  }

  /** A poll that finds a terminal record yields it, a second time when it is
      new, and ends the stream. */
  lemma EndStep(snaps: seq<Option<Record>>, k: nat, last: Option<Record>, emitted: seq<Record>, whole: StreamRun,
                r: Record, emitted': seq<Record>)
    requires k < MaxWait && Poll(snaps, k) == Some(r) && Present(Poll(snaps, k)) && IsTerminal(r)
    requires Pending(snaps, whole, k, last, emitted)
    requires emitted' == (if last != Some(r) then emitted + [r] else emitted) + [r]
    ensures whole == StreamRun(emitted', k + 1)
  {
    var head := if last != Some(r) then [r] else [];
    assert StreamFrom(snaps, k, last) == StreamRun(head + [r], 1);
    assert emitted + (head + [r]) == (emitted + head) + [r];
  }

  /** A poll that finds a non-terminal record yields it when it is new and
      goes on from the next poll with it as the last record. */
  lemma YieldStep(snaps: seq<Option<Record>>, k: nat, last: Option<Record>, emitted: seq<Record>, whole: StreamRun,
                  r: Record, emitted': seq<Record>)
    requires k < MaxWait && Poll(snaps, k) == Some(r) && Present(Poll(snaps, k)) && !IsTerminal(r)
    requires Pending(snaps, whole, k, last, emitted)
    requires emitted' == if last != Some(r) then emitted + [r] else emitted
    ensures Pending(snaps, whole, k + 1, Some(r), emitted')
  {
    var head := if last != Some(r) then [r] else [];
    var rest := StreamFrom(snaps, k + 1, Some(r));
    assert StreamFrom(snaps, k, last) == StreamRun(head + rest.emitted, rest.polls + 1);
    assert emitted' == emitted + head;
    assert emitted + (head + rest.emitted) == emitted' + rest.emitted;
  }

  /** A terminal snapshot the stream reaches. */
  ghost predicate TerminalAt(snaps: seq<Option<Record>>, j: nat) {
    Present(Poll(snaps, j)) && IsTerminal(Poll(snaps, j).value)
  }

  /** No record appears twice in a row, except a terminal record in the last
      two places. */
  ghost predicate RepeatsOnlyAtTheEnd(e: seq<Record>) {
    forall i :: 0 <= i < |e| - 1 && e[i] == e[i + 1] ==> i == |e| - 2 && IsTerminal(e[i])
  }

  /** A terminal record appears only in the last two places, and a sequence
      ending on one ends on it twice. */
  ghost predicate TerminalOnlyLast(e: seq<Record>) {
    && (forall i :: 0 <= i < |e| && IsTerminal(e[i]) ==> |e| - 2 <= i)
    && (e != [] && IsTerminal(e[|e| - 1]) ==> |e| >= 2 && e[|e| - 2] == e[|e| - 1])
  }

  /** `r` is the job's record at some poll from `k` on. */
  ghost predicate WasPolled(snaps: seq<Option<Record>>, k: nat, r: Record) {
    exists j :: k <= j < MaxWait && Poll(snaps, j) == Some(r)
  }

  /** Every record of `e` is the job's record at some poll from `k` on. */
  ghost predicate AllPolled(snaps: seq<Option<Record>>, k: nat, e: seq<Record>) {
    forall i :: 0 <= i < |e| ==> WasPolled(snaps, k, e[i])
  }

  /** The first record yielded after `last` differs from it. */
  lemma {:induction false} FirstYieldDiffers(snaps: seq<Option<Record>>, k: nat, last: Record)
    requires !IsTerminal(last)
    ensures StreamFrom(snaps, k, Some(last)).emitted != [] ==> StreamFrom(snaps, k, Some(last)).emitted[0] != last
    decreases MaxWait - k
  {
    if k < MaxWait {
      var data := Poll(snaps, k);
      if !Present(data) {
        FirstYieldDiffers(snaps, k + 1, last);
      } else if data.value == last {
        FirstYieldDiffers(snaps, k + 1, last);
      }
    }
  }

  /** No record is yielded twice in a row, except the terminal record, which
      is yielded twice at the very end. */
  lemma {:induction false} NoRepeatsButTheEnd(snaps: seq<Option<Record>>, k: nat, last: Option<Record>)
    requires last.None? || !IsTerminal(last.value)
    ensures RepeatsOnlyAtTheEnd(StreamFrom(snaps, k, last).emitted)
    decreases MaxWait - k
  {
    if k < MaxWait {
      var data := Poll(snaps, k);
      if !Present(data) {
        NoRepeatsButTheEnd(snaps, k + 1, last);
        assert StreamFrom(snaps, k, last).emitted == StreamFrom(snaps, k + 1, last).emitted;
      } else if !IsTerminal(data.value) {
        var r := data.value;
        var rest := StreamFrom(snaps, k + 1, Some(r)).emitted;
        NoRepeatsButTheEnd(snaps, k + 1, Some(r));
        FirstYieldDiffers(snaps, k + 1, r);
        if last != Some(r) {
          PrependKeepsRepeats(r, rest);
          assert StreamFrom(snaps, k, last).emitted == [r] + rest;
        } else {
          assert StreamFrom(snaps, k, last).emitted == rest;
        }
      } else {
        assert last != Some(data.value);
        assert StreamFrom(snaps, k, last).emitted == [data.value, data.value];
      }
    }
  }

  /** Putting a non-terminal record in front of a sequence that does not start
      with it keeps repeats at the end only. */
  lemma PrependKeepsRepeats(r: Record, rest: seq<Record>)
    requires !IsTerminal(r) && RepeatsOnlyAtTheEnd(rest)
    requires rest != [] ==> rest[0] != r
    ensures RepeatsOnlyAtTheEnd([r] + rest)
  {
    var e := [r] + rest;
    assert forall i :: 1 <= i < |e| ==> e[i] == rest[i - 1];
    assert |e| >= 2 ==> e[0] != e[1];
  }

  /** A terminal record is yielded only in the last two places, and whenever
      the stream ends on one it yields it twice. */
  lemma {:induction false} TerminalOnlyAtTheEnd(snaps: seq<Option<Record>>, k: nat, last: Option<Record>)
    requires last.None? || !IsTerminal(last.value)
    ensures TerminalOnlyLast(StreamFrom(snaps, k, last).emitted)
    decreases MaxWait - k
  {
    if k < MaxWait {
      var data := Poll(snaps, k);
      if !Present(data) {
        TerminalOnlyAtTheEnd(snaps, k + 1, last);
        assert StreamFrom(snaps, k, last).emitted == StreamFrom(snaps, k + 1, last).emitted;
      } else if !IsTerminal(data.value) {
        var r := data.value;
        var rest := StreamFrom(snaps, k + 1, Some(r)).emitted;
        TerminalOnlyAtTheEnd(snaps, k + 1, Some(r));
        if last != Some(r) {
          PrependKeepsTerminalLast(r, rest);
          assert StreamFrom(snaps, k, last).emitted == [r] + rest;
        } else {
          assert StreamFrom(snaps, k, last).emitted == rest;
        }
      } else {
        assert last != Some(data.value);
        assert StreamFrom(snaps, k, last).emitted == [data.value, data.value];
      }
    }
  }

  /** Putting a non-terminal record in front keeps terminal records last. */
  lemma PrependKeepsTerminalLast(r: Record, rest: seq<Record>)
    requires !IsTerminal(r) && TerminalOnlyLast(rest)
    ensures TerminalOnlyLast([r] + rest)
  {
    var e := [r] + rest;
    assert forall i :: 1 <= i < |e| ==> e[i] == rest[i - 1];
  }

  /** Once the table holds a terminal record at some poll before the limit,
      the stream ends on a terminal record. */
  lemma {:induction false} ReachesTheEnd(snaps: seq<Option<Record>>, k: nat, last: Option<Record>, j: nat)
    requires k <= j < MaxWait && TerminalAt(snaps, j)
    requires last.None? || !IsTerminal(last.value)
    ensures EndsTerminal(StreamFrom(snaps, k, last).emitted)
    decreases j - k
  {
    var data := Poll(snaps, k);
    if !Present(data) {
      ReachesTheEnd(snaps, k + 1, last, j);
    } else {
      var r := data.value;
      var head := if last != Some(r) then [r] else [];
      if IsTerminal(r) {
        EndsTerminalAppend(head, [r]);
      } else {
        ReachesTheEnd(snaps, k + 1, Some(r), j);
        EndsTerminalAppend(head, StreamFrom(snaps, k + 1, Some(r)).emitted);
      }
    }
  }

  /** The sequence is not empty and its last record is terminal. */
  predicate EndsTerminal(e: seq<Record>) {
    e != [] && IsTerminal(e[|e| - 1])
  }

  lemma EndsTerminalAppend(head: seq<Record>, rest: seq<Record>)
    requires EndsTerminal(rest)
    ensures EndsTerminal(head + rest)
  {
    assert (head + rest)[|head + rest| - 1] == rest[|rest| - 1];
  }

  /** Without a terminal record the stream polls until the limit. */
  lemma {:induction false} TimesOut(snaps: seq<Option<Record>>, k: nat, last: Option<Record>)
    requires k <= MaxWait
    requires forall j :: k <= j < MaxWait ==> !TerminalAt(snaps, j)
    ensures StreamFrom(snaps, k, last).polls == MaxWait - k
    decreases MaxWait - k
  {
    if k < MaxWait {
      assert !TerminalAt(snaps, k);
      var data := Poll(snaps, k);
      TimesOut(snaps, k + 1, if Present(data) then Some(data.value) else last);
    }
  }

  /** Every record yielded was the job's record at some poll. */
  lemma {:induction false} YieldsPolledRecords(snaps: seq<Option<Record>>, k: nat, last: Option<Record>)
    ensures AllPolled(snaps, k, StreamFrom(snaps, k, last).emitted)
    decreases MaxWait - k
  {
    if k < MaxWait {
      var data := Poll(snaps, k);
      if !Present(data) {
        YieldsPolledRecords(snaps, k + 1, last);
        PolledLater(snaps, k, k + 1, StreamFrom(snaps, k + 1, last).emitted);
      } else if !IsTerminal(data.value) {
        var r := data.value;
        YieldsPolledRecords(snaps, k + 1, Some(r));
        var head := if last != Some(r) then [r] else [];
        PolledPrepend(snaps, k, r, head, StreamFrom(snaps, k + 1, Some(r)).emitted);
      } else {
        var r := data.value;
        var head := if last != Some(r) then [r] else [];
        PolledPrepend(snaps, k, r, head + [r], []);
        assert head + [r] + [] == head + [r];
      }
    }
  }

  /** Records polled from poll `later` on were polled from any earlier poll
      on. */
  lemma PolledLater(snaps: seq<Option<Record>>, k: nat, later: nat, e: seq<Record>)
    requires k <= later && AllPolled(snaps, later, e)
    ensures AllPolled(snaps, k, e)
  {
    forall i | 0 <= i < |e| ensures WasPolled(snaps, k, e[i]) {
      assert WasPolled(snaps, later, e[i]);
      var j :| later <= j < MaxWait && Poll(snaps, j) == Some(e[i]);
    }
  }

  /** Copies of the record polled at `k` put before records polled after
      `k` give records polled from `k` on. */
  lemma PolledPrepend(snaps: seq<Option<Record>>, k: nat, r: Record, head: seq<Record>, rest: seq<Record>)
    requires k < MaxWait && Poll(snaps, k) == Some(r)
    requires forall i :: 0 <= i < |head| ==> head[i] == r
    requires AllPolled(snaps, k + 1, rest)
    ensures AllPolled(snaps, k, head + rest)
  {
    var e := head + rest;
    forall i | 0 <= i < |e| ensures WasPolled(snaps, k, e[i]) {
      if i < |head| {
        assert Poll(snaps, k) == Some(e[i]);
      } else {
        assert e[i] == rest[i - |head|] && WasPolled(snaps, k + 1, rest[i - |head|]);
        var j :| k + 1 <= j < MaxWait && Poll(snaps, j) == Some(rest[i - |head|]);
      }
    }
  }

  /** What the client of the stream can rely on. */
  lemma StreamGuarantees(snaps: seq<Option<Record>>)
    ensures var run := Stream(snaps);
      && run.polls <= MaxWait
      && |run.emitted| <= MaxWait + 1
      && RepeatsOnlyAtTheEnd(run.emitted)
      && TerminalOnlyLast(run.emitted)
      && AllPolled(snaps, 0, run.emitted)
    ensures (exists j :: 0 <= j < MaxWait && TerminalAt(snaps, j)) ==> EndsTerminal(Stream(snaps).emitted)
    ensures (forall j :: 0 <= j < MaxWait ==> !TerminalAt(snaps, j)) ==> Stream(snaps).polls == MaxWait
  {
    assert Stream(snaps) == StreamFrom(snaps, 0, None);
    NoRepeatsButTheEnd(snaps, 0, None);
    TerminalOnlyAtTheEnd(snaps, 0, None);
    YieldsPolledRecords(snaps, 0, None);
    if j :| 0 <= j < MaxWait && TerminalAt(snaps, j) {
      ReachesTheEnd(snaps, 0, None, j);
    }
    if forall j :: 0 <= j < MaxWait ==> !TerminalAt(snaps, j) {
      TimesOut(snaps, 0, None);
    }
  }

  /** The answer of `check_progress`: an HTTP status and a JSON body. */
  datatype Lookup = Lookup(status: nat, body: Record)

  const NotFoundRecord: Record := map["status" := Str("not_found")]

  /** `check_progress`: the job's record when it has a non-empty one, a 404
      `not_found` record otherwise. */
  function CheckProgress(jobs: map<string, Record>, id: string): (r: Lookup)
    ensures r.status == 200 <==> id in jobs && jobs[id] != map[]
    ensures r.status == 200 ==> r.body == jobs[id]
    ensures r.status != 200 ==> r == Lookup(404, NotFoundRecord)
  {
    if id in jobs && jobs[id] != map[] then Lookup(200, jobs[id]) else Lookup(404, NotFoundRecord)
  }

  /** A lookup sees the record last written for its job, and a write for one
      job leaves the lookups of every other job as they were. */
  lemma LookupSeesLastWrite(jobs: map<string, Record>, id: string, r: Record, other: string)
    requires r != map[] && other != id
    ensures CheckProgress(jobs[id := r], id) == Lookup(200, r)
    ensures CheckProgress(jobs[id := r], other) == CheckProgress(jobs, other)
  {
  }
}
