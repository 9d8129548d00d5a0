// Which event is handled next, in terms of the record alone: ties between due times are broken by
// who was scheduled first.
module ReplayOrder {
  import opened Models
  import opened ReplayLog
  import opened ReplaySpec
  import opened Replay
  import opened SingleCopy

  // Where in the record the latest request of a session is.
  function LatestAt(log: Log, s: nat): (i: nat)
    requires Progress(log, s) > 0
    ensures i < |log| && log[i].s == s
  {
    if log[|log| - 1].s == s then |log| - 1 else LatestAt(log[..|log| - 1], s)
  }

  // When a session's next turn was scheduled: all arrivals in trace order before the start, any other
  // turn when the one before it was served.
  function ScheduledAt(traces: seq<SessionTrace>, log: Log, s: nat): nat {
    if Progress(log, s) == 0 then s else |traces| + LatestAt(log, s)
  }

  // The queue lists events as they were scheduled, and seqNo says so.
  ghost predicate InOrder(traces: seq<SessionTrace>, log: Log, queue: seq<Event>, seqNo: nat) {
    && (forall i :: 0 <= i < |queue| ==>
          queue[i].seqNo < seqNo && ScheduledAt(traces, log, queue[i].s) < |traces| + |log|)
    && (forall i, j :: 0 <= i < j < |queue| ==>
          && queue[i].seqNo < queue[j].seqNo
          && ScheduledAt(traces, log, queue[i].s) < ScheduledAt(traces, log, queue[j].s))
  }

  lemma ScheduledAppend(traces: seq<SessionTrace>, log: Log, x: Served, s: nat)
    ensures ScheduledAt(traces, log + [x], s)
         == if x.s == s then |traces| + |log| else ScheduledAt(traces, log, s)
  {
    ProgressAppend(log, x, s);
    assert (log + [x])[..|log|] == log;
  }

  lemma InOrderRest(traces: seq<SessionTrace>, log: Log, queue: seq<Event>, seqNo: nat, k: nat)
    requires InOrder(traces, log, queue, seqNo) && k < |queue|
    ensures InOrder(traces, log, queue[..k] + queue[k + 1..], seqNo)
  {
    var rest := queue[..k] + queue[k + 1..];
    assert forall i :: 0 <= i < |rest| ==> rest[i] == queue[if i < k then i else i + 1];
  }

  lemma InOrderServed(traces: seq<SessionTrace>, log: Log, x: Served, rest: seq<Event>, seqNo: nat)
    requires InOrder(traces, log, rest, seqNo) && forall i :: 0 <= i < |rest| ==> rest[i].s != x.s
    ensures InOrder(traces, log + [x], rest, seqNo)
  {
    forall i | 0 <= i < |rest|
      ensures ScheduledAt(traces, log + [x], rest[i].s) == ScheduledAt(traces, log, rest[i].s)
    {
      ScheduledAppend(traces, log, x, rest[i].s);
    }
  }

  lemma InOrderMore(traces: seq<SessionTrace>, log: Log, x: Served, rest: seq<Event>, e: Event)
    requires InOrder(traces, log + [x], rest, e.seqNo) && e.s == x.s
    requires forall i :: 0 <= i < |rest| ==> ScheduledAt(traces, log + [x], rest[i].s) < |traces| + |log|
    ensures InOrder(traces, log + [x], rest + [e], e.seqNo + 1)
  {
    ScheduledAppend(traces, log, x, e.s);
  }

  lemma OthersRemain(queue: seq<Event>, k: nat, s: nat)
    requires k < |queue| && queue[k].s == s && forall i, j :: 0 <= i < j < |queue| ==> queue[i].s != queue[j].s
    ensures var rest := queue[..k] + queue[k + 1..];
            forall i :: 0 <= i < |rest| ==> rest[i].s != s
  {
    RestEvents(queue, k);
  }

  lemma OrderStepCore(traces: seq<SessionTrace>, log: Log, queue: seq<Event>, seqNo: nat, k: nat, x: Served,
                      more: seq<Event>)
    requires InOrder(traces, log, queue, seqNo) && k < |queue| && queue[k].s == x.s
    requires forall i, j :: 0 <= i < j < |queue| ==> queue[i].s != queue[j].s
    requires more == [] || (|more| == 1 && more[0].s == x.s && more[0].seqNo == seqNo)
    ensures InOrder(traces, log + [x], queue[..k] + queue[k + 1..] + more, seqNo + |more|)
  {
    var rest := queue[..k] + queue[k + 1..];
    InOrderRest(traces, log, queue, seqNo, k);
    OthersRemain(queue, k, x.s);
    InOrderServed(traces, log, x, rest, seqNo);
    if more == [] {
      assert rest + more == rest;
    } else {
      forall i | 0 <= i < |rest| ensures ScheduledAt(traces, log + [x], rest[i].s) < |traces| + |log| {
        ScheduledAppend(traces, log, x, rest[i].s);
      }
      assert more == [more[0]];
      InOrderMore(traces, log, x, rest, more[0]);
    }
  }

  lemma OrderStep(setup: Setup, w: World, w': World)
    requires setup.Valid() && Ready(setup, w) && QueueOk(setup.traces, w.log, w.queue) && w' == Step(setup, w)
    requires InOrder(setup.traces, w.log, w.queue, w.seqNo)
    ensures InOrder(setup.traces, w'.log, w'.queue, w'.seqNo)
  {
    var x := TheRecord(setup, w);
    OrderStepCore(setup.traces, w.log, w.queue, w.seqNo, First(w.queue), x, NextEvents(setup, w, x.Done()));
  }

  lemma InitInOrder(setup: Setup)
    ensures InOrder(setup.traces, [], Init(setup).queue, Init(setup).seqNo)
  {
  }

  lemma {:induction false} AlwaysInOrder(setup: Setup, ws: seq<World>, i: nat)
    requires IsRun(setup, ws) && i < |ws|
    ensures InOrder(setup.traces, ws[i].log, ws[i].queue, ws[i].seqNo)
  {
    if i == 0 {
      InitInOrder(setup);
      assert ws[0] == Init(setup);
    } else {
      AlwaysInOrder(setup, ws, i - 1);
      RunInv(setup, ws, i - 1);
      StepAt(setup, ws, i - 1);
      OrderStep(setup, ws[i - 1], ws[i]);
    }
  }

  lemma FirstDue(traces: seq<SessionTrace>, log: Log, queue: seq<Event>, seqNo: nat, s: nat)
    requires QueueOk(traces, log, queue) && InOrder(traces, log, queue, seqNo) && queue != []
    requires s < |traces| && Progress(log, s) < |traces[s].turns| && s != queue[First(queue)].s
    ensures var e := queue[First(queue)];
            && EventOk(traces, log, e)
            && (e.at < DueAt(traces, log, s)
                || (e.at == DueAt(traces, log, s) && ScheduledAt(traces, log, e.s) < ScheduledAt(traces, log, s)))
  {
    var k := First(queue);
    assert Scheduled(queue, s);
    var j :| 0 <= j < |queue| && queue[j].s == s;
    assert !Earlier(queue[j], queue[k]) && EventOk(traces, log, queue[j]) && EventOk(traces, log, queue[k]);
    if j < k {
      assert queue[j].seqNo < queue[k].seqNo;
    }
  }

  /** The next request of a run is determined by its record: of all sessions that are not finished it
      serves the one due first, and of those due at the same time the one that was scheduled first. */
  lemma NextIsFirstDue(setup: Setup, ws: seq<World>, i: nat, s: nat)
    requires IsRun(setup, ws) && i + 1 < |ws| && s < |setup.traces|
    ensures i < |End(ws).log|
    ensures var traces, log, x := setup.traces, ws[i].log, End(ws).log[i];
            Progress(log, s) < |traces[s].turns| && s != x.s ==>
              || x.now < DueAt(traces, log, s)
              || (x.now == DueAt(traces, log, s) && ScheduledAt(traces, log, x.s) < ScheduledAt(traces, log, s))
  {
    RecordAt(setup, ws, i);
    RunInv(setup, ws, i);
    AlwaysInOrder(setup, ws, i);
    var log, x := ws[i].log, End(ws).log[i];
    if Progress(log, s) < |setup.traces[s].turns| && s != x.s {
      FirstDue(setup.traces, log, ws[i].queue, ws[i].seqNo, s);
    }
  }

  /** Sessions that arrive at the same time start in the order of the trace. */
  lemma ArrivalsInTraceOrder(setup: Setup, ws: seq<World>, i: nat, s: nat)
    requires IsRun(setup, ws) && i + 1 < |ws| && s < |setup.traces| && setup.traces[s].turns != []
    ensures i < |End(ws).log| && End(ws).log[i].s < |setup.traces|
    ensures var x := End(ws).log[i];
            x.t == 0 && Progress(ws[i].log, s) == 0 && setup.traces[x.s].arrival == setup.traces[s].arrival ==>
              x.s <= s
  {
    RecordAt(setup, ws, i);
    RunInv(setup, ws, i);
    InvReady(setup, ws[i]);
    NextIsFirstDue(setup, ws, i, s);
  }
}
