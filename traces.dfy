/** What the trigger promises over whole traces of events. */
module TriggerTraces {
  import opened Player
  import opened Trigger

  /** Appending one event to a trace applies one more step. */
  lemma RunSnoc(s: State, es: seq<Event>, e: Event)
    requires AllDeliverable(es + [e])
    ensures AllDeliverable(es)
    ensures Run(s, es + [e]) == Step(Run(s, es), e)
  {
  }

  /** The state after the first k + 1 events is one step past the state after k. */
  lemma RunPrefix(s: State, es: seq<Event>, k: nat)
    requires AllDeliverable(es) && k < |es|
    ensures AllDeliverable(es[..k]) && Deliverable(es[k])
    ensures Run(s, es[..k + 1]) == Step(Run(s, es[..k]), es[k])
  {
    assert es[..k + 1] == es[..k] + [es[k]];
    RunSnoc(s, es[..k], es[k]);
  }

  /** The flag is up after a trace exactly when it was up before or the
      section entered the band during the trace while the project was ready. */
  lemma {:induction false} OnceFlagRecordsEntry(s: State, es: seq<Event>)
    requires AllDeliverable(es)
    ensures Run(s, es).onceFlag <==> s.onceFlag || exists i :: 0 <= i < |es| && EntersBand(es[i])
    decreases |es|
  {
    if es != [] {
      var n := |es| - 1;
      OnceFlagRecordsEntry(s, es[..n]);
      assert forall i :: 0 <= i < n ==> es[..n][i] == es[i];
      if EntersBand(es[n]) {
        assert Run(s, es).onceFlag;
      }
    }
  }

  /** A leave event after an entry event reverses both scroll sheets. */
  lemma ReverseOnEveryLaterLeave(s: State, es: seq<Event>, j: nat, k: nat)
    requires AllDeliverable(es) && j < k < |es|
    requires EntersBand(es[j]) && LeavesBand(es[k])
    ensures Run(s, es[..k + 1]).log == Run(s, es[..k]).log + [SCROLL_BACKWARD, BUTTON_BACKWARD]
  {
    RunPrefix(s, es, k);
    OnceFlagRecordsEntry(s, es[..k]);
    assert es[..k][j] == es[j];
  }

  /** Starting from a fresh page, a leave event before any entry issues nothing. */
  lemma SilentLeaveBeforeFirstEntry(es: seq<Event>, k: nat)
    requires AllDeliverable(es) && k < |es|
    requires forall i :: 0 <= i < k ==> !EntersBand(es[i])
    requires LeavesBand(es[k])
    ensures Run(INITIAL, es[..k + 1]) == Run(INITIAL, es[..k])
  {
    RunPrefix(INITIAL, es, k);
    OnceFlagRecordsEntry(INITIAL, es[..k]);
    assert forall i :: 0 <= i < k ==> es[..k][i] == es[i];
  }

  /** Wherever it falls in a trace, a click plays the scroll sheet forward
      once, whatever the flag and the readiness, and leaves the flag alone. */
  lemma ClickAlwaysPlaysScroll(s: State, es: seq<Event>, k: nat)
    requires AllDeliverable(es) && k < |es| && es[k] == Click
    ensures Run(s, es[..k + 1]).log == Run(s, es[..k]).log + [SCROLL_FORWARD]
    ensures Run(s, es[..k + 1]).onceFlag == Run(s, es[..k]).onceFlag
  {
    RunPrefix(s, es, k);
  }

  /** The first forward play of the intersection callback: both scroll sheets,
      one right after the other, at position j of the log. */
  predicate CallbackForwardAt(log: seq<Command>, j: int) {
    0 <= j && j + 1 < |log| && log[j] == SCROLL_FORWARD && log[j + 1] == BUTTON_FORWARD
  }

  /** Every reverse command in the log comes after a forward play of the callback. */
  predicate ReverseGuarded(log: seq<Command>) {
    forall i :: 0 <= i < |log| && IsReverse(log[i]) ==>
      exists j :: 0 <= j < i && CallbackForwardAt(log, j)
  }

  /** The invariant the trigger keeps: a raised flag is backed by a
      callback forward play, and no reverse command is unguarded. */
  predicate Guarded(s: State) {
    (s.onceFlag ==> exists j :: 0 <= j < |s.log| && CallbackForwardAt(s.log, j)) && ReverseGuarded(s.log)
  }

  lemma CallbackForwardKept(log: seq<Command>, more: seq<Command>, j: int)
    requires CallbackForwardAt(log, j)
    ensures CallbackForwardAt(log + more, j)
  {
  }

  lemma StepGuarded(s: State, e: Event)
    requires Deliverable(e) && Guarded(s)
    ensures Guarded(Step(s, e))
  {
    var r := Step(s, e);
    var n := |s.log|;
    var more := r.log[n..];
    assert r.log == s.log + more;
    assert |more| <= 2;
    forall j | CallbackForwardAt(s.log, j)
      ensures CallbackForwardAt(r.log, j)
    {
      CallbackForwardKept(s.log, more, j);
    }
    if EntersBand(e) {
      assert more == [SCROLL_FORWARD, BUTTON_FORWARD];
      assert CallbackForwardAt(r.log, n);
    }
    forall i | 0 <= i < |r.log| && IsReverse(r.log[i])
      ensures exists j :: 0 <= j < i && CallbackForwardAt(r.log, j)
    {
      if i < n {
        assert r.log[i] == s.log[i];
        var j :| 0 <= j < i && CallbackForwardAt(s.log, j);
        assert CallbackForwardAt(r.log, j);
      } else {
        assert IsReverse(more[i - n]);
        assert LeavesBand(e) && s.onceFlag;
        var j :| 0 <= j < |s.log| && CallbackForwardAt(s.log, j);
        assert CallbackForwardAt(r.log, j);
      }
    }
  }

  lemma {:induction false} RunGuarded(s: State, es: seq<Event>)
    requires AllDeliverable(es) && Guarded(s)
    ensures Guarded(Run(s, es))
    decreases |es|
  {
    if es != [] {
      var n := |es| - 1;
      RunGuarded(s, es[..n]);
      StepGuarded(Run(s, es[..n]), es[n]);
    }
  }

  /** On a fresh page, for every trace of events, no reverse command appears
      in the log before the intersection callback's first forward play. */
  lemma NoReverseBeforeForward(es: seq<Event>)
    requires AllDeliverable(es)
    ensures ReverseGuarded(Run(INITIAL, es).log)
  {
    RunGuarded(INITIAL, es);
  }

  /** An intersection event the project was not ready for. */
  predicate Unready(e: Event) {
    e.Intersect? && !e.ready
  }

  /** The trace without the intersection events that came too early. */
  function DropUnready(es: seq<Event>): (r: seq<Event>)
    ensures |r| <= |es|
    ensures forall i :: 0 <= i < |r| ==> !Unready(r[i])
    decreases |es|
  {
    if es == [] then []
    else
      var n := |es| - 1;
      DropUnready(es[..n]) + if Unready(es[n]) then [] else [es[n]]
  }

  /** Events that arrive before the project is ready are discarded, not
      queued: leaving them out of the trace changes nothing. */
  lemma {:induction false} UnreadyEventsDiscarded(s: State, es: seq<Event>)
    requires AllDeliverable(es)
    ensures AllDeliverable(DropUnready(es))
    ensures Run(s, DropUnready(es)) == Run(s, es)
    decreases |es|
  {
    if es != [] {
      var n := |es| - 1;
      var front := DropUnready(es[..n]);
      RunPrefix(s, es, n);
      assert es[..n + 1] == es;
      UnreadyEventsDiscarded(s, es[..n]);
      if !Unready(es[n]) {
        var d := front + [es[n]];
        assert DropUnready(es) == d;
        forall i | 0 <= i < |d| ensures Deliverable(d[i]) {
          if i < |front| {
            assert d[i] == front[i];
          }
        }
        RunSnoc(s, front, es[n]);
      } else {
        assert DropUnready(es) == front;
      }
    }
  }

  /** Two events the code cannot tell apart: equal, or intersection events
      with the same readiness whose first entries agree when it is read. */
  predicate SameDecision(a: Event, b: Event) {
    a == b ||
    (a.Intersect? && b.Intersect? && a.ready == b.ready &&
     (a.ready ==> |a.entries| > 0 && |b.entries| > 0 && a.entries[0] == b.entries[0]))
  }

  /** Only the first entry of each batch matters: traces whose events agree
      on it lead to the same flag and the same log. */
  lemma {:induction false} FirstEntryDecides(s: State, es1: seq<Event>, es2: seq<Event>)
    requires AllDeliverable(es1) && AllDeliverable(es2) && |es1| == |es2|
    requires forall i :: 0 <= i < |es1| ==> SameDecision(es1[i], es2[i])
    ensures Run(s, es1) == Run(s, es2)
    decreases |es1|
  {
    if es1 != [] {
      var n := |es1| - 1;
      assert forall i :: 0 <= i < n ==> es1[..n][i] == es1[i] && es2[..n][i] == es2[i];
      FirstEntryDecides(s, es1[..n], es2[..n]);
    }
  }

  /** Load the page, leave the band before any scroll, enter it, leave again. */
  lemma ScrollDownAndBack()
    ensures Run(INITIAL, [Startup, Intersect(true, [false]), Intersect(true, [true]), Intersect(true, [false])])
         == State(true, true, [KV_FORWARD, TEXT_LOOP, SCROLL_FORWARD, BUTTON_FORWARD, SCROLL_BACKWARD, BUTTON_BACKWARD])
  {
    var leave, enter := Intersect(true, [false]), Intersect(true, [true]);
    var e1, e2, e3 := [Startup], [Startup, leave], [Startup, leave, enter];
    assert e1 == [] + [Startup];
    RunSnoc(INITIAL, [], Startup);
    assert Run(INITIAL, e1) == State(false, true, [KV_FORWARD, TEXT_LOOP]);
    assert e2 == e1 + [leave];
    RunSnoc(INITIAL, e1, leave);
    assert Run(INITIAL, e2) == State(false, true, [KV_FORWARD, TEXT_LOOP]);
    assert e3 == e2 + [enter];
    RunSnoc(INITIAL, e2, enter);
    assert Run(INITIAL, e3) == State(true, true, [KV_FORWARD, TEXT_LOOP, SCROLL_FORWARD, BUTTON_FORWARD]);
    assert [Startup, leave, enter, leave] == e3 + [leave];
    RunSnoc(INITIAL, e3, leave);
  }
}
