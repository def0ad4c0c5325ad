/** The scroll-driven playback trigger of the multiple-animation page:
    the start-up script, the scroll button's click handler and the
    intersection observer's callback, around the page-wide `onceFlag`. */
module Trigger {
  import opened Player

  /** Everything the trigger has done so far: the flag, whether the section
      is being observed, and every play command issued, oldest first. */
  datatype State = State(onceFlag: bool, observing: bool, log: seq<Command>)

  /** The page right after load: flag down, nothing observed, nothing played. */
  const INITIAL := State(false, false, [])

  /** The events that run the trigger's code. */
  datatype Event =
    | Startup                                    // `project.ready` has resolved
    | Click                                      // the scroll button was pressed
    | Intersect(ready: bool, entries: seq<bool>) // observer callback: `project.isReady`, then `isIntersecting` per entry

  /** An event the code can handle without failing: the callback reads
      `entries[0]` only once the project is ready. */
  predicate Deliverable(e: Event) {
    e.Intersect? && e.ready ==> |e.entries| > 0
  }

  predicate AllDeliverable(es: seq<Event>) {
    forall i :: 0 <= i < |es| ==> Deliverable(es[i])
  }

  /** The section entered the trigger band while the project was ready. */
  predicate EntersBand(e: Event) {
    e.Intersect? && e.ready && |e.entries| > 0 && e.entries[0]
  }

  /** The section left the trigger band while the project was ready. */
  predicate LeavesBand(e: Event) {
    e.Intersect? && e.ready && |e.entries| > 0 && !e.entries[0]
  }

  /** The effect of one event. */
  function Step(s: State, e: Event): (r: State)
    requires Deliverable(e)
    ensures s.log <= r.log && |r.log| <= |s.log| + 2
    ensures s.onceFlag ==> r.onceFlag
    ensures r.onceFlag ==> s.onceFlag || EntersBand(e)
  {
    match e
    case Startup =>
      s.(observing := true, log := s.log + [KV_FORWARD, TEXT_LOOP])
    case Click =>
      s.(log := s.log + [SCROLL_FORWARD])
    case Intersect(ready, entries) =>
      if !ready then s
      else if entries[0] then s.(onceFlag := true, log := s.log + [SCROLL_FORWARD, BUTTON_FORWARD])
      else if !s.onceFlag then s
      else s.(log := s.log + [SCROLL_BACKWARD, BUTTON_BACKWARD])
  }

  /** The effect of a trace of events, the last one handled last. The log
      only grows, and once the flag is up no later event takes it down. */
  function Run(s: State, es: seq<Event>): (r: State)
    requires AllDeliverable(es)
    ensures s.log <= r.log
    ensures s.onceFlag ==> r.onceFlag
    decreases |es|
  {
    if es == [] then s else Step(Run(s, es[..|es| - 1]), es[|es| - 1])
  }

  /** The page's module-level state, with the player's record of calls. */
  class TriggerController {
    var onceFlag: bool
    var observing: bool
    var log: seq<Command>

    ghost function Snapshot(): State
      reads this
    {
      State(onceFlag, observing, log)
    }

    constructor ()
      ensures Snapshot() == INITIAL
    {
      onceFlag := false;
      observing := false;
      log := [];
    }

    /** `sheet.sequence.play(options)`: the player receives one command. */
    method PlaySheet(sheet: Sheet, options: PlayOptions)
      modifies this
      ensures log == old(log) + [Play(sheet, options)]
      ensures onceFlag == old(onceFlag) && observing == old(observing)
    {
      log := log + [Play(sheet, options)];
    }

    /** The start-up script, run once the project is ready: the key visual
        once, then the endless text loop, then observation of the section. */
    method Start()
      modifies this
      ensures Snapshot() == Step(old(Snapshot()), Startup)
      ensures log == old(log) + [KV_FORWARD, TEXT_LOOP]
      ensures observing && onceFlag == old(onceFlag)
    {
      PlaySheet(KvAnimation, NO_OPTIONS);
      PlaySheet(TextLoopAnimation, ENDLESS_SWING);
      observing := true;
    }

    /** The scroll button's click handler. */
    method OnClick()
      modifies this
      ensures Snapshot() == Step(old(Snapshot()), Click)
      ensures log == old(log) + [SCROLL_FORWARD]
      ensures onceFlag == old(onceFlag) && observing == old(observing)
    {
      PlaySheet(ScrollAnimation, NO_OPTIONS);
    }

    /** The intersection observer's callback. */
    method OnIntersect(ready: bool, entries: seq<bool>)
      requires ready ==> |entries| > 0
      modifies this
      ensures Snapshot() == Step(old(Snapshot()), Intersect(ready, entries))
      ensures observing == old(observing)
      ensures !ready ==> log == old(log) && onceFlag == old(onceFlag)
      ensures ready && entries[0] ==> log == old(log) + [SCROLL_FORWARD, BUTTON_FORWARD] && onceFlag
      ensures ready && !entries[0] && !old(onceFlag) ==> log == old(log) && !onceFlag
      ensures ready && !entries[0] && old(onceFlag) ==>
                log == old(log) + [SCROLL_BACKWARD, BUTTON_BACKWARD] && onceFlag
    {
      if !ready {
        return;
      }
      if entries[0] {
        PlaySheet(ScrollAnimation, NO_OPTIONS);
        PlaySheet(ScrollButtonAnimation, NO_OPTIONS);
        onceFlag := true;
      } else {
        if !onceFlag {
          return;
        }
        PlaySheet(ScrollAnimation, REVERSE_ONCE);
        PlaySheet(ScrollButtonAnimation, REVERSE_ONCE);
      }
    }
  }
}
