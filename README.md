# Scroll-driven playback trigger of the multiple-animation page

This project models the playback logic in `src/multiple-animation/main.js`. The page drives four animation sheets of one project ("KV Animation", "Scroll Animation", "Scroll Button Animation" and "Text Loop Animation") through the tool's sequence player. Three pieces of code send play commands:

- the start-up script: once the project is ready, it plays the key visual once, then loops the text animation without end, then starts observing the about section;
- the scroll button's click handler: it always plays "Scroll Animation" forward;
- the intersection observer's callback: it ignores events while the project is not ready. When the section enters the trigger band, it plays both scroll sheets forward and raises the page-wide `onceFlag`. When the section leaves the band, it plays both sheets in reverse, but only once the flag has been raised.

The sequence player is external. It is modelled as a sink: `Player.Command` records one `sheet.sequence.play(options)` call, and the trigger keeps the list of commands issued so far. The intersection geometry reduces to one `isIntersecting` boolean per entry. Readiness (`project.isReady`) is an input carried by each observer event.

Files:

- `player.dfy` (module `Player`): the sheets, directions, play options and commands.
- `trigger.dfy` (module `Trigger`): the specification functions `Step` and `Run` over a value `State`, and the class `TriggerController`. The class holds the page's mutable state (`onceFlag`, whether observation has begun, and the command log). Its methods mirror the three handlers statement by statement, and each method is proved equal to `Step`.
- `traces.dfy` (module `TriggerTraces`): properties over arbitrary traces of events.

The `await` at `main.js:23` is the point where `Start` becomes callable. The `await` at `main.js:26` appears only as the order of the two start-up commands in the log.

A remark on the code: observation begins only after `project.ready` has resolved (`main.js:23-36`). So in practice the callback's readiness check (`main.js:52-54`) never fires. The model keeps readiness as a free input, as the code does, and proves that unready events are discarded.

## Model

| member | source | states |
|---|---|---|
| Trigger.Step | src/multiple-animation/main.js:21-69 | One event only ever appends to the log, at most two commands. A raised flag stays raised. The flag can only rise on a ready event whose first entry is intersecting. |
| Trigger.Run | src/multiple-animation/main.js:45-69 | Over any trace, the log only grows (earlier commands are never withdrawn). Once `onceFlag` is true, it stays true for every later event. |
| Trigger.TriggerController.constructor | src/multiple-animation/main.js:45 | The page starts with the flag down, no observation and no command issued. |
| Trigger.TriggerController.PlaySheet | src/multiple-animation/main.js:57-58 | A `sequence.play` call appends exactly that command and changes nothing else. |
| Trigger.TriggerController.Start | src/multiple-animation/main.js:21-37 | Appends the key-visual play with no options, then the text-loop play with `iterationCount: Infinity`, `direction: "alternate"` and `rate: 0.8`. Then observation begins. The flag is unchanged. The method equals `Step` on `Startup`. |
| Trigger.TriggerController.OnClick | src/multiple-animation/main.js:41-43 | Appends exactly one default play of "Scroll Animation", whatever the flag. The flag and the observation are unchanged. The method equals `Step` on `Click`. |
| Trigger.TriggerController.OnIntersect | src/multiple-animation/main.js:49-69 | Not ready: the log and the flag are unchanged. Ready and intersecting: appends default plays of "Scroll Animation" then "Scroll Button Animation", and the flag is up. Ready, not intersecting, flag down: nothing changes. Ready, not intersecting, flag up: appends reverse plays of the same two sheets in the same order, and the flag stays up. The method equals `Step` on the event. |
| TriggerTraces.OnceFlagRecordsEntry | src/multiple-animation/main.js:45-60 | After any trace, the flag is up if and only if it was up before, or some ready event of the trace had an intersecting first entry. |
| TriggerTraces.ReverseOnEveryLaterLeave | src/multiple-animation/main.js:61-67 | Take any ready leave event that comes after a ready enter event. It appends exactly the two reverse plays. |
| TriggerTraces.SilentLeaveBeforeFirstEntry | src/multiple-animation/main.js:61-64 | On a fresh page, a ready leave event before any ready enter event changes nothing. |
| TriggerTraces.ClickAlwaysPlaysScroll | src/multiple-animation/main.js:41-43 | At any position in any trace, a click appends one forward play of "Scroll Animation" and leaves the flag as it was. |
| TriggerTraces.NoReverseBeforeForward | src/multiple-animation/main.js:45-68 | On a fresh page and for any trace, every reverse command in the log comes after the callback's forward pair ("Scroll Animation" then "Scroll Button Animation"). |
| TriggerTraces.UnreadyEventsDiscarded | src/multiple-animation/main.js:52-54 | Removing every not-ready observer event from a trace gives the same flag, observation state and log. Such events are dropped, not queued. |
| TriggerTraces.FirstEntryDecides | src/multiple-animation/main.js:55 | Take two traces whose events agree pointwise on readiness and on the first entry read. They produce the same state. Later entries of a batch never matter. |
| TriggerTraces.ScrollDownAndBack | src/multiple-animation/main.js:21-69 | Scenario: start-up, then leave, enter and leave again. The log is the two start-up plays, then the forward pair, then the reverse pair. The flag is up. |

## Left out

- Trigger.TriggerController.OnIntersect: requires a non-empty batch whenever the project is ready. On an empty batch the code would throw at `entries[0]`, but the browser always delivers at least one entry.
- Trigger.TriggerController.Start: the awaits are modelled as ordering of the log, not as concurrency. A click that lands while the key visual is still playing is modelled as an event before or after `Start`, never between its two commands. The script runs once; the model does not forbid calling it again.
- The intersection geometry (`rootMargin: "-80% 0px -20%"`, `threshold: 0`) belongs to the browser. Only the resulting `isIntersecting` boolean is modelled.
- What the sequence player does with a command (interrupting a running playback, the returned promise, the time it takes) belongs to the external library. Each command is just a log entry.
- The property bindings (`onValuesChange` handlers): floating-point arithmetic written into rendering and page objects.
- `createTextMesh` in `src/multiple-animation/createTextMesh.js`: a wrapper over foreign geometry routines with no logic of its own.
- The render loop and resize handling: frame scheduling and renderer calls.
- Scene, light, camera and renderer set-up; the timeline tool's schema definitions and project-state document; the tool's studio initialisation.
- `src/sample/sample.js`: one looping play after readiness plus property bindings, with no decision logic.
- `vite.config.js`: build packaging only.
