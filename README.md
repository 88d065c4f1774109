# Debate rooms and page flow, modelled in Dafny

A model of the client logic of an anonymous one-on-one debate app, as it
stands in three React files:

- `src/components/VideoDebateRoom.tsx`, the video room. It has a countdown
  that ends the session. It closes or reports the session row in
  `debate_sessions`. It sends chat rows to `messages` and keeps a chat list
  fed by the session's insert notifications.
- `src/components/DebateRoom.tsx`, the text-only room. It has the same
  countdown with stricter colour thresholds. Its chat list is local, fed by
  the user's sends and a simulated opponent. Its report button carries a
  fixed reason.
- `src/pages/Index.tsx`, the page that runs age gate → waiting → debate.
  It keeps a skip counter and fakes a match with a timeout.

Modules:

- `Text` (text.dfy): the JavaScript primitives the rooms use. These are
  `trim` with the ECMAScript whitespace set, `toString` on integers with
  its decimal reader, and `padStart(2, "0")`.
- `Timer` (timer.dfy): the countdown updater, the clock it drives one
  second at a time (`Fire`, `FireN`), `formatTime`, its `m:ss` reader, and
  the two rooms' timer colours.
- `VideoRoom` (video_room.dfy): class `Room` for `VideoDebateRoom`, plus
  the duration and reported-user computations.
- `ChatRoom` (chat_room.dfy): class `Room` for `DebateRoom`.
- `PageFlow` (page_flow.dfy): the pure transition function `Step` of
  `Index`, its runs, and class `Page` whose handlers follow `Step`.
- `Optional` (optional.dfy): `Option`.

Store calls are not performed; their outcomes are method inputs. These are
the insert or update success flag, the signed-in user, and whether the
session row was found. Timer firings and timeouts are explicit method
calls. Clock readings (`Date.now()`, `new Date()`) and `Math.random()`
draws are parameters.

Some guarantees a reader might expect are not in the code, and the model
does not add them:

- There is no matchmaking queue and no WebRTC offer/answer/ICE relay.
  Matching is a `setTimeout` (src/pages/Index.tsx:36-40,
  src/components/WaitingRoom.tsx:21-50). No peer connection is created.
- Ending a session is not a compare-and-set. The code overwrites `status`
  unconditionally, so an ended session can be ended again or reported. It
  records `duration - timeLeft` with no cap.

## Model

| member | source | states |
|---|---|---|
| Text.LeadingWhitespace | src/components/VideoDebateRoom.tsx:140 | the leading whitespace `trim` cuts is a prefix of whitespace characters, followed by a non-whitespace character or the end |
| Text.TrailingWhitespace | src/components/VideoDebateRoom.tsx:140 | the trailing whitespace `trim` cuts is a suffix of whitespace characters, preceded by a non-whitespace character or the start |
| Text.Trim | src/components/VideoDebateRoom.tsx:140 | `trim` never lengthens its input |
| Text.TrimCutsOnlyWhitespace | src/components/VideoDebateRoom.tsx:140 | the trimmed text is a slice of the input with only whitespace before and after it |
| Text.TrimEnds | src/components/VideoDebateRoom.tsx:140 | a non-empty trimmed text neither starts nor ends with whitespace |
| Text.TrimBlank | src/components/DebateRoom.tsx:60 | `trim` gives the empty string exactly when the input is all whitespace |
| Text.IsBlank | src/components/DebateRoom.tsx:60 | the blank test `!s.trim()` holds exactly for an all-whitespace input |
| Text.DigitChar | src/components/VideoDebateRoom.tsx:214 | a digit below 10 is written as the matching decimal character |
| Text.DigitValue | src/components/VideoDebateRoom.tsx:214 | a decimal character reads as a digit below 10 that writes back to it |
| Text.NatToString | src/components/VideoDebateRoom.tsx:214 | `toString` of a non-negative integer is a non-empty digit string without a leading zero, one character exactly below 10 |
| Text.IntToString | src/components/VideoDebateRoom.tsx:214 | `toString` of a negative integer is a minus sign followed by the digits of its magnitude |
| Text.ParseNatToString | src/components/VideoDebateRoom.tsx:214 | reading back the digits `toString` wrote gives the number |
| Text.PadStart2 | src/components/VideoDebateRoom.tsx:214 | `padStart(2, "0")` yields at least two characters: the input preceded only by zeros |
| Timer.Countdown | src/components/VideoDebateRoom.tsx:69-76 | the updater ends the debate exactly when `prev <= 1`, the new time is never negative, never above a non-negative `prev`, 0 on expiry and one less otherwise |
| Timer.Fire | src/components/VideoDebateRoom.tsx:67-80 | one interval firing never makes the time negative, never raises a non-negative time, and counts one expiration exactly when the running timer had one second or less |
| Timer.Lifetime | src/components/DebateRoom.tsx:43 | a timer always runs for at least one tick |
| Timer.CountdownSchedule | src/components/VideoDebateRoom.tsx:67-80 | from a start with `duration`, the time after k < duration seconds is duration − k with the timer running and no end; from `Lifetime(duration)` seconds on it is 0, stopped, and the end handler has run exactly once |
| Timer.FireNLast | src/components/VideoDebateRoom.tsx:68 | k + 1 seconds are k seconds followed by one more firing |
| Timer.TimeLeftMonotone | src/components/DebateRoom.tsx:41-50 | from a non-negative time, any number of seconds keeps the time between 0 and where it started and adds at most one expiration |
| Timer.StoppedStaysPut | src/components/VideoDebateRoom.tsx:71 | a cleared interval never changes the clock again |
| Timer.ClockOkKept | src/components/VideoDebateRoom.tsx:67-80 | a room's countdown starts within its bounds and every firing keeps it there: never below 0, never above `duration`, stopped only at 0, and the end handler run once exactly when stopped |
| Timer.JsRem60 | src/components/VideoDebateRoom.tsx:213 | `seconds % 60` has the sign of `seconds`, lies strictly within 60 of 0 and leaves a multiple of 60 |
| Timer.SecondsField | src/components/VideoDebateRoom.tsx:213-214 | a remainder below 60 padded to two digits is two digits, the first at most 5, reading back as the remainder |
| Timer.ClockLayout | src/components/VideoDebateRoom.tsx:214 | `m + ":" + ss` with two-character `ss` has the colon third from the end, `m` before it and `ss` after it, and with digit parts and a first seconds digit at most 5 it has the shape `formatTime` shows |
| Timer.ClockText | src/components/VideoDebateRoom.tsx:214 | the clock text of non-negative minutes and a remainder below 60 is minute digits, a colon and two seconds digits starting at most with 5; negative minutes give a leading minus sign |
| Timer.FormatTime | src/components/VideoDebateRoom.tsx:211-215 | `formatTime` of a non-negative time is minutes digits, a colon and exactly two seconds digits below 60; a negative time starts with a minus sign |
| Timer.ParseClockText | src/components/VideoDebateRoom.tsx:214 | the clock text of `mins` and `secs < 60` reads back as `60 * mins + secs` |
| Timer.ParseFormatTime | src/components/DebateRoom.tsx:96-100 | reading back `formatTime(n)` for n ≥ 0 gives `60 * mins + secs == n` |
| Timer.VideoTimerColor | src/components/VideoDebateRoom.tsx:217-221 | destructive iff time ≤ 60, warning iff 60 < time ≤ 180, foreground iff time > 180 |
| Timer.ChatTimerColor | src/components/DebateRoom.tsx:102-106 | critical iff time < 60, warning iff 60 ≤ time < 180, calm iff time ≥ 180 |
| Timer.ColorOnlyEscalates | src/components/VideoDebateRoom.tsx:217-221 | in both rooms, less time left never gives a less alarming colour |
| Timer.ColorsDifferOnlyAtThresholds | src/components/DebateRoom.tsx:102-106 | the rooms show the same band at every time except exactly 60 and 180, where the video room is one band more alarming |
| VideoRoom.ElapsedSeconds | src/components/VideoDebateRoom.tsx:166 | the recorded duration plus the `timeLeft` seen is the duration, and it lies in [0, duration] when that `timeLeft` does |
| VideoRoom.ElapsedCountsSeconds | src/components/VideoDebateRoom.tsx:160-168 | with the countdown's real `timeLeft` after k ≤ duration seconds, the recorded duration is k |
| VideoRoom.TimerPathRecordsZero | src/components/VideoDebateRoom.tsx:67-80 | after `duration` seconds the timer has expired once, yet the first render's `timeLeft` makes the recorded duration 0 |
| VideoRoom.ExpiryDuration | src/components/VideoDebateRoom.tsx:160-168 | recording expiry with the `timeLeft` at expiry gives the full duration |
| VideoRoom.ReportedUser | src/components/VideoDebateRoom.tsx:191 | the reported user is `user_b` when the reporter is `user_a`, and `user_a` in every other case: a reporter who is neither participant, or a missing `user_a` |
| VideoRoom.ReportsTheOtherParticipant | src/components/VideoDebateRoom.tsx:191 | of two distinct participants, the reporter always reports the other |
| VideoRoom.Room.constructor | src/components/VideoDebateRoom.tsx:26-32 | mounting starts the clock at `duration`, running, with empty chat, inputs and dialogs, and the session active |
| VideoRoom.Room.EndSession | src/components/VideoDebateRoom.tsx:160-173 | a successful update ends the session at `now` with `duration - seenTimeLeft` seconds and calls `onEnd`; a failed one changes nothing |
| VideoRoom.Room.Tick | src/components/VideoDebateRoom.tsx:67-80 | the clock moves as `Fire`; the expiring tick clears the interval and, when the update succeeds, records status ended with 0 seconds |
| VideoRoom.Room.EndByDialog | src/components/VideoDebateRoom.tsx:366 | the dialog's end records `duration - timeLeft` with the current `timeLeft`, within [0, duration] |
| VideoRoom.Room.TypeMessage | src/components/VideoDebateRoom.tsx:288 | typing sets the chat input |
| VideoRoom.Room.TypeReason | src/components/VideoDebateRoom.tsx:345 | typing sets the report reason |
| VideoRoom.Room.Send | src/components/VideoDebateRoom.tsx:139-158 | a blank input sends nothing; a send happens iff the input is not blank, a user is signed in and the insert succeeds; the sent text is the trimmed input; the input is cleared only on success |
| VideoRoom.Room.LoadHistory | src/components/VideoDebateRoom.tsx:84-91 | fetched rows replace the list; a failed fetch leaves it |
| VideoRoom.Room.Receive | src/components/VideoDebateRoom.tsx:106-108 | an insert notification is appended and the earlier list is unchanged |
| VideoRoom.Room.Report | src/components/VideoDebateRoom.tsx:175-209 | a blank reason changes nothing; when the session is found, a report against the other participant with the trimmed reason is inserted and the status becomes reported; `onReport` gets the untrimmed reason |
| ChatRoom.Room.constructor | src/components/DebateRoom.tsx:32-38 | mounting starts the clock at `duration`, running, with no messages, an empty input and no scheduled reply |
| ChatRoom.Room.Tick | src/components/DebateRoom.tsx:40-53 | the clock moves as `Fire`, and `onEnd` is called exactly on the expiring tick |
| ChatRoom.Room.TypeMessage | src/components/DebateRoom.tsx:183 | typing sets the input |
| ChatRoom.Room.Send | src/components/DebateRoom.tsx:59-73 | a blank input is ignored; otherwise one message from "me" with the untrimmed input is appended, the input is cleared and one reply is scheduled |
| ChatRoom.Room.DeliverReply | src/components/DebateRoom.tsx:73-87 | a scheduled reply appends one canned message from "them" and leaves the earlier list unchanged |
| ChatRoom.Room.Report | src/components/DebateRoom.tsx:90-94 | the report always carries "inappropriate_behavior" and closes the dialog |
| PageFlow.Step | src/pages/Index.tsx:12-40 | no event leads into the age gate or `"ended"`; only a skip changes the counter, by one, and leaves the state; only a match timeout scheduled while waiting leads into the debate |
| PageFlow.RunStaysOut | src/pages/Index.tsx:6-40 | once left, the age gate is never re-entered, and `"ended"` is never entered, over any event sequence |
| PageFlow.EndedUnreachable | src/pages/Index.tsx:6-9 | from the initial state `"ended"` is unreachable |
| PageFlow.SkipCountCountsSkips | src/pages/Index.tsx:16-19 | the skip counter equals its start plus the number of skips |
| PageFlow.SkipGateFor | src/pages/Index.tsx:47-48 | `canSkip` iff fewer than 3 skips, a cooldown of 10 iff at least 3, and exactly one of the two |
| PageFlow.Page.constructor | src/pages/Index.tsx:9-10 | the page starts at the age gate with no skips and no timeout pending |
| PageFlow.Page.AgeConfirm | src/pages/Index.tsx:12-14 | age confirmation moves to waiting |
| PageFlow.Page.Skip | src/pages/Index.tsx:16-19 | a skip adds one to the counter and changes nothing else |
| PageFlow.Page.EndDebate | src/pages/Index.tsx:21-23 | ending the debate moves to waiting |
| PageFlow.Page.Report | src/pages/Index.tsx:25-28 | a report moves to waiting |
| PageFlow.Page.Render | src/pages/Index.tsx:30-64 | the page shows the view of its state; a debate always starts with 600 seconds; every render while waiting schedules one more match timeout |
| PageFlow.Page.FireMatch | src/pages/Index.tsx:36-40 | a match timeout tests the state it was scheduled in, always waiting, so it always leaves the page in the debate |

## Findings

| source | as written | input that shows it | evidently intended | confidence | as-written member | corrected member |
|---|---|---|---|---|---|---|
| src/components/VideoDebateRoom.tsx:67-80 | the interval is created once (`[]` dependencies), so on expiry it calls the first render's `handleEndDebate`, whose `timeLeft` is `duration`; `duration_seconds` is recorded as 0 | `duration = 600`, the timer left to run out | `duration_seconds` is the seconds that passed, 600 here | high; not executed | VideoRoom.TimerPathRecordsZero | VideoRoom.ExpiryDuration |

`VideoRoom.Room.Tick` models the code as written and records 0.
`VideoRoom.ExpiryDuration` and `VideoRoom.ElapsedCountsSeconds` give the
intended value.

## Left out

- Matchmaking queue, pair claim and WebRTC signaling: the code has none of
  them. Matching is a timeout and `remoteVideoRef` is never assigned.
- Supabase calls (`auth.getUser`, `insert`, `update`, `select`,
  `channel(...).on(...)`): their results are method inputs.
- VideoRoom.Room.Report: the report insert and the status update are taken
  to succeed. The code awaits both without checking their errors.
- VideoRoom.Room.Send: the handler is one atomic step, but the source
  awaits `getUser` and the insert between the blank test and
  `setInputValue("")`. So a second Enter before the insert returns sends
  the same text again, and text typed during the await is cleared on
  success. The model captures neither.
- VideoRoom.Room.Report: the handler is one atomic step, but the source
  awaits `getUser`, the session select, the report insert and the status
  update in turn. A second "Submit Report" during those awaits inserts a
  second report; the model does not capture it.
- VideoRoom.Room.EndSession: the handler is one atomic step, but the source
  awaits the update before calling `onEnd`. Two ends started before the
  first update returns both write the row and both call `onEnd`; the model
  does not capture the overlap.
- VideoRoom.Room.Send: the store's echo of the row is not linked to the
  chat list. It arrives through `Receive`, in any order.
- Camera and microphone (`getUserMedia`, track toggles, video elements):
  foreign media APIs.
- `setInterval`/`setTimeout` delays: each firing is a method call, not a
  time. The model does not fix the order of firings and other events.
- React re-rendering. The `DebateRoom` timer effect restarts when `onEnd`
  changes identity; that restart is not modelled. The stale closures that
  matter are modelled: the video room's expiry path and the page's match
  test.
- JavaScript numbers: `duration` and `timeLeft` are integers. Fractional
  durations are not modelled. Numbers at or above 10^21 are not modelled
  either; `toString` would write them in exponent form.
- `ended_at` (`new Date().toISOString()`) is the clock reading `now`. The
  ISO text is not modelled.
- Toasts, scroll-into-view, opening the dialogs, and all JSX layout.
- `DebateRoom`'s end dialog calls `onEnd` directly, with no room state.
  Its effect is `PageFlow.Page.EndDebate`.
- `WaitingRoom` as shown takes neither `onSkip` nor `canSkip`/`skipCooldown`,
  so nothing in the shown code calls `handleSkip`. The handler is modelled
  as written. `WaitingRoom`, `AgeGate`, `UsernameEntry`, `Admin` and the
  generated `types.ts` are not part of this model. They hold form
  rendering, random room ids, a demo key check and type declarations.
