# Chat message displayer: a verified model

This project models the chat message ring buffer of bitfighter's
`ChatMessageDisplayer` (zap/ChatMessageDisplayer.cpp) in Dafny and proves
properties of it.

The displayer holds 25 message slots (`MAX_MESSAGES + 1`) in a fixed array.
Two counters only grow between resets: `mFirst` (the head, the newest line) and
`mLast` (the tail). Position `p` lives in slot `p % 25`, and the lines
counted by `getMessageCount` are positions `mLast + 1 .. mFirst`. Each slot
is a `ColorTimerString`. It holds an expiry countdown and, in the bottom-up
layout, a fade countdown that starts when the expiry runs out. `idle` moves
the tail on once for every slot that reports expiry. New lines move the
head on, and they push the tail on when the ring is full. The user cycles
through three display modes. `getCountOfMessagesToDisplay` scans back from
the head to decide how many lines to draw. Incoming text has its `%var%`
tokens replaced before it is stored.

The files:

- `numeric.dfy`: U32 reduction (`AsU32`), `Min` and `Max`.
- `timers.dfy`: the countdown `Timer`. Its declaration is not part of this
  model; its behaviour is an assumption stated in the module comment.
- `chat_slot.dfy`: `ColorTimerString` with `set` and `idle`, and lemmas about
  one slot driven over many frames.
- `display_policy.dfy`: display modes, `toggleDisplayMode`'s successor,
  `getNumberOfMessagesToShow` and `showExpiredMessages`.
- `substitution.dfy`: `getSubstVarVal` over an uninterpreted resolver; the
  meaning of substitution as a function; and `substitueVars` as the in-place
  loop, proved to compute that function.
- `chat_ring.dfy`: the displayer state as a value, and every operation as a
  function of it (reset, idle, advanceFirst, insert, toggle, the count to
  display).
- `ring_invariant.dfy`: the invariant that keeps the counters honest. It
  holds after reset and is preserved by inserts that do not overflow and by
  idle. The overflow breaks it, and a concrete run shows the count
  wrapping. A corrected insert keeps it.
- `displayer.dfy`: the `ChatMessageDisplayer` class. It has an array of 25
  slots and the counter fields, and each method is proved against the
  function in `chat_ring.dfy` that describes it.

## Model

| member | source | states |
|---|---|---|
| Timers.Timer.Update | zap/ChatMessageDisplayer.cpp:35-49 | (assumed timer) counts down by the step and stops at zero; reports true exactly when a running countdown reaches zero |
| Timers.UpdateByZeroIsIdle | zap/ChatMessageDisplayer.cpp:105-117 | a zero-length step changes no countdown and reports nothing |
| Timers.StoppedTimerStaysSilent | zap/ChatMessageDisplayer.cpp:45-49 | a stopped countdown never reports again, whatever the step |
| ChatSlot.ColorTimerString.Set | zap/ChatMessageDisplayer.cpp:21-29 | stores text, colour, group id and fading flag; the expiry countdown starts at the given time and the fade countdown is stopped; the line is shown iff the expiry time is positive; it is not fading; when the expiry time is positive, its remaining life is that time, plus FADE_TIME when fading is used |
| ChatSlot.SetForgetsPreviousOccupant | zap/ChatMessageDisplayer.cpp:21-29 | the result of set does not depend on the slot's previous contents |
| ChatSlot.ColorTimerString.Idle | zap/ChatMessageDisplayer.cpp:33-50 | text, colour, group id and fading flag are kept; the expiry countdown never grows |
| ChatSlot.IdleWithoutFading | zap/ChatMessageDisplayer.cpp:35-39 | without fading, idle reports exactly on the step where the expiry countdown reaches zero |
| ChatSlot.IdleStartsFading | zap/ChatMessageDisplayer.cpp:35-42 | with fading, that step reports nothing and starts the fade countdown at FADE_TIME (100) |
| ChatSlot.IdleEndsFading | zap/ChatMessageDisplayer.cpp:45-49 | once expiry has run out, idle reports exactly when the fade countdown reaches zero |
| ChatSlot.IdleReportsExpiry | zap/ChatMessageDisplayer.cpp:32-50 | idle reports iff the line goes from shown to expired on this step; an expired line is left as it is and reports nothing |
| ChatSlot.IdleKeepsWellFormed | zap/ChatMessageDisplayer.cpp:33-50 | idle keeps a slot well formed: fading only after expiry and only when fading is used, and both countdowns stay within their starting values |
| ChatSlot.ReportsIffKeyWithinLimit | zap/ChatMessageDisplayer.cpp:33-50 | a well-formed slot reports on a step iff its remaining life is positive and within what that step can consume |
| ChatSlot.KeyAfterIdle | zap/ChatMessageDisplayer.cpp:33-50 | a step that does not retire a running line lowers its remaining life as KeyStep says |
| ChatSlot.KeyStepMonotone | zap/ChatMessageDisplayer.cpp:33-50 | a step keeps the order of remaining lives, so lines expire oldest first |
| ChatSlot.ReportsAtMostOnce | zap/ChatMessageDisplayer.cpp:32-50 | over any sequence of frames a slot reports at most once, and it reports exactly when it ends expired having started shown |
| ChatSlot.NoReportBeforeLifetime | zap/ChatMessageDisplayer.cpp:33-50 | a slot cannot report before frames summing to its remaining life have passed |
| ChatSlot.ExpiresWhenLifetimeElapses | zap/ChatMessageDisplayer.cpp:35-39 | without fading, a running slot reports once iff the frames sum to at least its remaining expiry time, and otherwise never |
| DisplayPolicy.NextMode | zap/ChatMessageDisplayer.cpp:121-126 | the next mode's ordinal is the current one plus one, modulo MessageDisplayModes |
| DisplayPolicy.ToggleCycles | zap/ChatMessageDisplayer.cpp:121-126 | toggling three times returns to the starting mode, and one or two toggles do not |
| DisplayPolicy.NumberOfMessagesToShow | zap/ChatMessageDisplayer.cpp:228-239 | the show count is a U32 |
| DisplayPolicy.ShowExpiredMessages | zap/ChatMessageDisplayer.cpp:243-246 | expired lines are hidden exactly when the player is not composing and the mode is mode 0 (ShortTimeout) |
| DisplayPolicy.ShowLimitByMode | zap/ChatMessageDisplayer.cpp:228-239 | composing or LongFixed shows MAX_MESSAGES (24); the short modes show the short-mode count; ShortTimeout and ShortFixed agree |
| Substitution.GetSubstVarVal | zap/ChatMessageDisplayer.cpp:151-164 | a bound key gives its name in square brackets; otherwise a name equal to playerName up to case gives the player's name; a name the resolver misses gives the token back as %v% |
| Substitution.Substitute | zap/ChatMessageDisplayer.cpp:189-224 | the reference meaning of the substitution scan, read from the left; text without % is its own result |
| Substitution.TokenReadsName | zap/ChatMessageDisplayer.cpp:199-213 | token text without % is read into the token's name |
| Substitution.SubstitutePlainPrefix | zap/ChatMessageDisplayer.cpp:199-221 | text without % is copied unchanged in front of what follows |
| Substitution.TextWithoutPercentIsUnchanged | zap/ChatMessageDisplayer.cpp:189-224 | a string with no % is returned unchanged |
| Substitution.ResolvedValueIsNotRescanned | zap/ChatMessageDisplayer.cpp:208-218 | %v% followed by rest becomes the resolver's value followed by the substitution of rest; the value is never scanned, even when it contains % |
| Substitution.MissKeepsToken | zap/ChatMessageDisplayer.cpp:151-218 | a token the resolver misses is kept verbatim as %v% |
| Substitution.UnterminatedTokenIsKept | zap/ChatMessageDisplayer.cpp:199-223 | a % with no closing partner leaves everything from it on untouched |
| Substitution.SingleUnmatchedPercentIsKept | zap/ChatMessageDisplayer.cpp:189-224 | text with a single unmatched % comes back unchanged |
| Substitution.GreetsPlayerByName | zap/ChatMessageDisplayer.cpp:151-218 | a %playerName% token after plain text becomes the player's name when no key binding has that name |
| Substitution.SubstituteVars | zap/ChatMessageDisplayer.cpp:189-224 | the in-place scan with its index adjustment computes Substitute, so all the properties above hold for it |
| ChatRing.MessageCount | zap/ChatMessageDisplayer.cpp:142-145 | the count is a U32; it is first - last when the tail is less than 2^32 behind the head, and wraps to 2^32 - (last - first) when the tail has passed the head |
| ChatRing.Scrolling | zap/ChatMessageDisplayer.cpp:249-252 | the displayer is not scrolling exactly when the scroll timer is stopped |
| ChatRing.Advanced | zap/ChatMessageDisplayer.cpp:130-139 | the head moves on by exactly one; the tail stays or moves on by one; slots, mode, scroll timer and group id are unchanged |
| ChatRing.AdvanceMovesTailOnlyWhenFull | zap/ChatMessageDisplayer.cpp:130-139 | from a count within the ring, the tail moves iff the count was SIZE - 1, and then the ring is marked full; the count stays in [0, SIZE - 1] |
| ChatRing.InsertsAloneKeepCountInRing | zap/ChatMessageDisplayer.cpp:130-145 | over any number of advances alone, 0 <= first - last <= SIZE - 1 |
| ChatRing.WithLine | zap/ChatMessageDisplayer.cpp:175-179 | one insert moves the head on by one and stores the line with the current group id in the head's slot; every other slot is unchanged |
| ChatRing.InsertLines | zap/ChatMessageDisplayer.cpp:174-179 | storing lines moves the head on by their number and keeps the group id, mode and scroll timer |
| ChatRing.InsertLinesAdvances | zap/ChatMessageDisplayer.cpp:175-179 | storing lines moves the counters exactly as advancing alone does |
| ChatRing.Received | zap/ChatMessageDisplayer.cpp:168-185 | the head moves on by the number of lines; the next message gets the next group id; bottom-up restarts the scroll timer and top-down leaves it |
| ChatRing.ReceivingStartsScrollBottomUp | zap/ChatMessageDisplayer.cpp:183-252 | after a message, bottom-up is scrolling iff the scroll period is positive; top-down scrolls iff it did before |
| ChatRing.Cleared | zap/ChatMessageDisplayer.cpp:92-102 | reset zeroes both counters, clears full, leaves every slot expired with empty text and with its colour, group id and fading flag, and keeps mode, scroll timer and group id |
| ChatRing.Toggled | zap/ChatMessageDisplayer.cpp:121-126 | only the mode changes, to the next one with wrap-around |
| ChatRing.AfterIdle | zap/ChatMessageDisplayer.cpp:105-117 | idle advances every slot; the tail moves on by exactly the number of slots that report; head, full flag, mode and group id are unchanged |
| ChatRing.IdleUpTo | zap/ChatMessageDisplayer.cpp:110-116 | after n passes of the loop, slots from n on are untouched, and head, full flag, mode and group id are unchanged |
| ChatRing.IdleVisit | zap/ChatMessageDisplayer.cpp:111-116 | one pass stores the advanced slot; a report moves the tail on by one; the scroll timer is reset exactly when the slot reports, the layout is top-down and the U32 count after the move is within the show limit; head, full flag, mode and group id are unchanged |
| ChatRing.IdleUpToAdvancesSlots | zap/ChatMessageDisplayer.cpp:110-111 | after n passes, slots 0 .. n-1 hold their advanced contents |
| ChatRing.IdleUpToCountsReports | zap/ChatMessageDisplayer.cpp:110-113 | after n passes, the tail has moved on once per report among slots 0 .. n-1 |
| ChatRing.IdleUpToResetsScroll | zap/ChatMessageDisplayer.cpp:110-116 | after n passes, the scroll timer has been reset exactly when a report among them left the U32 count within the show limit, in the top-down layout |
| ChatRing.IdleLoopIsAfterIdle | zap/ChatMessageDisplayer.cpp:105-117 | the slot-by-slot loop computes the whole-step description AfterIdle |
| ChatRing.IdleByZeroChangesNothing | zap/ChatMessageDisplayer.cpp:105-117 | an idle step of length zero leaves the whole state unchanged |
| ChatRing.QuietStepReportsNothing | zap/ChatMessageDisplayer.cpp:110-113 | when no slot reports, the tail does not move |
| ChatRing.QuietStepResetsNoScroll | zap/ChatMessageDisplayer.cpp:114-115 | when no slot reports, the scroll timer is not reset |
| ChatRing.ReportsOfPrefix | zap/ChatMessageDisplayer.cpp:110-113 | the tail moves on no further partway through the loop than at its end |
| ChatRing.ScrollResetWhenCountReachesLimit | zap/ChatMessageDisplayer.cpp:110-116 | while the tail cannot pass the head, the scroll timer is reset iff top-down and some slot reported and the final count is within the show limit |
| ChatRing.Window | zap/ChatMessageDisplayer.cpp:130-178 | the ring read from oldest to newest position ends at the head's slot |
| ChatRing.ExpiredAmongNewest | zap/ChatMessageDisplayer.cpp:282-305 | the expired lines met among the j newest positions number at most j |
| ChatRing.ExpiredAmongNewestGrows | zap/ChatMessageDisplayer.cpp:282-305 | the scan meets no fewer expired lines the further back it goes |
| ChatRing.DisplayCount | zap/ChatMessageDisplayer.cpp:257-316 | the description of the scan's result; any count meeting it is at most mFirst, at most MAX_MESSAGES while the chat box fades in, and at most the show cap otherwise |
| ChatRing.DisplayCountIsUnique | zap/ChatMessageDisplayer.cpp:257-316 | at most one count meets the description, so it determines the scan's result |
| ChatRing.CountWhenExpiredShown | zap/ChatMessageDisplayer.cpp:243-311 | while the chat box is not fading in and expired lines are shown, the count is min(mFirst, show cap) |
| RingInvariant.ResetEstablishesCoherent | zap/ChatMessageDisplayer.cpp:92-102 | after reset the counters agree with the slots |
| RingInvariant.CoherentCountIsLiveLines | zap/ChatMessageDisplayer.cpp:142-145 | when the counters agree with the slots, getMessageCount does not wrap, is at most MAX_MESSAGES, and equals the number of shown slots |
| RingInvariant.WindowShifts | zap/ChatMessageDisplayer.cpp:175-179 | an insert drops the oldest window entry and adds the new line as the newest |
| RingInvariant.InsertKeepsCoherent | zap/ChatMessageDisplayer.cpp:130-179 | an insert below the maximum count keeps the counters honest and leaves the tail in place |
| RingInvariant.InsertLinesKeepCoherent | zap/ChatMessageDisplayer.cpp:174-179 | storing lines that fit keeps the counters honest and leaves the tail in place |
| RingInvariant.ReceivedKeepsCoherent | zap/ChatMessageDisplayer.cpp:168-185 | onChatMessageReceived keeps the counters honest when the message's lines fit beside those already counted |
| RingInvariant.ReportingBlock | zap/ChatMessageDisplayer.cpp:110-113 | in a well-shaped ring the slots that report on a step are exactly the oldest running ones, up to the first that does not report |
| RingInvariant.IdledWindowOk | zap/ChatMessageDisplayer.cpp:110-113 | after a step, the reporting block joins the expired prefix and the rest keeps its order |
| RingInvariant.IdleKeepsCoherent | zap/ChatMessageDisplayer.cpp:105-117 | idle keeps the counters honest: lines expire oldest first and the tail moves on by exactly the number expired |
| RingInvariant.OverflowLeavesEvictedLineRunning | zap/ChatMessageDisplayer.cpp:130-178 | an insert at the maximum count moves the tail on, but all 25 slots are now running while only 24 are counted, so the counters no longer agree with the slots |
| RingInvariant.TailPassesHeadAfterOverflow | zap/ChatMessageDisplayer.cpp:110-145 | top-down, after an overflowing insert, an idle step of the expiry time retires all 25 slots: the tail ends one past the head and getMessageCount is 2^32 - 1 |
| RingInvariant.FillingFromReset | zap/ChatMessageDisplayer.cpp:92-179 | after reset, 24 lines fill the count without moving the tail |
| RingInvariant.SizeLinesThenExpiryWrapCount | zap/ChatMessageDisplayer.cpp:92-145 | reset, 25 lines top-down, then idle for the expiry time: the tail is one past the head and getMessageCount is 2^32 - 1 |
| RingInvariant.WithLineEvicting | zap/ChatMessageDisplayer.cpp:130-179 | the corrected insert moves the counters exactly as advanceFirst does |
| RingInvariant.EvictingInsertKeepsCoherent | zap/ChatMessageDisplayer.cpp:130-179 | the corrected insert keeps the counters honest with or without overflow, so the tail never passes the head |
| RingInvariant.EvictionStopsOldestEntry | zap/ChatMessageDisplayer.cpp:130-139 | on overflow the corrected insert differs from the source's only in stopping the oldest window entry |
| RingInvariant.ExpiredAmongNewestWhenCoherent | zap/ChatMessageDisplayer.cpp:282-305 | when the counters agree, the backward scan meets expired lines only after passing the counted ones |
| RingInvariant.DisplayCountWhenCoherent | zap/ChatMessageDisplayer.cpp:257-316 | when the counters agree with the slots, at least one line has been stored, the chat box is not fading in and the show cap is at most 24: if expired lines are hidden, the count is min(cap, counted + the scrolled-off allowance, mFirst); otherwise it is min(mFirst, cap) |
| Displayer.ChatMessageDisplayer.constructor | zap/ChatMessageDisplayer.cpp:62-81 | 25 slots, empty and expired; counters zero; not full; ShortTimeout; group id 0; scroll timer stopped |
| Displayer.ChatMessageDisplayer.Reset | zap/ChatMessageDisplayer.cpp:92-102 | the new state is Cleared of the old |
| Displayer.ChatMessageDisplayer.Idle | zap/ChatMessageDisplayer.cpp:105-117 | the new state is AfterIdle of the old |
| Displayer.ChatMessageDisplayer.IdleSlot | zap/ChatMessageDisplayer.cpp:111-116 | one pass of idle's loop is IdleVisit |
| Displayer.ChatMessageDisplayer.ToggleDisplayMode | zap/ChatMessageDisplayer.cpp:121-126 | the new state is Toggled of the old |
| Displayer.ChatMessageDisplayer.AdvanceFirst | zap/ChatMessageDisplayer.cpp:130-139 | the new state is Advanced of the old |
| Displayer.ChatMessageDisplayer.GetMessageCount | zap/ChatMessageDisplayer.cpp:142-145 | returns MessageCount of the state |
| Displayer.ChatMessageDisplayer.OnChatMessageReceived | zap/ChatMessageDisplayer.cpp:168-185 | the new state is Received of the old, with the wrapped lines of the substituted text |
| Displayer.ChatMessageDisplayer.StoreLine | zap/ChatMessageDisplayer.cpp:177-178 | one pass of the insert loop is WithLine |
| Displayer.ChatMessageDisplayer.GetCountOfMessagesToDisplay | zap/ChatMessageDisplayer.cpp:257-316 | the result meets DisplayCount: 0 with no lines; min(24, mFirst) while fading in; otherwise the longest run of newest lines within mFirst, the show cap and the scrolled-off allowance of expired lines |

## Left out

- `render` (zap/ChatMessageDisplayer.cpp:321-410) is not modelled. It is OpenGL drawing with floating-point alpha and offsets, and it draws the logical positions `(mFirst - count, mFirst]`.
- `wrapString` and the font context pushed around it are external text measurement. `OnChatMessageReceived` takes the wrapping as a function parameter `wrap`, so any split into lines is covered.
- The resolver behind `getSubstVarVal` is not modelled. The key-binding lookup and its printable name, and the player's name, are an uninterpreted `Resolver`. Only the structure of `getSubstVarVal` and its miss branch are modelled. `caseInsensitiveStringCompare` is assumed to fold ASCII letters only.
- Floating point is not modelled. `helperFadeIn` is reduced to the flag `helperFadeIn > 0`, `Timer::getFraction` is not used, and colours are carried but never inspected.
- `Timer` is not part of this model. Its behaviour (reset, clear, update) is an assumption in `timers.dfy`. The scroll timer's period is `SCROLL_TIME`, a parameter here, and it is assumed to start stopped. A slot's contents before the first reset are assumed blank; reset overwrites what matters anyway.
- `MESSAGE_EXPIRE_TIME` and `SCROLL_TIME` are defined outside the file, so they are parameters here. The lemmas about the invariant assume an expiry time above zero.
- ChatRing.MessageCount wraps as a U32. The counters `mFirst`, `mLast` and `mNextGroupId` themselves are unbounded here, so their own wrap after 2^32 lines is not modelled.
- RingInvariant.DisplayCountWhenCoherent is stated only for show caps of at most 24 (MAX_MESSAGES). With a short-mode cap above 25 the scan reads some slot twice, so the closed form no longer follows from the invariant. The declarative ChatRing.DisplayCount itself covers every cap.
- While the chat box fades in, the count is `min(MAX_MESSAGES, mFirst)` whatever the display mode, as the code returns before the scan.
- `getMessageCount <= getNumberOfMessagesToShow` in `idle` compares two U32 values. The model compares the U32 count with the U32 show count.
- The class keeps the insert as written, so it can overflow. The corrected insert exists only as a function with its proofs.
- zap/SymbolShape.cpp, zap/UIMenus.h and zap/GameSettings.h are not part of this model. They hold drawing and declarations only.

## Findings

| source | as written | input that shows it | evidently intended | confidence | as-written member | corrected member |
|---|---|---|---|---|---|---|
| zap/ChatMessageDisplayer.cpp:110-139 | when `advanceFirst` pushes the tail past the oldest line, that line's slot keeps its running countdown, and `idle` later moves the tail on again when it expires | top-down layout: reset, 25 lines stored, then `idle(MESSAGE_EXPIRE_TIME)`. The tail ends one past the head and `getMessageCount` returns 2^32 - 1 | the line pushed out of the count stops counting down, so each line moves the tail at most once and `0 <= mFirst - mLast <= 24` always holds | not executed | RingInvariant.SizeLinesThenExpiryWrapCount | RingInvariant.EvictingInsertKeepsCoherent |
