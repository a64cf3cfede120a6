# LexiGo client: a verified model

This project models the parts of the LexiGo web client that carry state or protocols, and proves what they
are for. It is plain Dafny; `dafny verify dfyconfig.toml` checks all of it.

**Calendar files** (`ContentLines`, `Utf8`, `CalendarText`, `ZoneTransitions`, `ZoneTable`, `ZoneCache`, `Reminder`,
`ReminderMeaning`, `CalendarExport`, `CalendarReading`, `CalendarProperties`). The generator finds a zone's offset changes by a seven-day scan and a bisection, writes
them as a VTIMEZONE component (section 3.6.5 of RFC 5545), escapes texts (section 3.3.11) and folds lines by
octets (section 3.1). The results compose: a reader that splits and unfolds the file, finds components by their BEGIN and END lines and
properties by their names, has the description, the days of the recurrence, the alarm's minutes and the duration,
the zone asked for where the runtime knows it and UTC otherwise, the zone's own offset at every instant of the covered
years, and the event's instant. Folding uses the fewest lines possible; the memo in front of
the zone lines is invisible; the scan is exact if and only if no offset recurs within seven days; the search
for the next study time returns the least one. Time is whole milliseconds, a zone is any function from an
instant to whole minutes.

**Modal dialogs** (`ModalIsolation`, `DialogPage`). A stack of portal roots, remembered attributes and a body
style snapshot, kept in line by every registration and unregistration while the page appends, nests and
removes elements. The page is a value in the first module; the second changes elements in place and is
proved against it.

**Review outbox** (`OutboxMachine`, `OutboxReach`, `OutboxPruning`, `OutboxHarm`, `OutboxLate`, `OutboxSilence`,
`OutboxLogout`, `OutboxOnce`, `OutboxDurability`, `OutboxWitnesses`, `OutboxDrain`, `OperationKeys`). Intercepted review requests, one
drain, session changes, pruning, an unreliable network and the server, as interleaved steps. A request captures the
session before anything is stored. A request body is opaque: `durable` gives the canonical text of a valid payload.
The server records one review per operation, from this page or from elsewhere; a request under a further key is
accepted if it carries the payload recorded, and refused if it carries another. Success responses arrive only for
accepted keys; everything else the network and the server answer is arbitrary. Beside the invariants of every run
there are exact conditions: from which reachable states a review can still be sent after a logout, the logout is
undone, a synced review can lose its status, a prune can do harm, a review gets another key, and a key is accepted.
`OutboxDrain` is the drain loop by itself, in place, and equal to an uninterrupted run of the interleaved drain.

**Lesson run** (`LessonFlow`, `LessonRun`, `LessonHistory`, `LessonScreen`). The client's lesson state against a server
that may answer anything, over whole runs, and against the history of the ratings given and the answers received.

**Answers and word lists** (`AnswerText`, `AnswerApostrophes`, `AnswerJudging`, `WordMixing`). Normalising a typed
answer, judging it against the accepted ones, interleaving word lists. Letter classes and lower-casing are any
functions with the properties named in `AnswerText.Proper`; lower-casing may turn one character into several,
and an apostrophe may be a letter.

**Smaller state** (`Feedback`, `LessonResult`, `LessonEvidence`, `SessionRefresh`, `CatalogPages`). The feedback reducer as one list
of toasts, the lesson result in browser storage, the shared session refresh, and catalog pages.

`Basics`, `Decimals`, `Whitespace` and `ColonKeys` hold what several of these use.

## Where the code and its documentation differ

- `docs/calendar-dialog-accessibility-checklist.md`, item 10, says a reopened dialog keeps no stale `inert` or
  `aria-hidden`. A dialog that closes while another is open is isolated by the synchronisation of its own
  unregistering and taken out of the document before the next one, which then forgets it; reopened, it is on
  top and inert (`ModalIsolation.ReopenedDialogIsInert`). Exactly the roots closed under another dialog are
  stranded so (`ClosingStrandsUnderAnother`), and an element is restored if and only if it was not lost this
  way (`ClosedPageIsRestored`).
- `docs/offline-review-outbox.md` says the queue stops using the session right after a logout. A drain under
  way keeps sending under the session it started with (`OutboxWitnesses.DrainSendsAfterLogout`), and a refresh it has
  under way brings the session back (`OutboxWitnesses.RefreshUndoesLogout`). Exactly when anything is sent without a
  sign-in is `OutboxLogout.SendsAfterLogoutIff`; exactly when the session comes back is
  `OutboxLogout.LogoutUndoneIff`.
- The same document has a review become `synced` with its accepted answer; it need not stay so. A late lost,
  retryable or rejected answer of another request for the review takes the record to pending or failed
  (`OutboxWitnesses.LateAnswerReopens`); exactly when that can happen is `OutboxLate.ReopenedIff`.
- Pruning a synced record while someone can still mark the review lets a late success mark a new answer as
  synced although the server has recorded the first one (`OutboxWitnesses.SyncedButLost`); exactly then
  (`OutboxHarm.PruneHarmsIff`, `OutboxHarm.PruneLosesAnswerIff`).
- The document's point 3, one idempotency key for one review, holds while the record is stored: a review gets another
  key if and only if its record was pruned (`OutboxOnce.AnotherKeyIff`, `OutboxWitnesses.TwoKeysOneEvent`). The
  server's promise, no second review event, holds whatever is pruned (`OutboxOnce.AppliedAtMostOnce`).
- `docs/learning-event-schema.md` and the code's own comment say apostrophe variants are treated alike. The
  third variant, U+02BC, is a letter to the pattern that is asked first, so "don't" typed with it keeps it and
  is rejected (`AnswerApostrophes.ModifierApostropheRejected`); a variant is ignored if and only if it is not a
  letter (`AnswerApostrophes.ApostropheIgnoredIff`).
- Dropping accepted answers with equal normal forms is meant not to affect judging. It does for characters
  whose lower case is several characters and includes a non-gap, such as U+0130; over any alphabet without
  such characters it does not, and only then (`AnswerJudging.InvisibleIffSafe`).
- A daily-goal celebration is meant to be claimed once. A lesson with an empty id leaves an empty entry, which
  counts as none (`LessonResult.ClaimedAgainIff`).
- Folding limits continuation lines to 74 octets after the first; the count includes the leading space, where
  RFC 5545 allows 75. Shortness is proved within the code's limits.
- A runtime that takes offsets such as "+01:00" for zone names makes the export write them into TZID parameters unquoted,
  where a reader stops at the colon (`CalendarProperties.OffsetNameIsCut`); a zone name is read back from a date if and
  only if it has no colon (`CalendarProperties.ZoneOfDateIff`).
- If the server's answer to a saved review does not name the following position, or at the last one does not
  confirm completion, or if the next item is already rated, nothing takes the learner on until a lesson is applied
  again; exactly then (`LessonRun.StoppedIff`).

## Model

| member | source | states |
|---|---|---|
| ContentLines.FoldICalendarLine | frontend/lib/calendar-reminder.ts:252-273 | the accumulator loop over characters and octet counts computes the greedy folding |
| ContentLines.FoldIsFolding | frontend/lib/calendar-reminder.ts:252-273 | physical lines stay within the octet limits, never split a character, and joining them without the leading spaces gives the line back |
| ContentLines.GreedyStaysAhead | frontend/lib/calendar-reminder.ts:258-269 | a greedy cut that is ahead of any other cut into pieces within the limits needs no more pieces |
| ContentLines.FoldIsShortest | frontend/lib/calendar-reminder.ts:252-273 | no folding of the line within the same limits has fewer lines |
| Utf8.EncodingRoundTrip | frontend/lib/calendar-reminder.ts:253-259 | the octets counted are the UTF-8 encoding: bytes that read back to the code points |
| Utf8.FoldedInOctets | frontend/lib/calendar-reminder.ts:252-273 | in encoded octets, the first physical line has at most 75 and the others at most 74, nothing is lost, and no other way to do that takes fewer lines |
| CalendarText.EscapeIsTransducer | frontend/lib/calendar-reminder.ts:244-250 | the four sequential replacements are one left-to-right transducer |
| CalendarText.EscapeRoundTrip | frontend/lib/calendar-reminder.ts:244-250 | unescaping returns the text with CRLF read as LF, and the escaped text has no line break |
| CalendarText.EscapeSeparates | frontend/lib/calendar-reminder.ts:244-250 | two texts are escaped alike if and only if they differ only in CRLF against LF |
| CalendarText.EscapedIsTextValue | frontend/lib/calendar-reminder.ts:244-250 | escaped text is a TEXT value by section 3.3.11 of RFC 5545: no semicolon, comma, backslash or line feed outside an escape |
| CalendarText.OnlyPairsAreRead | frontend/lib/calendar-reminder.ts:247 | a text without a CR right before an LF is read back unchanged |
| CalendarText.PairIsRead | frontend/lib/calendar-reminder.ts:247 | each CR LF pair is read back as one LF |
| CalendarText.CalendarRoundTrip | frontend/lib/calendar-reminder.ts:441 | splitting the emitted stream at CRLF and unfolding returns exactly the logical lines when none holds CRLF and none after the first starts with white space |
| CalendarText.CalendarLinesAreShort | frontend/lib/calendar-reminder.ts:252-273 | every physical line of the stream has at most 75 octets |
| Utf8.StreamInOctets | frontend/lib/calendar-reminder.ts:441 | no line of the emitted stream has more than 75 encoded octets |
| ZoneTransitions.FindTimeZoneTransition | frontend/lib/calendar-reminder.ts:289-311 | the bisection loop ends on the whole minute the specification names, with the offset there |
| ZoneTransitions.TimeZoneTransitions | frontend/lib/calendar-reminder.ts:313-332 | the scan loop terminates and computes the specified list |
| ZoneTransitions.MidpointIsInside | frontend/lib/calendar-reminder.ts:298-303 | the midpoint lies strictly between whole minutes more than one apart: the early break is unreachable |
| ZoneTransitions.BisectFindsChange | frontend/lib/calendar-reminder.ts:298-310 | between two different offsets the bisection ends where the offset leaves the old value |
| ZoneTransitions.ScanShape | frontend/lib/calendar-reminder.ts:318-331 | the list is strictly increasing, chained, on whole minutes and inside the range, for every range |
| ZoneTransitions.EntriesAreChanges | frontend/lib/calendar-reminder.ts:318-331 | every entry is a real change from the minute before, with the zone's offsets on both sides |
| ZoneTransitions.ExactIffNoRecurrence | frontend/lib/calendar-reminder.ts:313-332 | looking up the list is the offset function on every whole-minute sub-range if and only if no offset recurs within seven days |
| ZoneTransitions.RecurrenceIsMissed | frontend/lib/calendar-reminder.ts:319-328 | an excursion that returns within one scan step leaves the list empty and wrong |
| ZoneTransitions.SpacedChangesNeverRecur | frontend/lib/calendar-reminder.ts:313-332 | changes at least seven days apart never make an offset recur within seven days |
| ZoneTransitions.TableRefinesOffset | frontend/lib/calendar-reminder.ts:313-332 | for changes on whole minutes at least a week apart the list gives the zone's offset at every instant of the range |
| ZoneTable.OffsetRoundTrip | frontend/lib/calendar-reminder.ts:334-340 | the offset text is a sign and digits, five characters below 100 hours, and reads back to the minutes, of either sign |
| ZoneTable.YearsAreGregorian | frontend/lib/calendar-reminder.ts:369-370 | years count 365 or 366 days by the Gregorian leap rule, from 1970 |
| ZoneTable.CoveredYears | frontend/lib/calendar-reminder.ts:369-370 | from the year 101 on the table covers the year before the event to the tenth after it |
| ZoneTable.EventIsCovered | frontend/lib/calendar-reminder.ts:364-370 | the covered years hold the event if and only if its local year is not one of 1 to 100, for which Date.UTC takes the year before for one of the twentieth century |
| ZoneTable.ObservancesRefineOffset | frontend/lib/calendar-reminder.ts:369-389 | the observance in force by RFC 5545 gives the zone's offset at every instant of the covered years |
| ZoneTable.DaylightIff | frontend/lib/calendar-reminder.ts:374-386 | an observance is daylight time exactly when it takes the clock forward, the opening one exactly when the first change takes it back |
| ZoneTable.ObservanceRoundTrip | frontend/lib/calendar-reminder.ts:342-360 | the five lines of an observance, with its local start, read back to it |
| ZoneTable.ZoneRoundTrip | frontend/lib/calendar-reminder.ts:377-389 | the lines of the component read back to its observances |
| ZoneTable.ZoneLinesRefineOffset | frontend/lib/calendar-reminder.ts:362-389 | read back and applied by RFC 5545, the lines have an observance in force at every covered instant and it gives the zone's offset |
| ZoneCache.KeysNeverCollide | frontend/lib/calendar-reminder.ts:365 | different zones or years never share a cache key |
| ZoneCache.AnswerIsTransparent | frontend/lib/calendar-reminder.ts:362-396 | a call on a sound cache answers the uncached lines and leaves a sound cache |
| ZoneCache.RunIsTransparent | frontend/lib/calendar-reminder.ts:362-396 | after any calls every answer is the uncached one and the cache holds exactly the latest 32 keys built, oldest insertion out first |
| ZoneCache.TimeZoneLinesCache.BuildTimeZoneLines | frontend/lib/calendar-reminder.ts:362-396 | the method on the mutable cache answers the uncached lines and changes the cache as specified |
| Reminder.SelectionIsASet | frontend/lib/calendar-reminder.ts:73-81 | order and repetition of the stored weekday codes do not matter, unknown ones are dropped |
| Reminder.CanonicalWeekdays | frontend/lib/calendar-reminder.ts:73-81 | normalised weekdays normalise to themselves |
| Reminder.NormalizeIsIdempotent | frontend/lib/calendar-reminder.ts:54-98 | normalising settings twice is normalising once, for every raw value |
| Reminder.AllowedDayWithinWeek | frontend/lib/calendar-reminder.ts:100-108 | any seven days in a row contain an allowed weekday |
| Reminder.NextCalendarOccurrence | frontend/lib/calendar-reminder.ts:110-131 | the loop returns the least study time strictly after the given instant, at most seven calendar days ahead; the fallback is never used |
| Reminder.RuleNamesEffectiveDays | frontend/lib/calendar-reminder.ts:133-137 | the recurrence rule, read back, names exactly the days the occurrence was searched on |
| ReminderMeaning.TimeIsAfterMidnight | frontend/lib/calendar-reminder.ts:115-121 | HH:MM is HH hours and MM minutes after midnight |
| ReminderMeaning.TimesAreClocks | frontend/lib/calendar-reminder.ts:60-65 | the texts taken for times are exactly HH:MM with hours below 24 and minutes below 60 |
| ReminderMeaning.TimeIsKept | frontend/lib/calendar-reminder.ts:60-65 | a time given is kept, anything else becomes 19:00 |
| ReminderMeaning.MinutesAreNearest | frontend/lib/calendar-reminder.ts:54-58 | duration and alarm are the nearest whole minutes within 5 to 180 and 0 to 1440, and 20 and 10 without a number |
| ReminderMeaning.StudyDays | frontend/lib/calendar-reminder.ts:73-104 | the days studied on, from the raw value: Monday to Friday, the chosen days or Monday to Friday if none is, or every day |
| ReminderMeaning.StudyDaysInOrder | frontend/lib/calendar-reminder.ts:78-80 | each day once, from Monday on |
| ReminderMeaning.RuleIsWritten | frontend/lib/calendar-reminder.ts:133-137 | the rule is daily, or weekly with the days by their two-letter names |
| ReminderMeaning.WeekdaysFollow | frontend/lib/calendar-reminder.ts:106-108 | 1 January 1970 is a Thursday and each weekday is followed by the next |
| CalendarExport.BuildCalendarICS | frontend/lib/calendar-reminder.ts:398-442 | the file is the emitted stream of the specified lines, whatever the cache held, in the zone asked for where its trimmed name is non-empty, at most 100 long and known, and in UTC otherwise |
| CalendarExport.CalendarLinesAreClean | frontend/lib/calendar-reminder.ts:414-439 | no logical line holds a line break or starts with white space |
| CalendarExport.FileReadsBack | frontend/lib/calendar-reminder.ts:398-442 | reading the file gives back exactly its logical lines |
| CalendarReading.EventIsFound | frontend/lib/calendar-reminder.ts:414-439 | the VEVENT is found by its BEGIN and END lines whatever the zone component before it holds |
| CalendarReading.AlarmIsFound | frontend/lib/calendar-reminder.ts:431-436 | the VALARM is found inside the VEVENT by its BEGIN and END lines |
| CalendarReading.FileCarriesDescription | frontend/lib/calendar-reminder.ts:218-223 | a reader of the whole file sees the event's description, followed by the trimmed address on a line of its own if there is one, with CRLF read as LF |
| CalendarReading.FileCarriesSchedule | frontend/lib/calendar-reminder.ts:398-439 | a reader of the whole file has the days the occurrence was searched on from RRULE and the minutes of the settings from the alarm's TRIGGER |
| CalendarReading.FileCarriesDates | frontend/lib/calendar-reminder.ts:398-413 | a reader of the whole file has the event's local start from DTSTART, and DTEND lies the duration of the settings later, but for a change of offset in between |
| CalendarReading.FileCarriesZone | frontend/lib/calendar-reminder.ts:398-442 | a reader that finds the VTIMEZONE of the whole file by its BEGIN and END lines and applies it has the zone's own offset at every covered instant |
| CalendarReading.FileCarriesInstant | frontend/lib/calendar-reminder.ts:362-439 | the local DTSTART resolved by the VTIMEZONE observance in force is the event's instant, to the second |
| CalendarProperties.KnownZoneIsWritten | frontend/lib/calendar-reminder.ts:150-159 | a known zone name of at most 100 characters is what a reader finds in X-WR-TIMEZONE, in the TZID of DTSTART and DTEND and in the TZID of the VTIMEZONE |
| CalendarProperties.KnownZoneGivesInstant | frontend/lib/calendar-reminder.ts:398-413 | in that zone the reader's local start resolved by the observance in force is the event's instant, to the second |
| CalendarProperties.OtherZoneIsUtc | frontend/lib/calendar-reminder.ts:150-159 | with any other name the file defines no zone, its dates name none and read back as the instant in UTC and, the duration later, its end |
| CalendarProperties.ZoneOfDateIff | frontend/lib/calendar-reminder.ts:408-413 | the zone a reader finds in a date line is the one written if and only if its name has no colon |
| CalendarProperties.FileCarriesTexts | frontend/lib/calendar-reminder.ts:421-436 | a reader of the whole file sees the title, when the file was made, and an alarm to be displayed with its own text |
| CalendarProperties.SameUidIff | frontend/lib/calendar-reminder.ts:407 | two exported events have one identifier if and only if they start at the same instant and ask for the same time of day |
| CalendarProperties.FileIsCalendar | frontend/lib/calendar-reminder.ts:414-439 | the file reads back as one VCALENDAR of version 2.0 |
| ModalIsolation.RunKeeps | frontend/components/accessible-dialog.tsx:29-102 | over any run every element has its original attributes or is remembered with them and isolated, except for the lost ones |
| ModalIsolation.OnlyTopIsReachable | frontend/components/accessible-dialog.tsx:76-92 | right after a dialog registers or unregisters, every body child but the top root and the exempt ones is inert and has aria-hidden "true", and everything else has its own attributes unless lost |
| ModalIsolation.IsolatedIff | frontend/components/accessible-dialog.tsx:76-92 | in every reachable state exactly the elements are inert and hidden that are remembered, were lost, or were so to begin with |
| ModalIsolation.RememberedIff | frontend/components/accessible-dialog.tsx:76-92 | a synchronisation remembers exactly the body children that are neither the top root nor exempt |
| ModalIsolation.ClosedPageIsRestored | frontend/components/accessible-dialog.tsx:49-54 | with no dialog open an element has its original attributes if and only if it was never forgotten while detached, or was isolated to begin with |
| ModalIsolation.OpenPageIsLocked | frontend/components/accessible-dialog.tsx:56-74 | in every reachable state the body overflow is "hidden" while a dialog is open, and the style is the original one while none is |
| ModalIsolation.BodyLockedOnce | frontend/components/accessible-dialog.tsx:56-74 | when the first dialog opens the overflow becomes "hidden" and the padding the widened one if there is one; the style stays while a dialog is open and is restored when the last closes |
| ModalIsolation.StyleOfFirstStays | frontend/components/accessible-dialog.tsx:56-67 | over any stretch with a dialog open the body keeps the style its first dialog gave it |
| ModalIsolation.NothingLostInPlace | frontend/components/accessible-dialog.tsx:49-54 | if no remembered element leaves the document, nothing is lost |
| ModalIsolation.PageRestoredInPlace | frontend/components/accessible-dialog.tsx:29-102 | under that condition every run that ends with no dialog restores the whole page |
| ModalIsolation.ClosingStrandsUnderAnother | frontend/components/accessible-dialog.tsx:94-102 | a closing dialog's root is stranded if and only if another dialog is still open |
| ModalIsolation.LostStaysIsolated | frontend/components/accessible-dialog.tsx:49-54 | a lost element is inert and hidden ever after |
| ModalIsolation.ReopenedDialogIsInert | frontend/components/accessible-dialog.tsx:146-164 | opening a, b, closing b, a, and opening b again leaves b on top and inert |
| DialogPage.Page.RestoreBackground | frontend/components/accessible-dialog.tsx:33-54 | the loop over the remembered elements restores the connected ones and forgets all |
| DialogPage.Page.LockBodyScroll | frontend/components/accessible-dialog.tsx:56-67 | sets the overflow to "hidden" and the widened padding once and remembers the old style; does nothing while locked |
| DialogPage.Page.UnlockBodyScroll | frontend/components/accessible-dialog.tsx:69-74 | restores the remembered body style |
| DialogPage.Page.RememberElement | frontend/components/accessible-dialog.tsx:41-47 | remembers an element's attributes the first time only |
| DialogPage.Page.IsolateBackground | frontend/components/accessible-dialog.tsx:85-91 | the loop over the body's children remembers and isolates all but the top root and the exempt ones |
| DialogPage.Page.SynchronizeModalIsolation | frontend/components/accessible-dialog.tsx:76-92 | changes the page exactly as the specified synchronisation |
| DialogPage.Page.RegisterDialog | frontend/components/accessible-dialog.tsx:94-96 | pushes the root and changes the page exactly as the registration step: it does not scroll, and all behind the top is inert and hidden |
| DialogPage.Page.UnregisterDialog | frontend/components/accessible-dialog.tsx:97-101 | removes the last occurrence of the root and synchronises |
| OutboxMachine.RunKeeps | frontend/components/review-outbox-runtime.tsx:231-462 | the invariant of every interleaving: stored, held and sent records were created for their operation, marks have responses, accepted keys stand for the one review the server recorded, at most one drain |
| OutboxMachine.SendsAreBacked | frontend/components/review-outbox-runtime.tsx:371-419 | a review carries a key if and only if it was intercepted under a session with a valid payload, the key is of a record stored before, of the same operation and canonical payload, and a drain sends only its own user's records |
| OutboxMachine.OneKeyOneReview | frontend/components/review-outbox-runtime.tsx:396-419 | two requests under one key carry the same review |
| OutboxMachine.MarkedAfterResponse | frontend/components/review-outbox-runtime.tsx:419-457 | over every run a synced review has received a 2xx response, and a failed one a response that is neither 2xx nor 401, 408, 425, 429 nor a server error |
| OutboxMachine.RetriedStaysPending | frontend/lib/review-outbox.ts:124-129 | over every run a review that got no response but 401, 408, 425, 429 and server errors is still pending |
| OutboxMachine.AnswerDecides | frontend/components/review-outbox-runtime.tsx:419-457 | what the page's own request makes of its answer, by its status: synced, pending, failed or, after 401, nothing, and one attempt more |
| OutboxMachine.DrainDecides | frontend/components/review-outbox-runtime.tsx:251-300 | what a drain makes of an answer, by its status |
| OutboxMachine.DrainsNeverOverlap | frontend/components/review-outbox-runtime.tsx:231-317 | at most one drain is under way in every reachable state |
| OutboxOnce.AppliedAtMostOnce | backend/internal/learning/lesson_review_idempotency.go:34-91 | over every interleaving, pruned or not, the server records at most one event for a review, and every key it accepts for the review stands for the payload of that event |
| OutboxOnce.KeyAcceptedIff | backend/internal/learning/lesson_review_idempotency.go:58-90 | a request on the network can be accepted, under a first or a further key, if and only if the server has recorded nothing for its operation or the very payload it carries |
| OutboxOnce.KeysPerPrune | frontend/lib/review-outbox.ts:230-269 | over every run a review has at most one key more than its record is pruned |
| OutboxOnce.AnotherKeyIff | frontend/lib/review-outbox.ts:230-269 | from every reachable state a review that has a key can get another one, without a further prune, if and only if its record is not stored |
| OutboxDurability.WrittenBeforeSent | frontend/lib/review-outbox.ts:230-269 | an intercepted review is stored pending and untried before anything is sent; one already stored is left as it is |
| OutboxDurability.PassesAsItIs | frontend/components/review-outbox-runtime.tsx:371-389 | without a session or a valid payload a review goes out unchanged, without a key, and nothing is stored |
| OutboxDurability.LeavesOnlyAccepted | frontend/lib/review-outbox.ts:320-343 | over every run a stored review keeps its key and payload until it is pruned, and by then a 2xx response for it was received |
| OutboxPruning.RunStaysFaithful | frontend/components/review-outbox-runtime.tsx:231-462 | while no review is pruned that someone can still mark, everyone who can mark one works with its stored record and every mark has its response |
| OutboxPruning.MarkedForKey | frontend/components/review-outbox-runtime.tsx:419-457 | under that condition a synced review has a 2xx response for its own key, and a failed one a response for its own key that is neither 2xx nor 401, 408, 425, 429 nor a server error |
| OutboxPruning.SyncedMeansApplied | frontend/components/review-outbox-runtime.tsx:419-427 | under that condition the server has accepted a synced review under its key and recorded exactly its stored payload |
| OutboxPruning.SendsMatchTheStore | frontend/components/review-outbox-runtime.tsx:409-419 | under that condition every request carries the key and payload stored for its operation at that moment |
| OutboxHarm.PruneHarmsIff | frontend/lib/review-outbox.ts:320-343 | from every reachable state a prune can lead to a final mark without a response of its kind for the stored key if and only if someone can still make that mark: a queued or unanswered request (for a synced mark, one the server can accept), an answered one of that kind, or a drain that can come to the review |
| OutboxHarm.PruneLosesAnswerIff | frontend/lib/review-outbox.ts:320-343 | it can lead to a later answer marked synced that the server has not recorded if and only if someone can still mark the review synced and there is another answer to give |
| OutboxLate.LosesSyncedIff | frontend/components/review-outbox-runtime.tsx:428-457 | a synced review loses its status in a step exactly when the step notes a late failure of a copy or of a drain, and leaves the store exactly when pruned |
| OutboxLate.ReopenedIff | frontend/components/review-outbox-runtime.tsx:428-457 | from every reachable state a synced review can lose its status, without a prune or a new copy, if and only if someone still has a copy whose answer may come or fail |
| OutboxLate.StaysSynced | frontend/components/review-outbox-runtime.tsx:428-457 | with nobody left it stays synced in every continuation without a prune or a new copy |
| OutboxLogout.SendsAfterLogoutIff | frontend/components/review-outbox-runtime.tsx:231-419 | from every reachable state, after a logout a continuation without a sign-in sends a review if and only if a queued one, an intercepted one that can be stored, or a drain with a record left (listed, at hand, or waiting for a refresh) is there |
| OutboxLogout.LogoutUndoneIff | frontend/components/review-outbox-runtime.tsx:253-260 | from every reachable state, after a logout a continuation without a sign-in has a session again if and only if a drain has such a record left |
| OutboxWitnesses.DrainSendsAfterLogout | frontend/components/review-outbox-runtime.tsx:250-252 | a run from the start in which a drain sends a stored review under the user who has logged out |
| OutboxWitnesses.RefreshUndoesLogout | frontend/components/review-outbox-runtime.tsx:253-260 | a run from the start in which a refresh under way at the logout brings the session back and sends the review again |
| OutboxWitnesses.LateAnswerReopens | frontend/components/review-outbox-runtime.tsx:428-457 | runs from the start in which a drain has a review accepted and a late answer to the page's own request takes it to pending or to failed |
| OutboxWitnesses.SyncedButLost | frontend/lib/review-outbox.ts:320-343 | a run from the start in which a prune lets a late success mark a second answer as synced while the server has recorded the first |
| OutboxWitnesses.TwoKeysOneEvent | backend/internal/learning/lesson_review_idempotency.go:58-90 | a run from the start in which an answer given again after a prune is accepted under a second key without a second event |
| OutboxDrain.LoopIsDrainRun | frontend/components/review-outbox-runtime.tsx:251-300 | whatever deliverable answers come, the loop changes store, requests and session exactly as an uninterrupted run of the interleaved drain |
| OutboxDrain.PendingIsListed | frontend/components/review-outbox-runtime.tsx:240-241 | filtering the listing gives the user's pending records, each once |
| OutboxDrain.PendingInOrder | frontend/components/review-outbox-runtime.tsx:240-241 | the records keep the order of the listing |
| OutboxDrain.DrainIsAPrefix | frontend/components/review-outbox-runtime.tsx:251-300 | one drain syncs exactly a prefix, updates at most one record after it, leaves later ones untouched and counts one attempt per updated record |
| OutboxDrain.DrainStopsAt | frontend/components/review-outbox-runtime.tsx:251-300 | a drain gets past a record exactly on a 2xx response, and the record it stops at is failed exactly on a response that is neither 2xx nor 401, 408, 425, 429 nor a server error |
| OutboxDrain.OthersUntouched | frontend/components/review-outbox-runtime.tsx:240-241 | records that were not pending, and other users', stay as they were |
| OutboxDrain.SessionChangesOnlyAtTheEnd | frontend/components/review-outbox-runtime.tsx:253-260 | a drain ends under another user's session exactly when a refresh at the record it stopped at brought that user |
| OutboxDrain.CountOfRequests | frontend/components/review-outbox-runtime.tsx:252-260 | a drained record is sent once, or twice exactly when its first answer was 401 and the same user's session was refreshed |
| OutboxDrain.RequestsAreOwn | frontend/components/review-outbox-runtime.tsx:617-636 | every request of a drain is under its own user, with the stored key and body of one of its records |
| OutboxDrain.Outbox.DrainOne | frontend/components/review-outbox-runtime.tsx:252-299 | one round of the loop: its requests, its session, whether it ends the drain, and the status the record gets, by the statuses of its answers |
| OutboxDrain.Outbox.DrainRecords | frontend/components/review-outbox-runtime.tsx:251-300 | the loop stops at the first record not accepted; its store and requests are as specified |
| OutboxDrain.Outbox.SyncPendingReviews | frontend/components/review-outbox-runtime.tsx:231-317 | does nothing while a drain is under way, without session or offline; otherwise drains the pending records |
| OperationKeys.OperationKeysNeverCollide | frontend/lib/review-outbox.ts:116-122 | different operations never share a key, whatever characters the user id has |
| OperationKeys.ColonLessonsCollide | frontend/lib/review-outbox.ts:116-122 | it relies on lesson ids without a colon |
| LessonFlow.AdvanceIsSequential | frontend/lib/lesson-flow.ts:44-87 | the learner goes on exactly to the following position and exactly when the review is saved and the server names it; results exactly at the end with the server's word; each reason to stay exactly when it holds |
| LessonRun.RunKeeps | frontend/components/lexigo-active-lesson-app.tsx:391-744 | whatever the server answers, saved positions are consecutive from the first one shown, none twice |
| LessonRun.MovesFollowSavedReviews | frontend/components/lexigo-active-lesson-app.tsx:587-744 | a move goes one position on from a saved one; at most one review is in flight, for the position shown and not yet saved |
| LessonRun.ResultsAreComplete | frontend/components/lexigo-active-lesson-app.tsx:599-620 | results open only at the last position after confirmed completion, with every position from the start on saved exactly once |
| LessonRun.JudgementsStayWithinItems | frontend/components/lexigo-active-lesson-app.tsx:651-661 | judgements are those of the rated items and never outnumber the lesson's items |
| LessonRun.StoppedIff | frontend/components/lexigo-active-lesson-app.tsx:599-680 | from every state of a run before the results nothing takes the learner on if and only if no request is on its way, the item shown is rated, and the server confirmed no completion at the last position, or named no following position before it |
| LessonHistory.RequestCarriesRating | frontend/components/lexigo-active-lesson-app.tsx:638-650 | over every run a review on its way carries the rating given at the position shown, for the item there and under the lesson version of that moment |
| LessonHistory.RatingsAreGiven | frontend/components/lexigo-active-lesson-app.tsx:651-661 | over every run ratings and judgements are those of the start overwritten by what was saved, in order |
| LessonHistory.SavedRatingStands | frontend/components/lexigo-active-lesson-app.tsx:651-661 | every saved item has the rating given at its position and the server's judgement for as long as the lesson runs; items without a save keep theirs |
| LessonHistory.SavesAreThePositions | frontend/components/lexigo-active-lesson-app.tsx:651-661 | the saves are those of the saved positions, in order, each for the item there |
| LessonHistory.LastAnswerHolds | frontend/components/lexigo-active-lesson-app.tsx:664-677 | version, completion and the position to go to are those of the last answer |
| LessonHistory.MovesAreNamed | frontend/components/lexigo-active-lesson-app.tsx:599-620 | a move goes to the position the server named in its answer to the position left; results open only on its word that the lesson is completed |
| LessonHistory.ShownIff | frontend/components/lexigo-active-lesson-app.tsx:402-413 | a lesson is shown exactly if its version is a positive whole number and its position is that of an unrated item, and at exactly that position |
| LessonHistory.RestoredIsLast | frontend/components/lexigo-active-lesson-app.tsx:395-401 | the restored rating of an item is that of its last rated entry |
| LessonScreen.RestoreRatings | frontend/components/lexigo-active-lesson-app.tsx:395-401 | the loop restores the ratings the server holds, later entries winning |
| LessonScreen.ActiveLesson.ApplyLesson | frontend/components/lexigo-active-lesson-app.tsx:391-439 | shows a lesson exactly if its position and version can be trusted, at exactly the position the server named and with the ratings it holds, from where the run invariant holds, and clears otherwise |
| LessonScreen.ActiveLesson.RateCurrent | frontend/components/lexigo-active-lesson-app.tsx:622-634 | starts a request with the rating given, the item shown and the version, exactly when none is on its way and the item is unrated; keeps the run invariant on the component itself |
| LessonScreen.ActiveLesson.ReviewSaved | frontend/components/lexigo-active-lesson-app.tsx:651-680 | gives the item the rating sent and the server's judgement, takes over the server's word, keeps the run invariant and adds the position shown to the saved ones, for the first time |
| LessonScreen.ActiveLesson.MoveToServerIndex | frontend/components/lexigo-active-lesson-app.tsx:587-597 | refuses exactly the positions outside the lesson |
| LessonScreen.ActiveLesson.NextItem | frontend/components/lexigo-active-lesson-app.tsx:599-620 | keeps the run invariant; goes on by one position and only from a saved one, and is never refused |
| AnswerText.NormalizeAnswer | frontend/lib/learning.ts:140-158 | the one-pass loop computes the specified normal form |
| AnswerText.PassJoinsWords | frontend/lib/learning.ts:143-156 | the pass with its pending-space flag joins the runs of letters with single spaces |
| AnswerText.TokensOfTrimmed | frontend/lib/learning.ts:143 | trimming first does not change the words |
| AnswerText.NormalizeJoinsTokens | frontend/lib/learning.ts:140-158 | the normal form is the words joined by single spaces; both trims change nothing |
| AnswerText.NormalizeIsIdempotent | frontend/lib/learning.ts:140-158 | normalising twice is normalising once |
| AnswerText.NormalizeSeparatesTokens | frontend/lib/learning.ts:140-158 | two texts normalise alike if and only if they have the same words |
| AnswerText.CaseAndYoIgnored | frontend/lib/learning.ts:144-146 | letter case and ё for е make no difference |
| AnswerApostrophes.ApostropheIgnoredIff | frontend/lib/learning.ts:144-152 | an apostrophe anywhere in a text makes no difference if and only if it is not a letter |
| AnswerApostrophes.VariantAcceptedIff | frontend/lib/learning.ts:181-195 | an answer typed with another apostrophe than the stored one is accepted if and only if that apostrophe is not a letter |
| AnswerApostrophes.ModifierApostropheRejected | frontend/lib/learning.ts:147-152 | "don't" typed with U+02BC is rejected |
| AnswerJudging.ClozeInfersTheGap | frontend/lib/learning.ts:98-106 | whatever fills the one gap of a cloze is the inferred answer, trimmed |
| AnswerJudging.PlainAnswer | frontend/lib/learning.ts:113 | a word, or a phrase without a cloze, is answered by its trimmed answer |
| AnswerJudging.GapAnswer | frontend/lib/learning.ts:109-114 | a phrase with a gap is answered by the given filling, else by what fills the gap in the prompt, else by its whole answer |
| AnswerJudging.PartsAreAlternatives | frontend/lib/learning.ts:160-165 | the alternatives of a text are exactly its trimmed non-empty pieces between commas, semicolons and slashes |
| AnswerJudging.OtherCharSeparates | frontend/lib/learning.ts:147-155 | a character that is no letter, digit or apostrophe separates words |
| AnswerJudging.AcceptedAnswersForItem | frontend/lib/learning.ts:160-179 | the filter with its seen set keeps the first candidate of every non-empty normal form, in order: answers of the item, one for each normal form an answer of it has |
| AnswerJudging.JudgeLearningAnswer | frontend/lib/learning.ts:181-195 | the loop returns the first exact or normalised match; it is correct whenever the submission has the normal form of an answer of the item, and what it names is one |
| AnswerJudging.TypedAnswerIsCorrect | frontend/lib/learning.ts:160-195 | typing the expected answer, any part of it between commas, semicolons and slashes, or any accepted answer is correct |
| AnswerJudging.JudgementIsExplained | frontend/lib/learning.ts:181-195 | a correct judgement names an answer of the item that the submission matches exactly or in normal form, as its reason says; the others say whether there was anything to judge |
| AnswerJudging.ExpectedComesFirst | frontend/lib/learning.ts:167-179 | the expected answer is the one named where it matches |
| AnswerJudging.CorrectIffAnswers | frontend/lib/learning.ts:160-195 | over safe texts a submission is correct if and only if it has the non-empty normal form of an answer of the item |
| AnswerJudging.ExactImpliesNormalized | frontend/lib/learning.ts:187-192 | safe texts equal up to letter case have equal normal forms |
| AnswerJudging.JudgementIgnoresDeduplication | frontend/lib/learning.ts:167-195 | for safe texts judging over the raw candidates gives the same correctness, reason and match |
| AnswerJudging.UnsafeCharIsVisible | frontend/lib/learning.ts:167-195 | every unsafe character has an item and a submission that are judged differently |
| AnswerJudging.InvisibleIffSafe | frontend/lib/learning.ts:167-195 | for all items and submissions over an alphabet deduplication shows in no judgement if and only if every character of it is safe to lower-case |
| WordMixing.TakeTurn | frontend/lib/learning.ts:72-79 | one turn takes the next element of every group that has one |
| WordMixing.RoundRobin | frontend/lib/learning.ts:66-82 | the loop terminates and computes the interleaving |
| WordMixing.PositionLaw | frontend/lib/learning.ts:66-82 | element k of group g stands at the sum over all groups h of min(length of h, k + 1 if h is before g, else k) |
| WordMixing.GroupOrderKept | frontend/lib/learning.ts:66-82 | elements of one group keep their order |
| WordMixing.InterleavedIsPermutation | frontend/lib/learning.ts:66-82 | interleaving is a permutation of all groups' elements |
| WordMixing.PrepareMixed | frontend/lib/learning.ts:90-91 | the mixed list interleaves nouns, verbs, adjectives and other words |
| WordMixing.MixedIsPermutation | frontend/lib/learning.ts:84-92 | the mixed list holds exactly the words of the four parts of speech |
| WordMixing.MixedCounts | frontend/lib/learning.ts:84-92 | every noun, verb, adjective and other word is in the mixed list as often as in the given one, and nothing else |
| WordMixing.SectionsTakeTurns | frontend/lib/learning.ts:90-91 | the turn is nouns, verbs, adjectives, other words |
| WordMixing.SectionKeepsOrder | frontend/lib/learning.ts:89-91 | the words of a section keep the order of the list |
| Feedback.QueueAlwaysBehindActive | frontend/lib/feedback.ts:144-166 | in every reachable state no active toast means an empty queue |
| Feedback.ToastsAreOneList | frontend/lib/feedback.ts:110-166 | publishing appends to the one list and clearing a key filters it; dismissing filters it except exactly when the active and a queued toast share the id |
| Feedback.RemovalFilters | frontend/lib/feedback.ts:133-166 | with separate ids every removal filters the list |
| Feedback.FreshRunSeparatesIds | frontend/lib/feedback.ts:144-166 | fresh ids keep toasts and banners apart over every run |
| Feedback.ToastsInPublicationOrder | frontend/lib/feedback.ts:110-166 | the toasts on display are the published ones nothing removed, in publication order |
| Feedback.ActivationFollowsPublication | frontend/lib/feedback.ts:110-142 | toasts become active in publication order |
| Feedback.BannerReplacedInPlace | frontend/lib/feedback.ts:118-131 | publishing a keyed banner replaces the one of that key where it stands |
| Feedback.KeysAlwaysOnce | frontend/lib/feedback.ts:118-131 | each non-empty key stands on at most one banner in every reachable state |
| Feedback.RemovalTakesOut | frontend/lib/feedback.ts:151-159 | dismissing takes out the items with the id and clearing those with the key |
| Feedback.BannersFollow | frontend/lib/feedback.ts:118-166 | banners under any action: untouched by a toast, appended to without their non-empty key, filtered by a removal |
| LessonResult.EvidenceAddsUp | frontend/lib/lesson-result.ts:161-185 | per mode attempted and unavailable make up the judgements, correct never exceeds attempted, and the modes make up the reviewed items |
| LessonEvidence.SnapshotCounts | frontend/lib/lesson-result.ts:161-236 | which judgements and ratings each count of the snapshot counts |
| LessonEvidence.SnapshotNumbers | frontend/lib/lesson-result.ts:142-146 | counts below zero are taken for zero, counters that are no finite number for none |
| LessonEvidence.GoalByNumbers | frontend/lib/lesson-result.ts:210-214 | the goal is reached when it is above zero and the reviews come to it, and just reached when they did not before |
| LessonEvidence.SnapshotIsOfLesson | frontend/lib/lesson-result.ts:200-250 | the snapshot is about the lesson it was built for |
| LessonResult.ItemIdsAreASet | frontend/lib/lesson-result.ts:226 | the snapshot's ids are the positive whole ones given, each once |
| LessonResult.ReaderAcceptsIff | frontend/lib/lesson-result.ts:200-370 | the reader accepts a built snapshot if and only if judgements do not outnumber items, the counts are bounded, successes stay within reviews and its age is in the window; it then returns the snapshot that was built |
| LessonResult.AcceptedIffShowable | frontend/lib/lesson-result.ts:294-370 | what the reader accepts of any stored document, in numbers |
| LessonResult.WriteThenRead | frontend/lib/lesson-result.ts:287-370 | through storage: the same snapshot and untouched storage, or nothing and a removed entry |
| LessonResult.DistinctIffOtherItems | frontend/lib/lesson-result.ts:276-285 | comparing sorted copies decides whether a candidate has another id and other items, in whatever order |
| LessonResult.GoalReachedOnce | frontend/lib/lesson-result.ts:211-214 | with counts that never go back, at most one lesson reaches a goal anew |
| LessonResult.KeysDiffer | frontend/lib/lesson-result.ts:152-159 | snapshots and celebrations never share a storage key, nor do two users' snapshots |
| LessonResult.CelebrationKeysDiffer | frontend/lib/lesson-result.ts:156-159 | full dates keep celebrations of different users and days apart |
| LessonResult.ClaimedOnce | frontend/lib/lesson-result.ts:376-385 | once claimed for a lesson with an id, no sequence of storage calls makes the celebration claimable again |
| LessonResult.ClaimedAgainIff | frontend/lib/lesson-result.ts:376-385 | an immediate second claim succeeds if and only if the first lesson had no id |
| LessonResult.ResultStorage.ReadLessonResultSnapshot | frontend/lib/lesson-result.ts:294-370 | exactly a stored result that can be shown is handed out and stays stored; with none handed out none is left; other entries stay |
| LessonResult.ResultStorage.ClaimDailyGoalCelebration | frontend/lib/lesson-result.ts:376-385 | succeeds exactly when the goal was just reached and is not taken; it is taken from then on exactly if the lesson has an id; other entries stay |
| SessionRefresh.TraceIsBounded | frontend/lib/auth-session.ts:209-222 | a course of attempts is at most one longer than its delays, and a success or final failure is its last |
| SessionRefresh.GoesOnIff | frontend/lib/auth-session.ts:96-105 | for each kind of failure whether a course goes on |
| SessionRefresh.TraceIsUnique | frontend/lib/auth-session.ts:209-222 | the same answers end every finished course at the same attempt |
| SessionRefresh.PerformRefresh | frontend/lib/auth-session.ts:209-222 | the loop makes a finished course of attempts, waits the configured delays in order and returns the last answer |
| SessionRefresh.OneFlightAtATime | frontend/lib/auth-session.ts:234-244 | at most one flight is unsettled, it is the one in the slot, and attempts of different flights never interleave |
| SessionRefresh.FlightsAreCourses | frontend/lib/auth-session.ts:209-244 | every settled flight took one finished course under its starter's options |
| SessionRefresh.JoinedCallersAgree | frontend/lib/auth-session.ts:234-253 | joined callers get one outcome, which nothing later changes |
| SessionRefresh.JoinedOptionsAreIgnored | frontend/lib/auth-session.ts:234-246 | a caller that joins a flight does not get the retries it asked for |
| SessionRefresh.JoinedOptionsCountIff | frontend/lib/auth-session.ts:209-246 | a joined caller gets its own course whatever the network answers if and only if its options retry as the starter's do |
| CatalogPages.ClampWithin | frontend/lib/catalog-page.ts:48-53 | any requested page becomes an existing one, an existing one stays, and its start lies in the list |
| CatalogPages.PagesConcatenate | frontend/lib/catalog-page.ts:48-55 | all pages in order are the list |
| CatalogPages.RangeIsThePage | frontend/lib/catalog-page.ts:66-71 | the range the text names is exactly the slice shown, and never empty |
| CatalogPages.NeighboursIff | frontend/lib/catalog-page.ts:48-64 | a page has one before or after it exactly when entries lie before or after its slice; every page but the last is full |
| CatalogPages.PaginateInfoIsRead | frontend/lib/catalog-page.ts:31-64 | reading the data of a page sliced here changes nothing |
| CatalogPages.MissingDataIsFirstPage | frontend/lib/catalog-page.ts:31-46 | entries without page data are read as the first page |
| CatalogPages.ServerDataIsKept | frontend/lib/catalog-page.ts:31-46 | page data the server sends is taken as sent where it makes sense |
| CatalogPages.ReadingIsIdempotent | frontend/lib/catalog-page.ts:31-46 | reading page data twice is reading it once, whatever the server sent |

## Left out

- AppliedAtMostOnce: that the server records an operation once is its guard here; that guard rests on the lesson's version, which each review moves on under a row lock. The version itself is not modelled: two words of one lesson version exclude each other on the server, and a review is recovered only while the lesson has not moved further, so a success these runs allow may be refused.
- SendsAfterLogoutIff: a refresh of the page's own, outside the drain, that is under way at the logout counts as a sign-in when its session is adopted.
- TableRefinesOffset: assumes what the scan needs, changes on whole minutes and at least a week apart; real zone data is not part of this model, so for a real zone this is an assumption about its offset function.
- NextCalendarOccurrence: on a uniform civil calendar; local times skipped or repeated by daylight saving are not modelled.
- CalendarRoundTrip: CalendarExport shows its conditions hold for every file whose zone name and date stamps have no line breaks and which is built from normalised settings.
- MovesFollowSavedReviews: leaving a lesson, or applying another one, while a review request is still unanswered is outside the lesson-run theorems; applying one after a conflict, inside the review's own handler, is inside.
- ClosedPageIsRestored: attributes other code changes on an isolated element are not modelled, nor is the text of `inert` when it was present, which the code does not keep.
- SyncPendingReviews: error codes and texts of a record, its time stamps and the summary shown are not modelled; the listing order is a given sequence. What happens between two requests of a drain is in OutboxMachine.
- OutboxMachine: the 24-hour retention of synced records is any moment; failures of IndexedDB, several tabs sharing one store, the 30-day expiry of keys on the server, and the access token an intercepted request puts into the session (review-outbox-runtime.tsx:373-379, without a check of its user) are left out; the operation key is the operation (OperationKeys says why that is sound).
- ReaderAcceptsIff: a stored text that is not JSON or not of the snapshot's shape is one `Broken` value; JSON is the identity but for non-finite numbers, which become null; numbers are exact.
- PerformRefresh: the answer of each attempt is given; cookies, requests and the lock across tabs are left out.
- OneFlightAtATime: callers, attempts and settling are interleaved steps on a value, since one slot is shared by asynchronous callers; the attempt loop is a method.
- CatalogPages: page numbers and counts are whole numbers; others are read as missing.
- TypedAnswerIsCorrect: that commas, semicolons and slashes are no letters and their own lower case (`AnswerJudging.Delimits`) is an assumption about the locale, as is `AnswerText.Proper`.
- KnownZoneIsWritten: that a known name has neither a colon nor a line break is required of it; OffsetNameIsCut shows what a colon does.
- AnswerText: lower-casing works character by character, so final sigma in a whole-text lower-casing is not modelled.
- buildAnswerOptions, its hash and its sorting: the result is an order by an arbitrary hash.
- The Google calendar URL, schedule descriptions, copy texts and every label: texts are parameters where a proof needs them.
- Continuations, previews and outcome states of the lesson result: single-function decisions.
- feedbackDurationMs and the feedback policy table: single-function facts.
- The restore path that shows a stored lesson result after a reload, and `summarizePersistedLesson`.
- React rendering, focus handling, timers, `fetch`, service workers, Web Locks and the backend.
