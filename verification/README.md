# Akazi work placements: a verified model

Akazi offers people work, sends them to employers, and promises that a worker who does not come
is replaced the same day. This project models the stateful protocols behind that promise and
proves what they keep: over every run of whole operations, and over every interleaving where several
act at once on offers, on the outbox and on the pay ledger.

Tables are sequences in insertion order and a row's key is its position. Each life-cycle operation
is a function from the tables before to the tables after or to a refusal (`Lifecycle`); classes
(`Desk`, `Dispatcher`, `PayLedger`, `Watch`, `Switchboard`) carry the same operations out step by
step, in place, and are proved equal to those functions. Races are separate small-step machines in
which a read may be stale by the time of the write. Times of day are minutes, moments are
microseconds, money and days are integers, and the 30% share and the retention rate are exact.

| file | contents |
|---|---|
| `Base`, `Calendar`, `Sorting` | shared enumerations; the Gregorian calendar; stable sorting, shown unique |
| `Shifts` | when two pieces of work clash, and what that means minute by minute |
| `Matching`, `Cover`, `Rights` | the matcher, the search for cover, and the three places that judge rights |
| `Lifecycle`, `Invariants`, `Steps`, `Runs` | the placement life cycle with its mail; the invariant; every step keeps it; what follows over runs |
| `Conditions` | for every operation, the exact condition under which it goes in |
| `Told`, `Chasing`, `Mail` | who is told what, how often, and when; what is still written about finished work; every letter of every operation |
| `Reports`, `Terms` | what the tables remember is what was last reported; what people are paid is what was posted or agreed |
| `Scenes`, `Withdrawal`, `StaleCover` | small reachable states; how work on a withdrawn request comes to life; cover inserted after the no-show it was for is gone |
| `Desk` | the life cycle in place |
| `Offers` | offers that race: stale read, then guarded insert |
| `Outbox`, `Dispatchers` | one dispatcher in place; any number of them over shared rows |
| `Inbound`, `Switchboard` | replies: stored once, acted on once, or left for a human |
| `Escalations` | owners, deadlines and the sweep over missed ones |
| `Pay` | the ledger, and coordinators racing to write it |
| `Lmis` | report windows and what reports can reveal |

## Where the code does not do what a reader expects

Each is stated as the exact condition under which the expectation holds, for all inputs.

- The overlap guard compares dates and bare times of day. It reads hours that run past midnight as
  the hours between their end and their start, does not look at the day they run into, and answers
  no where an end is not stated. So it lets through work that promises a minute twice, and refuses
  work that shares none: a night keeps its worker from the morning before it, and an hour late in the
  evening is no safer than the night around it. Both failures have their exact condition, and it is
  right exactly when neither holds (`Shifts.TheGuardIsRightExactly`, `Shifts.NightsAreMisread`).
- The after-dark filter looks only at the stated end of the work. Work with no stated end, work that
  runs past midnight or has no start and ends by nightfall, and work that begins before dawn and ends
  by nightfall pass as daylight, wherever dawn is put
  (`Matching.SafetySeesExactlyStatedEveningEnds`, `Matching.TheSmallHoursPass`).
- The availability filter asks for one window on the weekday of the first day, by bare times of day.
  That means being free for all of the work exactly when both hours are stated and the work is an
  empty window or stays within one day (`Matching.AvailableMeansFreeExactlyForOneDaysWork`).
- The search for cover knows the time, but neither the date nor when the shift starts. What it takes
  to remain is right exactly during the shift with at most sixteen hours left, afterwards if by the
  clock the shift ended less than eight hours ago, and before it only at the very time of day it
  starts. Yesterday afternoon's shift looks open this morning, and tomorrow morning's looks fourteen
  hours long tonight (`Cover.RemainingIsRightExactly`, `Cover.YesterdaysShiftLooksOpen`,
  `Cover.TomorrowsShiftLooksLong`). A shift of less than an hour is still offered
  (`Cover.OfferedExactlyWhileAnHourCanBeWorked`, `Cover.AShortShiftIsStillOffered`).
- Sending cover looks at the no-show and inserts the cover in two statements with no lock. The record
  of who stands in for whom is kept exactly when the placement is still a no-show at the insert; a
  correction in between leaves a cover pointing at somebody who is there
  (`StaleCover.TheRecordHoldsExactlyWhileItIsANoShow`, `StaleCover.ACorrectionBetweenLeavesTwo`). The
  results about covered no-shows are about runs in which sending cover is one step.
- A yes or no with nothing to answer stays unhandled and answers the next offer made to its sender
  (`Inbound.AnOldAnswerMeetsANewOfferExactlyWhen`).
- The retry schedule ends in a wait of three hours that no message ever waits: the fifth failure on a
  channel falls back or ends instead (`Outbox.WhatAFailedCallLeadsTo`).
- A delivery without a provider reference is stored, and acted on, every time it arrives
  (`Inbound.StoredExactlyWhenNotSeen`).
- The refusal to correct a covered no-show tells the coordinator to cancel or end the cover first,
  but the check does not look at the cover's status: the refusal stands for good
  (`Runs.CoveredNoShowStandsForever`).
- A withdrawal ends what was waiting and then guards nothing. Over every run after it nobody is
  expected at the work exactly when no offer of it, no cover for its no-show and no correction of its
  no-show goes in, and each of the three does go in in a reachable state
  (`Withdrawal.AWithdrawalHoldsExactlyWithoutTheDoors`, `Withdrawal.EveryDoorOpens`).
- A completed placement can still have mail queued: its employer is asked whether it was attended, if
  it ended within the week, has been silent for two days and was not asked before. That is the only
  way (`Chasing.CompletedWorkIsQuietUnlessAsked`). A question that completion calls off is never put
  again (`Chasing.AQuestionIsNotRepeated`).

The correction of a no-show to active is covered by the overlap guard: the trigger of
`migrations/027_no_overlapping_placements.sql` fires on a change of status as well as on insert, so
the no-double-booking theorem is proved with that step included and nothing assumed.

## Model

| member | source | states |
|---|---|---|
| Runs.NobodyIsDoubleBooked | migrations/027_no_overlapping_placements.sql:27-76 | In every reachable state no candidate holds two live placements on different requests that clash; a minute of some day is promised twice exactly when one slips past the other, and never between same-day windows |
| Offers.NoRaceDoubleBooks | app/operations/requests.py:201-260 | The same over every interleaving of stale readings, guarded inserts and all other operations |
| Offers.RacesReachNothingNew | app/operations/requests.py:235-251 | However many sessions race, the tables are ones whole operations reach one after another |
| Offers.OffersGoOnlyToThoseWhoPassed | app/operations/requests.py:210-230 | Over every interleaving, each offer was made to somebody in the pool, old enough, consenting, free on the day, with every skill, able to bear the journey, safe to send and holding no clashing live work, on tables this run had come to before the offer was written |
| Offers.OnlyTheFirstOfTwoClashingReadingsIsWritten | app/operations/requests.py:232-251 | Of two readings of the same tables that clash, the second write is refused and changes nothing; without the guard it would double-book |
| Offers.AFreshReadingIsRefusedOnlyForARepeat | migrations/006_placements.sql:32 | On the very tables that were read an offer is refused only if that candidate was offered that request before |
| Shifts.ClashIsASharedMinute | app/matching/repository.py:184-205 | For all same-day windows nothing slips, and a minute is promised twice exactly when two that last at all clash |
| Shifts.TheGuardIsRightExactly | migrations/027_no_overlapping_placements.sql:50-62 | For all dates and hours the table accepts, overnight and open-ended ones included: work that does not clash promises a minute twice exactly when one piece slips past the other, work that clashes shares no minute exactly when one is shunned, and clashing is sharing a minute exactly when neither happens |
| Shifts.NightsAreMisread | migrations/027_no_overlapping_placements.sql:50-62 | On any date: an evening hour and its night, a night and the early shift after it, an open-ended shift and the morning in it do not clash and promise a minute twice; a night and the morning before it clash and share none |
| Runs.NoShowIsWhatTheLogSays | app/operations/attendance.py:276-336 | In every reachable state a placement is a no-show exactly when days were logged for it and none was attended; which days those are is Reports.TheLogHoldsWhatWasSaidLast |
| Runs.InvocationIsANoShow | app/operations/attendance.py:202-350 | The guarantee goes on the clock exactly when the placement is a no-show after the call |
| Runs.StatusSaysWhatIsHeld | app/operations/attendance.py:51-89 | In every reachable state a candidate's status is a decision about them or exactly what placements, cohorts and assessments say, the furthest first |
| Runs.CoveredNoShowStandsForever | app/operations/attendance.py:246-268 | A covered placement is a no-show with no present day in every later state and every correction of it is refused, whatever became of the cover |
| Runs.CorrectionGoesInExactlyWhen | app/operations/attendance.py:246-309 | A present day on a no-show goes in exactly when nobody was sent and no clashing work has been taken since |
| Runs.PlacementsAreNeverRewritten | app/operations/attendance.py:1-17 | Through every run a placement keeps request, candidate, pay and what it covers, and an ended one its status too |
| Runs.StepMovesOnly | app/operations/attendance.py:99-350 | Every operation moves statuses only along the life cycle and removes or rewrites no row |
| Runs.EveryCourseIsAPath | app/operations/attendance.py:99-350 | Over every run the statuses of one placement form a path of the life cycle that never returns to a stage it has left, except to swing between absent and come after all |
| Conditions.EveryOperationGoesInExactlyWhen | app/operations/requests.py:201-462 | In every reachable state, the exact condition under which each operation goes in, with the trigger and the indexes resolved to conditions on the tables |
| Conditions.PassingIsMayBeOffered | app/operations/requests.py:210-230 | For all tables, being a survivor of the matcher run on them is exactly: in the pool, old enough, consenting, available, with every skill, a bearable journey, safe to send, and no clashing live work, each in terms of the person and the rows |
| Terms.EveryRowIsAddedAtItsTerms | app/operations/requests.py:263-286 | An offer adds one row at the posted pay, a cover one row on the same request and unit at the pay agreed, or where none or zero was agreed at what the absent worker was to get; nothing else adds any |
| Terms.ReachablePaysAsPosted | app/operations/attendance.py:406-450 | In every reachable state a placement is paid in the unit its request was posted in, and unless it covers somebody, at the posted pay |
| Reports.ADayReportedIsTheDayRecorded | app/operations/attendance.py:270-296 | Every attendance report that goes in leaves the old log with its day set to what was said, whatever the status; no other operation touches the log |
| Reports.TheLogHoldsWhatWasSaidLast | app/operations/attendance.py:270-296 | Over every run a day of a placement is in the log exactly when a report of it went in, and what is there is what the last of them said |
| Reports.ANoShowIsReportedAbsentThroughout | app/operations/attendance.py:276-336 | Over every run a placement is a no-show exactly when days of it were reported and the last report of each of them is an absence |
| Reports.TheRollHoldsWhatWasRecordedLast | app/operations/cohorts.py:111-149 | Over every run a cohort's roll says of a person what was recorded last, and nothing if nothing was |
| Reports.DatesAreRecordedAsGiven | app/operations/attendance.py:99-199 | A start records its day, an end the day given or today but never before the start; no other operation moves a date, withdraws a request or posts one |
| Runs.ChainsAreNoShowsOnOneRequest | app/operations/attendance.py:391-450 | Chains of covers end, strictly older link by link; every replaced link is a no-show; all share one request and pay unit |
| Runs.ChainsSendDifferentPeople | migrations/055_the_guarantee_measures_what_it_promises.sql:42-45 | Nobody is sent twice along a chain, a chain is no longer than the number of people, and of the covers of one placement at most one is on the table |
| Runs.TheGuardNeverStopsSomebodyWhoHoldsTheOffer | migrations/027_no_overlapping_placements.sql:27-76 | In every reachable state the overlap guard refuses no change of status of a live placement |
| Runs.NothingIsSentAfterTheWork | app/messaging/events.py:212-251 | Declined, terminated and no-show placements have nothing queued, a cancelled one at most its notice, a completed one at most the question to its employer; dispatcher and daily chase included |
| Chasing.CompletedWorkIsWrittenAboutExactlyWhen | app/operations/attendance.py:558-597 | A completed placement with nothing queued gets mail by exactly one step: the chase of it, within a week of its end, after two silent days, with somebody to ask, for the first time |
| Chasing.CompletedWorkIsQuietUnlessAsked | migrations/047_chase_only_what_matters.sql:23-54 | Over every run after completion mail about the placement is ever queued exactly when its employer is asked |
| Chasing.AQuestionIsNotRepeated | migrations/046_attendance_chase_once.sql:19-26 | A placement asked about once is never asked about again, also when completion called the question off |
| Chasing.AFinishedShiftIsAskedAbout | migrations/047_chase_only_what_matters.sql:46-53 | A reachable state has a completed placement with its question queued |
| Steps.DoKeepsInv | app/operations/attendance.py:51-450 | Every operation that succeeds keeps all of these relations between the tables at once |
| Steps.CancelKeepsInv | app/operations/requests.py:385-462 | Cancelling a request and telling its workers one by one ends with every relation restored |
| Steps.LogKeepsInv | app/operations/attendance.py:270-350 | Same-day upserts that flip a day either way, and corrections, keep the relations |
| Told.EverybodyHearsOnce | app/messaging/events.py:53-96 | Every placement has had exactly one offer message, sent to its own candidate; it is cancelled exactly when there is exactly one notice of that, to the same candidate; an employer contact was asked about it at most once |
| Told.AStartLaysDownItsCheckIns | app/messaging/events.py:99-156 | A start queues four check-ins at nine on the right days and a reminder at six the evening before exactly when that is still to come |
| Mail.EveryOperationWritesItsLetters | app/messaging/events.py:53-251 | In every reachable state, for every operation but the sending itself: the outbox after it is the outbox before with what waited about the placements it ends called off, followed by its own letters, each with recipient, placement, channel and due time |
| Mail.SendingMovesOnlyMail | app/messaging/outbox.py:190-381 | An attempt moves its one queued row as consent, phone and the reply have it; a deferral and a withdrawal of consent move queued rows only, and nothing outside the outbox |
| Told.NobodyWaitsOnAWithdrawnRequest | app/operations/requests.py:431-460 | After a withdrawal nobody is live on the request, who waited is cancelled and has one notice, and no other placement moved |
| Withdrawal.WorkComesToLifeThroughThreeDoors | app/operations/requests.py:201-260 | At any step somebody comes to hold time for a request exactly when the step is an offer of it, cover for its no-show or a correction of its no-show, and goes in |
| Withdrawal.AWithdrawalHoldsExactlyWithoutTheDoors | app/operations/requests.py:385-462 | After a withdrawal nobody is live on the request, and over every run nobody ever is exactly when no step goes through one of those doors |
| Withdrawal.EveryDoorOpens | app/operations/attendance.py:297-308 | In some reachable state a withdrawn request can be offered, its no-show covered and its no-show corrected, each leaving live work on it |
| StaleCover.TheRecordHoldsExactlyWhileItIsANoShow | app/operations/attendance.py:406-450 | A cover inserted on later tables keeps the chain of covers, and every other relation, exactly when the placement is still a no-show then |
| StaleCover.AStaleCoverStillBooksNobodyTwice | migrations/055_the_guarantee_measures_what_it_promises.sql:42-45 | Whatever came before it, an insert that goes in books nobody twice, sends nobody twice to one request and leaves one cover on the table |
| StaleCover.ACorrectionBetweenLeavesTwo | app/operations/attendance.py:297-308 | A cover cleared on a reachable no-show goes in after its correction, leaving two live placements and a broken chain |
| Desk.Desk.LogAttendance | app/operations/attendance.py:202-350 | The upsert, the refusal that takes it back, and the status give exactly the specified tables and keep the invariant; it goes in exactly under its condition, and then the log is the old one with this day set to what was said |
| Desk.Desk.RecordReplacement | app/operations/attendance.py:391-468 | Cover goes in past rights, the trigger and both unique indexes, exactly under its condition and at the agreed or the failed worker's pay, or nothing changes |
| Desk.Desk.OfferPlacement | app/operations/requests.py:201-260 | The offer goes in exactly when the person may be offered the work (every filter, told by the person and the rows), was not offered it before and holds no clashing live work; refused means unchanged |
| Desk.Desk.RespondToOffer | app/operations/requests.py:289-337 | An offered row and no other is answered, a yes to accepted and a no to declined, with the refreshed status and the mail as specified, keeping the invariant |
| Desk.Desk.StartPlacement | app/operations/attendance.py:165-199 | An offered or accepted row and no other becomes active from the day given, with its mail, keeping the invariant |
| Desk.Desk.CompletePlacement | app/operations/attendance.py:99-124 | Exactly an active row completes, on the day given or today but not before its start, and no other row moves |
| Desk.Desk.TerminatePlacement | app/operations/attendance.py:127-162 | Exactly an accepted or active row ends so, with a reason, on the day it comes to, and no other row moves |
| Desk.Desk.ChaseUnconfirmedAttendance | app/operations/attendance.py:558-597 | The daily loop queues the specified questions, adds nothing else, and returns how many it added |
| Desk.Desk.CancelWorkRequest | app/operations/requests.py:385-462 | One bulk update and a loop over the workers give the specified tables |
| Desk.Desk.RefreshCandidateStatus | app/operations/attendance.py:51-89 | The status becomes the derived one unless a decision about the person stands |
| Desk.Desk.AnyDayAttended | app/operations/attendance.py:311-324 | Whether any logged day of the placement was attended |
| Desk.Desk.RecordOutcomeOf | app/operations/cohorts.py:111-149 | A cohort outcome is written and the status refreshed, keeping the invariant |
| Desk.Desk.RecordAssessmentResult | app/operations/registry.py:337-371 | Status is written without the refresh, and is still the derived one |
| Rights.TheWriteRefusesExactlyForRights | app/operations/attendance.py:377-388 | The cover write refuses a person exactly when age, consent, transport or safety fails or they left the pool; no clock is asked, and skills, free time and other work do not matter |
| Rights.WhoeverIsNamedCanBeSent | app/matching/repository.py:339-368 | Whoever the matcher or the search names is cleared by the write; an option of the search fails only as a repeat or behind another cover |
| Rights.NobodyCoversThemselves | migrations/006_placements.sql:32 | The person who failed is never recorded as their own cover |
| Matching.MatchCandidates | app/matching/engine.py:338-370 | Matches are the stable lexicographic sort of exactly the survivors; rejections keep pool order and name the first filter failed |
| Matching.SurvivorsAreThoseWhoMayDoTheWork | app/matching/engine.py:178-283 | A survivor is exactly somebody old enough, consenting, uncommitted, with the time, every skill, a bearable journey and a safe way home, each stated without the filters |
| Matching.HardExclusionsAreNamedInOrder | app/matching/engine.py:178-220 | The exclusion named is the first that applies: age, consent, commitment, availability, skill |
| Matching.RightsAreNamedInOrder | app/matching/cover.py:147-176 | The right named as missing is the first that fails, under its own filter |
| Matching.TransportAsksForABearableJourney | app/matching/engine.py:223-268 | Transport is viable exactly when the commute is within the person's limit and, where fares are not paid, the fare is within theirs and below three tenths of the day's pay; each failure is named for what it is |
| Matching.DailyPayIsTheDaysWorth | app/matching/engine.py:69-91 | What a day pays for each unit of pay, rounded down, and when that is not known |
| Matching.RankingIsByTheKey | app/matching/engine.py:286-292 | The order of the matches is the lexicographic order of the key tuples |
| Matching.PoolIsPartitioned | app/matching/engine.py:338-370 | Everybody in the pool is matched or rejected, once |
| Matching.RightsAreTheFourTests | app/matching/cover.py:147-176 | The rights test is age, consent, transport and safety together, whatever the person's commitments and skills |
| Matching.MatcherAgreesOnRights | app/matching/engine.py:178-283 | Matcher survivors hold all rights; whoever holds them is turned away only for commitment, availability or skill |
| Matching.SafetySeesExactlyStatedEveningEnds | app/matching/engine.py:271-283 | For a woman with no opt-in and no paid transport, whatever hours are stated and wherever dawn is put: exactly when refusing and going into the night, from 18:00 to dawn, are the same |
| Matching.TheSmallHoursPass | app/matching/engine.py:271-283 | Work from one to five in the morning and a night from ten to six pass the filter and are worked in the dark |
| Matching.AvailableMeansFreeExactlyForOneDaysWork | app/matching/engine.py:40-52 | Everybody who passes the availability test is free for every minute of the work exactly when both hours are stated and the work is an empty window or stays within a single day |
| Cover.FindCover | app/matching/cover.py:81-144 | Options and rejections partition the pool in the stated order; each option's minutes are exactly what remains less twenty and the commute, between an hour and sixteen |
| Cover.ObstaclesAreNamedInOrder | app/matching/cover.py:179-212 | What is named against somebody is the first of: a right, other work, no known home, arriving when it is over, arriving with less than an hour left |
| Cover.CoverRankingIsByTheKey | app/matching/cover.py:215-229 | The order of the options is the lexicographic order of the key tuples |
| Cover.ArrivalIsExact | app/matching/cover.py:75-78 | The wrap-around clock gives those minutes exactly, past midnight too |
| Cover.CoverPartitionsThePool | app/matching/cover.py:97-144 | Nobody is lost or doubled, and nobody without rights is an option |
| Cover.LongestCoverFirst | app/matching/cover.py:215-229 | Options stand in non-increasing minutes covered |
| Cover.RemainingIsRightExactly | app/matching/cover.py:97-110 | Over all moments and all shifts, with start and end days apart or not: the remaining time is what is still to be worked exactly at the time of day it starts before it, with sixteen hours or less left during it, and less than eight clock hours after it |
| Cover.YesterdaysShiftLooksOpen | app/matching/cover.py:97-110 | At ten in the morning a shift that ended at four the afternoon before has six hours left and is searched for |
| Cover.TomorrowsShiftLooksLong | app/matching/cover.py:97-110 | At ten in the evening a shift from eight to noon the next morning has fourteen hours left instead of four |
| Cover.OfferedExactlyWhileAnHourCanBeWorked | app/matching/cover.py:179-212 | From sixteen hours before the end to eight clock hours after it, before the start too: somebody cleared, free and locatable is offered exactly when an hour of the shift can be worked, unless the shift is shorter than that and they could be there an hour before its end |
| Cover.AShortShiftIsStillOffered | app/matching/cover.py:179-212 | At six somebody ten minutes away is offered for a shift from eight to half past |
| Cover.WaitingOnlyLosesPeople | app/matching/cover.py:97-144 | From sixteen hours before the end of a shift until its end the list of people who could be sent only shrinks |
| Sorting.StableSortIsTheOnlyOne | app/matching/engine.py:366-370 | Sorted and stable fixes the list: there is no other |
| Outbox.NextSendWindowIsEarliest | app/messaging/outbox.py:66-80 | The next window is the first moment from now on outside quiet hours, across midnight and the offset |
| Outbox.QuietHoursInUtc | app/messaging/outbox.py:66-69 | Quiet hours are from seven in the evening to five in the morning of UTC, nine to seven in Kigali |
| Outbox.AnAttemptIsPaidFor | app/messaging/outbox.py:273-381 | Every provider call lowers the budget, only the change to SMS resets attempts, SMS never goes back; sent means the provider said so, and records its reference; suppressed means it was not called |
| Outbox.WhatAFailedCallLeadsTo | app/messaging/outbox.py:333-381 | When a failed call falls back, ends or waits, and what the row then is; the waits are 1, 5, 15 and 60 minutes, and the scheduled 180 is never reached |
| Outbox.EveryMessageLeavesTheQueue | app/messaging/outbox.py:314-381 | As many attempts as the budget, ten for a new WhatsApp message, always take it out of the queue |
| Outbox.TheBudgetIsExact | app/messaging/outbox.py:314-381 | Against a provider that keeps failing for now, each attempt costs exactly one and all of them are made |
| Outbox.ClaimedRows | app/messaging/outbox.py:224-246 | A claim is distinct due rows allowed at this hour, the earliest due, as many as the limit lets in |
| Outbox.Dispatcher.Dispatch | app/messaging/outbox.py:190-259 | Each claimed row is tried once, others only deferred; no call to candidates or employers in quiet hours; each count of the report is the number of rows that came to that, and the four add up to the claim |
| Outbox.DeferralOnlyPostpones | app/messaging/outbox.py:201-221 | Exactly the due rows that may not go out at this hour move, to the next window; deferral drops nothing, spends no attempt and keeps the channel |
| Outbox.Dispatcher.Queue | app/messaging/outbox.py:103-155 | A row is added, queued, untried and due when asked, unless its template is once-only and already used for the placement |
| Outbox.Dispatcher.CancelForPlacement | app/messaging/outbox.py:158-175 | Exactly the queued rows of the placement are called off, and counted |
| Outbox.Dispatcher.RecordDelivery | app/messaging/outbox.py:384-416 | A receipt moves nothing that was not sent, reopens nothing, moves at most one message while references are unique and keeps them so, and changes nothing the second time |
| Outbox.ReceiptsConcernOne | migrations/049_provider_ref_is_unique.sql:1-43 | The same of the rows themselves: only the status of sent messages moves, and of one at most |
| Outbox.AReceiptFindsItsMessage | app/messaging/outbox.py:384-416 | Sending a message and then applying the receipt for the reference it was given marks that message delivered or failed, and no other |
| Outbox.ConsentIsTheLastWord | app/messaging/outbox.py:178-187 | Somebody has consented exactly when the last placement row of theirs is a grant, whatever they said of other purposes |
| Outbox.Dispatcher.RecordConsent | app/operations/registry.py:303-334 | The latest placement-consent row decides |
| Dispatchers.AtMostOnceOverEveryRun | app/messaging/outbox.py:224-259 | Over every interleaving: at most one success, at most five calls a channel and ten in all, WhatsApp to SMS once and never back, none sent after cancellation or suppression |
| Dispatchers.NothingFollowsClosing | app/messaging/outbox.py:224-259 | A message once out of the queue is never called about again |
| Dispatchers.EveryCallHadItsConsent | app/messaging/outbox.py:280-287 | Over every interleaving, every call to a candidate was made while the latest of her placement-consent rows there were at the time granted it |
| Dispatchers.SilenceUntilConsent | app/messaging/outbox.py:280-287 | While consent is withdrawn and until it is granted again no dispatcher calls about the candidate, whatever is queued, deferred, retried or claimed |
| Dispatchers.TwoCopiesSendTwice | app/messaging/outbox.py:232-246 | Without the row lock two dispatchers would both get a message through |
| Inbound.OneEffectPerReference | app/messaging/inbound.py:149-184 | Over every run, letters under one provider reference are one letter with at most one effect and one escalation, handled exactly when the effect happened |
| Inbound.HandledExactlyWhenDone | app/messaging/inbound.py:187-323 | A letter becomes handled exactly when what it asks and its note says was done: a report of that kind on its sender's newest placement with its owner by rank, an answer to the newest offer that accepts for a yes and declines for a no, or the withdrawal; otherwise only the note changes |
| Inbound.ALetterDoesWhatItSays | app/messaging/inbound.py:187-304 | In every reachable state the note on an unhandled letter is the one its sender, its meaning, the rota and the pending offers call for; only a yes or a no moves any placement |
| Inbound.AYesAcceptsAndANoDeclines | app/messaging/inbound.py:276-291 | With an offer pending, in every reachable state: a yes leaves the newest accepted, a no leaves it declined, every other placement is unmoved, and no other letter answers anything |
| Inbound.ReportsAreNeverDropped | app/messaging/inbound.py:202-267 | A reported problem is handled exactly when somebody active can own it and the sender is a candidate, or is unknown and it is about safeguarding |
| Inbound.StoredExactlyWhenNotSeen | app/messaging/inbound.py:149-184 | A delivery changes anything exactly when its reference is new or missing |
| Inbound.AnOldAnswerMeetsANewOfferExactlyWhen | app/messaging/inbound.py:276-299 | A fresh offer, of work or of cover, is answered by an earlier letter exactly when the candidate has an unhandled yes or no |
| Inbound.AnswersToNothingStayUnspent | app/messaging/inbound.py:293-300 | A yes or no with no offer outstanding stays unhandled |
| Inbound.RepliesKeepTheTables | app/messaging/inbound.py:187-304 | Runs with replies in them reach only tables the operations reach, so everything proved of those holds |
| Switchboard.Switchboard.Handle | app/messaging/inbound.py:187-304 | Handling in place gives the specified rows and note, and does what the letter asks: a yes accepts and a no declines the newest offer; a letter already handled changes nothing |
| Switchboard.Switchboard.RecordInbound | app/messaging/inbound.py:149-184 | Storing in place, or nothing for a repeated reference |
| Switchboard.Switchboard.HandlePending | app/messaging/inbound.py:379-393 | A run works through exactly the pending letters, oldest first up to the limit, and its counts are of the notes made |
| Switchboard.EachIsReachedPending | app/messaging/inbound.py:379-393 | No effect on one pending letter handles another: each is acted on as its own note says |
| Escalations.RoutingIsTotal | app/operations/escalations.py:378-402 | An owner is found unless nobody is active, a senior recipient unless there is none, and never the one who missed it unless alone |
| Escalations.ReportsGoByRank | app/operations/escalations.py:46-71 | On the staff rows: harassment and safety go to the first active owner, anything else to the first active supervisor, then owner, and failing those to the first active member of staff; a missed deadline to the first other owner, then the first other admin, then the first senior left |
| Escalations.Watch.Raise | app/operations/escalations.py:74-126 | Refused exactly when nobody is named and nobody active; else a new open row, owned by who is named or else by rank and kind, to be answered within 2, 4, 24 or 48 hours |
| Escalations.Watch.Acknowledge | app/operations/escalations.py:129-144 | Only an open escalation can be picked up |
| Escalations.Watch.Resolve | app/operations/escalations.py:147-188 | Closing needs an account and an open or acknowledged escalation, stops the clock if nobody had, and moves nothing else |
| Escalations.Watch.AlertOnMissedResponseTimes | app/operations/escalations.py:268-375 | Exactly the open, unanswered, unalerted rows past their deadline that have a senior to go to are marked and named, once, in messages to the person who is to hear of them by rank; nobody gets more than the limit; alerted and unroutable add up to breached; as many summaries as staff with more than the limit to hear |
| Escalations.SweepKeepsConsistent | app/operations/escalations.py:289-375 | After a sweep only the unroutable are still eligible, and marks and mentions still agree |
| Escalations.GroupsAddUp | app/operations/escalations.py:306-317 | Grouping by recipient loses no routable row |
| Escalations.BreachedOnce | app/operations/escalations.py:289-304 | Each missed deadline is selected exactly once and nothing else is |
| Escalations.Watch.CountKinds | app/operations/escalations.py:346-356 | The kinds counted in a summary add up to its total |
| Pay.PayLedger.RecordPayPeriod | app/operations/pay.py:34-134 | A claim goes in exactly when it covers some days, none of them paid already, for a positive wage, with lines that answer for exactly what is taken off, due and payable in order; then the books hold it as made, unpaid and unconfirmed, with exactly its lines; otherwise nothing is written |
| Pay.RecordedExactlyWhen | app/operations/pay.py:50-98 | For every sound ledger the checks of the code come to that condition, in terms of days and lines |
| Pay.GoodLinesAreAnswerable | app/operations/pay.py:145-161 | A line passes exactly when, the space around its words apart, it is of a listed kind and a positive amount, and damage or other has a note of ten characters |
| Pay.FreeDaysAreUnpaid | app/operations/pay.py:85-98 | The overlap query finds nothing exactly when no day of the claim is among the days already paid |
| Pay.InsertKeepsSound | app/operations/pay.py:100-169 | Periods stay disjoint and every record's positive lines sum exactly to its deductions, between zero and gross |
| Pay.NoDayIsPaidTwice | migrations/028_concurrency_guards.sql:57-94 | The lengths of a placement's periods add up to the number of distinct days they cover |
| Pay.EveryRunPaysEachDayOnce | migrations/028_concurrency_guards.sql:57-94 | The same over every interleaving of checks and guarded inserts |
| Pay.TheCheckAloneRaces | app/operations/pay.py:85-103 | Whenever the check passes for one session it passes for a second, and writing both without the guard pays days twice |
| Pay.PayLedger.MarkPaid | app/operations/pay.py:256-272 | A record is marked paid once |
| Pay.PayLedger.ConfirmWithWorker | app/operations/pay.py:275-319 | A worker's no raises one escalation, or the answer is not recorded |
| Lmis.NoReportSeparatesDays | app/operations/lmis.py:132-223 | Datasets that agree month by month give the same outcomes and summary through every accepted window; that small cells are hidden is Lmis.SmallCellsAreHidden |
| Lmis.SmallCellsAreHidden | app/operations/lmis.py:126-181 | A group is reported exactly when a counted row is behind it; each of its five cells is hidden exactly when fewer than five counted rows of the group have the property, and otherwise shows how many do |
| Lmis.TotalsCountTheRows | app/operations/lmis.py:184-223 | The summary counts rows, women and cooperatives by row and people and employers once, and its means are of what is paid by the day |
| Lmis.WindowsAcceptedAreWholePastMonths | app/operations/lmis.py:72-102 | A window is accepted exactly when it runs from a first to a last of the month, in order, and every month of it is over |
| Lmis.AlignedExactlyWhenDayBlind | app/operations/lmis.py:44-102 | A window is blind to the day exactly when it runs from a first to a last of the month |
| Lmis.DifferenceIsWholeMonths | app/operations/lmis.py:44-102 | What one accepted window has over another is whole months, each acceptable by itself |
| Lmis.WholeMonthsEndingBefore | app/operations/lmis.py:113-123 | Exactly that many whole months ending the day before this month, accepted for the same date |
| Calendar.LastDayIsLast | app/operations/lmis.py:105-110 | The month-end arithmetic lands on the last valid day of the month |
| Calendar.DayBeforeIsOneDayEarlier | app/operations/lmis.py:113-123 | Stepping back a day goes back exactly one, over month ends, leap days and year ends |

## Left out

- Routers, pages, templates' wording, sessions and passwords: presentation and plumbing.
- Fares and distances: a candidate's fare and commute are given as optional integers.
- How a reply's words are read: the reading is a parameter, the same for the whole run.
- `work_requests.status` between open, filling and filled, and headcount: refreshed only after offers and answers, so it is no summary of the live count.
- Follow-up rows, contracts' content, notes on termination: text around the statuses modelled; whether a contract can be issued is an input.
- Scorecards, employer health and the audit log: classifications over the same tables.
- Desk.Desk.ChaseUnconfirmedAttendance: asks in row order, not longest silence first, which only changes the order of rows queued at one moment.
- Offers.OffersGoOnlyToThoseWhoPassed: what the filters read about the person (age, consent, skills, fares, free time) is given with the reading, because those tables are not part of the life cycle; being uncommitted is read from the tables.
- Work with a start and no stated end is taken to run to midnight, and work with no start to last all day.
- Identity and what erasure removes: only the withdrawn status it leaves is modelled.
- Cohort capacity, women-only and cohort-status rules: enrolment is modelled where it feeds the candidate status.
- Deadlocks, and a crash between a provider call and its commit.
- Races inside one attendance log or one reply: the code takes no lock there, so these stay atomic. The race inside sending cover is modelled by itself, not mixed into the runs.
- Pay.PayLedger.ConfirmWithWorker: whether anybody can own the escalation is given; when somebody can is Escalations.RoutingIsTotal.
- The session time zone that turns a moment into an offer's date, and dates after year 9999.
- Two escalation sweeps at once: each skips the rows the other has locked. The words and the oldest date in a summary.
- `summarise` and the reasons written for people to read.
- Ties in `ORDER BY received_at`, `offered_at` and `send_after`: resolved by insertion order.
- Space around words is space, tab and line ends: other white space of Unicode is not part of this model.
- Desk.Desk.OfferPlacement: runs the filters on the one candidate instead of searching the match list, which by Matching.PoolIsPartitioned names exactly the survivors of the pool.
- Lmis.WholeMonthsEndingBefore: before January of year 1 it refuses where the library would raise its own error.
