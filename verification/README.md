# Verified model of the equipment booking portal

The portal of an institute lets people book scientific instruments. This project models seven of its components, the
ones that keep state or compute something whose specification is not obvious from the code, and proves what they
promise. Everything is written for Dafny 4.11; `dafny verify dfyconfig.toml` checks the whole project.

1. **Announcement campaigns** (`LogKeys`, `Campaign`, `CampaignProtocol`). A run takes a lock, leaves out the users
   already logged as sent, sends in batches over one connection each, logs every attempt, and stops after a streak of
   failures; a later run resumes. `Campaign.MailRoom` is one run as the code executes it, with the lock table, the log
   and the outbox as fields. `CampaignProtocol` is any number of runs interleaved step by step, and `SoloRun` ties the
   two together.
2. **Slots, refunds, waitlist, ledger, week chunks** (`SlotDesk`, `RefundOverlap`, `Waitlist`, `Ledger`, `WeekChunks`).
   `SlotDesk.SlotOffice` performs bulk status changes with their refunds on slots, bookings and wallets; the refunds are
   done one by one in any order, and any of them may fail. `Desk` is the state as a value, on which runs of calls, new
   bookings and booking progress are proved safe. `RefundOverlap` lets requests overlap.
3. **Slot suggestions** (`SlotRanking`, `Sorting`). Times are minutes and scores are integers in thousandths.
4. **Menu tree** (`MenuTree`). Parent pointers are arbitrary, cycles included; the recursion is proved to end from the
   roots, with the path from the root as ghost argument.
5. **Daily cap on AI calls** (`LlmBudget`). The counter is read and incremented in separate steps by N workers; cache
   operations that fail silently are counted.
6. **Email texts** (`Text`, `Lines`, `NoteFilter`, `NoteText`, `BookingNote`, `NoteWording`, `Money`, `ClockFormat`,
   `SlotEnd`). The comment on a new booking and the filter that takes the summary out of it again, the money printer and
   its reader, and ends of slots at 24:00 (section 4.2.3 of ISO 8601:2004). `NoteFilter` knows lines only by kind,
   `NoteText` adds splitting, joining and trimming for any reader of lines, `BookingNote` supplies the portal's reader,
   and `NoteWording` says what both do word by word.
7. **Weekly alerts** (`WeekDates`, `OicAlerts`, `OicOverlap`, `OicRecipients`). Week keys (section 4.1.4 of ISO
   8601:2004) on ordinal days, calls over a durable log, one after another and overlapping, and who is told of which
   equipment.

`Common` holds what several of them share.

## Where the code and what is said of it differ

The model follows the code. These are proved, each with the condition under which the claim holds:

- A test in iic_booking/automation/tests/test_automation.py:196 notes one suggestion per day. The usual-time pick is
  not checked against the day of the earliest pick, so the claim holds if and only if no other run that starts at a
  usual hour shares the day of the earliest run (`OnePerDayIff`; `TwoOnOneDay` is an instance).
- A bulk change to BLOCKED, UNDER_MAINTENANCE or SCHEDULED_MAINTENANCE tries to refund bookings closed as not
  utilized, which the refund refuses: one such slot makes the whole call fail every time (`CanSucceedIff`,
  `NotUtilizedBlocksRefund`). `NotUtilizedThenBlocked` is a run that gets there. The refunds done before the failure
  stay.
- A refund refuses a booking that is refunded, but locks no row when it looks. With N requests that overlap a booking
  may be credited N times and no more (`CreditsPerBooking`, `EveryRequestPays`). A slot chosen by a bulk call and booked
  before it is marked ends up closed and booked (`LateMarkIff`, `BookedMeanwhile`).
- The weekly alert is meant to reach an officer once a week. Calls that overlap may send one each, and no more, unless
  log rows are lost (`AlertsPerWeek`, `EveryCallSends`).
- At midnight every hour of a format is replaced by 24 if and only if each of its twelve-hour directives begins one of
  two written-out clocks (`NoHourLeftIff`); any other shows 12 (`StrayClockShowsTwelve`, with the instance
  `UnspacedClockIsStray`, which also shows that no format in use is affected).
- The daily AI cap is a cap for one worker only. With N workers the bound is limit + N - 1, it is reached, and failing
  cache operations that are silenced add to it (`DailyBound`, `BoundIsReached`).
- Log keys are read a little wider than they are written: a user id with leading zeros is accepted, as in
  `ForeignKeyIsClaimed`. So the ids returned are exactly the users logged as sent if and only if every such row is
  doubled by one of the key as written (`AlreadySentIdsExact`), which is so when nobody else writes such keys
  (`MadeKeysAreExact`). Campaigns are isolated all the same (`KeyHasOneOwner`).
- `format_inr` is said to return the empty string for an invalid amount. The rounding stands outside the `try`: it
  raises for exactly the amounts from 10^28 - 1/2 hundredths on, the infinities and the signalling NaNs (`RaisesIff`,
  `TextRaisesIff`; `InfRaises` and `LargeRaises` are instances).
- Pages of the transaction history cover the list if and only if the page size is positive, and the request may ask
  for a size of zero or below (`PagesCoverIff`; `ZeroLimitShowsNothing` is an instance).
- The comment filter gives back exactly the optional sections of the comment if and only if nothing is left of further
  lines of the equipment name and the sections pass the filter themselves (`StripOfBuilt`). With every value on one line
  this is so if and only if no line that shows the person reads as a header or a summary line (`StripOfSingleLines`).
  `PersonMistaken` is a person named like a line of charges, `SecondNameLineStays` a name of two lines.
- An officer entered twice for one equipment is told of it twice in one email, as the table of officers has no unique
  constraint (`ToldOfOwnEquipment`; `EnteredTwice` is an instance).

## Model

| member | source | states |
|---|---|---|
| LogKeys.KeyHasOneOwner | iic_booking/communication/announcements.py:198-210 | a key made for one campaign is read back by that campaign only, as the same user, whatever the slugs, colons and prefixes of one another included |
| LogKeys.LogKeyInjective | iic_booking/communication/announcements.py:198-199 | campaign and user can be read off a log key |
| LogKeys.LockKeyInjective | iic_booking/communication/announcements.py:386 | different campaigns have different locks |
| LogKeys.KeysRead | iic_booking/communication/announcements.py:198-199 | the words of a log key and of a lock |
| LogKeys.AlreadySentIdsExact | iic_booking/communication/announcements.py:202-210 | the ids returned for a campaign are exactly the users logged SENT through log_key, if and only if its SENT rows with a superfluous leading zero are doubled by rows of the key as written; rows of other campaigns and other statuses play no part |
| LogKeys.MadeKeysAreExact | iic_booking/communication/announcements.py:198-210 | so they are exact for every campaign when all keys under the prefix come from log_key |
| LogKeys.ForeignKeyIsClaimed | iic_booking/communication/announcements.py:210 | a log on which they are not exact: key "07" is read as user 7 |
| Campaign.RecordedSent | iic_booking/communication/announcements.py:326-352 | recording SENT adds one user to the sent set of one campaign and to no other |
| Campaign.RecordedFailed | iic_booking/communication/announcements.py:326-352 | recording FAILED for a user not yet sent changes no sent set |
| Campaign.KeptRows | iic_booking/communication/announcements.py:331-352 | rows of other keys are untouched, and no second row of the key with another status appears |
| Campaign.MailRoom.Record | iic_booking/communication/announcements.py:326-352 | the newest row of the key is rewritten, or a row is added when there is none |
| Campaign.PendingAreNew | iic_booking/communication/announcements.py:390-394 | pending users are distinct recipients, none of them sent before |
| Campaign.PendingInOrder | iic_booking/communication/announcements.py:390-391 | of two recipients not yet sent, the one listed first is pending first |
| Campaign.LimitedPending | iic_booking/communication/announcements.py:390-394 | everybody not yet sent is pending; a positive limit leaves the first of them, as many as it says, and a negative one all but the last |
| Campaign.EndingExact | iic_booking/communication/announcements.py:404-440 | the counter and the batch loop stop early exactly at the first max_failures failures in a row, counted across batches, unless a connection fails first; otherwise every pending user is attempted |
| Campaign.EndsAsOneThing | iic_booking/communication/announcements.py:404-459 | the specification of the ending admits one ending only |
| Campaign.SentAndFailed | iic_booking/communication/announcements.py:411-448 | sent and failed are exactly the attempts delivered and not delivered |
| Campaign.MailRoom.SendOne | iic_booking/communication/announcements.py:411-448 | after every attempt attempted = sent + failed, the failed ids are the failed users in order, and log and outbox agree with them |
| Campaign.MailRoom.SendBatch | iic_booking/communication/announcements.py:408-453 | one batch over one connection, with the counter of failures handed on to the next |
| Campaign.MailRoom.SendCampaign | iic_booking/communication/announcements.py:376-461 | a busy lock changes nothing; otherwise the log, the outbox and the report are those of the specified ending, and the lock table is as before however the run ends |
| Campaign.SentSetAfterRun | iic_booking/communication/announcements.py:404-459 | a run adds to the sent set exactly the users delivered to |
| Campaign.OtherCampaignsKept | iic_booking/communication/announcements.py:404-459 | a run leaves every other campaign's sent set alone |
| Campaign.NextRunResumes | iic_booking/communication/announcements.py:390-394 | the next run's pending users are exactly the recipients neither sent before nor delivered to in this run |
| CampaignProtocol.StepKeeps | iic_booking/communication/announcements.py:376-461 | each step of any run keeps the invariant: one active run per campaign, no duplicate delivery, one row per key, every delivery logged or about to be |
| CampaignProtocol.AtMostOnce | iic_booking/communication/announcements.py:376-461 | for any number of interleaved runs with any failures: one run past each lock, no user gets two emails of a campaign, one row per key, the sent set accounts for exactly the deliveries |
| CampaignProtocol.SentOnlyGrows | iic_booking/communication/announcements.py:376-461 | no step takes a user out of a campaign's sent set |
| CampaignProtocol.SoloRun | iic_booking/communication/announcements.py:376-461 | the run of MailRoom.SendCampaign, left alone, is a path of the protocol to the same log, outbox and locks |
| CampaignProtocol.ExpiredLockSendsTwice | iic_booking/communication/announcements.py:387 | the assumption that the lock outlives the run is needed: two steps later the user is sent to twice |
| CampaignProtocol.LostLogWriteSendsTwice | iic_booking/communication/announcements.py:435-448 | the assumption that the log write completes is needed |
| SlotDesk.SlotOffice.RefundBooking | iic_booking/equipment/api_views.py:12682-12801 | a refund marks the booking REFUNDED, credits the wallet once and gives back all its slots; when it fails nothing changes |
| SlotDesk.RefundTwice | config/admin_api.py:3352-3360 | refunding two sets of bookings one after the other is refunding them together, wallets included |
| SlotDesk.SlotOffice.RefundAll | config/admin_api.py:3352-3360 | bookings are refunded once each until one fails, and the state is that of the ones done |
| SlotDesk.SlotOffice.DisruptAll | config/admin_api.py:3362-3376 | bookings under OPERATOR_ABSENT are marked until one fails |
| SlotDesk.SlotOffice.BulkSlotStatus | config/admin_api.py:3255-3489 | each answer with the state it leaves: no slots, nothing booked, all booked, preview, aborted on a refund or a disruption, or updated with updated + skipped = selected, some bookings perhaps not closed as their update failed |
| SlotDesk.ChosenIff | config/admin_api.py:3269-3290 | which slots a call changes: those asked for, without the booked ones where bookings are spared and only booked ones where bookings are closed |
| SlotDesk.ToRefundIff | config/admin_api.py:3298-3306 | which bookings it refunds: those not yet refunded that own one of these slots, for the three statuses that close a slot |
| SlotDesk.PreviewIff | config/admin_api.py:3314-3329 | a preview changes nothing and names exactly the bookings that would be refunded or left to their users' choice |
| SlotDesk.BookedSlotsSpared | config/admin_api.py:3279-3290 | corollary of BulkSlotStatus: NOT_AVAILABLE and RESERVED_EXTERNAL leave every booked slot, booking and wallet as they were |
| SlotDesk.BookableIff | iic_booking/equipment/models.py:3312-3328 | slots can be booked exactly when each is available or reserved and has no booking |
| SlotDesk.OperatorAbsentRefundsNothing | config/admin_api.py:3298-3306 | corollary of BulkSlotStatus: OPERATOR_ABSENT moves no money and takes no slot from its booking |
| SlotDesk.UpdatedSlot | config/admin_api.py:3352-3383 | corollary of BulkSlotStatus: after a call that went through, chosen slots have the new status, the label if blocked, the reference if reserved, and their booking unless it was refunded; other slots of refunded bookings are given back, under maintenance as under maintenance; all others are as before |
| SlotDesk.UpdatedBooking | config/admin_api.py:3298-3416 | corollary of BulkSlotStatus: after a call that went through, each booking is refunded, left to its user's choice, closed as not utilized unless that failed, or as before, by the status asked for |
| SlotDesk.CanSucceedIff | config/admin_api.py:3292-3383 | a call can go through if and only if it has a slot to change and each booking it would refund can be refunded |
| SlotDesk.NotUtilizedBlocksRefund | config/admin_api.py:3301-3306 | a slot of a booking closed as not utilized keeps such a call from ever going through |
| SlotDesk.NotUtilizedThenBlocked | config/admin_api.py:3301-3306 | a run of three desks that ends before such a slot: booked, closed as not utilized, then to be blocked |
| SlotDesk.StepKeeps | config/admin_api.py:3292-3416 | bulk calls of any outcome, new bookings, out of reserved slots too, and booking progress keep the invariant and move wallets by exactly the newly refunded credits |
| SlotDesk.RunKeeps | config/admin_api.py:3292-3416 | over any run of calls that do not overlap no blocked or maintenance slot is linked to a booking, and each booking is refunded at most once |
| SlotDesk.LeftToRefund | config/admin_api.py:3298-3306 | after an aborted call, the same call has exactly the outstanding bookings left to refund |
| SlotDesk.RetryEqualsOneCall | config/admin_api.py:3298-3383 | repeating an aborted call ends in the state of one unfailing call: same slots, bookings and total credit |
| SlotDesk.RetriesEqualOneCall | config/admin_api.py:3298-3383 | however often the call is tried, with bookings outside its selection and progress of other bookings between the attempts, the state it is to end in is that of one unfailing call changed by those other steps alone |
| SlotDesk.PlainRetries | config/admin_api.py:3298-3383 | with nothing between the attempts it is that very state |
| SlotDesk.RefundUndoesBooking | iic_booking/equipment/models.py:3312-3342 | a refund gives back the slots as the booking took them, available ones available and reserved ones reserved under their reference; under maintenance they come back under maintenance |
| RefundOverlap.StepKeeps | iic_booking/equipment/api_views.py:12691-12763 | each step of overlapping requests keeps the invariant: the commits of a booking and the requests about to commit it are no more than the requests, and none while it is not settled |
| RefundOverlap.CreditsPerBooking | iic_booking/equipment/api_views.py:12691-12763 | however N requests overlap, failing or aborted ones included: wallets move by exactly the credits of the commits, no booking is credited more than N times, and one settled before is not credited |
| RefundOverlap.EveryRequestPays | iic_booking/equipment/api_views.py:12691-12763 | N requests that all look before one commits credit the booking N times |
| RefundOverlap.SoloRefund | iic_booking/equipment/api_views.py:12682-12763 | one request alone does what RefundBooking does |
| RefundOverlap.BookingIsHarmless | iic_booking/equipment/models.py:3312-3328 | new bookings may come between the steps of the requests |
| RefundOverlap.ProgressIsHarmless | config/admin_api.py:3391-3416 | so may the progress of bookings that are not settled |
| RefundOverlap.CallIsHarmless | config/admin_api.py:3362-3416 | so may the marking, disrupting and closing of bulk calls, on slots and bookings chosen earlier |
| RefundOverlap.LateMarkIff | config/admin_api.py:3378-3383 | marking slots chosen earlier keeps closed slots without a booking if and only if it closes none that has one by now |
| RefundOverlap.BookedMeanwhile | config/admin_api.py:3378-3383 | a slot booked between the choice and the marking is closed with its booking |
| Waitlist.WaitlistRows | config/admin_api.py:3616-3647 | the one pass with one dictionary gives each active entry the number of active entries of its equipment up to it |
| Waitlist.NarrowedListAgrees | config/admin_api.py:3748-3799 | for any merge of queues, the rows of one equipment in the all-equipment list are the rows of its own list |
| Waitlist.PositionsCount | config/admin_api.py:3636-3647 | the positions of one equipment are 1, 2, ..., n in order |
| Waitlist.NumberedIffActive | config/admin_api.py:3639-3647 | an entry has a position exactly when its status is empty or reads ACTIVE, and is shown as opted out exactly when it reads OPT_OUT, in any letter case |
| Waitlist.StatusesRead | config/admin_api.py:3639-3641 | stored and typed statuses, as they are read |
| Waitlist.CodeNamesOneEntry | config/admin_api.py:3647 | within one equipment a waitlist code names one entry |
| Waitlist.CodesRead | config/admin_api.py:3647 | positions 1 and 12 read WL1 and WL12 |
| Ledger.History | config/admin_api.py:1556-1570 | the loops fill the balance map as the backward replay says and the list is the sorted merge |
| Ledger.ReplayedSteps | config/admin_api.py:1561-1567 | the newest transaction of a sub-wallet shows its balance, each older one what the next newer one shows less its amount after a credit, plus its amount after a debit |
| Ledger.CreditThenDebit | config/admin_api.py:1561-1567 | an instance: 100 after a credit of 100, and 60 after a debit of 40 |
| Ledger.ReplayIsForward | config/admin_api.py:1557-1567 | the balance shown after each transaction is the forward running balance, when the current balance is the opening one plus all transactions |
| Ledger.ForwardSteps | config/admin_api.py:1559-1567 | the forward balance: the oldest transaction takes the opening balance up or down, each newer one the balance before it |
| Ledger.ReplayOff | config/admin_api.py:1559-1567 | in general every entry of a sub-wallet is off by the amount by which its balance does not add up |
| Ledger.MergedList | config/admin_api.py:1570 | the merged list has the same transactions, newest first, equal times in the order read |
| Ledger.ReadInOrder | config/admin_api.py:1559-1568 | transactions are read wallet by wallet |
| Ledger.PageHolds | config/admin_api.py:1572 | a page holds the transactions from its offset on, no more than its limit; a negative offset counts from the end, and is empty when the limit reaches the end |
| Ledger.PagesAreAPrefix | config/admin_api.py:1572 | consecutive pages are a prefix of the list, and enough of them are all of it |
| Ledger.PagesCoverIff | config/admin_api.py:1538-1572 | some number of consecutive pages gives the whole list if and only if the page size is positive |
| Ledger.ZeroLimitShowsNothing | config/admin_api.py:1538-1572 | with a page size of zero no number of pages shows a list that is not empty |
| WeekChunks.GenerateWeeks | config/admin_api.py:3247-3253 | the loop ends, and its chunks tile the dates from first to last in pieces of at most seven days |
| WeekChunks.EachDayOnce | config/admin_api.py:3247-3253 | every date is in exactly one chunk and no other date in any |
| WeekChunks.ChunkCount | config/admin_api.py:3247-3253 | the number of chunks is the number of days divided by seven, rounded up |
| SlotRanking.WindowsExact | iic_booking/research_copilot/services/intelligence/flows.py:156-166 | the runs are exactly the windows of back-to-back slots |
| SlotRanking.RunsAreRuns | iic_booking/research_copilot/services/intelligence/flows.py:156-166 | a run is as many slots of the list as asked for, each with an end at which the next one starts, on one day |
| SlotRanking.ChainIsFound | iic_booking/research_copilot/services/intelligence/flows.py:156-166 | no run is missed: when no two slots start together, every such chain of slots with no other slot starting in between is among the runs |
| SlotRanking.FirstRunIsEarliest | iic_booking/automation/slot_suggestions.py:123-130 | no run of the list starts before the first, and runs without a start come first |
| SlotRanking.DistanceIsLeast | iic_booking/automation/slot_suggestions.py:83 | the distance of a start hour is to the nearest usual hour |
| SlotRanking.ScoreIsNearest | iic_booking/automation/slot_suggestions.py:79-85 | the score is the weighted sum to the nearest thousandth, and an earlier day never scores lower at an hour of the same preference |
| SlotRanking.PreferenceTable | iic_booking/automation/slot_suggestions.py:81-84 | the preference is full at a usual hour, 0.6 within one hour of one, 0.3 within two, and none beyond |
| SlotRanking.DaysLeftTable | iic_booking/automation/slot_suggestions.py:79-80 | the days that count for a start: all fourteen today or before, one less a day, none from day fourteen on |
| SlotRanking.TimeRead | iic_booking/automation/slot_suggestions.py:25-29 | a start in minutes is its day, hour and minute |
| SlotRanking.PickFixed | iic_booking/automation/slot_suggestions.py:91-102 | the picks before the fill are the earliest run and the earliest other run at a usual hour, with their reasons |
| SlotRanking.MatchingIff | iic_booking/automation/slot_suggestions.py:96 | another run matches exactly when it starts at a usual hour |
| SlotRanking.FixedReasonsSay | iic_booking/automation/slot_suggestions.py:91-102 | the earliest run is called that, and at a usual hour only when no other run matches; the other pick is told by its start |
| SlotRanking.Fill | iic_booking/automation/slot_suggestions.py:103-115 | the greedy fill is day-optimal: each further pick is the best run of its day, no unrepresented day has a better one, and fewer than five come back only when every day is represented |
| SlotRanking.FillReasonsSay | iic_booking/automation/slot_suggestions.py:109-113 | the reasons of a further pick: close to a usual hour when one is no more than an hour off, and the next free day up to two days ahead, else the number of days |
| SlotRanking.FillPicksHighest | iic_booking/automation/slot_suggestions.py:103-108 | a further pick scores higher than any run of its day or of a day left out, or as high and starts no later |
| SlotRanking.OneDayOptimalChoice | iic_booking/automation/slot_suggestions.py:103-115 | day-optimality determines the picks: no other choice has it |
| SlotRanking.DaysDistinctIff | iic_booking/automation/slot_suggestions.py:95-115 | the picks fall on distinct days if and only if no other run at a usual hour shares the day of the earliest run |
| SlotRanking.OnePerDayIff | iic_booking/automation/slot_suggestions.py:72-120 | so the ranking has one suggestion per day under exactly this condition on the runs and the usual hours |
| SlotRanking.TwoOnOneDay | iic_booking/automation/slot_suggestions.py:95-103 | runs and a usual hour for which two picks share a day |
| SlotRanking.RankRuns | iic_booking/automation/slot_suggestions.py:72-120 | the result is a day-optimal choice after the fixed picks, in order of start |
| SlotRanking.RankingIsOrdered | iic_booking/automation/slot_suggestions.py:72-120 | there are at most five suggestions in order of start, each a run on offer with the score of its start |
| SlotRanking.FirstIsEarliest | iic_booking/automation/slot_suggestions.py:92-116 | the first suggestion is the earliest usable run |
| SlotRanking.RankingLeads | iic_booking/automation/slot_suggestions.py:92-116 | a ranking leads with the earliest usable run, and is empty only when no run is usable |
| SlotRanking.Suggest | iic_booking/automation/slot_suggestions.py:133-184 | the suggestions are the ranking of the instrument's runs and lead with the earliest, and alternatives are given only when nothing fits or the first fit is more than three days away |
| SlotRanking.AlternativesAreEarlier | iic_booking/automation/slot_suggestions.py:167-183 | every alternative falls on a day before every usable run of the instrument asked for |
| SlotRanking.AlternativesComplete | iic_booking/automation/slot_suggestions.py:167-183 | every similar instrument whose first run is on an earlier day, or on any when nothing fits, is listed with that run |
| SlotRanking.NeededTable | iic_booking/automation/slot_suggestions.py:137 | between 1 and 24 slots are asked for |
| Sorting.SortBySorts | iic_booking/automation/slot_suggestions.py:104 | sorting gives the same elements in order |
| Sorting.SortByStable | config/admin_api.py:1570 | elements with equal keys keep their order |
| Sorting.FilterAppend | iic_booking/automation/slot_suggestions.py:96 | what a filter keeps stands in the order it had |
| MenuTree.PathBound | iic_booking/cms/serializers.py:106-108 | a path below a root never repeats an item, which bounds the recursion |
| MenuTree.MenuShows | iic_booking/cms/serializers.py:84-108 | for any parent pointers the menu shows exactly the items whose whole chain of ancestors is active and reaches a root |
| MenuTree.MenuDistinct | iic_booking/cms/serializers.py:84-108 | no item is shown twice |
| MenuTree.MenuOrdered | iic_booking/cms/serializers.py:107 | siblings stand in order of priority, then id, at every level |
| MenuTree.TreeExistsOffCycles | iic_booking/cms/serializers.py:106-108 | an item can be serialized at all if and only if it is not below itself |
| LlmBudget.Budget.Consume | iic_booking/automation/audit.py:58-72 | an undisturbed call is granted if and only if there is a cap and the count is below it, adds one to the count of its day exactly when granted, and changes no other day |
| LlmBudget.SequentialGrants | iic_booking/automation/audit.py:58-72 | one worker alone is granted exactly min(k, room left) of any k calls, and no other day's counter moves |
| LlmBudget.DailyBound | iic_booking/automation/audit.py:58-72 | for N interleaved workers the calls granted plus the increments that took effect and then raised are the counter plus the increments lost; the counter is at most limit + N - 1 plus the lost reads, the calls granted at most that plus the lost increments |
| LlmBudget.DailyBoundWithoutFaults | iic_booking/automation/audit.py:58-72 | without faults the counter equals the calls granted and never exceeds limit + N - 1 |
| LlmBudget.BoundIsReached | iic_booking/automation/audit.py:58-72 | the bound cannot be lowered |
| Lines.SplitOfJoin | iic_booking/communication/email_branding.py:208-224 | joined lines split into the same lines when the last is not empty |
| Lines.BreaksRead | iic_booking/communication/email_branding.py:208 | any break ends a line, and a carriage return with its line feed ends one together |
| Lines.BreaksAre | iic_booking/communication/email_branding.py:208 | the characters that break a line |
| Text.SpacesAre | iic_booking/communication/email_branding.py:209 | the characters that are removed at the ends of a line |
| NoteFilter.TidyIsKept | iic_booking/communication/email_branding.py:206-224 | lines without headers, summary lines or superfluous blank lines are left alone |
| NoteFilter.ContentsStay | iic_booking/communication/email_branding.py:206-224 | blank lines aside, what is left is every plain line except the equipment names, in order |
| NoteFilter.SkippingIff | iic_booking/communication/email_branding.py:209-217 | a line stands for an equipment name exactly when an odd number of bare headers is directly before it |
| BookingNote.StripNote | iic_booking/communication/email_branding.py:201-224 | the loop with its flag and output list computes the line filter |
| BookingNote.StripOfAnyText | iic_booking/communication/email_branding.py:201-224 | stripping twice is stripping once, no header or summary line is left, and the lines left are lines of the text in order |
| BookingNote.BuildIsFlat | iic_booking/communication/email_branding.py:126-178 | the nested on-behalf text stands in the comment line by line |
| NoteWording.CommentHolds | iic_booking/communication/email_branding.py:141-178 | the lines of the comment with their words, from top to bottom |
| NoteWording.PersonShown | iic_booking/communication/email_branding.py:110-123 | which lines show the person: the name or else the email address, then department and organisation, or the email address unless the name holds it |
| NoteWording.LineReadAs | iic_booking/communication/email_branding.py:181-220 | which lines are headers, bare headers and summary lines, told from their letters |
| NoteWording.StripOfLine | iic_booking/communication/email_branding.py:201-224 | of a text of one line a header or a summary line is dropped, and any other stays |
| NoteWording.NextLineGoes | iic_booking/communication/email_branding.py:209-217 | behind a bare header the next line goes, whatever it says |
| NoteWording.TwoLinesStay | iic_booking/communication/email_branding.py:206-224 | two plain lines stay but for outer white space, the indentation of the second included |
| BookingNote.StripOfBuilt | iic_booking/communication/email_branding.py:126-224 | for any names and texts: stripping a comment just built leaves exactly its payment, on-behalf and atmosphere sections, if and only if nothing is left of further lines of the equipment name and the sections pass the filter themselves |
| BookingNote.StripOfSingleLines | iic_booking/communication/email_branding.py:126-224 | for values on one line, if and only if no line that shows the person reads as a header or a summary line |
| BookingNote.PersonMistaken | iic_booking/communication/email_branding.py:215-220 | a person named "Charges: Office" is taken for a summary line and lost |
| BookingNote.SecondNameLineStays | iic_booking/communication/email_branding.py:212-217 | only the first line of an equipment name is skipped, so a second one stays in front of the sections |
| Money.HalfEvenIsNearest | iic_booking/communication/email_branding.py:257 | rounding to hundredths is to the nearest, ties to even |
| Money.PrintReadsBack | iic_booking/communication/email_branding.py:254-258 | for every signed number of hundredths the printed text without commas and rupee sign reads as that number |
| Money.FormatSays | iic_booking/communication/email_branding.py:257-258 | the text of a decimal reads back, with its sign, as all of its value when it has no more than two decimals, and else as the nearest hundredth, ties to even |
| Money.FormatTextSays | iic_booking/communication/email_branding.py:246-258 | so does the text made of a text that is read as a decimal |
| Money.PointRead | iic_booking/communication/email_branding.py:254 | digits with a point among them are read as the number they write |
| Money.OnlyNumbersRead | iic_booking/communication/email_branding.py:254 | nothing but digits with a point among them is read as a plain number |
| Money.SignsRead | iic_booking/communication/email_branding.py:254 | a sign in front is read as such |
| Money.SpecialsRead | iic_booking/communication/email_branding.py:254 | infinities and NaNs are read in any case |
| Money.SevenThousandEighty | iic_booking/communication/email_branding.py:246-258 | 7080 is shown as in the documentation of the function |
| Money.PrintInjective | iic_booking/communication/email_branding.py:258 | different amounts have different texts |
| Money.CommasEveryThree | iic_booking/communication/email_branding.py:258 | whole rupees are grouped by thousands: every fourth character from the end is a comma and no other |
| Money.SignsFirst | iic_booking/communication/email_branding.py:258 | the rupee sign comes first, then the minus sign, and a NaN is called that, with its payload behind it |
| Money.FormatTwice | iic_booking/communication/email_branding.py:246-258 | formatting what was formatted changes nothing, for every text and every decimal value, NaN included |
| Money.RaisesIff | iic_booking/communication/email_branding.py:257 | formatting a decimal raises exactly from 10^28 - 1/2 hundredths on, and for infinities and signalling NaNs |
| Money.PrecisionIs | iic_booking/communication/email_branding.py:257 | the largest coefficient of a rounded amount is below 10^28 |
| Money.TextRaisesIff | iic_booking/communication/email_branding.py:246-258 | formatting a text raises exactly when it is read as one of these |
| Money.InfRaises | iic_booking/communication/email_branding.py:254-257 | an infinite float, which arrives as the text inf, raises |
| SlotEnd.EndTimeReadsBack | iic_booking/communication/email_branding.py:331-337 | in every format with minutes and a full hour, the time shown for an end reads back, from one unit after midnight up to 24:00 |
| SlotEnd.PrintedDay | iic_booking/communication/email_branding.py:331-337 | in every format with a date, the day shown is the day of the last instant before the end |
| SlotEnd.EndReadsBack | iic_booking/communication/email_branding.py:331-337 | in every format with both, for every calendar, the day and the time shown read back to the same instant, at midnight as at any other time |
| SlotEnd.EndsLookDifferent | iic_booking/communication/email_branding.py:331-337 | so two ends that look alike are the same instant |
| SlotEnd.FormatsReadBack | iic_booking/communication/email_branding.py:331-337 | the formats in use that show a date are such formats |
| SlotEnd.TimeReadsBack | iic_booking/communication/email_branding.py:331-337 | the format in use that shows the time alone gives the time of its day |
| SlotEnd.EndShown | iic_booking/communication/email_branding.py:331-337 | in the format with day, hour and minute, midnight reads 24:00 of the day before, and any other end its day and time |
| SlotEnd.FaceSays | iic_booking/communication/email_branding.py:331-337 | what the directives write at a given hour, minute and second, noon and midnight on the twelve-hour clock included |
| SlotEnd.CalendarsExist | iic_booking/communication/email_branding.py:331-337 | the calendars these results ask for exist |
| ClockFormat.MidnightHour | iic_booking/communication/email_branding.py:334-337 | wherever a format has a twenty-four-hour directive midnight reads 24 there, whatever clocks stand before and after it, and these are treated as if alone |
| ClockFormat.MidnightClock | iic_booking/communication/email_branding.py:334-337 | wherever a format has one of the two twelve-hour clocks midnight reads 24:00 or 24:00:00 there, without AM or PM, whatever clocks stand before and after it |
| ClockFormat.MidnightTexts | iic_booking/communication/email_branding.py:334-335 | the texts put in place of an hour and of the two clocks |
| ClockFormat.NoHourLeftIff | iic_booking/communication/email_branding.py:334-337 | the midnight format has no directive of the hour left if and only if each twelve-hour directive begins one of the two clocks |
| SlotEnd.StrayClockShowsTwelve | iic_booking/communication/email_branding.py:331-337 | in any other format midnight shows 12 where the first such directive is left |
| SlotEnd.UnspacedClockIsStray | iic_booking/communication/email_branding.py:334-335 | a twelve-hour clock without a space before AM or PM is such a format, and the formats in use are not |
| SlotEnd.EndOnStartDayIff | iic_booking/communication/email_branding.py:340-344 | an end after its start is on the start's day exactly when the last instant, for whole minutes the last minute, before it is |
| WeekDates.LastFullWeekIsLast | iic_booking/automation/oic_alerts.py:42-44 | the result is a Monday whose week is over, and no later Monday is |
| WeekDates.WeekNumberBounds | iic_booking/automation/oic_alerts.py:47-49 | week numbers are 1 to 53 |
| WeekDates.LeapYears | iic_booking/automation/oic_alerts.py:47-49 | the calendar of the keys: a year has 366 days exactly when it is a fourth one and no hundredth one, or a four-hundredth one |
| WeekDates.YearIs | iic_booking/automation/oic_alerts.py:47-49 | a day is in one year only, and that is the one found |
| WeekDates.WeekdaysFollow | iic_booking/automation/oic_alerts.py:47-49 | the days of the week follow each other, from a Monday on |
| WeekDates.FirstWeek | iic_booking/automation/oic_alerts.py:47-49 | the fourth of January is in week 1 of its year |
| WeekDates.WeeksFollow | iic_booking/automation/oic_alerts.py:47-49 | a week on the number is one higher, or 1 in the next year |
| WeekDates.WeekKeyNamesWeek | iic_booking/automation/oic_alerts.py:47-49 | two days have the same key exactly when they are in the same week, so distinct Mondays have distinct keys |
| WeekDates.KeyOfNewYear2024 | iic_booking/automation/oic_alerts.py:47-49 | the key of Monday, the first of January 2024 |
| OicAlerts.TargetNamesWeekAndUser | iic_booking/automation/oic_alerts.py:198 | a target names one week and one officer |
| OicAlerts.AlertService.Run | iic_booking/automation/oic_alerts.py:168-217 | a dry run, and a call neither enabled nor forced, leaves log and outbox as they were; any other offers the alert to every officer in turn, sent + skipped + failed = recipients, and skipped counts those sent before |
| OicAlerts.IdleCall | iic_booking/automation/oic_alerts.py:192-196 | on states too, such a call changes nothing |
| OicAlerts.LiveCall | iic_booking/automation/oic_alerts.py:192-216 | any other call: an officer sent the alert before gets none, any other gets it if the email goes out, and the row written says which it was |
| OicAlerts.AtMostOncePerWeek | iic_booking/automation/oic_alerts.py:168-217 | from any log, over any sequence of calls one after another with any failures, no officer gets two alerts for the same week |
| OicAlerts.ServedGetNothing | iic_booking/automation/oic_alerts.py:197-201 | an officer whom the log has as sent for a week gets no alert for it, whatever rows are lost |
| OicAlerts.EveryoneServed | iic_booking/automation/oic_alerts.py:197-216 | after one call without failures everybody has been sent the week's alert, whatever failed before |
| OicAlerts.CountsAddUp | iic_booking/automation/oic_alerts.py:197-216 | every officer is sent, recorded as failed, or skipped |
| OicAlerts.LostRowSendsTwice | iic_booking/automation/audit.py:16-32 | log_action hides a failed write, and then the next call sends again |
| OicOverlap.StepKeeps | iic_booking/automation/oic_alerts.py:197-216 | each step of overlapping calls keeps the invariant: the emails of a target and the calls about to send one are at most the calls and the lost rows |
| OicOverlap.AlertsPerWeek | iic_booking/automation/oic_alerts.py:197-216 | however N calls overlap, an officer gets at most N alerts for a week, one more for each row lost, and none when sent before |
| OicOverlap.EveryCallSends | iic_booking/automation/oic_alerts.py:197-216 | N calls that all look before one writes its row send N alerts |
| OicOverlap.SoloCall | iic_booking/automation/oic_alerts.py:197-216 | a call left alone is a run of these steps to the log and outbox of AlertService.Run |
| OicRecipients.RecipientsFor | iic_booking/automation/oic_alerts.py:131-146 | the dictionary has exactly the officers with something to be told, each with their alerts in order |
| OicRecipients.ToldOfOwnEquipment | iic_booking/automation/oic_alerts.py:131-146 | an officer is told of exactly the own flagged equipment, and twice of one exactly when entered twice for it |
| OicRecipients.AlertsInOrder | iic_booking/automation/oic_alerts.py:131-146 | an officer is told of alerts in the order they come |
| OicRecipients.EnteredTwice | iic_booking/automation/oic_alerts.py:131-146 | an officer entered twice for one equipment is listed it twice |

## Left out

- Lock expiry, a crash between a send and its log write, and webhooks that change a SENT row: assumed not to happen in
  `AtMostOnce`; `ExpiredLockSendsTwice` and `LostLogWriteSendsTwice` show that the first two assumptions are needed.
- A send that raises is taken to have delivered nothing, in campaigns and in weekly alerts.
- `select_faculty` and `parse_addresses`: recipients are an argument. Message texts, copies and pauses are not modelled.
- SlotDesk.SlotOffice.RefundBooking: the amount given back is a number kept with the booking, and the payment gateway is
  an arbitrary outcome; the repeat-sample and supervisor-share paths of the refund are not part of this model. Notes are
  not modelled: the refund note is saved before the transaction, so a failed refund leaves it behind.
- The recovery of a credit facility that runs after a wallet is credited, which writes an audit row and may close the
  facility.
- SlotDesk.SlotOffice.BulkSlotStatus: the slots are given by their ids; choosing them by dates and hours is left out.
- SlotDesk.RunKeeps: calls do not overlap; what holds when they do is in `RefundOverlap`. There a settled booking is
  taken never to be reopened, and what a request reads is the state last committed. Bookings appear, progress and are
  refunded by bulk calls only; rescheduling, cancelling by the user and the equipment-wide maintenance routines, some of
  which keep slots under maintenance linked, are not steps.
- Disruption records, waitlist confirmation after a refund, notices and emails of a bulk change.
- Request parsing and permission checks of all views.
- Waitlist.WaitlistRows: only the numbering; which failed attempt is shown with an entry is not modelled, and letter
  case is ASCII only.
- Ledger.ReplayIsForward: the repository returns transactions newest first; that order is taken as given.
- Slot look-up, similar instruments and the user's usual hours are arguments of `Suggest`; labels and links are left
  out.
- Scores are thousandths and decimals are exact; binary floating point and its rounding error are not modelled.
- The menu's labels, documents and page slugs, which are plain fields.
- LlmBudget.DailyBound: the counter is taken to live for the whole day; its key expires only after 26 hours.
- BookingNote.StripOfBuilt: duration, charges and the amount due are given as texts of one line, as the amounts put into
  words are.
- Letter case, word characters and digits are ASCII in the note filter and the money reader. The reader of exponents,
  underscores and other digits is an arbitrary function in `FormatTwice` and `TextRaisesIff`.
- LogKeys.AlreadySentIdsExact: digits are ASCII. A foreign key such as one ending in a superscript two passes isdigit
  and makes int raise, which would stop every run of that campaign.
- SlotEnd.EndReadsBack: the directives that write the day are one stretch of the format, and days are written at one
  width. Microseconds and escaped percent signs, which no format in use has, are not directives of the model. Ends are
  those that belong to a date of the years 1 to 9999 (`HasDate`); for the very first midnight the code's subtraction of
  a day overflows.
- Computing the flags of the weekly alerts from bookings and events; thresholds and averages are left out.
- OicAlerts.AtMostOncePerWeek: calls run one after another; `OicOverlap` has those that overlap. Every log row is
  written, as `LostRowSendsTwice` shows is needed. The cut of logged targets to 64 characters is not modelled; targets
  are far shorter.
