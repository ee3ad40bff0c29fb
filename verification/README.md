# Accounts, allowances and activity: a verified model

This project models the parts of the server and of the local daemon that carry
the repository's hardest promises, and proves them. Each database transaction
is one atomic step over maps and sequences that rolls back when it is refused;
each SQL statement is the relation it denotes. Loops of the program are loops
here, proved against specification functions, and the promises are proved about
those functions for every input, run or reachable state.

## What is modelled

- **Activity timeline** (`Activity*.dfy`, `NewestFirst.dfy`). A ticket's
  append-only log is turned into timeline items twice: by a fold over all
  events, and in pages from bounded candidate batches with newest-revision and
  previous-snapshot lookups below a watermark and a cursor. The two agree, page
  chains end, and the comment lifecycle is what makes the lookups right.
- **Allowance ledger and admission** (`Native*.dfy`, `Exclusion.dfy`,
  `Limit*.dfy`, `Pace.dfy`, `ActiveWindows.dfy`, `Admission*.dfy`). Windows with
  `used` and `reserved`, roots with exact holds, period rules and pacing curves.
  The ledger is conserved, unwinding is exact, and the windows admission
  advises are ones the binding gate and the reserving loop accept.
- **Redaction** (`Privacy*.dfy`, `AccountPrivacy*.dfy`, `EventSnapshots.dfy`,
  `QuotaOutlook*.dfy`, `Sharing.dfy`). Recursive walks with an inherited account id and the
  withdrawal of joint figures: safe, idempotent, complete in the ids they ask
  about, and independent of what they hide.
- **Capacity readings** (`CapacityReading*.dfy`, `PercentUse.dfy`,
  `Consumption.dfy`). Out-of-order snapshots from two sources, the percent a
  period counts, and the settlement of consumption into epochs.
- **Account/context matrix** (`AccountUse*.dfy`). Revision-fenced writes whose
  inverse cells undo a save under interleaving.
- **Daemon protocols** (`PairedRuntime*.dfy`, `ProofReader.dfy`). Runtime
  refresh over poll ticks, and the single-slot proof reader in every
  interleaving of callers, cancellations and slow loads.

Reading order: the specification module first, then its `...Laws`,
`...Safety`, `...Scope` or `...Agreement` module, and last its `...Promise`,
`...Items`, `...Windows` or `...Rooms` module. Those say from the inputs alone,
without the specification functions, what a result holds and when a call is
accepted, and prove that the specification functions do exactly that.
`PrivacyPromise` is read first of the redaction: it names what is withheld.

## Conventions

- Times are integers, the zero time is 0; floating-point figures are exact
  reals, with the program's `1e-9` terms kept.
- Error returns are `Option` or `Result`; HTTP statuses and texts are dropped.
- Member names of JSON objects that the redaction treats one by one are
  constructors of `PrivacyDocument.Key`; its key lists are lists of names, and
  every other name is `Other`.
- Foreign answers (authorization, vendor probes, pin checks, schedules, learned
  metrics) are parameters, or inputs with the contract the code relies on.
- `{:induction false}` on a lemma means that its body is its whole proof.

## Where the code does not keep a promise it seems to make

The lemmas named give the concrete case, the exact condition, or a condition
that can be checked beforehand.

- An imported comment whose record id is the decimal number of another import
  without one, from the same source, is a comment of its own for the fold and a
  revision of the other for the page lookup (`ActivityKeys.KeyClash`); exactly
  when the two agree is `ActivityKeys.KeysAgreeExactly`, and a condition on the
  sources `ActivityKeys.ColonFreeSourcesAgree`.
- A cursor at the zero time is handed out and then refused
  (`ActivityAgreement.ZeroTimeCursor`; exactly then, by
  `ActivityAgreement.CursorRoundTrip`).
- The time an edit records may be later than fifteen minutes after the comment;
  only the clock it checked is not (`ActivityComments.RecordedTimeMayLeaveWindow`).
- Under a percent rule the windows admission returns are good for one unit, not
  for a learned hold larger than the run's percent need
  (`Admission.AdmissionInputs`, `Admission.HoldMayExceedRule`).
- An explicit authority that arrives late, behind a reading without one, is
  stored but does not reach the live window's flag
  (`CapacityReadingLaws.FlagsHoldUnlessLate`, `CapacityReadingLaws.LateDenialIsNotShown`).
- The percent a period counts can fall, exactly by the readings of
  `PercentUse.LowersExactly` in the one series that leads
  (`PercentUse.ReadingsLowerExactly`): when a reading from before the period
  raises the baseline (`PercentUse.LateBaselineLowers`); when a second reading at
  a taken instant replaces a figure farther from its neighbours
  (`PercentUse.SameInstantReplacementLowers`,
  `PercentUse.SamePhaseReplacementLowers`); and when readings of one epoch
  disagree on its opening (`PercentUse.DisagreeingOpeningLowers`).
- New shared Node or SDK paths under an unchanged repin id are taken over
  without a restart (`PairedRuntimeLaws.PinsMoveWithoutRestart`).
- An undo restores who is allowed, but a restored cell counts as set by a
  person and an account taken off the waiting list stays off it
  (`AccountUseLaws.UndoForgets`); exactly when it restores those too is
  `AccountUseLaws.AcceptedUndoRestores`.

## Model

| member | source | states |
|---|---|---|
| ActivityEvents.DiffReplays | internal/activity/timeline.go:627-637 | replaying a diff on the older snapshot gives the newer one, and a diff is empty exactly when the snapshots agree on every diffed field |
| ActivityEvents.NoDiff | internal/activity/timeline.go:627-637 | equal snapshots differ in no field |
| ActivityItems.DiffDescribes | internal/activity/timeline.go:627-637 | a diff names each differing field once, from its old to its new value, in field order, leads from the older snapshot to the newer, and is empty exactly when they are equal |
| ActivityProjection.Previous | internal/activity/timeline.go:135-141 | the snapshot lookup finds the newest earlier snapshot of the same source, and nothing only when there is none |
| ActivityProjection.LastSnapshotIsPrevious | internal/activity/timeline.go:407-554 | in the sorted history the snapshots of a source that precede one are exactly those behind it |
| ActivityProjection.PriorIsPrevious | internal/activity/timeline.go:407-554 | the per-source map of the sorted walk holds what the lookup finds |
| ActivityProjection.ProjectHistory | internal/activity/timeline.go:407-554 | the sorted history walk yields one item for each snapshot that changed since the one before it |
| ActivityProjection.FoldEvents | internal/activity/timeline.go:407-554 | the first loop of the fold builds exactly the three collections of its specification |
| ActivityProjection.Project | internal/activity/timeline.go:407-554 | whatever order the events come in, the result is exactly the items they produce, newest first, each once |
| ActivityItems.TimelineTells | internal/activity/timeline.go:407-554 | event by event, the sorted fold of a log the lifecycle allows has an item exactly where the log calls for one, with the type, time, author, text and changes told from the events: an update, move or undo exactly when it changed something, from its before to its after; a history snapshot exactly when it differs from the one before it of its source |
| ActivityPointwise.FoldIsGrouped | internal/activity/timeline.go:407-554 | in every log the lifecycle allows, the fold shows each event through its newest revision, its first import by the fold's own key and its previous snapshot |
| ActivityPointwise.FoldIsPointwise | internal/activity/timeline.go:121-156 | where fold and lookups also group the imports alike, the lookups' reading event by event gives the items of the fold |
| ActivityPages.ProjectRow | internal/activity/timeline.go:158-275 | projecting one candidate with its looked-up snapshot yields the one item named after it, or none |
| ActivityItems.CandidatesTell | internal/activity/timeline.go:118-156 | the candidates of a page are the events that can have an item: no revision, of comments those not deleted, of imports the first of each source's record |
| ActivityPages.Fill | internal/activity/timeline.go:158-275 | the page-filling loop shows the items of a run of candidates, at most the limit, and its cursor is the last candidate of the run |
| ActivityPages.Read | internal/activity/timeline.go:158-275 | a page is a run of the candidates below the cursor; without a next cursor it reaches the last of them; the batch loop ends |
| ActivityAgreement.RowItemIsPoint | internal/activity/timeline.go:121-156 | a candidate shows what the pointwise reading shows, and an event that is no candidate shows nothing |
| ActivityAgreement.AllRowsAreTheTimeline | internal/activity/timeline.go:121-156 | where fold and lookups group the imports alike, all candidates together are the sorted fold |
| ActivityAgreement.FollowedPages | internal/activity/timeline.go:158-281 | a chain of pages is at most one page longer than the candidates left, and a complete one shows exactly their items in order |
| ActivityAgreement.FencedView | internal/activity/timeline.go:118-151 | events appended later, at whatever time, stay above the watermark |
| ActivityAgreement.PagesAreTheFold | internal/activity/timeline.go:118-151 | where fold and lookups group the imports alike, following cursors ends and the pages concatenate to the sorted fold of the events up to the watermark, each item once, however the log grows in between |
| ActivityItems.PagesTell | internal/activity/timeline.go:118-281 | and so do the pages of every reachable log a client follows to the end, however the log grows in between |
| ActivityAgreement.CursorRoundTrip | internal/activity/timeline.go:84-93 | a cursor a page hands out is accepted back exactly when it is not at the zero time |
| ActivityAgreement.ZeroTimeCursor | internal/activity/timeline.go:84-93 | a page that hands out a cursor at the zero time, with a row still behind it |
| ActivityKeys.KeysAgreeExactly | internal/activity/timeline.go:126-134 | fold and lookups show the same, whatever the imported comments say, exactly when both group the imports alike |
| ActivityKeys.KeyClash | internal/activity/timeline.go:126-134 | a lifecycle log whose import keys clash, on which the fold and the lookups differ |
| ActivityKeys.ColonFreeSourcesAgree | internal/activity/timeline.go:126-134 | the keys never clash when imports carry record ids and sources have no colon |
| ActivityComments.CommentStore.WriteComment | internal/activity/comments.go:25-105 | an accepted operation appends exactly its event, a refused one nothing |
| ActivityItems.AcceptedExactly | internal/activity/comments.go:25-105 | a new comment is always accepted, a change exactly from the author, within fifteen minutes, of a comment not deleted |
| ActivityItems.RefusedTells | internal/activity/comments.go:25-105 | a comment not there, or not any more, is not found; one of somebody else, or past its time, is forbidden |
| ActivityItems.DeletionKeepsText | internal/activity/comments.go:85-91 | a deletion keeps the text the comment read |
| ActivityItems.AcceptedIsRead | internal/activity/comments.go:25-105 | after an accepted operation the comment reads the new text, or is no longer shown |
| ActivityComments.AppendKeepsLifecycle | internal/activity/comments.go:25-105 | one more operation or foreign event keeps the lifecycle |
| ActivityComments.ReachableLogsObeyLifecycle | internal/activity/comments.go:25-105 | in every reachable log each revision is by the comment's author, checked within fifteen minutes, and none follows a deletion |
| ActivityComments.DeletionIsNewest | internal/activity/comments.go:25-105 | a deletion is the newest revision of its comment, so the newest-revision lookup hides what the fold hides |
| ActivityComments.RecordedTimeMayLeaveWindow | internal/activity/comments.go:25-105 | only the checked clock is inside the window; the recorded one may be past it |
| Pace.PaceGrows | internal/agentaccounts/pace.go:32-52 | a later fraction never paces lower, on every curve and with any burst |
| Pace.Curves | internal/agentaccounts/pace.go:32-52 | which curve each model paces by, at its ends and in between, and nothing for an unknown model |
| Pace.ElapsedTells | internal/agentaccounts/pace.go:16-30 | the elapsed share of an interval, none of an empty one |
| Pace.UnitsTell | internal/agentaccounts/pace.go:54-62 | whole units of a share of the allowance, up to a billionth more than it |
| Pace.FitsExactly | internal/agentaccounts/pace.go:80-105 | an estimate fits exactly when, positive and inside the window, it stays with all use and reservations within the allowance, the ceiling and the pace, and on a measured window within vendor authority, the paced budget and, when stale, one unit of nobody's refresh |
| Pace.AllowedGrows | internal/agentaccounts/pace.go:54-62 | allowed units grow with the fraction and never pass the allowance |
| Pace.PaceStepKeeps | internal/agentaccounts/pace.go:80-113 | an approved reservation, an unwind or a clock tick keeps a window within its pace |
| Pace.PacedRunsStayWithinPace | internal/agentaccounts/pace.go:80-113 | over any run inside the window, use and reservations stay within what the moment allows |
| NativeLedger.GrantIsAffordable | internal/agentaccounts/native_root.go:296-311 | the reserving loop grants exactly the requests that fit together, raises each window by its holds, and so does not depend on their order |
| NativeLedger.GrantedEstimates | internal/agentaccounts/native_root.go:296-311 | the percent estimate grows to the largest percent hold and other units keep theirs |
| NativeLedger.MaterializeAllKeeps | internal/agentaccounts/native_root.go:276-294 | materialising provisional and fact windows keeps every reservation and every unique bucket |
| NativeWindows.MaterializeAllShows | internal/agentaccounts/native_root.go:276-294 | each row written shows the use and reading time of the last window written to it; new rows are what their window says; all other rows stay |
| NativeWindows.WrittenExactly | internal/agentaccounts/native_root.go:276-294 | a window is written exactly when the row it becomes passes the table's checks |
| NativeLedger.ReserveConserves | internal/agentaccounts/native_root.go:269-324 | an accepted reservation conserves the ledger, adds one root, raises every window, those it materialises included, by exactly the root's holds, and keeps every held window within its allowance |
| NativeWindows.ReservationShows | internal/agentaccounts/native_root.go:269-324 | after an accepted reservation each fact or new window the budget names last shows its fresh use, which with everything reserved stays within the allowance; every window named is held for its learned hold or estimate; rows not written keep their use |
| NativeWindows.ReservedExactly | internal/agentaccounts/native_root.go:269-324 | made exactly on the reservation's own budget, when every window can be written, all holds fit together and the session has no root yet; refused for the first of these that fails |
| NativeLedger.UnwindIsExact | internal/agentaccounts/native_root.go:331-380 | the unwind takes back exactly the holds |
| NativeLedger.UnwoundExactly | internal/agentaccounts/native_root.go:349-380 | holds are taken back exactly when there are at most 4096, each of a unit at least, on a stored window with all of them reserved |
| NativeLedger.AbandonIsExact | internal/agentaccounts/native_root.go:331-380 | an abandoned root gives back exactly its holds, is released, and nothing else changes; otherwise the call is refused |
| NativeRoots.StepConserves | internal/agentaccounts/native_root.go:269-414 | each transaction, accepted or refused, conserves the ledger and only appends roots or restates one |
| NativeRoots.RunsConserve | internal/agentaccounts/native_root.go:269-414 | every interleaving of the transactions keeps a conserved ledger conserved and only appends roots or restates them |
| NativeRoots.ReachableLedgersConserve | internal/agentaccounts/native_root.go:269-414 | in every ledger reached from the empty one each window's reservation is the sum of the holds of roots not abandoned plus the other holders |
| NativeRoots.AbandonReturnsReservation | internal/agentaccounts/native_root.go:269-380 | after any interleaving, abandoning a root takes back from every window, stored before, made by the reservation or made later, exactly what its reservation added, and a second time is refused |
| NativeRoots.StateNeverFreesARoot | internal/agentaccounts/native_root.go:54-62 | restating a root's hold never changes the number of occupied roots |
| NativeRoots.RestatedExactly | internal/agentaccounts/native_root.go:399-414 | a root is restated exactly while it stands in its epoch, as something it can be while occupied, and nothing else changes |
| NativeRoots.ExitFrees | internal/nativesessions/store/production.go:240-267 | a verified exit frees a root that stands in its epoch and leaves its holds and every window as they are |
| NativeRoots.RootsCount | internal/agentaccounts/native_root.go:54-62 | every unreleased root but the asker's, of the account and computer asked about, counts once |
| NativeRoots.NativeRootStore.MaterializeWindows | internal/agentaccounts/native_root.go:276-294 | the in-place loop materialises each window once and sets its id, or fails as a whole |
| NativeRoots.NativeRootStore.RaiseWindows | internal/agentaccounts/native_root.go:296-311 | the reserving loop in place raises every window or stops at the first one without room |
| NativeRoots.NativeRootStore.ReserveRoot | internal/agentaccounts/native_root.go:269-324 | the loop on the stored rows is the reservation of the ledger; a refusal leaves everything as it was |
| NativeRoots.NativeRootStore.AbandonRoot | internal/agentaccounts/native_root.go:331-380 | the unwinding loop on the stored rows is the abandonment of the ledger |
| NativeRoots.NativeRootStore.SetRootState | internal/agentaccounts/native_root.go:403-414 | only an unreleased root of the epoch is restated, and only its state |
| Exclusion.ExcludeHold | internal/agentaccounts/engine_admission.go:268-312 | one hold is subtracted from every matching window, or refused when one holds less |
| Exclusion.Exclude | internal/agentaccounts/engine_admission.go:268-312 | succeeds exactly when the holds are few enough and every window covers them, and then each window loses exactly the run's units on it |
| Exclusion.MatchedTells | internal/agentaccounts/engine_admission.go:268-312 | a run's units on a window are those of its holds that fall on it: by id, or for facts and shared quotas by kind, bucket and overlap |
| Exclusion.ProjectionLeavesOthers | internal/agentaccounts/engine_admission.go:268-312 | on a conserved ledger exactly the other holders' units are left, by row for independent windows and by overlapping bucket for fact and shared ones, so the refusal is not reached |
| Exclusion.RootHoldsAreBalanced | internal/agentaccounts/capacity_projection_facts.go:157-178 | every root of a conserved ledger that is not abandoned can be projected out, leaving the other roots and holders |
| Limits.WholePeriod | internal/agentaccounts/limits.go:242-271 | leaving the asker out of the period and adding its own row back is the whole period |
| LimitPeriods.RunCounts | internal/agentaccounts/limits.go:222-240 | what a run adds to a period of each unit, alive and finished |
| LimitPeriods.RootCounts | internal/agentaccounts/native_root.go:382-408 | what a native root adds, occupied and released |
| LimitPeriods.PeriodAddsUp | internal/agentaccounts/limits.go:242-271 | a period counts the vendor's percent and what every run and root but the asker adds, each once |
| Limits.LimitWait | internal/agentaccounts/limits.go:276-370 | waits exactly when the rule is spent or its paced window is, and a percent rule lowers the measured windows' budgets and nothing else |
| LimitPeriods.RulePassesExactly | internal/agentaccounts/limits.go:276-349 | a rule lets an asker pass exactly when its unit is supported, the window it came from is within its pace, and the period with what is needed is within the amount |
| Limits.NeedCountsOnce | internal/agentaccounts/limits.go:350-367 | passing the lowered budget keeps the period and the asker's need, counted once, within the amount, for a fresh run, a claiming worker and a native replay |
| Limits.AdmittedPeriodIsWithinAmount | internal/agentaccounts/limits.go:335-349 | a stored asker that passes keeps the whole period, its own row included, within the amount |
| Limits.StoringAddsNeedOnce | internal/agentaccounts/limits.go:222-271 | storing a fresh live run adds exactly its saved estimate to the period |
| ActiveWindows.BindingNow | internal/agentaccounts/eligibility.go:184-234 | nothing binds under a fresh denial; otherwise the manual windows open now and, when all standing newest windows are usable, exactly those |
| ActiveWindows.AllowanceHeadroom | internal/agentaccounts/eligibility.go:168-182 | open exactly when something binds and all that binds fits one more unit |
| ActiveWindows.NewestIsMeasured | internal/agentaccounts/eligibility.go:184-234 | the latest map holds the newest measured window of each key |
| AdmissionRooms.BindsTells | internal/agentaccounts/eligibility.go:184-234 | nothing binds under a fresh denial; otherwise the manual windows open now and, unless one is denied or yet to begin, the first newest reading of each limit that is neither retired nor past its reset |
| Admission.SplitWindows | internal/agentaccounts/admission.go:135-160 | the regular windows are exactly the listed ones that are neither synthetic, pairing, fact nor stale, in order; the grant is the claiming run's last owned, unexpired, unretired one, read without what a native root holds on it; fails exactly when such a grant holds less than the root has on it |
| Admission.HardWait | internal/agentaccounts/admission.go:255-272 | waits exactly when a window lacks hard room, until the last end of those |
| Admission.BudgetWait | internal/agentaccounts/admission.go:286-310 | waits exactly when a paced budget is short; for the schedule when a share is, for the reserve when only the reserve stands in the way |
| Admission.CheckBudgets | internal/agentaccounts/admission.go:281-311 | the period rule lowers the windows returned, while the paced budgets are checked on the windows as they were |
| Admission.CheckPrepared | internal/agentaccounts/admission.go:196-311 | lets a run through exactly when the floor, hard, schedule, rule and budget checks pass, the last on budgets as they were before the rule, and returns the windows with budgets lowered |
| Admission.BindingWindows | internal/agentaccounts/admission.go:161-176 | succeeds exactly when the run's own holds can be taken out and something binds or no manual window is yet to begin; returns exactly what binds then, all of it allowed, unretired, begun, unexpired and freshly read |
| Admission.EarlyWaitIsGates | internal/agentaccounts/admission.go:48-133 | the gates before any window is read let a run by exactly when the login is usable, a slot is free, the enrolment approved and nothing holds the account; otherwise it waits at the first closed one with that one's code |
| AdmissionRooms.ListingTells | internal/agentaccounts/admission.go:134-165 | what is read: the listed windows that are no grant, fact, pairing window, estimate or stale reading, and the fresh facts, without the run's own holds |
| AdmissionRooms.PreparedTells | internal/agentaccounts/admission.go:184-233 | what a window is judged by: the paced budget of a measured one, the whole units a floor leaves, the policy's posture and boost, and the hold learned for a recent reading; nothing else of it changes |
| AdmissionRooms.RoomTells | internal/agentaccounts/admission.go:255-310 | room is use, reservations and what is asked within the allowance or ceiling, and reservations and what is asked within the paced budget |
| AdmissionRooms.GrantTells | internal/agentaccounts/admission.go:134-183 | the one-run grant is the run's own that still stands, else one unit for five minutes |
| AdmissionRooms.LastStandingTells | internal/agentaccounts/admission.go:135-150 | the run's own grant is the last listed one made for this claiming run that is unexpired and unretired |
| AdmissionRooms.ReturnedTells | internal/agentaccounts/limits.go:350-367 | a percent rule leaves a measured window at most what is left of its amount on top of its reservations, less the need of a claiming worker |
| AdmissionRooms.AdmitsExactly | internal/agentaccounts/admission.go:48-312 | a run is let through exactly when the gates are open and the listing can be read, every window that binds and the one-run grant have room, a floor finds a window to hold on, unknown usage falls into the person's hours, and the rule lets it |
| Admission.AdmissionInputs | internal/agentaccounts/admission.go:48-312 | a run waits at the first closed gate with its code; it is let through exactly when every gate is open and the clock, the rule and every window that binds, or the one-run grant, lets it, and gets exactly those windows, prepared and lowered; each measured one passes the binding gate of a run without a reservation for one unit, and for its learned hold exactly when the percent rule still covers it |
| Admission.FittingWindowsAreGranted | internal/agentaccounts/native_root.go:213-224 | what the binding gate lets through, the reserving loop grants, although the percent estimate grows inside it |
| Admission.WindowWait | internal/agentaccounts/admission.go:343-353 | waits at the first window that does not fit what it is asked for, for a reading or its reset |
| Admission.AdviceAgreesWithBinding | internal/agentaccounts/admission.go:343-353 | for a measured window returned to a run without a reservation, advice waits exactly when the binding gate refuses, which is when the percent rule no longer covers its hold |
| Admission.HoldMayExceedRule | internal/agentaccounts/admission.go:343-353 | a window the advice passes for one unit and the binding gate refuses for its learned hold |
| PrivacyDocument.CollectIDs | internal/accountprivacy/privacy.go:105-151 | the walk adds exactly the ids of the subtree, and fails exactly beyond the nesting or count bound |
| PrivacyDocument.IDs | internal/accountprivacy/privacy.go:105-161 | returns exactly the account ids a document names and the fallback, or refuses |
| PrivacyMask.MaskInPlace | internal/accountprivacy/privacy.go:271-380 | the in-place mask is its specification |
| PrivacyMask.MaskAt | internal/accountprivacy/privacy.go:271-380 | member by member what a masked object holds: removed, blanked to a constant, or kept; the lists are the promised ones by AccountPrivacySafety.ListsAsPromised |
| AccountPrivacySafety.ListsAsPromised | internal/accountprivacy/privacy.go:271-380 | the mask removes, empties, blanks and nulls exactly the usage, limit, reset, credit, denial and fingerprint members promised by name |
| AccountPrivacy.Walk | internal/accountprivacy/privacy.go:199-263 | the recursive walk in place is the redacted tree, or fails exactly beyond the nesting bound |
| AccountPrivacy.WalkFields | internal/accountprivacy/privacy.go:219-259 | one object: host cause, saved controls, mask, children and restored controls, in the order of the code |
| AccountPrivacy.Redact | internal/accountprivacy/privacy.go:192-269 | the redacted document, an empty history, or a refusal |
| AccountPrivacyLaws.IdentityStays | internal/accountprivacy/privacy.go:163-180 | redaction never changes whose object it is |
| AccountPrivacyLaws.WalkIsIdempotent | internal/accountprivacy/privacy.go:192-269 | redacting again changes nothing and stays within the bound |
| AccountPrivacySafety.RedactionIsSafe | internal/accountprivacy/privacy.go:192-380 | in every redacted document each object of a hidden account has none of the promised usage, limit, reset, credit and denial members, empty collections, blank plan and fingerprints, null figures and fixed neutral texts, but for check controls given back; host causes only where allowed; no guard row of a hidden account |
| AccountPrivacySafety.RedactedIsSafeAndStable | internal/accountprivacy/privacy.go:192-269 | the same for the whole call, and redacting again changes nothing |
| AccountPrivacySafety.RedactedExactly | internal/accountprivacy/privacy.go:192-269 | a history of an account not shared is cut to nothing, another document redacted or refused beyond 32 levels |
| AccountPrivacySafety.RedactedIsCompleted | internal/accountprivacy/privacy.go:271-380 | a masked object carries the mark and the members its contract requires |
| AccountPrivacySafety.RedactedMember | internal/accountprivacy/privacy.go:199-263 | a member neither withheld nor given back is there exactly when it was, redacted in turn; a control given back is as it was |
| AccountPrivacySafety.RedactedRows | internal/accountprivacy/privacy.go:199-218 | a redacted array holds, in order, every row but the guard rows of accounts not shared, each redacted in turn |
| AccountPrivacyScope.AllowedIsUnchanged | internal/accountprivacy/privacy.go:199-263 | the walk leaves a document whose ids, each guard row's included, are all allowed unchanged |
| AccountPrivacyScope.AllowedCallIsUnchanged | internal/accountprivacy/privacy.go:192-269 | the whole call returns such a document as it is or refuses it beyond the bound, and cuts only a history without an account of its own |
| AccountPrivacyScope.IDsSuffice | internal/accountprivacy/privacy.go:105-161 | policies that agree on the collected ids and the empty id give the same document |
| AccountPrivacyScope.WithheldDataAreIrrelevant | internal/accountprivacy/privacy.go:192-380 | documents that differ only in withheld data redact to the same document |
| EventSnapshots.Trim | internal/accountprivacy/privacy.go:385-434 | the in-place walk is the trimmed snapshot, or fails exactly beyond the bound |
| EventSnapshots.TrimmedIdentity | internal/accountprivacy/privacy.go:385-434 | trimming keeps an object's account, except of a guard row that was not shared |
| EventSnapshots.TrimIsSafeAndStable | internal/accountprivacy/privacy.go:382-434 | objects of accounts not shared, or of none, tell only the members an event may tell by name, and trimming again changes nothing |
| EventSnapshots.TrimmedMember | internal/accountprivacy/privacy.go:385-434 | a member stays exactly when the account is shared or an event may tell it, trimmed in turn |
| EventSnapshots.SharedIsUnchanged | internal/accountprivacy/privacy.go:385-434 | snapshots of shared accounts pass unchanged |
| EventSnapshots.TrimmedStaysWithinBound | internal/accountprivacy/privacy.go:385-434 | a trimmed snapshot is nested no deeper |
| QuotaOutlook.FindContribution | internal/agentaccounts/quota_outlook_redact.go:49-87 | finds a row's part in a joint figure exactly when there is one |
| QuotaOutlook.RebuildPool | internal/agentaccounts/quota_outlook_redact.go:194-218 | the loop computes the rebuilt pool |
| QuotaOutlook.OutlookGroup.Redact | internal/agentaccounts/quota_outlook_redact.go:101-192 | the loops on the group's fields are the redacted group |
| QuotaOutlookLaws.NothingDisclosed | internal/agentaccounts/quota_outlook_redact.go:31-44 | afterwards no denied account discloses a figure |
| QuotaOutlookLaws.OutlookIsIdempotent | internal/agentaccounts/quota_outlook_redact.go:101-192 | redacting again, at any later time, changes nothing |
| QuotaOutlookLaws.DeniedRowsLeaveNoTrace | internal/agentaccounts/quota_outlook_redact.go:49-192 | a denied row is blanked and no burn, projection, refill, line or headline leads back to it |
| QuotaOutlookLaws.DeniedReadingsAreIrrelevant | internal/agentaccounts/quota_outlook_redact.go:101-192 | groups that differ only in denied rows' readings and joint figures redact to the same group |
| QuotaOutlookLaws.PoolIsExactMean | internal/agentaccounts/quota_outlook_redact.go:168-218 | the pool is the mean over exactly the rows still pooled, to the nearest tenth, and none when there are none |
| QuotaOutlookLaws.PooledRowsAreTheOthers | internal/agentaccounts/quota_outlook_redact.go:101-192 | a row stays pooled exactly when it was and is not denied |
| QuotaOutlookLaws.RedactOutlook | internal/agentaccounts/quota_outlook_redact.go:17-29 | the whole outlook, untouched when nothing denied is disclosed |
| QuotaOutlookPromise.OutlookTells | internal/agentaccounts/quota_outlook_redact.go:49-192 | row by row and figure by figure what a redacted group shows: which rows are withdrawn and what they keep, which lose their projection and the state they get, the hours, refills, lines and headline, and the group's state; without a withdrawn row nothing changes |
| QuotaOutlookPromise.RebuiltPoolTells | internal/agentaccounts/quota_outlook_redact.go:194-218 | the rebuilt pool is the mean use and the mean left of the rows still pooled, to the nearest tenth, dated by their newest reading, with its age in whole seconds |
| CapacityReadings.ReadingStore.Ingest | internal/agentaccounts/capacity.go:183-301 | the loop over a snapshot and the retirements are the ingested state; one refused reading rolls everything back |
| CapacityReadings.Insert | internal/agentaccounts/capacity.go:216-268 | one reading: kept as history, or retiring its bucket and written |
| CapacityReadings.WriteWindow | internal/agentaccounts/capacity.go:244-268 | retiring, reading the authority and the upsert in the order of the code |
| CapacityReadings.NewestExplicitIsFirst | internal/agentaccounts/capacity.go:253-261 | the authority read is the first by time, then harness, then denial |
| CapacityReadingLaws.NewestIsWritten | internal/agentaccounts/capacity.go:216-231 | each reading of a snapshot is stored unless known, and written, its bucket's live window showing it, exactly when it is a measurement and the newest known; otherwise no window changes |
| CapacityReadingLaws.WrittenRetires | internal/agentaccounts/capacity.go:244-268 | a written reading retires the rest of its bucket and older estimates and nothing else; a refresh fence holds on only under the reading it was made on |
| CapacityReadingLaws.SnapshotRetires | internal/agentaccounts/capacity.go:281-301 | a full snapshot retires exactly the measured windows of a reporting source that it leaves out, unless they are newer or the source has reported since |
| CapacityReadingLaws.RunsStaySound | internal/agentaccounts/capacity.go:183-301 | over any sequence of snapshots each bucket has at most one unretired measured window, every measured window shows a stored reading of its slot, its percent rounded up and its interval, and nothing moves back |
| CapacityReadingLaws.ReachableStoresAreSound | internal/agentaccounts/capacity.go:183-301 | so no store reached from the empty one has two live windows in a bucket or a measured window that shows no stored reading |
| CapacityReadingLaws.ReadAtNeverMovesBack | internal/agentaccounts/capacity.go:223-231 | the live window of a bucket is never read earlier than the one before it |
| CapacityReadingLaws.ReplayChangesNothing | internal/agentaccounts/capacity.go:216-301 | an immediate replay of a snapshot changes nothing at all |
| CapacityReadingLaws.WrittenFlagIsNewest | internal/agentaccounts/capacity.go:250-268 | each written window shows the newest explicit authority of its bucket, or allowed when there never was one |
| CapacityReadingLaws.DenialLiftedExactly | internal/agentaccounts/capacity.go:250-261 | one more reading lifts a denial exactly when it is an explicit permit that goes before it and was not stored yet |
| CapacityReadingLaws.DenialSurvives | internal/agentaccounts/capacity.go:250-261 | a denial survives every run of snapshots in which no explicit permit goes before it, across resets, stale permits and further denials |
| CapacityReadingLaws.FlagsHoldUnlessLate | internal/agentaccounts/capacity.go:223-231 | a reading leaves a live window out of step with its bucket's newest authority exactly when it is a late authority |
| CapacityReadingLaws.LateDenialIsNotShown | internal/agentaccounts/capacity.go:223-231 | a late denial that does not reach the live window |
| AccountUse.MatrixStore.Listing | internal/accountuse/writes.go:70-91 | a bulk change lists each open pair of its scope once, with its value |
| AccountUse.VetAll | internal/accountuse/writes.go:93-115 | the validating loop reports the first fault, or the inverse cells |
| AccountUse.MatrixStore.WriteCells | internal/accountuse/writes.go:46-143 | the save is its specification; a refused one changes nothing |
| AccountUse.MatrixStore.WriteRulePatch | internal/accountuse/policy.go:133-173 | the patched rules and the mirrored model switch |
| AccountUsePromise.FenceTells | internal/accountuse/policy.go:69-92 | a write is let by exactly from a permitted person who saw the current revision |
| AccountUsePromise.LowerTells | internal/accountuse/writes.go:96-100 | ids are taken in small letters |
| AccountUsePromise.BulkTells | internal/accountuse/writes.go:56-91 | a bulk change stands for every open account in every open context of its scope, each once |
| AccountUsePromise.SaveAccepted | internal/accountuse/writes.go:46-115 | a save is accepted exactly when it is bounded, current, well scoped, and every cell names two open ids no earlier cell named together |
| AccountUsePromise.SaveRefused | internal/accountuse/writes.go:46-115 | the refusal names the first of these that fails, and among the cells the first at fault |
| AccountUsePromise.SaveTells | internal/accountuse/writes.go:93-143 | an accepted save sets every listed pair, by a person, takes the touched accounts off the waiting list, raises the revision by one and changes nothing else; its answer holds the pairs and what each was |
| AccountUsePromise.CreationTells | internal/accountuse/writes.go:204-256 | when a context is created, and everything that changes |
| AccountUsePromise.UpdateTells | internal/accountuse/writes.go:204-256 | when a context is updated, why not, and everything that changes |
| AccountUsePromise.ProjectTells | internal/accountuse/writes.go:272-310 | when a project is put into a context, why not, and everything that changes |
| AccountUsePromise.RulesTell | internal/accountuse/policy.go:95-173 | a patch is stored exactly when it names a rule and only values its rules can take, over the other rules, with Auto-update following the model rule |
| AccountUsePromise.ConfirmationTells | internal/accountuse/writes.go:155-175 | a person confirms once what is asked to be confirmed |
| AccountUsePromise.EnrolmentTells | internal/db/migrations/1309_account_use_matrix.sql:258-269 | a new account uses by rule every open context that does not deny new ones and changes no other pair |
| AccountUseLaws.WrittenAt | internal/accountuse/writes.go:116-127 | a save sets exactly its own pairs, and those it allows are a person's from then on |
| AccountUseLaws.VettedInverse | internal/accountuse/writes.go:93-115 | the inverse cells are the vetted pairs with what they were, each pair once |
| AccountUseLaws.InverseRestores | internal/accountuse/writes.go:45-127 | saving the inverse cells gives back the allowed relation, and who allowed it exactly when persons had |
| AccountUseLaws.AcceptedWritesAdvance | internal/accountuse/policy.go:69-92 | an accepted write expected the current revision and raises it by one, but for a confirmation nobody asked for; a stale one is refused |
| AccountUseLaws.RunsAreFenced | internal/accountuse/policy.go:69-92 | over any interleaving, who is allowed, by whom, and who waits change for known accounts only with the revision, as do the rules |
| AccountUseLaws.AcceptedUndoRestores | internal/accountuse/writes.go:45-143 | an undo accepted after any interleaving restores exactly the allowed relation of before the save; who allowed it exactly when persons had allowed the touched pairs, and the waiting list exactly when no touched account was on it |
| AccountUseLaws.UndoForgets | internal/accountuse/writes.go:116-135 | a save and its undo that leave a rule's cell a person's and a waiting account off the list |
| AccountUseLaws.RunsStayGrounded | internal/accountuse/writes.go:45-310 | in every run cells join existing accounts and contexts, never a holding one, those who wait are accounts, projects belong to existing contexts, and permanent contexts are not archived |
| AccountUseLaws.RunsKeepContexts | internal/accountuse/writes.go:204-256 | in every run contexts stay, keep their kind and number their changes |
| AccountUseLaws.ConfirmationIsFinal | internal/accountuse/writes.go:155-175 | once confirmed, no run opens the question again, and confirming once more changes nothing |
| AccountUseLaws.CreatedContextUse | internal/accountuse/writes.go:204-256 | a new context is used by nobody or, under the rule, by every open account, and no other pair changes |
| AccountUseLaws.ContextUpdateUndone | internal/accountuse/writes.go:204-256 | an update, archiving included, is undone by writing what was there before: only the revisions differ |
| AccountUseLaws.ProjectMovedBack | internal/accountuse/writes.go:272-310 | a project moves to an unarchived context, and back exactly when its earlier one is unarchived |
| AccountUseLaws.PatchStaysValid | internal/accountuse/policy.go:108-141 | a patch valid over sample values is valid over any valid ones, sets the rules it names and leaves the others alone |
| AccountUseLaws.RunsKeepRulesSound | internal/accountuse/policy.go:143-173 | stored rules stay valid and the model switch mirrors them |
| PairedRuntime.FindBindingChange | cmd/aeon-agentd/paired_serve.go:612-627 | finds a changed binding, pins aside, exactly when there is one |
| PairedRuntime.CheckAttach | cmd/aeon-agentd/paired_serve.go:896-917 | accepts attach identities exactly when each is unchanged or derived from an account's path |
| PairedRuntime.CheckRepin | cmd/aeon-agentd/paired_serve.go:401-431 | the matching through a map of used positions is a comparison position by position |
| PairedRuntime.AdoptPins | cmd/aeon-agentd/paired_serve.go:450-463 | each account takes every accepted candidate in turn |
| PairedRuntime.Daemon.Refresh | cmd/aeon-agentd/paired_serve.go:514-562 | one tick on the held configuration is its specification |
| PairedRuntimeLaws.TickTells | cmd/aeon-agentd/paired_serve.go:514-562 | what a tick decides from the two configurations and the machine's answers: which refusal comes first, when the next configuration is taken over, with or without a restart, and when Claude polls |
| PairedRuntimeLaws.AdoptedIsValidated | cmd/aeon-agentd/paired_serve.go:433-463 | adopting changes only interpreter pins, to ones valid on their own, never Claude's or Grok's |
| PairedRuntimeLaws.DrainingAdoptsOnlyValidPins | cmd/aeon-agentd/paired_serve.go:529-540 | a repin accepted while runs drain changes only validated interpreter pins of other accounts |
| PairedRuntimeLaws.DrainingTakesOfferedPins | cmd/aeon-agentd/paired_serve.go:450-463 | while Claude drains every pin the repin offers to another account is taken |
| PairedRuntimeLaws.RunsKeepIdentity | cmd/aeon-agentd/paired_serve.go:595-610 | over any run of ticks the pairing identity never changes |
| PairedRuntimeLaws.RunsKeepBindings | cmd/aeon-agentd/paired_serve.go:595-627 | while an account stays enrolled its binding, pins aside, never changes |
| PairedRuntimeLaws.RepinNeedsRestart | cmd/aeon-agentd/paired_serve.go:522-549 | the repin id advances only in a tick that restarted Claude with every other binding preserved |
| PairedRuntimeLaws.PinsMoveWithoutRestart | cmd/aeon-agentd/paired_serve.go:522-549 | Claude's shared pins are taken over without a restart exactly when they change under the repin id already held |
| PairedRuntimeLaws.SdkTakenWithoutRestart | cmd/aeon-agentd/paired_serve.go:522-549 | such a tick |
| PairedRuntimeLaws.RunsMovePinsByRestart | cmd/aeon-agentd/paired_serve.go:514-562 | over a run the shared pins advance by restarts alone exactly when they never change without a repin |
| ProofReader.StepKeepsSound | cmd/aeon-agentd/attach_proof.go:10-51 | every step keeps the slot full exactly while one call holds it |
| ProofReader.OneLoadAtATime | cmd/aeon-agentd/attach_proof.go:6-41 | in every reachable state at most one load runs, and only by the holder of the slot |
| ProofReader.SlotReleasedOncePerAcquire | cmd/aeon-agentd/attach_proof.go:19-41 | each acquire is released exactly once when its call and worker are over |
| ProofReader.ResultsAreOwn | cmd/aeon-agentd/attach_proof.go:29-50 | a result a call holds or returns came from the load it started |
| ProofReader.CancelledGetNothing | cmd/aeon-agentd/attach_proof.go:42-50 | over every run a call has a result exactly when its final check let it, and then it was never cancelled before that check |
| ProofReader.WorkerCanRelease | cmd/aeon-agentd/attach_proof.go:34-41 | a worker whose load returned can always release the slot, whatever other calls do |
| ProofReader.WaitersAreBlockedByOneLoad | cmd/aeon-agentd/attach_proof.go:19-28 | a waiting call is kept out by exactly one other call |
| PercentUse.PlacedUse | internal/agentaccounts/limits.go:195-209 | exactly what a reading at a new instant changes in its epoch |
| PercentUse.PlaceReplaces | internal/agentaccounts/limits.go:199-202 | at a taken instant the preferred reading stays and nothing else changes |
| PercentUse.ReplacedUse | internal/agentaccounts/limits.go:199-209 | exactly what a replaced reading changes in its epoch |
| PercentUse.LowersExactly | internal/agentaccounts/limits.go:195-209 | for every reading, at a new or a taken instant, exactly when it lowers its epoch's use |
| PercentUse.SeriesChange | internal/agentaccounts/limits.go:195-209 | a reading changes the use of its series by what it changes in its epoch, and no other series |
| PercentUse.EpochTells | internal/agentaccounts/limits.go:199-205 | an epoch holds one sample for each instant of a measured reading by now, in time order, the harness's first and then the highest, with its window's opening |
| PercentUse.PeriodTells | internal/agentaccounts/limits.go:205-213 | a period counts the largest sum, over the series of the readings, of what each of their reset epochs adds, once |
| PercentUse.ReadingsLowerExactly | internal/agentaccounts/limits.go:195-213 | the period's use falls exactly when a measured reading by now lowers its epoch and its series alone leads |
| PercentUse.LaterReadingsNeverLower | internal/agentaccounts/limits.go:195-209 | a later reading never lowers it, so corrections refund nothing |
| PercentUse.InsertedInsideNeverLowers | internal/agentaccounts/limits.go:195-209 | inside the period no new instant lowers an epoch whose readings agree on its opening |
| PercentUse.EpochUseTelescopes | internal/agentaccounts/limits.go:195-209 | an epoch of non-decreasing readings adds its last reading less its baseline: zero when it opened inside, else the last reading before |
| PercentUse.LateBaselineLowers | internal/agentaccounts/limits.go:195-209 | a late reading from before the period that lowers the use |
| PercentUse.SameInstantReplacementLowers | internal/agentaccounts/limits.go:199-202 | a harness figure that replaces the daemon's at the same instant and lowers the use |
| PercentUse.SamePhaseReplacementLowers | internal/agentaccounts/limits.go:199-202 | a second, higher figure of one source at the same instant that lowers the use |
| PercentUse.DisagreeingOpeningLowers | internal/agentaccounts/limits.go:195-209 | readings that disagree on their epoch's opening, the earlier of which lowers the use |
| Consumption.Accumulate | internal/agentaccounts/learning.go:317-347 | the accumulating loop is the segmentation: hits with their epoch's sums, counters of the open epoch or zero after its named reset |
| Consumption.LearnConsumption | internal/agentaccounts/learning.go:265-349 | settling with its horizon and plan change is the segmented state |
| Consumption.ObservedTells | internal/agentaccounts/learning.go:276-316 | what is settled is in time order, then by id, and holds every token sample inside the horizon and every managed run of it but for the oldest beyond 2000 |
| Consumption.SettledTells | internal/agentaccounts/learning.go:263-349 | a settlement looks back to the horizon or the plan's start, which a plan change moves to now once something was learned; it records the hits and, unless the reset that ended it has passed, the counters of the open epoch |
| Consumption.PassedExactly | internal/agentaccounts/learning.go:345-347 | the open epoch's counters are cleared exactly when the last limit hit is in it and named a reset that has passed |
| Consumption.EpochsAreBlocks | internal/agentaccounts/learning.go:321-326 | epochs are consecutive blocks in order: every run is in exactly one |
| Consumption.EpochEndsAtBoundary | internal/agentaccounts/learning.go:321-343 | an epoch starts exactly at the runs not before the reset that the last limit hit, since which no epoch started, names, or after that hit when it names none |
| Consumption.EpochsConserveTokens | internal/agentaccounts/learning.go:317-343 | the epochs' totals add up to the total |
| Consumption.TotalsAddUp | internal/agentaccounts/learning.go:327-331 | tokens, cost and managed runs of a stretch add up run by run |
| Consumption.EveryHitIsRecorded | internal/agentaccounts/learning.go:332-343 | one recorded hit for each run that hit its limit, in order, with its epoch's tokens and, unless token-only sessions hide it, cost up to it |
| Consumption.SettlingIsIdempotent | internal/agentaccounts/learning.go:263-349 | settling again on the same inputs changes nothing |

## Left out

- HTTP handlers, JSON and cursor encoding, status codes, event appends, change streams, locking and isolation: transactions are atomic steps.
- Row-level security and triggers, except the cells and the waiting mark that enrolling an account or creating a context writes; the context a new project gets, `enforced_at` and audit events are not modelled.
- People lookups, avatars and classic author names in the timeline: fixed functions that do not influence which items are shown.
- `aeon_activity_at` and `aeon_activity_source`: taken to agree with the item's time and source; import documents whose comment or id is not a string are not modelled.
- ActivityAgreement.PagesAreTheFold: asks that the fold and the lookup group imports alike; clashing groups with equal contents can still show the same items, and `ActivityKeys.KeysAgreeExactly` says when they do whatever the contents.
- Schedules, time zones, calendar arithmetic, learned metrics, pacing plans, shared-quota listings and host capacity: inputs with the bounds the code relies on.
- NativeRoots.RunsConserve: counts every root that was not abandoned, because a verified exit releases a root but leaves its holds on the window; settlement of worker runs is one other holder per window, and the renewal of a root's epoch is not modelled; nor is an exit of a root verified to have had no process.
- Overflow of stored bigint columns is a refused update.
- Admission.AdmissionInputs: for a run that already owns its reservation it promises the checks of `Admission.CheckPrepared`, not the binding gate; reading the account's own rule and from-window are inputs.
- `routeRank` and the queue's choice between accounts: simple filters over the same gates.
- Sorting ties between token-only samples at one instant: their order does not change any sum.
- Redaction of restored check controls: they are returned as they were, as in the code.
- QuotaOutlookLaws.DeniedReadingsAreIrrelevant: both groups must have a denied row inside a joint figure; without one the joint figures stay and are compared as they are.
- Learning from readings, quota samples and estimates beside the windows: not part of this model.
- `CapacityReadings.ReadingStore.Ingest`: validation, credential-like names and run ownership are one acceptance test per reading.
- Matrix cells keep who set them, not when; reading endpoints of the matrix are left out.
- The reflective comparison of configurations is equality of values; nil and empty lists are not told apart.
- Supervisor holds and their texts, receipts on disk and adapters: one answer of the machine per tick.
- Panics of a proof load: the deferred release runs for them as for a return.
- Bytes of texts: strings are sequences of characters, and lower-casing is that of ASCII letters.
