# mokey, modelled and proved in Dafny

mokey is a self-service portal for FreeIPA. Its own logic is the state it keeps
in a key/value store with time-outs, and the protocols over that state. This
project models those protocols and proves what they guarantee over whole runs:
any number of replicas, threads, requests and sweeps, in any interleaving, with
failing calls where the code has to live with them.

`dafny verify dfyconfig.toml` checks everything. Times are in milliseconds
unless a comment says seconds.

## How the model is organised

| file | what it models |
|---|---|
| `Storage.dfy` | the store: entries with a deadline, an explicit clock, calls that may fail |
| `Keys.dfy` | how storage keys are built, and that no two of them collide |
| `RequestQueue.dfy`, `QueueStore.dfy` | the OTP recovery and group request queues and their load, change, save cycles |
| `LockProtocol.dfy`, `LockSerial.dfy`, `LockAcquire.dfy` | the storage lock as a step relation over replicas and threads; no lost update; the polling loop |
| `AuditRing.dfy`, `AuditCursor.dfy`, `AuditCounter.dfy` | the audit ring buffer against an unbounded log; recorders and a polling API client, interleaved; the counter under concurrent increments |
| `SessionLifetime.dfy` | idle time-out, password-change marker and requests in flight, for the sessions of one user |
| `SessionIndex.dfy`, `SessionRuns.dfy` | the per-user session index, in place; whole runs of logins, listings and revocations, with requests in flight |
| `Tokens.dfy`, `TokenRaces.dfy` | single-use e-mail tokens: issue, parse, mark used, roll back; overlapping requests for token mails |
| `SignupProtocol.dfy`, `SignupMoves.dfy` | staged and legacy signup as a step relation over directory calls; building blocks of its runs |
| `SignupEntries.dfy`, `SignupRaces.dfy`, `OpenSignup.dfy`, `SignupLinks.dfy`, `LegacySignup.dfy` | which entry arrives: handlers of one user apart, overlapping, without approval; whose link verifies it; legacy accounts |
| `SignupHandlers.dfy` | each signup and admin handler on its own, for every outcome of every call |
| `ExpiryReminders.dfy` | the password-expiry sweep |
| `Consents.dfy` | the consent-revocation sweep |
| `Password.dfy`, `PasswordLaws.dfy` | the password checks and their laws |
| `Phone.dfy` | the phone number parser and printer |
| `Seqs.dfy`, `Numbers.dfy`, `Wrappers.dfy` | filtering and reversing in place; unused numbers; option and result types |

A protocol is a `State`, an `Event` per atomic step, `Enabled`, `Apply` and
`Run`. Handlers that update stored lists in place are classes, whose methods are
proved against functions on values. Whether a storage or directory call works
is an argument (`readable`, `writable`, `saves`, an `Outcome`, an `Outage`), so
every contract says what happens for each answer of the environment.

Short lemmas beside each step relation say in plain terms when its steps may come
and what they do, so that no run is left out: a thread may die, give up or lose
its release at any time (`MishapsAnyTime`), a write may fail (`CallsFailAnyTime`,
`RecorderEndsEitherWay`), any request may start (`RequestsMayStart`), other
components may write (`OthersWriteAnyTime`, `ComesAnyTime`), sessions may end
(`SessionsEndAnyTime`, `MeanwhileMeans`).

## Where the code does less than it promises

Each of these comes with a run that breaks the promise and with the condition
under which the promise is kept.

* Old sessions stay out after a password change if and only if requests finish
  within 30 s, half of the grace minute: one slow request writes the session
  back late, another loads it late (`InFlightBoundIsExact`,
  `SlowRequestsReadmit`). Of several changes under way, one that took its time
  before a login and stores its marker last lets that login back in, and nothing
  else does (`OrderOfChangesIff`, `OverlappingChangesReadmit`).
* A revoked session stays gone if and only if no request that loaded it is in
  flight; otherwise it may come back, and is in no index (`GoneForGoodIff`,
  `RevokedComesBack`).
* An audit writer that stalls while 1000 further events are numbered overwrites
  a newer event, which no client then ever receives (`WriteKeepsRingIff`,
  `LateWriteLoses`, `StalledWriterLosesEvent`). A poll that passes the slot of
  an event in flight and finds a later one skips it for good, and nothing else
  the ring still covers is missed (`MissedIff`, `InFlightEventSkipped`).
* A failed read of the in-process audit counter is taken as zero and hands out
  number 1 again (`NumberOneTwice`); with working reads every number is handed
  out once, whatever writes fail (`EachNumberOnce`).
* The resend cooldown counts from the moment a token is issued. Measured at
  delivery the gap is shorter by the time the first mail took
  (`MailsKeepCooldown`, `SlowDeliveryShortensGap`). Overlapping requests break
  it: a failed delivery deletes whatever marker it finds
  (`RollbackFreesDeliveredMail`); `CooldownKeptIff` is the exact condition.
* An approval delivers the entry it read, with an empty category, if and only if
  `Unthreatened` holds when it has cleared the entry (`DeliversOwnEntryIff`).
  Otherwise a pending entry or an entry that nobody verified may arrive
  (`OverlapDeliversPending`, `OverlapDeliversStranger`). The condition has to
  look at who may still take the name away again: a denial of the legacy
  backend, an invitation that is undone, or a profile change that writes an old
  category back. Without approval no such condition is needed, unless the name
  is that of a pending legacy account (`ArrivalsCleanIff`).
* A second link of a denied signup verifies a later one under the same name,
  because only the name is compared (`OldLinkVerifiesNewSignup`). An entry is
  verified by its own links only if and only if no live link of another owner is
  out, on its way, presented, or still to be had for that name
  (`OwnLinksOnlyIff`).
* An approval whose second call is refused leaves an entry that no later
  verify, approve or deny changes (`HalfApprovalHappens`); exactly the entries
  with an empty category are out of reach so (`OutOfReachIff`).
* A reminder is sent at most once if and only if no sweep takes more than a day
  (`SweepBoundIsExact`, `SlowSweepRepeats`).
* A queue update is lost when a holder overruns its lease
  (`OverrunLosesUpdate`); within the leases none is (`Serialisable`), and a later
  save is harmless if and only if the queue it loaded is still the one to be
  found, as far as its operation goes (`LateSaveHarmlessIff`).

## Assumptions

* Lock tokens and session ids are fresh. A failed storage call has no effect,
  except that a SET NX or a directory call may take effect and still be
  reported as failed.
* A TTL of zero stores an entry without deadline; a negative one stores an entry
  that is already expired.
* The token library reports a token as expired from timestamp plus max age on
  (`lag` = 0); `LateExpiryReopens` shows that a later second would not do.
* Hydra's pages form a finite chain of tokens and show the user's consents.
* The password-change marker and the session index can be read; reminder markers
  can be read and written.
* Session ids do not look like one of the tagged keys.

## Model

| member | source | states |
|---|---|---|
| `RequestQueue.Without` | server/otprecovery.go:71-86 | dropping a user's request leaves that user absent and everybody else as before, and shortens the list exactly when the user was queued |
| `RequestQueue.CallMeans` | server/group_requests.go:61-90 | an add works for a user without a request and appends one with its kind and time; a remove works for a user with one and filters it out; otherwise the queue is left as it is |
| `QueueStore.RequestStore.Load` | server/group_requests.go:30-40 | a load gives the live list, and nothing when there is none or the read fails |
| `QueueStore.RequestStore.Save` | server/group_requests.go:42-58 | the empty list is stored as no entry, any other with the 30 day TTL; a failed save changes nothing |
| `QueueStore.SavedIsLoaded` | server/group_requests.go:30-58 | for 30 days a load finds what was saved last under the key, and other keys keep their lists |
| `QueueStore.RequestStore.AddRequest` | server/group_requests.go:61-72 | reports true exactly if no request in the list it loaded is the user's, and then the store holds, for 30 days, that list followed by the request with its user, kind and time; otherwise nothing changes |
| `QueueStore.RequestStore.RemoveRequest` | server/otprecovery.go:71-86 | reports true exactly if a request in the list it loaded is the user's, and then the store holds that list without it; the in-place compaction equals the filter |
| `LockProtocol.MutualExclusion` | server/storelock.go:61-118 | in every run over any replicas and threads, with crashes and the unlocked fallback as steps, two threads in the critical section of one key whose leases have not run out are the same thread, whatever all others do |
| `LockProtocol.LocalIsPunctual` | server/storelock.go:64-69 | with one process the timing condition holds in every run, for every key |
| `LockProtocol.LockLostOnlyByOwnerOrExpiry` | server/storelock.go:37-39 | in every run, overruns and crashes included, a live lock key changes only by the release of the thread whose token it holds |
| `LockProtocol.ForeignReleaseIsHarmless` | server/storelock.go:79-82 | a release by any other thread leaves the key of a running lease as it is |
| `LockProtocol.RunKeepsInv` | server/storelock.go:61-118 | every run keeps tickets unique, running leases backed by their lock entry, mutexes owned by their holder and the modes apart |
| `LockProtocol.StepKeepsInv` | server/storelock.go:61-118 | the same for one step |
| `LockSerial.RunKeepsSerial` | server/otprecovery.go:57-86 | while leases on the key are kept, every reachable state agrees with the serial execution of the calls completed so far, thread by thread, and the stored deadline with the time of the last save |
| `LockSerial.Serialisable` | server/otprecovery.go:57-86 | no lost update while leases on this key are kept: the calls are a serial execution in lock order, without overlap in time; each reports what that execution reports; each found the queue lapsed exactly when nothing was saved or 30 days had passed since the last save; a load now finds the serial queue unless it lapsed; every thread reports its logged result |
| `LockSerial.LocalSerialisable` | server/storelock.go:64-69 | with one process all of this holds with no timing assumption |
| `LockSerial.LastCallDecides` | server/group_requests.go:61-90 | in a serial execution a user is queued exactly if that user's last call was an add, unless the queue lapsed since |
| `LockSerial.AddedStaysQueued` | server/group_requests.go:61-72 | for 30 days a request whose add reported success is found exactly as it was made, kind and time included, behind requests that earlier calls added and before those of later ones, and is the user's only one, unless a remove of that user comes after it |
| `LockSerial.FoundWasAdded` | server/group_requests.go:61-90 | every request found was put there as it stands by a successful add, after which neither a remove of that user nor a lapse came |
| `LockSerial.LapsedIff` | server/otprecovery.go:17-55 | a queue has lapsed if and only if no save was made in the last 30 days |
| `LockSerial.CallAlone` | server/storelock.go:61-118 | in every reachable state a call that meets no other does to the queue what its operation says, with its own kind and the current time, and leaves the lock key and the mutex free |
| `LockSerial.GivesUpBesideHolder` | server/storelock.go:70-78 | a run in which a thread that gave up waiting is in its critical section beside the holder |
| `LockSerial.OverrunLosesUpdate` | server/storelock.go:70-78 | a reachable state in which an add that reported success is gone because a holder saved after its lease |
| `LockSerial.LateSaveHarmlessIff` | server/otprecovery.go:57-86 | in every run, leases or not, a save does and reports what the call would do at that moment if and only if the queue it loaded is still the one found, for a removal up to requests of that user |
| `LockAcquire.Acquire` | server/storelock.go:85-109 | terminates within 304 attempts, needs all of them in the worst case, times out only after the wait, and a sole waiter behind a crashed holder gets the lock when replies take under a second |
| `LockAcquire.SleptClosedForm` | server/storelock.go:94-107 | the backoff is 20 ms from the fifth attempt on and the time slept before attempt n is 30 + 20 (n - 4) ms |
| `Seqs.Compact` | server/sessions.go:79-84 | compaction into the front of the list that is being ranged over equals the filter |
| `Seqs.ReverseInPlace` | server/sessions.go:129-132 | swapping from both ends reverses |
| `AuditRing.RecordKeepsAgreement` | server/audit.go:119-129 | writing event n into slot n % 1000 keeps the slots equal to the last 1000 log entries |
| `AuditRing.Ring.Incr` | server/storelock.go:122-134 | hands out the next number, or nothing when the call fails |
| `AuditRing.Ring.Record` | server/audit.go:89-130 | appends one event with the next number to the log and keeps the ring in agreement; without a number nothing changes, and a failed slot write uses the number up |
| `AuditRing.Ring.Recent` | server/audit.go:133-152 | the entries in the ring window newest first, cut to n; for a ring in agreement, the last min(n, 1000, count) log entries |
| `AuditRing.RecentIsLog` | server/audit.go:133-152 | that is the last min(n, 1000, count) log entries, newest first |
| `AuditRing.Ring.UserRecent` | server/audit.go:156-178 | the entries about the user in the window newest first, cut to n; for a ring in agreement, those of the last 1000 log entries |
| `AuditRing.UserRecentIsLog` | server/audit.go:156-178 | that is the last 1000 log entries filtered by user, newest first, cut to n |
| `AuditRing.ByUserMembers` | server/audit.go:172-174 | the filter keeps exactly the entries in which the user is subject or actor |
| `AuditRing.ByUserIsFilter` | server/audit.go:172-174 | and in their order: it is the filter on subject or actor |
| `AuditRing.Ring.After` | server/audit.go:183-212 | the entries after the cursor that stand in the slot of their own number (or carry none), oldest first, cut to n; for a ring in agreement, the log from there on |
| `AuditRing.AfterIsLog` | server/audit.go:183-212 | that is the first n log entries numbered in (max(after, count - 1000), count], consecutive; a cursor that is negative or ahead of the counter starts over |
| `AuditRing.NumberedFromMeans` | server/audit.go:193-209 | whatever the slots hold, the entries read are those that stand in the slot of their own number or carry none, each once, numbered and in order |
| `AuditRing.ApiEvents` | server/api.go:52-68 | rejects exactly negative cursors and limits outside 1 to 1000; `next` is the last number or the cursor |
| `AuditRing.PagesConcatenate` | server/api.go:62-67 | two answers in a row are one answer of both limits together |
| `AuditCounter.EachNumberOnce` | server/storelock.go:122-134 | in every interleaving of increments, atomic or read and write under the mutex, with failing writes, the numbers handed out are exactly 1 up to the counter, each to one thread |
| `AuditCounter.LaterIsLarger` | server/storelock.go:122-134 | a thread given its number later holds a larger one |
| `AuditCounter.FailedReadRestarts` | server/storelock.go:129-133 | whenever a number was handed out, a failed read hands out number 1 a second time |
| `AuditCounter.NumberOneTwice` | server/storelock.go:129-133 | a run of two recorders that both get number 1 |
| `AuditCursor.EachEventOnce` | server/api.go:52-68 | in every interleaving of numbering, slot writes and slot reads, a client that feeds `next` back gets strictly increasing numbers, no event twice, each as recorded |
| `AuditCursor.MissesOnlyWhatLeftTheRing` | server/audit.go:183-212 | with prompt writers and no record in flight when a poll starts, when a poll that reached the counter it saw ends, the client has every event up to that counter which is less than 1000 behind the counter now, and keeps it |
| `AuditCursor.PollsBringOn` | server/api.go:57-67 | a poll that did not reach the counter it saw brings as many events as its limit and moves the cursor on |
| `AuditCursor.MissedIff` | server/audit.go:183-212 | with prompt writers and polls at any time, the client lacks an event its cursor passed and the ring still covers if and only if a poll passed its slot while it was in flight and found a later event |
| `AuditCursor.SkippedForever` | server/api.go:62-67 | such an event is never received later |
| `AuditCursor.InFlightEventSkipped` | server/audit.go:119-129 | a run in which this happens |
| `AuditCursor.CursorCovers` | server/api.go:62-67 | if no record is in flight when a poll starts, the client has every event its cursor passed while less than 1000 behind the counter |
| `AuditCursor.WriteKeepsRingIff` | server/audit.go:119-129 | a slot write keeps the ring current if and only if the counter has not come round to the slot, or the event now due there is itself unwritten |
| `AuditCursor.LateWriteLoses` | server/audit.go:119-129 | otherwise the written event due in that slot is lost, unless the client has it already |
| `AuditCursor.LostForever` | server/audit.go:183-212 | no client ever receives an event that is lost |
| `AuditCursor.StalledWriterLosesEvent` | server/audit.go:119-129 | a run in which one late write loses the newest event |
| `SessionLifetime.RunKeepsSane` | server/auth.go:26-80 | in every run sessions end within the idle time-out, markers within a minute more, and every session carries a CSRF token, so none is saved before its check |
| `SessionLifetime.OldSessionsStayOut` | server/auth.go:51-106 | once a marker is stored no check ever accepts an older session, also after the marker expired, if requests finish within 30 s and no smaller marker is stored later |
| `SessionLifetime.FenceHolds` | server/auth.go:98-106 | the invariant behind it: old sessions end before the marker does |
| `SessionLifetime.InFlightBoundIsExact` | server/auth.go:74-106 | old sessions stay out of every run with that bound on requests in flight if and only if twice the bound is at most the grace minute |
| `SessionLifetime.SlowRequestsReadmit` | server/auth.go:74-79 | a run with requests of 30.001 s at the end of which an old session passes its check |
| `SessionLifetime.OverlappingChangesReadmit` | server/auth.go:98-106 | a run in which two changes store their markers in the wrong order and a session older than the later one passes |
| `SessionLifetime.OrderOfChangesIff` | server/auth.go:98-106 | once a marker above the login of a live session is stored, that login stays out of all that may follow if and only if every change under way took its time after it |
| `SessionLifetime.ChangerStaysIn` | server/password.go:384-395 | the session that made the change passes every check until a later change |
| `SessionIndex.RecordedWellFormed` | server/sessions.go:70-95 | recording a login keeps ids distinct, oldest first, at most 20 entries, and the new entry is in |
| `SessionIndex.RecordedDropsOldest` | server/sessions.go:91-93 | an entry of another session falls off only when 20 remain, and it is older than all of them |
| `SessionIndex.FilterWellFormed` | server/sessions.go:188-199 | so does dropping any entries |
| `SessionIndex.ShownAtMostOneCurrent` | server/sessions.go:106-134 | the listing is newest first and marks at most one entry as current |
| `SessionIndex.FiltersMean` | server/sessions.go:97-134 | the listing shows exactly the listed sessions that can be read and are alive; a revocation keeps all but one, a revocation of the others only one |
| `SessionIndex.Inventory.Record` | server/sessions.go:70-95 | the in-place update of one user's index is the list function; other users' indexes are unchanged |
| `SessionIndex.Inventory.List` | server/sessions.go:97-134 | shows exactly the entries whose session data can be read newest first, drops the others, and renews the index while one is left |
| `SessionIndex.Inventory.Revoke` | server/sessions.go:138-163 | deletes session data only for an id in the user's own index, and that entry with it |
| `SessionIndex.Inventory.RevokeOthers` | server/sessions.go:167-184 | deletes exactly the other indexed sessions whose deletion works, counts them, and keeps only the current entry |
| `SessionIndex.Inventory.Drop` | server/sessions.go:188-199 | removes the entry and touches no session data |
| `SessionRuns.IndexAlwaysWellFormed` | server/sessions.go:70-199 | after any sequence of operations by any users, failed ones included, every index has distinct ids, oldest first, at most 20, all of them the user's own |
| `SessionRuns.OthersUntouched` | server/sessions.go:138-184 | in every run no user's operation changes another's index or deletes another's session |
| `SessionRuns.RevokeOthersLeavesCurrent` | server/sessions.go:167-184 | with working deletions no indexed session but the current one stays alive |
| `SessionRuns.GoneForGoodIff` | server/auth.go:74-77 | a session whose data is gone stays gone in all that may follow if and only if no request that loaded it is in flight |
| `SessionRuns.StaysUnlisted` | server/sessions.go:138-163 | once out of its owner's index a session is never listed again |
| `SessionRuns.RevokedComesBack` | server/sessions.go:155-162 | a run in which a revoked session is alive again and in no index |
| `Keys.RenderInjective` | server/const.go:30-38 | no two storage keys collide, across components, kinds, used and issued roles, user names and tokens |
| `Keys.LastDash` | server/expiry.go:89 | the number after the last dash can be read back whatever dashes and digits the user name holds |
| `Keys.SignedRemindersCollideIff` | server/expiry.go:89 | reminder markers with any dates collide exactly where the sign of a date before 1970 moves into the user name |
| `Keys.BareKeysApart` | server/server.go:259-263 | addresses and hexadecimal session ids, which are keys without a tag, meet no tagged key |
| `Tokens.Service.NewToken` | server/token.go:51-97 | issues exactly when storage works and no marker is alive, and stores a marker for the cooldown |
| `Tokens.Service.ParseToken` | server/token.go:99-139 | accepts exactly a genuine, unexpired token without a live used marker, and gives the claims it carries; any read error rejects |
| `Tokens.Service.MarkTokenUsed` | server/token.go:144-153 | the marker covers the rest of the token's life; nothing else changes; this is the marking step of the runs |
| `Tokens.Service.SendTokenEmail` | server/email.go:109-120 | a failed delivery removes the issued marker, a successful one changes nothing |
| `Tokens.Service.RequestMail` | server/email.go:122-135 | issue check, marker, delivery and rollback together are the request step of the runs |
| `Tokens.NeverAcceptedAgain` | server/token.go:99-153 | a token marked used for a purpose is rejected for it at every later time of every run |
| `Tokens.AcceptedIff` | server/token.go:99-153 | in every run a token is accepted if and only if it is genuine, before the end of its life, and not marked used for that purpose; what is accepted are the claims it carries |
| `Tokens.LateExpiryReopens` | server/token.go:145-146 | if expiry were reported one second late, the marker would be gone first |
| `Tokens.OtherKeysUntouched` | server/const.go:30-36 | an event changes at most the one entry it is about |
| `Tokens.MailsKeepCooldown` | server/token.go:51-97 | two mails of one kind to one name are issued at least the cooldown apart |
| `Tokens.SlowDeliveryShortensGap` | server/token.go:87-96 | measured at delivery the gap is shorter by the delivery time of the first |
| `Tokens.BlockedOnlyByMailOrFailedRollback` | server/email.go:105-120 | in every run a request is refused only inside the cooldown of a delivered mail, or of one whose delivery and rollback both failed |
| `TokenRaces.CooldownKeptIff` | server/email.go:109-120 | with overlapping requests, all that may follow keeps a mail's cooldown if and only if no mail on its way was issued inside it and, unless it is over, a marker stands to its end and no other request is past its check |
| `TokenRaces.SoloKeepsCooldown` | server/token.go:51-97 | in every run in which requests for one kind and name do not overlap its mails are issued at least the cooldown apart |
| `TokenRaces.RollbackFreesDeliveredMail` | server/email.go:111-116 | a run in which a failed delivery deletes the marker of a delivered mail and the next mail follows at once |
| `SignupProtocol.NameVerifiedFirst` | server/account.go:289-373 | in every run a self-signup is active only after a verify POST with an accepted token for its name, followed by an approve of the name when that is required |
| `SignupProtocol.MilestonesMean` | server/account.go:335-373 | a milestone stands for what its call did: the entry a link was presented for, the entry found pending, the entry that moved to the active tree |
| `SignupEntries.ArrivesVerifiedAndApproved` | server/account.go:316-330 | with approval, while no two handlers are about to write this user's entry, what arrives is an entry that was itself verified and then approved, with an empty category, whichever calls fail and whatever other users do |
| `SignupRaces.DeliversOwnEntryIff` | server/admin.go:224-234 | an approval that has cleared its entry delivers that entry, empty, in all that may follow if and only if no verification or denial is about to write it and no second approval is under way while the name may be freed (by a legacy denial or an undone invitation), or the name is taken for good |
| `OpenSignup.ArrivalsCleanIff` | server/account.go:324-329 | without approval every arrival under a name is a verified entry with an empty category, in all runs and overlaps, if and only if the name is not that of a pending legacy account |
| `SignupLinks.OwnLinksOnlyIff` | server/account.go:335-357 | links are mailed at signup and by resending, used up by a finished verification and may expire; an entry is verified by its own links only, in all that may follow, if and only if no live link of another owner under its name is out, on its way or presented, and no unverified account of that name is active or about to be |
| `SignupLinks.LinkVerifiesOnce` | server/account.go:421-426 | in every run, with and without approval, in either tree and whatever other handlers do meanwhile: once a verification is through and all its calls worked, no later request can present its link |
| `SignupLinks.DeadLinkStartsNothing` | server/token.go:99-117 | a link that is used up or expired stays so and starts no verification |
| `SignupLinks.OldLinkVerifiesNewSignup` | server/account.go:452-486 | a run with one request at a time in which the second, resent link of a denied signup verifies a later one |
| `SignupEntries.OverlapDeliversStranger` | server/admin.go:265-274 | a run in which a denial and an approval overlap and an entry arrives that was neither verified nor approved |
| `SignupEntries.OverlapDeliversPending` | server/account.go:316-330 | a run in which an overlapping verification delivers a pending account |
| `SignupRaces.OutOfReachIff` | server/admin.go:224-229 | with approval, a staged entry that nobody is about to write is out of reach of all that may follow if and only if its category is empty |
| `SignupRaces.HalfApprovedStaysStuck` | server/admin.go:225-234 | so it is after a cleared category and a refused activation, unless somebody is already about to write it |
| `SignupRaces.HalfApprovalHappens` | server/admin.go:225-234 | a run that ends so |
| `LegacySignup.EnabledOnlyIfEntitled` | server/account.go:377-420 | in every run a disabled legacy account is enabled only by an unblock, by a verification when no approval is required, or by an approval, after a verification unless it was pending from the start |
| `SignupHandlers.Directory.StagedAccountCreate` | server/account.go:289-312 | refuses a name taken in either tree, adds an unverified staged entry otherwise, never touches the active tree; a refusal changes nothing |
| `SignupHandlers.Directory.VerifyStagedUser` | server/account.go:316-330 | with approval success leaves an unverified entry pending; without, it has moved as a whole, enabled and with an empty category; every outcome of the two calls is given |
| `SignupHandlers.Directory.VerifyLegacyUser` | server/account.go:377-420 | after success an unverified category is pending or empty as approval is required or not, and the account is enabled unless it is; every outcome of the two calls is given |
| `SignupHandlers.Directory.Approve` | server/admin.go:217-264 | after success a pending entry has moved with an empty category, or a pending legacy account is enabled with one; every outcome of every call is given |
| `SignupHandlers.Directory.Deny` | server/admin.go:265-285 | after success the entry is gone from the tree in which it was pending, and nothing else has changed |
| `SignupHandlers.ThenIsStep` | server/account.go:316-373 | the calls that the lemmas below put in a row are steps of the protocol |
| `SignupHandlers.CreatePlayed` | server/account.go:289-312 | the signup handler equals the run of its protocol phases with the same outcomes: the trees, the link that is mailed, and where it ends |
| `SignupHandlers.VerifyPlayed` | server/account.go:316-373 | so does the staged verification, in both modes, and it goes on to use up its link exactly if it reports success |
| `SignupHandlers.LegacyVerifyPlayed` | server/account.go:377-420 | so does the legacy verification |
| `SignupHandlers.VerifyRetires` | server/account.go:365-426 | a verification all of whose calls work leaves the link it presented used up and every other link as it was, with and without approval, in either tree |
| `SignupHandlers.ResendPlayed` | server/account.go:468-510 | a resend that finds an account mails a link for it exactly if it is unverified and cannot log in before that changes |
| `SignupHandlers.ResendStagedPlayed` | server/account.go:471-485 | one that finds none mails a link exactly for an unverified staged entry |
| `SignupHandlers.InvitePlayed` | server/account.go:231-262 | an invitation adds an empty enabled account, which is deleted again when the call is reported as failed |
| `SignupHandlers.ProfilePlayed` | server/account.go:87-87 | a profile change writes the category back as it read it |
| `SignupHandlers.ApprovePlayed` | server/admin.go:217-264 | so does the approval, in either tree |
| `SignupHandlers.DenyPlayed` | server/admin.go:265-285 | so does the denial, in either tree |
| `SignupHandlers.FindPending` | server/ipa_stageuser.go:31-43 | the list is the staged users filtered to the pending category |
| `ExpiryReminders.FirstFitIsTightest` | server/expiry.go:80-87 | with sorted windows the first that fits is the smallest that fits |
| `ExpiryReminders.MailForIff` | server/expiry.go:70-87 | a user is due for a mail if and only if not locked, with an address and an expiry date ahead that lies within some window; the mail names the date and the smallest such window |
| `ExpiryReminders.Scheduler.Sweep` | server/expiry.go:56-122 | a sweep visits the users in turn, counts the mails it sent, and each is for the tightest window |
| `ExpiryReminders.RemindedOnce` | server/expiry.go:56-115 | over any number of sweeps of at most a day, no user, expiry date and window is mailed twice |
| `ExpiryReminders.MailsAreTightest` | server/expiry.go:80-87 | every mail is for the smallest configured window around the remaining time |
| `ExpiryReminders.WindowsShrink` | server/expiry.go:56-115 | the windows mailed for one expiry date strictly decrease |
| `ExpiryReminders.RemindedAfterVisit` | server/expiry.go:85-115 | after a visit with working delivery a user due for a window has been reminded for it |
| `ExpiryReminders.MailsOnlyOnVisits` | server/expiry.go:70-115 | every mail of a run went out on a visit to its user, unlocked, with an address and that date still ahead |
| `ExpiryReminders.SweepBoundIsExact` | server/expiry.go:89-102 | no reminder is repeated in any run with that bound on a sweep if and only if the bound is at most a day |
| `ExpiryReminders.SlowSweepRepeats` | server/expiry.go:89-102 | for every longer bound, a run of two sweeps in which the second reads the marker too late and repeats the mail |
| `Consents.AdmitsMeans` | server/hydra.go:80-99 | in a valid configuration the search ends at a client's first entry, which decides by group, or at the default |
| `Consents.ClientAllowedMeans` | server/hydra.go:72-100 | a configuration that does not parse refuses everybody; in a valid one a client's first entry admits exactly the users in one of its groups, direct or not and up to case folding, and a client without an entry is open unless everything else is denied |
| `Consents.AllowedIffEntitled` | server/hydra.go:72-100 | under any configuration, invalid ones included, a user is allowed exactly what `Entitled` says without a search; the sweep is stated in its terms |
| `Consents.ClientGroupsEnforced` | server/hydra_consent.go:24-35 | the sweep runs exactly under a configuration that parses, names its clients and restricts something |
| `Consents.ConsentClientIDs` | server/hydra_consent.go:59-84 | terminates on every finite chain of pages, collects each client once and all of them, and fails exactly when a page does |
| `Consents.Hydra.RevokeDisallowed` | server/hydra_consent.go:88-118 | only clients that the user is not entitled to lose their consents; without errors all of them do, and the count is their number |
| `Consents.Hydra.Sweep` | server/hydra_consent.go:168-189 | nothing admitted is touched and the count never exceeds the refused pairs; without errors no refused consent remains and the count is the number of distinct refused pairs of user and client |
| `Consents.Hydra.SweepTwice` | server/hydra_consent.go:168-189 | after an error-free sweep a second one, whatever fails in it, counts zero and leaves every consent as it is |
| `Password.LongestRun` | server/password.go:176-187 | the loop computes the longest stretch |
| `Password.LongestIsGreatest` | server/password.go:176-187 | some stretch with that step has that length and none is longer |
| `Password.LimitExceededIff` | server/password.go:156-161 | a limit is exceeded exactly when a window one longer than it exists |
| `Password.CountCategories` | server/password.go:50-85 | the count is the number of classes in use, less one exactly when a character occurs three times in a row |
| `Password.CheckPassword` | server/password.go:25-96 | the verdict that `PasswordAcceptedIff` and `PasswordErrorIs` characterise |
| `Password.CheckPwquality` | server/password.go:102-172 | the verdict that `PwqualityErrorIs` characterises |
| `PasswordLaws.PwqualityAcceptsIff` | server/password.go:102-172 | accepts exactly what has enough characters of each class, the credited length, no symmetry, no long run and no user name |
| `PasswordLaws.PwqualityErrorIs` | server/password.go:102-172 | the error is that of the first requirement that fails, in this order: digits, upper, lower, others, credited length, symmetry, repeats, sequences, user name |
| `PasswordLaws.PasswordAcceptedIff` | server/password.go:25-96 | accepted if and only if it has the configured length and classes, the classes of the policy, and either what libpwquality asks for, where any of its eight fields is set, or the length of the policy |
| `PasswordLaws.PasswordErrorIs` | server/password.go:25-96 | a refused password gets the larger minimum length that applies, then the error of its classes, then that of libpwquality |
| `PasswordLaws.CategoriesMean` | server/password.go:50-85 | the classes counted are the five character ranges in use, less one when a character occurs three times in a row |
| `PasswordLaws.BytesEncode` | server/password.go:103-103 | the bytes of a password are the UTF-8 encodings of its characters in order (section 3 of RFC 3629) |
| `PasswordLaws.StricterThanConfig` | server/password.go:25-47 | accepted under any policy implies accepted under the configured minimums |
| `PasswordLaws.TighterAcceptsLess` | server/password.go:102-161 | lower credits, a higher minimum and tighter limits only shrink what is accepted |
| `PasswordLaws.SameVerdictReversed` | server/password.go:102-187 | an ASCII password and its reversal get the same verdict and error |
| `PasswordLaws.LongestReversed` | server/password.go:176-187 | reversal turns ascending stretches into descending ones of the same length |
| `Phone.JoinedIsWellFormed` | server/phone.go:41-69 | what is stored is a code of 1 to 4 digits, a blank and a trimmed national number that together satisfy the digit rule |
| `Phone.StoredDigits` | server/phone.go:111-114 | a stored number has 2 to 15 digits and no leading zero (section 6 of ITU-T E.164) |
| `Phone.SplitOfStored` | server/phone.go:24-36 | splitting a stored value gives back its two halves |
| `Phone.RoundTrip` | server/phone.go:24-69 | for every accepted pair with a number, split gives the code and the trimmed national part, and joining them again gives the stored value, pasted international numbers included |
| `Phone.AcceptedIff` | server/phone.go:41-69 | which fields are accepted, in both directions |
| `Phone.JoinMeans` | server/phone.go:41-77 | what the fields give in all cases: which of the three errors, what is stored, and that a pasted number keeps its digits and is split behind the first |
| `Phone.SplitMeans` | server/phone.go:24-36 | a plus sign, a code of digits, a blank and a rest are split into the code and the trimmed rest, and a code comes from nothing else |
| `Phone.TrimSpaceMeans` | server/phone.go:25-25 | trimming takes white space off both ends and nothing else |
| `Phone.DigitsOnly` | server/phone.go:84-92 | the loop keeps exactly the digits, in order |
| `Phone.IsPhoneish` | server/phone.go:96-108 | only digits and phone punctuation, and at least one digit |
| `Phone.ForeignValuesKept` | server/phone.go:24-36 | a value is shown whole, trimmed only, if and only if it is not a plus sign, digits, a blank and a rest |

## Left out

- HTTP routing, templates, translations, captcha, webhooks, metrics, health, TLS, breach lookup and logging: wiring around foreign calls.
- FreeIPA, Hydra, SMTP, Redis, WebAuthn, TOTP and token cryptography: they appear as calls that may fail, with the contracts listed above.
- JSON encoding: values are stored as they are, so unreadable stored values do not occur.
- AuditRing.Ring.Record: after a failed slot write the readers may show the event that the slot still holds; nothing is promised about them then.
- AuditCursor.MissesOnlyWhatLeftTheRing: does not cover counter restarts, expired slots or entries written before sequence numbers were stored; the readers of `AuditRing` do handle such entries.
- LockSerial.Serialisable: threads of the key that went on without the lock are steps of the model but fall outside its timing condition; the session index takes the same lock but is proved one operation at a time.
- SessionLifetime.ChangerStaysIn: a request on the same session that was already in flight with the old login time may write that time back; the lemma asks that there is none.
- SessionLifetime.OldSessionsStayOut: one user at a time, and the marker is always readable; the code accepts a session when the read fails.
- Tokens.MailsKeepCooldown: leaves out the recovery kind, whose marker the code releases early on purpose.
- Tokens.LateExpiryReopens: speaks of a token marked without delay.
- SignupProtocol.NameVerifiedFirst: accounts and entries change only through this program; the resend cooldown appears as mails that are refused, and the expiry of a link as a step that may come at any time.
- SignupHandlers.Directory.StagedAccountCreate: validation of names and passwords and the error codes of the directory are not modelled, nor are welcome mails and the lifting of the password expiry.
- Password.CheckPwquality: the dictionary check of libpwquality is not part of the code; passwords are valid UTF-8 and the user name arrives lower-cased.
- Consents.Hydra.Sweep: the folding of group names is a parameter, and user names are distinct.
- ExpiryReminders.RemindedOnce: one scheduler; replicas that race in one sweep may each send a mail, as the code notes.
- Language matching, durations, user name rules, admin and lock-out predicates: short properties that would only add easy members.
