# NightShift: a Dafny model of the alarm path

NightShift watches construction sites through video recorders. An edge agent reads a recorder's event stream
and queues what it hears; the backend takes alarm mails, decides which of them are alarms, tells people, and
makes itself louder until somebody answers. This project models the parts of that path where a mistake loses
an alarm or repeats one, and proves what they promise over every input and every run.

Classes stand for the objects the Python code mutates. Each method is proved against a function on values, and
the theorems are about those functions and about whole runs of them.

| module | models | main results |
|---|---|---|
| `EventParser`, `ChunkIndependence`, `NegativeLength`, `BufferBound`, `Recovery`, `FrameRoundTrip`, `LooseParts`, `MixedRoundTrip`, `EventRoundTrip`, `HeaderMeaning`, `EventPayload`, `PayloadMeaning` | the incremental parser of the recorder's multipart stream (the framing idea of section 5.1 of RFC 2046 with Content-Length and a missing-blank-line quirk) | chunk independence with its exact condition, print/parse round trip for any mixture of the three framings, bounded memory and recovery, what headers and payloads mean |
| `Zones`, `Risk`, `Rules`, `RuleMeaning`, `Schedules` | zones, scoring, rules, schedules | ray-casting soundness and representation independence, when a rule matches and what it scores, loudest rule, exact weekly coverage |
| `Tokens`, `TokenLifetime`, `AuthRouter`, `AuthRuns` | refresh-token families in memory and as transactions (compare section 5.2.2.3 of RFC 6819) | one active token a family, good until its lifetime is over, closed families stay closed, the endpoint refines the store request by request and run by run |
| `Watchdog`, `SilenceSweep`, `FleetWatch`, `SilenceMeaning` | the silence watchdog | what a site raises, every silent recorder is named once, no silence goes unsaid, a heartbeat lies between two alarms |
| `Escalation`, `EscalationWorker`, `EscalationRuns`, `Transport` | the escalation climb, its worker, push delivery | exact wake-up, at most once, never early, never after an answer, restarts included |
| `Dedup`, `Suppression`, `AlarmFlow`, `AlarmMeaning`, `AlarmCover`, `Intake`, `IntakeMeaning`, `IntakeRuns`, `IntakeExamples` | from a delivered mail to committed rows and a push | one alarm a window and for which sightings it speaks, conservation of sightings, idempotent intake, no media row without its object |
| `Ordering`, `Outbox`, `OutboxRuns`, `Eviction` | the edge agent's offline queue | nothing lost or handed out twice, shortest eviction |
| `RateLimiting` | the SMTP rate limit | at most 2 * limit - 1 in any minute |

`Options`, `Clock`, `Counting`, `LastWords` and `ByteStrings` hold the optional value, the units of time, a truth
value as a number, what counts when several lines name one thing, and the string searches the rest is written with.
The modules called `...Meaning` say what the operations do in terms of the rows, the clock and the text alone, without
the definitions the other modules share.

Times are integers (microseconds), coordinates and confidences are reals, and a byte is a character. Identifiers
the code draws at random are numbers that were not used before. Library calls whose inside does not matter (JSON
decoding, int(), text decoding, hashing, the timezone database, the outcome of a push attempt or of an upload) are
parameters, so the theorems hold for whatever they do.

## What the code does where a reader might expect otherwise

The model follows the code in all of these.

* A negative Content-Length slices from the end of whatever is buffered, so the events can depend on how the
  stream was cut. `ChunkIndependence` gives the exact condition, `NegativeLengthTells` the bytes.
* `is_always_on` documents start equal to end as 24 hours. With only some days listed the window never opens
  (`EqualBounds`).
* A step that reaches nobody is called spent in a comment of the escalation worker, but only the memory of that
  sweep knows. It is recorded if and only if it reaches somebody (`SweepSettlesExactly`), so the next sweep tries
  it again (`SilentStepIsRetried`; `NobodyThenSomebody` is such a run). A policy with a repeated step within the
  cut-off age sends it twice in one sweep (`SendsOnceExactly`).
* `DedupWindow.purge` is documented to drop windows that closed before the given time. It drops those that
  opened before it, the still open ones included (`PurgeIsVisible`).
* `persist_flow` is documented to leave the sighting recorded when a later row fails. It runs in one transaction,
  so two stored snapshots of one message, which share a storage key, undo all of it (`GoesThroughExactly`). The
  SMTP server then asks the recorder to try again, but the dedup window has already opened, so a resend inside it
  raises no alarm either (`RefusedAlarmIsLost`; `TwoSnapshotsLoseTheAlarm` is such a mail).
* The dedup window is asked before the rules. A sighting no rule matches, such as one just before a schedule opens,
  opens it all the same and swallows a matching one inside it (`EarlySightingHidesMatch`, and exactly when in
  `CoveredExactly`).
* A rate limit below one does not close the door: a message that comes a minute or more after the window opened
  is admitted (`ZeroLimitLetsOneIn`, and exactly when in `RefusedExactly`).
* A resend that stores no alarm can still be broadcast to open apps as an alarm frame, with the id of the first
  event; only the push to phones is held back. `FrameWithoutRow` says exactly when, `ResendShowsAlarm` is one.
* The constructor of a policy asks for ordered offsets. An exact wake-up once the alarm is open needs a little less
  (`WakesExactlyWhenOrdered`).

## Model

| member | source | states |
|---|---|---|
| EventParser.DahuaEventStreamParser.constructor | edge-agent/nightshift_edge/devices/dahua/event_parser.py:135-145 | A new parser holds nothing, is between parts, and knows the given boundary, normalised to start with two dashes. |
| EventParser.DahuaEventStreamParser.SetBoundary | edge-agent/nightshift_edge/devices/dahua/event_parser.py:148-151 | The boundary becomes the normalised bytes and starts with two dashes; nothing else changes. |
| EventParser.DahuaEventStreamParser.FeedChunk | edge-agent/nightshift_edge/devices/dahua/event_parser.py:165-175 | A feed emits the events and reaches the state of the specification `Feed`, the resync of an overfull buffer included. The theorems below are about `Feed`. |
| EventParser.DahuaEventStreamParser.FlushBuffer | edge-agent/nightshift_edge/devices/dahua/event_parser.py:177-187 | Flushing emits the one unfinished part without a declared length, if it is not blank, and leaves the state of `Flush`. |
| EventParser.DahuaEventStreamParser.ResyncBuffer | edge-agent/nightshift_edge/devices/dahua/event_parser.py:189-199 | After a resync the parser is between parts and the buffer starts at the last boundary found past its first byte, or is empty. |
| EventParser.DahuaEventStreamParser.DrainBuffer | edge-agent/nightshift_edge/devices/dahua/event_parser.py:201-209 | The loop ends (buffer length, then in-body flag, decrease) and has emitted the events of every complete part, in order. |
| EventParser.DahuaEventStreamParser.TakeHeaders | edge-agent/nightshift_edge/devices/dahua/event_parser.py:211-258 | Reading a header block in place reaches the state `ConsumeHeaders` gives and says whether a body was entered, in all three framing modes. |
| EventParser.DahuaEventStreamParser.ScanHead | edge-agent/nightshift_edge/devices/dahua/event_parser.py:221-241 | The line loop finds the first payload-like line, or else the headers of the whole block. |
| EventParser.DahuaEventStreamParser.TakeBody | edge-agent/nightshift_edge/devices/dahua/event_parser.py:260-278 | The body taken is the declared length, or everything before the next marker; an incomplete body leaves the parser untouched. |
| EventParser.EnteredConsumes | edge-agent/nightshift_edge/devices/dahua/event_parser.py:218-258 | Entering a body uses up input, or leaves a payload line that does not start with the marker ending it; this is what makes the drain loop terminate. |
| EventPayload.ParsePayload | edge-agent/nightshift_edge/devices/dahua/event_parser.py:287-330 | The loop that fills the field table computes the specification `ParseEventPayload`, whose meaning `PayloadMeans` states, whatever JSON decoding and int() do. |
| EventPayload.Split | edge-agent/nightshift_edge/devices/dahua/event_parser.py:302-330 | Splitting loses nothing: joining the pieces gives the text back, and no piece contains the separator. |
| EventPayload.PayloadRoundTrip | edge-agent/nightshift_edge/devices/dahua/event_parser.py:287-338 | A printed payload is parsed back into exactly its code, action, index and data, even when the data blob contains semicolons. |
| PayloadMeaning.PayloadMeans | edge-agent/nightshift_edge/devices/dahua/event_parser.py:287-338 | For every text, written as tokens between semicolons and perhaps `data=` with a blob: no event without "Code=" in it or without a code; otherwise one with the code, the action or "", the index or none, each as the last token says that names it in whatever order, and the data the blob means (none without one). |
| PayloadMeaning.EveryTextIsWritten | edge-agent/nightshift_edge/devices/dahua/event_parser.py:287-338 | Every text is written like that, and says something or nothing of each field. |
| HeaderMeaning.PayloadLineMeans | edge-agent/nightshift_edge/devices/dahua/event_parser.py:106-120 | A line, blanks around it aside, is taken for payload if and only if it has an equals sign before any colon and does not begin with two dashes. |
| HeaderMeaning.TableIsLastGiven | edge-agent/nightshift_edge/devices/dahua/event_parser.py:221-241 | The header table of a block of lines holds, for each name, what the last line gives that names it, and nothing else. |
| HeaderMeaning.BoundaryMeans | edge-agent/nightshift_edge/devices/dahua/event_parser.py:148-151 | The boundary of a raw value is its text without the blanks and quotes around it, with two dashes put in front unless they are there. |
| HeaderMeaning.LearnedFromHeader | edge-agent/nightshift_edge/devices/dahua/event_parser.py:153-162 | A boundary is learned once, from the first parameter of a part's Content-Type that is named boundary, without the quotes around its value. |
| ChunkIndependence.PayloadFoundAgain | edge-agent/nightshift_edge/devices/dahua/event_parser.py:218-237 | A payload line found without a blank line is found at the same place when more bytes have arrived, even if these complete a blank line. |
| ChunkIndependence.HeadersExtend | edge-agent/nightshift_edge/devices/dahua/event_parser.py:211-258 | A header step that enters a body is the same step on any longer buffer. |
| ChunkIndependence.BodyStepStable | edge-agent/nightshift_edge/devices/dahua/event_parser.py:260-278 | A completed body is the same body on a longer buffer if and only if no negative declared length counts back into the longer buffer. |
| ChunkIndependence.CutExactly | edge-agent/nightshift_edge/devices/dahua/event_parser.py:201-278 | Draining a buffer in two goes gives the frames and the state of draining it in one if and only if the cut is safe: no body completed before it has a negative length that reaches into what follows. |
| ChunkIndependence.ChunkIndependence | edge-agent/nightshift_edge/devices/dahua/event_parser.py:165-278 | For every stream under the cap: all ways of cutting it give the same frames and the same final state if and only if every single cut is safe. |
| ChunkIndependence.SafeCutsFeed | edge-agent/nightshift_edge/devices/dahua/event_parser.py:165-209 | The frames and the final state of successive feeds are those of one drain of the whole stream, for longer streams too as long as no single feed overflows. |
| ChunkIndependence.CutsAgree | edge-agent/nightshift_edge/devices/dahua/event_parser.py:165-187 | Two ways of cutting one stream agree on the events, on the final state and on what the final flush emits. |
| ChunkIndependence.DrainSettles | edge-agent/nightshift_edge/devices/dahua/event_parser.py:201-209 | After a drain nothing is left that could be emitted. |
| ChunkIndependence.NonNegativeLengthsOk | edge-agent/nightshift_edge/devices/dahua/event_parser.py:249-265 | If int() yields no negative number, no stream has an unsafe cut (with `LengthsOkIsCutProof`). |
| ChunkIndependence.LengthsOkIsCutProof | edge-agent/nightshift_edge/devices/dahua/event_parser.py:249-265 | A stream none of whose bodies has a biting negative length is safe to cut anywhere. |
| NegativeLength.NegativeLengthTells | edge-agent/nightshift_edge/devices/dahua/event_parser.py:249-265 | For every k > 0 and every longer tail: the bytes "Content-Length: -k", a blank line and the tail give different frames when cut after the blank line. |
| BufferBound.FeedStaysContained | edge-agent/nightshift_edge/devices/dahua/event_parser.py:165-175 | One feed keeps the invariant "under the cap, or no boundary past the first byte", and leaves at most the cap (or the boundary length, if larger) plus the chunk. |
| BufferBound.MemoryBound | edge-agent/nightshift_edge/devices/dahua/event_parser.py:135-136 | Over any run of chunks of at most `size` bytes, whatever they hold, the buffer never exceeds the cap (or the boundary length, if larger) plus `size`. |
| FrameRoundTrip.RoundTrip | edge-agent/nightshift_edge/devices/dahua/event_parser.py:201-278 | Printed parts (boundary, headers, Content-Length, blank line, body, CRLF), cut in any way, are parsed back into exactly those parts in order, bodies with boundaries or blank lines included, and leave the buffer empty. |
| FrameRoundTrip.NoAddedLatency | edge-agent/nightshift_edge/devices/dahua/event_parser.py:260-278 | A body is out once its last byte is in, and not one byte earlier. |
| FrameRoundTrip.StepOfPart | edge-agent/nightshift_edge/devices/dahua/event_parser.py:211-278 | One drain step on a printed part followed by anything emits that part and leaves exactly what follows. |
| MixedRoundTrip.MixedRoundTrip | edge-agent/nightshift_edge/devices/dahua/event_parser.py:165-278 | Parts with a length, parts ended by the next boundary and parts without a blank line before the body, in any mixture and cut in any way: the feeds return them in order, all but a last one without a length, which the flush returns unless it is blank. |
| MixedRoundTrip.OutAtNextBoundary | edge-agent/nightshift_edge/devices/dahua/event_parser.py:266-278 | A last part without a length is out once the marker that follows it is complete, and with no fewer bytes of it. |
| LooseParts.EndsAtMarkerExactly | edge-agent/nightshift_edge/devices/dahua/event_parser.py:266-273 | When a body that ends its last line (any body while no boundary is known) holds no marker, and only then, it ends at the marker printed after it. |
| LooseParts.PayloadFound | edge-agent/nightshift_edge/devices/dahua/event_parser.py:221-237 | Behind header lines without a blank line, the payload is found where its first line begins, whatever follows. |
| Recovery.RecoversAfterOverflow | edge-agent/nightshift_edge/devices/dahua/event_parser.py:165-199 | After an overfull feed, whatever led to it: if the bytes kept, followed by the next chunks, are printed parts, the frames from that feed on are exactly those parts, and the buffer ends empty. |
| EventRoundTrip.EventsComeBack | edge-agent/nightshift_edge/devices/dahua/event_parser.py:165-338 | End to end: printed events, cut in any way, come out of the parser as they went in. |
| Zones.PointInPolygon | backend/app/modules/rules/zones.py:50-65 | The loop that flips the flag decides the parity of the crossings, with the on-edge rule first, and raises for an invalid polygon. |
| Zones.OutsideBoxIsOutside | backend/app/modules/rules/zones.py:50-74 | A point more than the tolerance outside the bounding box is never inside, for every polygon. |
| Zones.ClosedCrossesEvenly | backend/app/modules/rules/zones.py:57-65 | A closed outline straddles every horizontal line an even number of times. |
| Zones.RotationInvariant | backend/app/modules/rules/zones.py:50-74 | The answer, and the validity of the polygon, do not depend on the vertex the outline starts from. |
| Zones.ReversalInvariant | backend/app/modules/rules/zones.py:50-74 | Nor on the direction in which the outline runs. |
| Zones.TriangleExact | backend/app/modules/rules/zones.py:50-74 | For a triangle and a point off its boundary band, inside means strictly on the same side of all three edges. |
| Zones.MatchZones | backend/app/modules/rules/zones.py:131-134 | Exactly the zones that contain the ground anchor of the box are matched. |
| Zones.FeetDecide | backend/app/modules/rules/zones.py:77-101 | A detection stands in exactly the zones that hold the middle of the bottom edge of its box; boxes with the same bottom edge middle match the same zones. |
| Zones.MatchAny | backend/app/modules/rules/zones.py:137-154 | The union loop computes `MatchUnion`. |
| Zones.MatchUnion | backend/app/modules/rules/zones.py:137-154 | The match is the zones hit by some detection, except that a frame whose every detection is ignored matches what its first detection stands in. |
| Zones.IgnoredOnlyTogether | backend/app/modules/rules/zones.py:117-121 | A frame is silenced if and only if it has a detection and each one stands in an IGNORE zone. |
| Zones.MatchGrows | backend/app/modules/rules/zones.py:137-154 | In a frame that is not silenced, adding a detection loses no zone and does not silence it, unless it is the only one and ignored. |
| Zones.MatchKeepsZonesExactly | backend/app/modules/rules/zones.py:137-154 | Adding a detection to any frame loses no zone if and only if the frame was empty, was not silenced, or the detection is ignored too. |
| Risk.ComputeRisk | backend/app/modules/rules/risk.py:124-142 | The two loops compute `Score`. |
| Risk.ScoreIsClampedSum | backend/app/modules/rules/risk.py:124-142 | The score is the sum of the weights over the set of factors that fired, clamped to 0..100, whatever their order and repetition. |
| Risk.ScoreWithFactor | backend/app/modules/rules/risk.py:124-142 | One more factor of non-negative weight never lowers the score. |
| Risk.SeverityMonotone | backend/app/modules/rules/risk.py:25-39 | A higher score is never a lower severity. |
| Rules.CollectFactors | backend/app/modules/rules/engine.py:180-222 | The appending code collects the factors in the specified order. |
| Rules.FiredFactors | backend/app/modules/rules/engine.py:180-222 | Whatever boxes the frame holds, the factors that fire are those of the context plus the restricted-zone one, and only this one depends on the zones matched. |
| Rules.EvaluateAll | backend/app/modules/rules/engine.py:229-243 | The loop returns `Best`. |
| Rules.BestIsLoudest | backend/app/modules/rules/engine.py:229-243 | The result is the decision of some rule, no rule is louder in (matched, score), and it is the first of the loudest. |
| Rules.OrderIndependent | backend/app/modules/rules/engine.py:229-243 | Lists with the same rules, in any order and with any repetitions, give the same (matched, score). |
| Rules.MoreRulesNeverQuieter | backend/app/modules/rules/engine.py:229-243 | Adding a rule never lowers (matched, score). |
| Rules.DetectionNeverQuieter | backend/app/modules/rules/engine.py:112-243 | With non-negative restricted-zone weights, adding a detection does not lower (matched, score) if and only if the frame already had one, or it stands in no IGNORE zone, or there was nothing to silence. |
| RuleMeaning.RuleMatchesWhen | backend/app/modules/rules/engine.py:112-222 | A rule matches if and only if it is on, lists the event type and the camera (or no camera), a window of its schedule is open, the frame is not silenced and some detection stands in its zones (or it names none), the AI consents, and the points reach its severity (30, 50, 70, 85). The points are the sum, between 0 and 100, over the factors whose facts hold, with the weight of the rule or the usual one, each a reason once. A match escalates from 85 on; a rule that applies but scores too low, or waits for the AI, is logged; any other says nothing. |
| Schedules.ActiveIffInWindow | backend/app/modules/rules/schedule.py:66-85 | With distinct bounds: active if and only if the local time lies in a half-open window opened on a listed day, midnight crossing included. |
| Schedules.EqualBounds | backend/app/modules/rules/schedule.py:52-85 | With equal bounds: active at all times if every day is listed, and never otherwise. |
| Schedules.WeeklyCoverage | backend/app/modules/rules/schedule.py:66-85 | In any seven days, from any instant, the active time is exactly the number of listed days times the window length. |
| Schedules.BusinessHoursAreASchedule | backend/app/modules/rules/schedule.py:100-115 | Outside business hours is exactly where the 07:00-19:00 schedule of the working days is not active, and those hours are 72 in every week. |
| Tokens.TokenFamilyStore.Add | backend/app/modules/auth/tokens.py:185-186 | The record is stored under its hash and nothing else changes. |
| Tokens.TokenFamilyStore.RevokeAll | backend/app/modules/auth/tokens.py:191-197 | The loop retires every active token of the family, leaves the rest, and counts the ones it retired. |
| Tokens.TokenFamilyStore.RotateToken | backend/app/modules/auth/tokens.py:199-238 | Rotation leaves the table and gives the verdict of `Rotate`, whose meaning `GoodUntilExpiry` and `RefusalMeans` state. |
| Tokens.TokenFamilyStore.RevokeToken | backend/app/modules/auth/tokens.py:240-246 | Logging out retires exactly the presented active token, or changes nothing and says so. |
| Tokens.TokenFamilyStore.PurgeExpired | backend/app/modules/auth/tokens.py:248-252 | Purging deletes exactly the expired records and counts them. |
| Tokens.FamiliesStaySound | backend/app/modules/auth/tokens.py:142-252 | Over every run of logins, refreshes, logouts and purges a family has at most one active token and no token is ever accepted twice. |
| Tokens.DeadForever | backend/app/modules/auth/tokens.py:199-252 | A family without an active token never gets another token accepted, whatever the clock does and whatever is purged. |
| Tokens.SpentForever | backend/app/modules/auth/tokens.py:199-252 | Once every active token of a family has expired, no token of it is accepted again by a clock that does not run back. |
| Tokens.ReuseClosesFamily | backend/app/modules/auth/tokens.py:215-223 | A detected reuse or an expired refresh leaves the family without an active token. |
| Tokens.LogoutClosesFamily | backend/app/modules/auth/tokens.py:240-246 | Logging out the active token leaves the family without one. |
| Tokens.ReplayIsDetected | backend/app/modules/auth/tokens.py:215-219 | Presenting a token that was already exchanged and is still stored is answered with reuse detection. |
| TokenLifetime.GoodUntilExpiry | backend/app/modules/auth/tokens.py:158-238 | Over every run after a token was given out by a login or a refresh: a refresh with it is accepted if and only if it is still stored, was not taken back and its lifetime is not over; the new token is for the same user, tenant and family, lives as long as that refresh says, and no other row changes. |
| TokenLifetime.UntouchedIsAccepted | backend/app/modules/auth/tokens.py:199-252 | A token is accepted up to the last instant of its lifetime unless a refresh of its family, its logout, or a purge after its lifetime came before. |
| TokenLifetime.RefusalMeans | backend/app/modules/auth/tokens.py:199-223 | An unknown token changes nothing; one that was taken back takes back every other active token of its family; one whose lifetime is over is itself taken back. |
| TokenLifetime.LogoutMeans | backend/app/modules/auth/tokens.py:240-246 | A logout takes back the token if it was active and changes nothing else. |
| AuthRouter.RevokeRows | backend/app/modules/auth/router.py:202-216 | Selecting the active rows and writing them one by one revokes the family exactly as the in-memory loop does. |
| AuthRouter.RefreshHandler | backend/app/modules/auth/router.py:97-144 | What is committed and what is pending when the handler returns or raises. |
| AuthRouter.RefreshRequest | backend/app/core/deps.py:46-53 | With the surrounding commit or rollback, the request leaves the table and the answer of `Outcome`. |
| AuthRouter.LogoutRequest | backend/app/modules/auth/router.py:147-159 | Logout commits exactly what the in-memory revoke does. |
| AuthRouter.RefreshRefinesRotate | backend/app/modules/auth/router.py:97-144 | The endpoint leaves the table and the verdict of the in-memory rotate if and only if the token is unusable or its user is active; otherwise it refuses and changes nothing. |
| AuthRouter.ReplayRevocationSurvives | backend/app/modules/auth/router.py:114-121 | The revocation after a replay survives the rollback that the refusal causes. |
| AuthRouter.LoginRequest | backend/app/modules/auth/router.py:65-94 | A login stores a token of the user, in the tenant of the user, for an active user with the right password, and otherwise changes nothing. |
| AuthRuns.RunsAreStoreRuns | backend/app/modules/auth/router.py:65-159 | Whatever logins, refreshes and logouts are served while users come, go and are deactivated, the committed table and the accepted tokens are those of a run of the in-memory store, so its invariant holds of them. |
| AuthRuns.ClosedFamiliesStayClosed | backend/app/modules/auth/router.py:97-159 | A family without an active token in the committed table never gets another one accepted, whatever requests follow. |
| TokenLifetime.LoginGivesOut | backend/app/modules/auth/router.py:65-94 | A login gives out a token if and only if the password is right and the user active: the user's, in their tenant, for the lifetime of the call. |
| TokenLifetime.EndpointHonoursTokens | backend/app/modules/auth/router.py:97-144 | Whatever requests follow the one that gave a token out, a refresh with it is answered with a new one if and only if it is still stored, was not taken back, its lifetime is not over and its user is active. |
| Watchdog.SilenceLasts | backend/app/modules/devices/watchdog.py:64-115 | A recorder found silent stays so while nothing is heard from it. |
| SilenceSweep.GroupBySite | backend/app/services/silence_sweep.py:94-107 | Filling the dictionary groups the fleet by site, in order of first appearance. |
| SilenceSweep.SweepResult.AddSite | backend/app/services/silence_sweep.py:110-180 | One site adds its alarms, state changes and recoveries to the result and changes nothing already there. |
| SilenceSweep.SweepFleet | backend/app/services/silence_sweep.py:94-180 | The sweep as written computes `PlanSweep`. |
| SilenceSweep.NamedExactlyOnce | backend/app/services/silence_sweep.py:94-180 | Every newly silent recorder is named by exactly one alarm of the sweep. |
| SilenceSweep.EveryAlarmHasCause | backend/app/services/silence_sweep.py:110-180 | Every alarm names a newly silent recorder of its site, and only silent recorders of its site. |
| SilenceSweep.SiteIndependence | backend/app/services/silence_sweep.py:94-180 | The alarms of a site are those of a sweep over its own recorders. |
| SilenceSweep.ChangesAreExact | backend/app/services/silence_sweep.py:110-180 | A recorder's state is rewritten if and only if the verdict differs from it, and then to the verdict. |
| SilenceSweep.RecoveredExactly | backend/app/services/silence_sweep.py:118-125 | A recorder is reported recovered if and only if it is heard again and was stored as late or silent. |
| SilenceSweep.LongestIsLongest | backend/app/services/silence_sweep.py:140-142 | A site alarm carries the longest silence among its silent recorders, and none when none has been quiet. |
| SilenceMeaning.WhatASiteRaises | backend/app/services/silence_sweep.py:110-180 | A site without a newly silent recorder raises nothing. With one it raises a single alarm naming every silent recorder, if and only if it has at least two recorders and three quarters of them are silent; otherwise one alarm for each newly silent recorder. Silent is one and a half intervals without a word. |
| SilenceMeaning.StateFollowsQuiet | backend/app/modules/devices/watchdog.py:64-115 | The state a sweep leaves a recorder in: never seen, in order within one interval, late within one and a half, silent from then on. |
| SilenceMeaning.RecoveredByBeat | backend/app/services/silence_sweep.py:118-125 | Reported recovered is exactly who was heard within its interval and was on record as late or silent. |
| SilenceMeaning.SweepRewrites | backend/app/workers/watchdog.py:86-111 | A sweep rewrites a row only where the state by quiet time differs from the one on record, and stamps it; a recorder without a row gets none. |
| SilenceMeaning.HeartbeatIsHeard | backend/app/services/persistence.py:202-233 | A heartbeat changes the recorder's row and no other; the row says in order and when it came; a sweep within the interval leaves it so and names the recorder in no alarm. |
| FleetWatch.FleetDb.TouchHeartbeat | backend/app/services/persistence.py:202-233 | A message sets the last-heard time, creates the missing row, and timestamps the state only when it changes. |
| FleetWatch.FleetDb.LoadSnapshots | backend/app/workers/watchdog.py:53-83 | The loop joins each recorder with its silence row. |
| FleetWatch.FleetDb.ApplySweep | backend/app/workers/watchdog.py:86-111 | Exactly the changed states are written, with their timestamp, and the alarms are appended in order. |
| FleetWatch.FleetDb.SweepOnce | backend/app/workers/watchdog.py:181-194 | One sweep of the worker takes the stored fleet to `Sweep`, a quiet sweep leaving it alone. |
| FleetWatch.SweepStoresVerdicts | backend/app/workers/watchdog.py:86-111 | After a sweep each recorder's stored state is the verdict on it, and nothing else of its row moved. |
| SilenceSweep.ChangesOnlyFleet | backend/app/services/silence_sweep.py:94-180 | A sweep changes the state of no recorder outside the fleet it was given. |
| FleetWatch.SilenceWasSaid | backend/app/workers/watchdog.py:53-194 | Over any run from the empty table, a recorder on record as silent was named by an alarm of some sweep, and nothing was heard from it since that sweep. |
| FleetWatch.HeartbeatBetweenAlarms | backend/app/workers/watchdog.py:53-194 | Over any run with a clock that does not run back, two device-silent alarms for one recorder are separated by a heartbeat. |
| Escalation.EscalationState.Acknowledge | backend/app/modules/alarms/escalation.py:89-94 | Acknowledging stops the climb; it records the time and answers yes only the first time. |
| Escalation.EscalationState.Due | backend/app/modules/alarms/escalation.py:99-111 | The due steps are the undelivered ones past their offset, in policy order, and none once stopped. |
| Escalation.EscalationState.MarkDelivered | backend/app/modules/alarms/escalation.py:113-117 | The first step equal to the given one is marked, and nothing is when none is equal. |
| Escalation.EscalationState.NextDue | backend/app/modules/alarms/escalation.py:119-129 | The loop returns the offset of the first undelivered step that lies ahead. |
| Escalation.OrderedWakesExactly | backend/app/modules/alarms/escalation.py:36-41 | For an ordered policy nothing becomes due before `next_due_at`, something does at it, and without an answer the due set never changes again. |
| Escalation.WakesExactlyWhenOrdered | backend/app/modules/alarms/escalation.py:36-41 | Every alarm with the policy wakes exactly, asked at any time since it opened, if and only if no step has a larger offset than one that follows it, unless that one is due from the start. |
| Escalation.PolicyFor | backend/app/modules/alarms/escalation.py:71-73 | The built-in policies are accepted by the constructor and their offsets strictly increase. |
| Escalation.CriticalClimbsFaster | backend/app/modules/alarms/escalation.py:49-73 | A critical alarm climbs faster and further: the same roles in the same order, a guard at once, none later, and the owner after four minutes. |
| EscalationWorker.OpenAlarms | backend/app/workers/escalation.py:77-94 | Exactly the alarms that are unanswered and not older than the cut-off are escalated. |
| EscalationWorker.DispatchAddsRows | backend/app/modules/notifications/transport.py:209-223 | A dispatch to n recipients adds, as this loop reads the table, n rows of its alarm and step, whatever became of each push. |
| EscalationWorker.EscalationDb.RunAlarm | backend/app/workers/escalation.py:113-184 | Running one alarm dispatches and records step by step what `EscalateAlarm` says, spending silent steps without a row. |
| EscalationWorker.EscalationDb.SweepOnce | backend/app/workers/escalation.py:187-209 | One sweep takes the delivery table to `Sweep`. |
| EscalationWorker.EscalatedAlarm | backend/app/workers/escalation.py:113-184 | As long as no step past its offset repeats an earlier one, a pass over an alarm dispatches exactly the owed steps in order and records exactly those. |
| EscalationRuns.SweepDispatchesOnlyOwed | backend/app/workers/escalation.py:77-209 | Everything a sweep dispatches was owed by an open alarm when the sweep began: due, unrecorded, and with somebody to reach. |
| EscalationRuns.SweepDispatchesAllOwed | backend/app/workers/escalation.py:77-209 | Everything owed when a sweep begins is dispatched and recorded by it. |
| EscalationRuns.SweepSettlesExactly | backend/app/workers/escalation.py:113-209 | After a sweep, a step of an open alarm that is past its offset is recorded if and only if it was recorded before or reaches somebody now. |
| EscalationRuns.SilentStepIsRetried | backend/app/workers/escalation.py:77-209 | A step past its offset that reached nobody in one sweep stays unrecorded. After any alarms, answers, pushes, sweeps and restarts, the next sweep that finds the alarm open and reaches somebody dispatches it, unless it was recorded in between. |
| EscalationRuns.NobodyThenSomebody | backend/app/workers/escalation.py:77-209 | For every step in reach of a policy that repeats nothing: raise, sweep with nobody to reach, sweep with everybody; nothing is dispatched by the first sweep and the step is by the second. |
| EscalationRuns.RunsStayGood | backend/app/workers/escalation.py:77-209 | Over any run of new alarms, answers, intake pushes, sweeps and restarts, with policies that repeat no step within the cut-off age: each step is dispatched at most once, never before its offset, never after an answer and never past the cut-off age. |
| EscalationRuns.RecordedStaysSilent | backend/app/workers/escalation.py:97-110 | A step recorded by anybody, such as the step-0 push of intake, is never dispatched afterwards. |
| EscalationRuns.SendsOnceExactly | backend/app/workers/escalation.py:77-176 | The runs of a policy, sweeps and restarts included, dispatch each step of an alarm at most once if and only if no step within the cut-off age repeats an earlier one; otherwise the first sweep past its offset sends it twice. |
| EscalationRuns.BuiltInPolicies | backend/app/modules/alarms/escalation.py:49-73 | The built-in policies repeat no step, so the guarantees over runs apply to every alarm the system raises. |
| EscalationRuns.AlarmsEvolve | backend/app/modules/alarms/router.py:131-198 | Acknowledging and resolving never change an alarm's identity or take an answer back, and record it at the current time. |
| EscalationRuns.AnswersAreRecorded | backend/app/modules/alarms/router.py:131-198 | An acknowledgement is recorded on an alarm nobody answered, a resolution on one not resolved (and as its acknowledgement if it had none); other alarms are left alone. |
| Transport.SendWithRetry | backend/app/modules/notifications/transport.py:127-174 | The result is that of the one deciding attempt (the first not worth retrying, or the last allowed), and no attempt follows it. |
| Transport.PushDispatcher.SendOne | backend/app/modules/notifications/transport.py:243-252 | A platform without a transport is reported unconfigured without an attempt. |
| Transport.PushDispatcher.Dispatch | backend/app/modules/notifications/transport.py:189-241 | Each recipient gets one row, whatever came of it (the escalation worker counts on that), and one place in exactly one of the totals; exactly the phones whose token is gone are dropped. |
| Transport.GoneExactly | backend/app/modules/notifications/transport.py:226-231 | A phone is dropped if and only if some recipient on it was reported unregistered. |
| Transport.RowTells | backend/app/modules/notifications/transport.py:209-223 | A delivery row names the alarm, the step, the user and the channel of the platform, with the time only if it was sent and at most a thousand characters of the error. |
| Transport.RecipientsForRole | backend/app/modules/notifications/transport.py:302-333 | The recipients are, in table order, every phone of a known platform that an active user of the tenant owns, of the named users if there are any and otherwise of the first role of the ladder that has one; nobody only if no role has one. |
| Transport.WhereReachesSomebody | backend/app/modules/notifications/transport.py:336-363 | The query finds nobody if and only if no active user of the tenant fits with a phone of a known platform. |
| Dedup.DedupWindow.Check | backend/app/modules/events/dedup.py:59-82 | A check leaves the entry and gives the decision of `Touched` and `Verdict`; a zero override means the configured window. |
| Dedup.DedupWindow.Purge | backend/app/modules/events/dedup.py:87-92 | Exactly the windows opened before the given time are dropped, and counted. |
| Dedup.AlarmsAreApart | backend/app/modules/events/dedup.py:59-82 | Successive openings for one key are at least a window apart, whatever the order of the timestamps. |
| Dedup.SightingsAreConserved | backend/app/modules/events/dedup.py:59-82 | The counts of the closed windows of a key and of the open one add up to the number of checks. |
| Dedup.PurgeIsVisible | backend/app/modules/events/dedup.py:87-92 | A purge changes the verdict of a check if and only if it dropped a window the check falls into. |
| Dedup.PurgesAreInvisible | backend/app/modules/events/dedup.py:87-92 | If every check after purge(before) comes at or after before + window, every verdict of the run is the one without purges. |
| Suppression.OutageState.MarkSiteOnline | backend/app/modules/alarms/suppression.py:67-68 | The site is no longer known to be offline, and nothing else changes. |
| Suppression.SuppressedExactly | backend/app/modules/alarms/suppression.py:85-115 | A symptom is suppressed if and only if its type may be and the site is offline, or the recorder is silent and the symptom is not about the recorder. |
| Suppression.MoreOutagesSuppressMore | backend/app/modules/alarms/suppression.py:85-115 | Knowing of more outages never brings a suppressed symptom back, and the covering level does not sink. |
| AlarmFlow.Process | backend/app/services/alarm_flow.py:108-221 | The early returns give the outcome of `Outcomes`; blocked and suppressed messages leave the dedup window untouched. |
| AlarmFlow.AlarmExactly | backend/app/services/alarm_flow.py:108-221 | An alarm is raised if and only if the message is neither blocked nor suppressed, opens its window, and some rule matches; it scores as high as any matching rule. |
| AlarmMeaning.MessageMeans | backend/app/services/alarm_flow.py:108-245 | A message ends as blocked, without an event, explained by an outage, inside an open window, as an alarm if some rule fires on it, or unmatched, in this order. An alarm carries the points of a firing rule than which none fires with more, and begins the critical climb from 85 points on, the usual one below. What each stage stores, counts and pushes follows. |
| AlarmMeaning.QuestionAsked | backend/app/services/alarm_flow.py:163-183 | The rules are asked about the event at the instant it was received, on the wall clock of their timezone, with the camera of its channel and the zones of that camera only. |
| AlarmFlow.SecurityEventsIgnoreOutages | backend/app/services/alarm_flow.py:131-146 | What becomes of a never-suppressed event, and of the window, is the same whatever is known to be down. |
| AlarmFlow.AlarmsAreApart | backend/app/services/alarm_flow.py:108-221 | Between restarts of the process, over any run, successive alarms for one key are at least a window apart, whatever the timestamps and whatever is suppressed in between. |
| AlarmCover.CoveredExactly | backend/app/services/alarm_flow.py:131-184 | Over any run, every event that reaches dedup lies in a window some sighting opened, and an alarm of its key was raised in that window if and only if the rules matched the opening sighting. |
| IntakeExamples.EarlySightingHidesMatch | backend/app/services/alarm_flow.py:148-184 | A person seen a second before the schedule opens matches no rule but opens the window, and the person seen a second after it opens, who does match, raises no alarm. |
| AlarmFlow.SightingsAreConserved | backend/app/services/alarm_flow.py:131-163 | Over any run, the windows of a key hold exactly the events of that key that were neither blocked nor suppressed. |
| Intake.Session.ExistingEventId | backend/app/services/persistence.py:236-242 | The event of a message is found if there is one, and an empty message id finds nothing. |
| Intake.Session.RecordMessage | backend/app/services/persistence.py:346-386 | A known message id adds nothing; a new one adds its row and, if captured, its sample. |
| Intake.Session.PersistFlow | backend/app/services/persistence.py:245-339 | The rows written are those of `Written`, with the ids returned, and the flush fails exactly when two media rows share a key. |
| Intake.MailIntake.Upload | backend/app/services/intake.py:188-218 | The digests returned are those of the images that were accepted, and the key holds the last of them. |
| Intake.MailIntake.Handle | backend/app/services/intake.py:93-186 | Handling a message takes the tables, the window and the bucket to `Handled` and answers `ReplyTo`: the ids of the event and the alarm, whether it is a resend, the frame broadcast, and the alarm pushed to phones. A refused transaction changes no row and tells nobody. A push is handed to the notifier on resends too, whose guard (services/notifier.py, lines 46-49) keeps it from phones unless this call stored an alarm row. |
| Intake.PushHasRow | backend/app/services/intake.py:141-186 | An alarm id is answered exactly when one alarm row and its event were just committed, and it is theirs; phones are pushed for it if and only if the flow carries a push, and never without it. |
| Intake.FrameWithoutRow | backend/app/services/intake.py:141-186 | An alarm frame goes out without an alarm row if and only if the call is not refused, the flow carries a push and the message has a stored event; the frame names that event. |
| Intake.FrameExactly | backend/app/services/intake.py:141-186 | A refused call shows nothing; any other shows an alarm frame if its flow carries a push, and otherwise an event frame if it has an event. |
| IntakeMeaning.WhatADeliveryWrites | backend/app/services/persistence.py:245-386 | A delivery that goes through stores its message, labelled, unless it is known, its sample, the heartbeat, and its event unless it has none or that is known (a message without an id never is): with the score and the band of its decision, an alarm of the same severity, and its pictures under site, day and event. |
| IntakeRuns.RunsStaySound | backend/app/services/persistence.py:236-386 | Over any run: at most one message row and one event per message id, at most one alarm per event, every alarm and media row names an event, storage keys are unique. |
| IntakeRuns.ResendOnlyBeats | backend/app/services/intake.py:93-161 | Once a delivery has gone through, resending the message changes no row but the heartbeat and uploads nothing, whatever happened in between. Only the message id has to be the same: arrival time, parse and images may differ, except that an event read only from the resend is stored then. |
| IntakeExamples.LateResendOnlyBeats | backend/app/services/intake.py:93-161 | A mail sent again at any other time is a different parse result, and after whatever came in between it still changes only the heartbeat. |
| IntakeRuns.RunsStoreMedia | backend/app/services/intake.py:118-139 | Over any run, refused transactions, failed uploads and restarts included, every committed media row points at an object that exists and is the image the row describes. |
| IntakeRuns.RefusedAlarmIsLost | backend/app/services/intake.py:111-139 | When the transaction of an alarm is refused, nothing is stored, and no later delivery of its key inside the window raises an alarm, resends of the message included. |
| IntakeExamples.TwoSnapshotsLoseTheAlarm | backend/app/services/intake.py:111-139 | One mail with two accepted snapshots on a guarded site: the flow raises an alarm, the transaction is refused, and a second later the same mail raises none and no alarm is stored. |
| IntakeExamples.ResendShowsAlarm | backend/app/services/intake.py:141-186 | The same mail one window later: no alarm row and no push to phones, but an alarm frame with the id of the first event. |
| IntakeExamples.RestartForgetsWindow | backend/app/modules/events/dedup.py:59-82 | After a restart of the process the next sighting of a key is an alarm again, however soon it comes. |
| IntakeRuns.GoesThroughExactly | backend/app/db/models.py:390-394 | A delivery goes through if and only if it makes no event or at most one of its images was stored, because all snapshots of an event share one key. |
| IntakeRuns.EventsAreAlwaysKept | backend/app/services/intake.py:118-131 | Every unblocked message with an event and no stored event makes one, whether suppressed, duplicate, unmatched or alarmed. |
| Ordering.SortSorts | edge-agent/nightshift_edge/queue/sqlite_store.py:147-158 | ORDER BY: the same rows, in key order. |
| OutboxRuns.ClaimMeans | edge-agent/nightshift_edge/queue/sqlite_store.py:147-158 | A claim returns pending or retryable rows whose next attempt is not in the future, by time of occurrence and then insertion, up to the limit, and leaves none behind that comes before a returned one. |
| Outbox.SqliteOutbox.EnqueueEvent | edge-agent/nightshift_edge/queue/sqlite_store.py:113-145 | A new edge event id adds one pending row; a known one adds nothing; the id returned is queued. |
| Outbox.SqliteOutbox.ClaimEvents | edge-agent/nightshift_edge/queue/sqlite_store.py:147-163 | The claimed rows are returned and exactly they become uploading. |
| Outbox.SqliteOutbox.MarkEvent | edge-agent/nightshift_edge/queue/sqlite_store.py:165-185 | The marked event gets the state, the error and the next attempt and counts one more attempt; every other row is untouched. |
| Outbox.SqliteOutbox.SpoolBytes | edge-agent/nightshift_edge/queue/sqlite_store.py:217-222 | The sum of the sizes of the unfinished media. |
| Outbox.SqliteOutbox.EvictMedia | edge-agent/nightshift_edge/queue/sqlite_store.py:224-247 | The loop deletes exactly `Evicted` and returns their files in order. |
| OutboxRuns.RunKeepsEvents | edge-agent/nightshift_edge/queue/sqlite_store.py:113-247 | Over any run every event row keeps its place and what was reported, and no edge event id is on two rows; eviction touches none. |
| OutboxRuns.EnqueuedIsKept | edge-agent/nightshift_edge/queue/sqlite_store.py:113-145 | Whatever a run enqueues is in the table at its end. |
| OutboxRuns.ClaimsAreSeparated | edge-agent/nightshift_edge/queue/sqlite_store.py:147-185 | An event handed out by one claim is handed out again only after a mark has put it back among the waiting. |
| OutboxRuns.AttemptsCountMarks | edge-agent/nightshift_edge/queue/sqlite_store.py:165-185 | The attempts of an event count its marks. |
| Eviction.EvictionMeans | edge-agent/nightshift_edge/queue/sqlite_store.py:224-247 | Evicted are unfinished media only, the largest priority number first and the oldest first within it, none while a row that goes before it stays; and without the last one the spool would not fit. |
| Eviction.EvictionFrees | edge-agent/nightshift_edge/queue/sqlite_store.py:217-247 | The spool falls by exactly what was freed, every other row stays, and afterwards the spool fits or holds no unfinished media. |
| RateLimiting.RateLimiter.Allow | backend/app/modules/ingest/smtp_server.py:53-63 | A call admits and counts as `Admits` and `Seen` say, for its own key only. |
| RateLimiting.SlidingBound | backend/app/modules/ingest/smtp_server.py:53-63 | With a clock that does not run back, no half-open minute, wherever it starts, admits more than 2 * limit - 1 messages of one device, and more than one under a limit below one. |
| RateLimiting.BoundIsReached | backend/app/modules/ingest/smtp_server.py:53-63 | For every limit some run admits exactly 2 * limit - 1 within one minute. |
| RateLimiting.RefusedExactly | backend/app/modules/ingest/smtp_server.py:53-63 | Under a limit below one, a device never gets a message in if and only if all its messages come within a minute of the first. |
| RateLimiting.ZeroLimitLetsOneIn | backend/app/modules/ingest/smtp_server.py:53-63 | Under a limit of zero, a second message a minute after the first is admitted. |
| RateLimiting.DevicesAreIndependent | backend/app/modules/ingest/smtp_server.py:53-63 | The verdicts on a device are those of the run with only its calls. |

## Left out

- ChunkIndependence.ChunkIndependence: speaks of streams that fit under the buffer cap; beyond it the resync drops bytes and the events do depend on the cut. `SafeCutsFeed` covers longer streams none of whose feeds overflows.
- FrameRoundTrip.RoundTrip: asks that the header name and the numerals of the lengths printed are read back, which lower-casing does for ASCII and int() for numerals within its digit limit.
- AlarmFlow.AlarmsAreApart: the window lives in the process, so the promise holds between its restarts; `RestartForgetsWindow` shows that a restart forgets it. The theorems of `IntakeRuns` about the tables hold across restarts.
- IntakeRuns.RunsStoreMedia: nothing deletes from the bucket (no code calls `MediaStore.delete`), and an upload that fails leaves its key as it was. The object of a refused transaction stays behind under an identifier no row has.
- RuleMeaning.RuleMatchesWhen: asks that the schedule is one its constructor accepts, as does `AlarmMeaning.MessageMeans`.
- SilenceMeaning.WhatASiteRaises: whether it is night in a timezone at the moment of the sweep is a parameter, as is the wall clock elsewhere.
- FleetWatch.HeartbeatBetweenAlarms: assumes that a recorder's interval does not change and that the clock does not run back.
- EscalationRuns.RunsStayGood: counts the dispatches of the worker, not the push intake makes at the same moment, and takes sweeps as atomic; an exception inside one alarm of a sweep is not modelled.
- EscalationWorker.EscalationDb.RunAlarm: who can be reached is fixed while a sweep runs, so a phone dropped in the middle of a sweep is missed only by the next one.
- RateLimiting.SlidingBound: assumes a clock that does not run back, as does the fixed window itself.
- AuthRouter.RefreshRefinesRotate: assumes of one request that token rows name the tenant of their users, which `AuthRuns` shows every run keeps; access tokens, password hashing and user agents are not modelled, and a user's tenant does not change.
- Outbox.SqliteOutbox.ClaimEvents: SQL leaves ties open; rows that occurred at the same time are taken in insertion order. Timestamps are ordered numbers, while the store compares ISO strings.
- Intake.MailIntake.Handle: two messages handled at the same time are not modelled; each call is one step. The query that loads a site's context is a parameter.
- Texts for people: reasons, labels, log lines, push payloads, names of cameras and sites on the outcome.
- The order in which open alarms are swept (newest first) affects nothing that is proved; they are swept in table order.
- `recipients_for_site` and the permission table behind it.
- Rounding of floating-point coordinates and confidences: reals stand for them, with the tolerance kept.
- `normalize_event`, `extract_object_type` and the face-event filter of the parser: table lookups.
- HTTP, SMTP, WebSocket, FCM, APNs, object storage and RTSP clients; database engines; the JSON and MIME parsers.
- `lifecycle.py`, `rbac.py`, `hub.py`, analytics and commissioning: finite tables and plumbing that would only add easy members.
- `ai-service/app/zones/geometry.py`: a copy of the ray casting in `zones.py`.
