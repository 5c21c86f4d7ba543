# Verification of the travel assistant's core protocols

This project models the parts of the travel assistant whose correctness spans several functions, and
proves what they promise. `dafny verify dfyconfig.toml` checks everything.

Code that changes state is modelled as classes and methods over the same rows and dictionaries, each
proved equal to a function of the old state. Code that only computes is modelled as functions. On top of
both stand state machines whose steps are the committed transactions, and theorems about all their runs.
Beside them, each operation has a statement in terms of stored rows and plain fields: exactly when it
succeeds, when it fails for which reason, and what it leaves.

- **Reply processing** (`AssistantRuns`, `ReplyProtocol`): workers race for one message with claim
  tokens and expiring leases. Replies are exactly once however late the workers are; mutual exclusion
  needs, and is equivalent to, a lease longer than set-up, timeout and clean-up together.
- **Generation admission** (`GenerationAdmission`): leases and a daily count bound what is running. The
  bound is about bodies, not rows, and is exact: it holds below five seconds of clean-up.
- **Refresh-token families** (`AuthSessions`, `TokenFamilies`): rotation builds one chain per family,
  and reuse ends the family for good.
- **Trip planning** (`TripRules`, `TripRequirements`, `TripUpdates`, `TripPlanning`, `PlanningExtraction`):
  the merge of partial updates, the list of open questions, the router and the request mapper agree, so
  research is only ever started on requirements the mapper accepts.
- **Catalogue** (`DestinationRanking`, `DestinationCatalogue`, `CatalogueWalk`, `CataloguePaging`,
  `CursorText`, `Encodings`): the paged database query refines the pure ranking, down to the bytes of the
  cursor.
- **Schema simplification** (`JsonSchema`, `SchemaSimplifier`, `SchemaLimits`): what the generation schema
  keeps and weakens, against a definition of acceptance after sections 6.1 to 6.5 of JSON Schema
  Validation 2020-12 and the applicators of its core, and where it strengthens instead.
- **Country recognition** (`EditDistance`, `CountryRecognition`): the filtered fuzzy search against its
  direct definition over edit sequences.
- **Itineraries and connections** (`Itineraries`, `ConnectionManager`): versions and saved states per
  trip, and an index kept as an inverse image.

Assumptions: a committed transaction is one step. The row and advisory locks enforce that where they are
taken before the rows are read. For the revocation of a family and of all sessions of a user it is an
assumption: their locking reads do not see a session inserted while they wait, and the second drops a row
that was rotated meanwhile. Two lemmas for each say what holds without it. Uuids and tokens are fresh.
Clocks are monotone integers; in `ReplyProtocol` and `GenerationAdmission` the database and the event loop
share one, and a worker or a body starts at the instant its row is stamped, with no delay for the commit.
Slugs have one total order, shared by the database and the program. Nothing is assumed of digests but
their length and characters, and a statement that needs two of them to differ says so.

What the proofs found out about the code:

- "Log out everywhere" stores the time as read, so it aborts on the row check when a selected session is
  newer than that reading; only family revocation takes the later time.
- "Log out everywhere" that waits for a refresh leaves the session of that refresh active, and can still
  report success.
- A generation body must end less than five seconds after its deadline. The deadline leaves exactly five
  seconds, so a clean-up of the full five lets a second body start for the same message.
- The slug column admits characters outside ASCII, and then a page can carry a cursor the next call
  refuses: the limit of 512 characters is one of 384 payload bytes.
- A turn that makes the budget unlimited or undecided clears its currency and keeps a selected flight, unless
  it also names a fact of the flight; nothing else moves the currency under a kept flight.
- The simplifier can strengthen a schema: a length bound that binds under `not`, `if` or a limited `contains`,
  a lower and an upper one under `oneOf`, a `const` or `enum` value it rewrites, and a pattern spelled like a
  keyword that fits a name no other pattern fits. Each comes with its exact condition.
- A pending choice of nearby flight dates survives a turn that moves the route. When that turn leaves a
  question open, so that nothing is searched again, accepting the choice puts dates that were found for the
  old route on the new trip.
- A generated itinerary that turns up only under the trip lock is returned as a success after a rollback that
  discards what the caller had staged.
- A refresh that races with the detection of a reused token of its family leaves the new session alive.
- The index answers "Congo" with two codes it never checks against the dataset, and an exact name shared
  by more than three countries makes the result model raise.
- A repeated generation request is validated again before the stored itinerary is returned.
- A start that finds a completed run without its reply visible to the user is answered "still processing".

## Model

| member | source | states |
|---|---|---|
| AssistantRuns.AssistantRunRepository.AcquireClaim | app/database/repositories/assistant_runs.py:31-127 | a claim is granted by insert, or by taking over a failed or expired run with attempts left; the stored row and the answer are exactly those of the conditional update, and a refused claim changes nothing |
| AssistantRuns.AssistantRunRepository.CompleteRun | app/database/repositories/assistant_runs.py:129-155 | a run is completed only under its current token, naming the reply; a stale token changes no row |
| AssistantRuns.AssistantRunRepository.FailRun | app/database/repositories/assistant_runs.py:157-185 | a run is failed only under its current token, keeping its attempts; a stale token changes no row |
| AssistantRuns.StartDecision | app/services/conversation_processing_service.py:51-77 | every start is exactly one of cached, may invoke, exhausted and still processing, each read off the stored rows; exhausted means that only the attempt limit stood in the way, and a completed run without a visible reply answers still processing |
| AssistantRuns.StartAnswersReplyIff | app/services/conversation_processing_service.py:98-122 | a start answers with a stored reply exactly when the message has it and lies in the user's own conversation |
| AssistantRuns.ClaimEffect | app/database/repositories/assistant_runs.py:31-127 | a granted claim leaves a processing run under the new token, the new lease and one more attempt, and nothing else moves |
| AssistantRuns.SaveAnswer | app/services/conversation_processing_service.py:165-217 | on any rows a save succeeds exactly under the token the processing run has, unless the message has a reply its user cannot see; at most the one new reply is stored and the run names the reply returned |
| AssistantRuns.FailAnswer | app/services/conversation_processing_service.py:264-295 | a failure is recorded exactly under the token the processing run has, and costs no attempt |
| AssistantRuns.ConversationProcessingService.StartProcessing | app/services/conversation_processing_service.py:239-262 | a start commits the cached reply lookup or the claim and returns exactly that |
| AssistantRuns.ConversationProcessingService.SaveReply | app/services/conversation_processing_service.py:153-217 | the reply and the completion are committed together or not at all; a lost claim rolls the new reply back |
| AssistantRuns.ConversationProcessingService.FailProcessing | app/services/conversation_processing_service.py:264-295 | the failure is committed under the current token, and reported as a lost claim otherwise with nothing changed |
| ReplyProtocol.ExactlyOnce | app/services/conversation_processing_service.py:153-217 | in every run of any workers in any order, a message has a reply exactly when its run is completed naming it, one token at most was ever accepted for it, attempts equal claims granted and stay within the limit, and no save ever reports a duplicate |
| ReplyProtocol.SaveOutcome | app/services/conversation_processing_service.py:165-217 | a save succeeds exactly when the worker still owns the run; it then adds the one reply the message had not, and a failed save leaves the database alone |
| ReplyProtocol.StaleTokenIsPowerless | app/database/repositories/assistant_runs.py:129-185 | no save or failure under a token is accepted or changes a row, whatever its arguments, exactly when the token is not the current one of a processing run |
| ReplyProtocol.SupersededForever | app/database/repositories/assistant_runs.py:78-127 | a token once superseded on its message never becomes current again and is powerless in every continuation |
| ReplyProtocol.ReclaimFences | app/database/repositories/assistant_runs.py:78-127 | from the moment a run is taken over, no token issued before is current, accepted or able to change a row in any continuation |
| ReplyProtocol.SettledForever | app/database/repositories/assistant_runs.py:78-127 | a completed run, and a failed one out of attempts, keep their row and reply in every continuation and are never claimed again |
| ReplyProtocol.AnsweredStaysAnswered | app/services/conversation_processing_service.py:239-262 | once a message has its reply, in every continuation every worker preparing it for its owner is turned away with that very reply, and nobody else is ever given it |
| ReplyProtocol.FailureFreesRun | app/database/repositories/assistant_runs.py:78-185 | after the holder reports its failure the next claim, whenever it comes, is granted exactly when an attempt is left |
| ReplyProtocol.SectionIsExclusive | app/services/travel_response_service.py:281-505 | with the lease longer than set-up, response timeout and clean-up, no two workers are ever inside the model section for one message, and a worker inside still owns its claim |
| ReplyProtocol.ValidSettingsAreExclusive | app/config.py:195-209 | the configuration check on the lease, with set-up and clean-up inside the margin, is what makes the section exclusive |
| ReplyProtocol.SaveInSectionSucceeds | app/services/travel_response_service.py:417-505 | a worker that reaches its save inside the section always commits its own new reply |
| ReplyProtocol.FirstWorkerOverruns | app/database/repositories/assistant_runs.py:78-101 | a concrete punctual run in which a lease no longer than the worst case lets a second worker in beside the first |
| ReplyProtocol.ExclusiveIffLeaseOutlastsWorker | app/config.py:195-209 | with a second attempt allowed, the section is exclusive exactly when the lease exceeds set-up plus timeout plus clean-up |
| GenerationAdmission.GenerationAdmission.Reserve | app/services/generation_admission.py:41-127 | a reservation is refused for the first failing rule in the order checked and then leaves the whole store as it was; otherwise expired rows go, the row is added and the day counted |
| GenerationAdmission.GenerationAdmission.Release | app/services/generation_admission.py:129-145 | release removes this caller's row for the token and nothing else |
| GenerationAdmission.ReservationAnswer | app/services/generation_admission.py:59-106 | granted exactly when the message is not in progress for the user, both limits have room among the unexpired rows and the UTC day has a request left; and the exact condition of each refusal |
| GenerationAdmission.GrantEffect | app/services/generation_admission.py:56-127 | the rows after a grant: the unexpired ones and one that lasts twice the run lease, one more request today, of the user's older counts those of seven days, everybody else's as they were |
| GenerationAdmission.ReleaseUndoesGrant | app/services/generation_admission.py:103-145 | releasing a reservation gives back the rows there would be without it, and a stranger's release does nothing |
| GenerationAdmission.RunningIsBounded | app/services/generation_admission.py:47-145 | at every instant of every run the bodies running are within the global and each user's limit and never two for one message of a user, provided a cancelled body ends less than five seconds after its deadline |
| GenerationAdmission.LingeringBodyDoubles | app/services/generation_admission.py:54-66 | a concrete run in which a body that lingers five seconds is joined by a second one for the same message |
| GenerationAdmission.NeverDoubledIffCleanupFits | app/services/generation_admission.py:54-145 | with two requests left in the day, one body per message is guaranteed exactly when clean-up takes less than five seconds |
| GenerationAdmission.UsageCountsAdmissions | app/services/generation_admission.py:88-125 | for every user and each of the last seven days the stored usage is the number of admissions granted that day, and no day exceeds the daily limit |
| GenerationAdmission.AdmittedIffRoom | app/services/generation_admission.py:59-127 | the converse of the bounds: in every reachable state a body starts exactly when its message is free, both limits have room, and fewer admissions than the daily limit were granted to the user that day |
| AuthSessions.AuthSessionRepository.Create | app/database/repositories/auth_sessions.py:45-72 | a session row is added exactly when it meets the row checks and its token hash is unused |
| AuthSessions.AuthSessionRepository.Revoke | app/database/repositories/auth_sessions.py:96-112 | revoking touches one active session once and respects the row checks |
| AuthSessions.AuthSessionRepository.MarkRotated | app/database/repositories/auth_sessions.py:146-163 | rotation succeeds exactly for an unrotated, unrevoked session and links it to its replacement |
| AuthSessions.AuthSessionRepository.RevokeTokenFamily | app/database/repositories/auth_sessions.py:165-195 | every unrevoked session of the family is revoked at the later of the two times, the revoked ones keep time and reason |
| AuthSessions.AuthSessionRepository.RevokeAllByUser | app/database/repositories/auth_sessions.py:114-144 | all active sessions of the user are revoked at the time as read, or a row check fails and nothing is stored |
| AuthSessions.AuthService.Register | app/auth/service.py:76-132 | an account with its first session, or the reason why not, with nothing stored on failure |
| AuthSessions.AuthService.Login | app/auth/service.py:134-189 | the outcome by credentials and account state; a success stores the session and a refreshed password hash together, a failure stores nothing |
| AuthSessions.AuthService.RefreshSession | app/auth/service.py:191-284 | one atomic rotation, or the family revoked on reuse or an inactive account; "could not be rotated" is a branch no state reaches |
| AuthSessions.AuthService.LogoutSession | app/auth/service.py:286-308 | one session of the user ends, once |
| AuthSessions.AuthService.LogoutEverywhere | app/auth/service.py:310-331 | the user's active sessions all end, or nothing changes |
| AuthSessions.OpenAnswer | app/database/repositories/auth_sessions.py:45-72 | a session opens exactly for an unused token hash and a lifetime not yet over on the database clock, and the row it stores |
| AuthSessions.SignInGivesAccess | app/auth/service.py:76-189 | registration stores an active account and login a refreshed hash and nothing else of it; the new session gives access for exactly its lifetime, every other one as before |
| AuthSessions.RefreshAnswer | app/auth/service.py:206-284 | a refresh succeeds exactly for an unrotated, unrevoked, unexpired session of an active account with storable rows; and the exact condition of each of the five failures |
| AuthSessions.RefreshEffect | app/auth/service.py:206-284 | the whole set of rows after a refresh, for success, for reuse and inactive account, and for the rest |
| AuthSessions.RefreshMovesAccess | app/auth/service.py:191-381 | after a refresh the new session gives access for its lifetime, the old one never again, every other as before |
| AuthSessions.LogoutAnswer | app/auth/service.py:286-308 | logging out ends this unrevoked session of this user and no other, exactly when it is not newer than the time read |
| AuthSessions.LogoutAllEffect | app/database/repositories/auth_sessions.py:114-144 | logging out everywhere ends and counts exactly the user's unexpired, unrevoked, unrotated sessions |
| AuthSessions.AccessIff | app/auth/service.py:341-381 | an access token gives access exactly while its own session is live and its account active |
| TokenFamilies.FamilyIsOneChain | app/auth/service.py:191-284 | in every reachable state a family is one acyclic chain by replacement, ends in its only unrotated session, and has one member more than successful refreshes |
| TokenFamilies.LinkFollowsChain | app/database/repositories/auth_sessions.py:146-163 | a link stays in its family, moves one place along the chain and exists exactly on rotated sessions |
| TokenFamilies.ReplacementIsInjective | app/database/repositories/auth_sessions.py:146-163 | no session replaces two others |
| TokenFamilies.NoTokenSucceedsTwice | app/auth/service.py:206-284 | no refresh token is exchanged a second time in any run |
| TokenFamilies.EveryExchangeWasDue | app/auth/service.py:206-284 | in every run each exchange was made by a step in whose state the token was unrotated, unrevoked, unexpired and of an active account |
| TokenFamilies.DeadIsBarred | app/auth/service.py:341-381 | in a family whose sessions are all revoked no refresh and no access-token check succeeds |
| TokenFamilies.ReuseEndsFamily | app/auth/service.py:212-218 | once a rotated token is presented again every session of its family is revoked, not before its creation and without touching earlier revocations, and stays barred in every continuation |
| TokenFamilies.LateRevocationIsCompleteIff | app/database/repositories/auth_sessions.py:172-183 | a family revocation that waited for a lock covers the whole family exactly when no unrevoked session was inserted while it waited |
| TokenFamilies.RacingRefreshEscapes | app/database/repositories/auth_sessions.py:172-195 | a refresh such a revocation waited for leaves its new session alive and active, and only that one |
| TokenFamilies.LogoutAllSucceedsIffNoneNewer | app/database/repositories/auth_sessions.py:114-144 | "log out everywhere" goes through exactly when no selected session is newer than the time read, and then leaves no session active; family revocation never violates a check |
| TokenFamilies.LogoutAllCanFail | app/database/repositories/auth_sessions.py:136-143 | a concrete run in which a session stamped one tick later makes it abort |
| TokenFamilies.LateLogoutIsCompleteIff | app/database/repositories/auth_sessions.py:123-144 | "log out everywhere" over rows that changed while its locking read waited leaves no session active exactly when none became active meanwhile |
| TokenFamilies.RacingRefreshEscapesLogout | app/database/repositories/auth_sessions.py:123-144 | a refresh it waited for leaves exactly the new session active and takes the rotated one out of its reach; it succeeds all the same exactly when no session it does end is newer than its time |
| TripRules.FirstOccurrencesKeepsKeys | app/domain/trip_rules.py:63-72 | normalized interests have pairwise different folded values and lose none |
| TripRules.NormalizingTwice | app/domain/trip_rules.py:63-72 | normalizing interests twice is normalizing once |
| TripRules.FirstSpellingStays | app/domain/trip_rules.py:63-72 | of the spellings of one interest the first survives |
| TripRules.NormalizeInterests | app/domain/trip_rules.py:63-72 | the loop returns the first occurrence of each folded interest |
| TripRequirements.MergeRequirements | app/graph/planning_builder.py:86-140 | the step-by-step merge computes the declared merge of each field, or the first violation |
| TripRequirements.MergeIsIdempotent | app/graph/planning_builder.py:86-140 | applying the same updates again succeeds and changes nothing |
| TripRequirements.MergeIsValid | app/domain/trip_requirements.py:147-212 | a merged result passes every validator; exact dates and a window never coexist |
| TripRequirements.UntouchedGroupsStay | app/graph/planning_builder.py:86-140 | fields outside the dependency groups of the updated fields keep their values |
| TripRequirements.MovingStartKeepsDuration | app/domain/trip_rules.py:15-27 | moving only the start of a trip with a stored duration fails exactly when it runs off the calendar, and otherwise keeps the duration as the inclusive day count |
| TripUpdates.NewMinorCountForgetsMinors | app/graph/planning_builder.py:126-139 | on valid requirements a turn that only sets the number of minors succeeds exactly from 0 to 99 within 100 travellers; another number, and zero, forgets ages and seating |
| TripUpdates.WithdrawnMinorCountForgetsMinors | app/graph/planning_builder.py:126-130 | withdrawing a known number forgets ages and seating too |
| TripUpdates.NewAgesForgetSeating | app/graph/planning_builder.py:131-132 | new ages are accepted exactly when there is one from 0 to 17 for each minor, within 100 travellers, and forget the seating |
| TripUpdates.NewSeating | app/domain/trip_requirements.py:192-202 | seating is accepted exactly with one flag for each minor under two and no more lap places than adults |
| TripUpdates.NewAdults | app/domain/trip_requirements.py:183-204 | adults are accepted exactly from 1 to 100 with the minors, one for each lap infant and one for each room needed |
| TripUpdates.NewLodging | app/graph/planning_builder.py:133-134 | declining lodging forgets the rooms; asking for it needs an adult for each room named |
| TripUpdates.NewRooms | app/domain/trip_requirements.py:203-204 | rooms are accepted exactly from 1 to 100, one adult each when lodging is needed |
| TripUpdates.WindowReplacesDates | app/graph/planning_builder.py:103-108 | a window replaces exact dates, exactly when it is ordered, at most 31 days and holds a known duration |
| TripUpdates.DatesReplaceWindow | app/graph/planning_builder.py:103-118 | exact dates in order replace a window and an earlier duration |
| TripUpdates.NewEndClearsDuration | app/graph/planning_builder.py:114-115 | a new end date clears the duration, and fails exactly when it is not after the start |
| TripUpdates.NewDurationClearsEnd | app/graph/planning_builder.py:112-113 | a new duration clears the end date, exactly when it has two days and fits the calendar and the window |
| TripUpdates.NewOrigin | app/domain/trip_rules.py:36-42 | an origin is accepted exactly with 2 to 120 characters and when it differs from the destination in more than case |
| TripUpdates.NewDestination | app/domain/trip_rules.py:36-42 | the same for a destination |
| TripUpdates.NewBudgetDecision | app/graph/planning_builder.py:122-125 | a budget left undecided or without limit forgets amount and currency, a specified one keeps them; no decision is refused |
| TripUpdates.NewAmount | app/domain/trip_requirements.py:206-210 | an amount is accepted exactly when it is positive and the budget is not left open |
| TripUpdates.NewCurrency | app/domain/trip_requirements.py:118 | a currency is accepted exactly when it is three capitals |
| TripUpdates.NewInterests | app/graph/planning_builder.py:109-111 | up to ten interests of 1 to 60 characters are accepted and deduplicated, and null empties the list |
| TripPlanning.MissingFields | app/services/trip_requirements_policy.py:37-109 | the appended list of questions is the open questions in their fixed order |
| TripPlanning.MissingIsExact | app/services/trip_requirements_policy.py:37-109 | a question is pending exactly when it is open, and the list fits the planning state |
| TripPlanning.NothingIsAskedIff | app/services/trip_requirements_policy.py:37-109 | nothing is asked exactly when destination, dates from today on, party, transport with what it needs, lodging and budget are known |
| TripPlanning.OnlyTheUnknownIsAsked | app/services/trip_requirements_policy.py:37-109 | no question asks for a fact that is known, or for one this trip has no use for |
| TripPlanning.SplitMinors | app/services/planning_research_service.py:78-90 | the loop over ages and the seating iterator gives children, seated infants and lap infants |
| TripPlanning.SelectPartitions | app/services/planning_research_service.py:78-90 | every infant is seated or on a lap, and nobody else is |
| TripPlanning.SelectCounts | app/services/planning_research_service.py:78-90 | with a flag for each infant the lap places are the flags set; without flags there are none |
| TripPlanning.SeatingFollowsFlags | app/services/planning_research_service.py:78-90 | infants and flags go together in order: each infant goes where its own flag says |
| TripPlanning.MapToTripRequest | app/services/planning_research_service.py:78-103 | the mapper builds the declared request, or fails where the request model would raise |
| TripPlanning.PartyIsExact | app/domain/trips.py:91-110 | the party counts adults and minors exactly and is a permutation of the ages collected |
| TripPlanning.MapperSucceedsIffMappable | app/services/planning_research_service.py:78-103 | on validated requirements the mapper succeeds exactly when the facts a request needs are known and in range |
| TripPlanning.RequestTells | app/services/planning_research_service.py:78-103 | each field of the request, from route, dates and rooms to currency and cabin with their defaults, read off the requirements |
| TripPlanning.ResearchIsMappable | app/graph/planning_builder.py:143-255 | whenever the router goes to research the mapper succeeds with every request and party rule met: two to thirty days, a party that is exactly the travellers collected, one lap place per flag |
| TripPlanning.CompleteIsAlwaysRouted | app/graph/planning_builder.py:143-255 | the router never counts days from a missing date, keeps the requirements, and is ready exactly when nothing is pending |
| TripPlanning.RouteIsExact | app/graph/planning_builder.py:143-255 | the exact condition of each of the eight routes and of the phase, by what is pending, open and known |
| PlanningExtraction.EffectiveUpdates | app/graph/planning_builder.py:719-730 | profile interests and a forgotten inferred transport are added exactly under their conditions |
| PlanningExtraction.SelectionsSurvive | app/graph/planning_builder.py:776-829 | a turn that touches no fact of a selection leaves all its facts through the merge |
| PlanningExtraction.KeepPending | app/graph/planning_builder.py:808-814 | a pending flight, deal or hotel choice is dropped exactly when the turn names a fact it was offered for; a choice of nearby dates is never dropped |
| PlanningExtraction.ApplyExtraction | app/graph/planning_builder.py:719-885 | a turn gives the next planning state around the merge of its effective updates, or is refused as conflicting |
| PlanningExtraction.TurnKeepsSelectionFacts | app/graph/planning_builder.py:776-885 | a kept flight, deal or hotel was searched for exactly the facts of the new state, and a dropped one had a fact named by the turn; the new requirements are valid |
| PlanningExtraction.UnverifiedCityNeverLands | app/graph/planning_builder.py:731-775 | while a place is being chosen only a country or one verified city replaces the destination |
| PlanningExtraction.DestinationAfter | app/graph/planning_builder.py:731-775 | the destination a turn leaves, for every answer of the resolver |
| PlanningExtraction.TransportAfter | app/graph/planning_builder.py:815-833 | an inferred flight is forgotten with its cabin exactly when the route really moves and the turn names no transport; when the mark of inference is set |
| PlanningExtraction.InterestsAfter | app/graph/planning_builder.py:719-730 | profile interests fill in exactly as long as nobody has spoken about interests; when that is remembered |
| PlanningExtraction.PlaceChoicesAfter | app/graph/planning_builder.py:845-858 | exactly when a choice of country or city stays open |
| PlanningExtraction.SelectionsAfter | app/graph/planning_builder.py:776-885 | exactly which turns keep the flight, the deal, the hotel, the pending choice and the search for nearby dates |
| PlanningExtraction.PendingKeptThoughTouchedIff | app/graph/planning_builder.py:808-814 | a pending choice outlives a turn that names one of its facts exactly when it is a choice of nearby dates and a flight field is named |
| PlanningExtraction.PendingIsStaleIff | app/graph/planning_builder.py:808-814 | it is kept over facts that really changed exactly when it is a choice of nearby dates and a flight fact changed |
| PlanningExtraction.StaleOfferWaitsIff | app/graph/planning_builder.py:547-590 | dates offered for other facts wait for the next message exactly when nearby dates were offered, a flight fact changed, and the turn ends without research: a place is being chosen, a question is open, or the complete trip goes elsewhere |
| PlanningExtraction.DatesOfferedForOldRouteLand | app/graph/planning_builder.py:547-590 | from a complete flight trip that is routed to research, with an inferred flight and nearby dates on offer: moving the origin drops the transport and so leaves a question open and no research in that turn, the offer stays, and accepting it puts the dates found for the old route on the new trip |
| PlanningExtraction.CurrencyMovesUnderKeptFlightIff | app/graph/planning_builder.py:108-124 | over any turn from a state with a selected flight, the flight stays while the currency changes exactly when the turn makes a budget with a currency unlimited or undecided and names no flight fact; what changes is that the currency goes |
| PlanningExtraction.CurrencyCanChangeUnderKeptFlight | app/graph/planning_builder.py:719-885 | a concrete turn on a complete trip with a selected flight: the limit on the budget is dropped, the currency goes, the flight stays |
| DestinationCatalogue.ScoresAgree | app/database/repositories/destinations.py:310-353 | the score the query computes from tag rows and a case expression is the reference score of the destination's card |
| DestinationRanking.StylesAddUp | app/domain/destination_ranking.py:119-129 | one more shared style is worth 30, one nobody asked for nothing |
| DestinationRanking.InterestsAddUp | app/domain/destination_ranking.py:119-129 | one more shared interest is worth 12 |
| DestinationRanking.TierScores | app/domain/destination_ranking.py:131-140 | the wanted tier is worth 20, its neighbours 10, theirs 4, the far end nothing |
| DestinationRanking.NearerTierNeverScoresLess | app/domain/destination_ranking.py:131-140 | a destination never scores less for lying nearer to the wanted tier |
| DestinationRanking.SortSorts | app/domain/destination_ranking.py:51-58 | sorting by key gives an ascending permutation |
| DestinationRanking.AscendingIsUnique | app/domain/destination_ranking.py:51-58 | there is only one ascending arrangement of the same entries |
| CatalogueWalk.JoinGivesOneCardEach | app/database/repositories/destinations.py:524-580 | the unique cover keeps the join from multiplying or losing rows |
| CatalogueWalk.SeekPageIsSlice | app/database/repositories/destinations.py:244-295 | a seek page after the i-th row, of any limit from 1 to 51, is the next slice of one fixed listing |
| CatalogueWalk.ListingIsReference | app/domain/destination_ranking.py:27-140 | that listing is the reference ranking of the published catalogue, for each collection, scope and preference |
| CatalogueWalk.ReferenceHoldsEachOnce | app/domain/destination_ranking.py:27-140 | the reference ranking holds every eligible destination, nothing else, none twice, and in the order of rank, editorial rank and slug |
| CatalogueWalk.ListedIff | app/database/repositories/destinations.py:244-353 | a stored destination is listed exactly when it is published, has an active cover, and carries the collection's rank or suits the traveller by scope and by at least one tag or a tier not at the far end |
| CatalogueWalk.ListedInOrder | app/domain/destination_ranking.py:51-99 | better scores and smaller ranks come first, then the smaller editorial rank, then the slug |
| CataloguePaging.ServedPage | app/services/destination_catalogue_service.py:76-120 | a call at a position returns the next cards, and a cursor for the position after them exactly if some are left |
| CataloguePaging.WalkIsReference | app/services/destination_catalogue_service.py:76-120 | for any total order on slugs and any 64-character digest, following cursors with any page sizes from 1 to 50 yields the reference ranking from its start, as far as asked, with a further cursor exactly while some are left |
| CataloguePaging.WalkEnds | app/services/destination_catalogue_service.py:76-120 | as many pages as there are destinations always reach the end with the whole ranking, once each and in order |
| CataloguePaging.ContextsAreBinding | app/services/destination_catalogue_service.py:122-146 | two contexts are equal exactly when the collection and the scope are and, for suggestions, the digests of user and ranking inputs |
| CataloguePaging.ForeignCursorIsRefused | app/services/destination_catalogue_service.py:98-106 | a cursor issued for another collection, scope or, as long as the two digests differ, other ranking inputs is always refused |
| CataloguePaging.EqualContextsRankAlike | app/services/destination_catalogue_service.py:122-146 | what the digest is computed from is all the ranking depends on: equal contexts mean equal rankings, unless two different profiles share a digest |
| CataloguePaging.RefusedIff | app/services/destination_catalogue_service.py:76-120 | a request is refused exactly for a page size outside 1 to 50, or for a cursor that does not decode, belongs to another listing or names a position no row can have |
| CataloguePaging.WideSlugBreaksWalk | app/services/destination_catalogue_service.py:107-120 | a catalogue the tables accept whose first page hands out a cursor that the next call refuses, so the second destination is never reached |
| CataloguePaging.PlainSlugsFit | app/services/destination_catalogue_service.py:249-274 | slugs of printable ASCII make every cursor of every listing acceptable |
| CataloguePaging.NextCallWorksIffPayloadFits | app/services/destination_catalogue_service.py:258-274 | the cursor at a position is accepted by the next call exactly when its payload is at most 384 bytes, and is refused as invalid otherwise |
| CursorText.JsonRoundTrip | app/services/destination_catalogue_service.py:249-274 | a payload's text reads back as the same version, context and key, whatever characters they contain |
| CursorText.IssuedCursorDecodes | app/services/destination_catalogue_service.py:249-274 | an issued cursor decodes to its payload exactly when that is at most 384 bytes, and to nothing otherwise |
| CursorText.DecodedIsWithinBounds | app/services/destination_catalogue_service.py:252-269 | nothing is decoded but a text of 1 to 512 characters with this version and a position within the bounds of the payload |
| CursorText.EncodesIff | app/services/destination_catalogue_service.py:34-45 | exactly the positions within those bounds can be encoded |
| CursorText.PayloadSize | app/services/destination_catalogue_service.py:249-256 | the exact size of a payload in bytes |
| CursorText.PlainCursorFits | app/services/destination_catalogue_service.py:34-44 | with 32-bit ranks and a plain slug of at most 120 characters the payload is at most 275 bytes and the cursor at most 367 characters |
| CursorText.WideSlugDoesNotFit | app/services/destination_catalogue_service.py:34-44 | with 120 characters of three bytes, which the slug column allows, the issued cursor is refused |
| Encodings.Base64UrlRoundTrip | app/services/destination_catalogue_service.py:253-268 | leaving out the padding and restoring it by length is an exact inverse, with the exact encoded length (sections 3.2 and 5 of RFC 4648) |
| Encodings.GroupIsOneNumber | app/services/destination_catalogue_service.py:253-268 | three bytes and their four letters are one number of 24 bits, the first byte on top (section 4 of RFC 4648) |
| Encodings.Utf8RoundTrip | app/services/destination_catalogue_service.py:252-269 | text survives UTF-8 encoding and strict decoding (section 3 of RFC 3629) |
| Encodings.CharBytesAreBits | app/services/destination_catalogue_service.py:252-269 | each code point takes one to four bytes by size, lead and continuation bytes in their ranges, with its bits in order (section 3 of RFC 3629) |
| SchemaSimplifier.KeptVerbatim | app/graph/google_schema.py:30-34 | references, required lists, types and scalar enums come through unchanged |
| SchemaSimplifier.KeptByName | app/graph/google_schema.py:9-48 | exactly the twelve validation keywords go; references, `required`, `type`, scalar `enum` and plain `additionalProperties` stay as they are, unions keep their branches and objects their property names |
| SchemaSimplifier.KeptTarget | app/graph/google_schema.py:30-34 | following a reference and simplifying commute |
| SchemaSimplifier.SimplifyIsIdempotent | app/graph/google_schema.py:36-48 | the result can be simplified again and a second pass changes nothing |
| SchemaSimplifier.UntouchedIffClean | app/graph/google_schema.py:36-48 | the simplifier leaves a document alone exactly when no validation keyword occurs in it at any depth but as a property or definition name |
| SchemaSimplifier.SimplifiedIsClean | app/graph/google_schema.py:36-48 | every document it gets through ends up like that |
| SchemaSimplifier.Weakens | app/graph/google_schema.py:36-48 | every value a schema of the fragment accepts inside a document of the fragment, following references, is accepted after simplification; inner schemas of `not`, `oneOf`, `if` and a limited `contains` must be ones simplification cannot change |
| SchemaSimplifier.GenerationOnlyWeakens | app/graph/google_schema.py:27-48 | the same for the whole generation schema |
| JsonSchema.RootIsIrrelevant | app/graph/google_schema.py:30-34 | a schema without references accepts the same values in every document |
| SchemaLimits.ConstWeakensIffUntouched | app/graph/google_schema.py:36-48 | a schema fixing one value is only weakened exactly when the simplifier leaves that value alone |
| SchemaLimits.EnumWeakensIffUntouched | app/graph/google_schema.py:36-48 | a schema listing values is only weakened exactly when the simplifier leaves every one of them alone |
| SchemaLimits.MaxContainsWeakensIff | app/graph/google_schema.py:36-48 | a limit on the items that match a length bound is only weakened exactly when the bound did not bind |
| SchemaLimits.NegationWeakensIff | app/graph/google_schema.py:36-48 | a length bound under `not` is only weakened exactly when it did not bind |
| SchemaLimits.ConditionWeakensIff | app/graph/google_schema.py:36-48 | a length bound under `if`, refused by `then`, is only weakened exactly when it did not bind |
| SchemaLimits.ExactlyOneNeverWeakens | app/graph/google_schema.py:36-48 | a lower and an upper length bound under `oneOf` are never only weakened, whatever the two bounds |
| SchemaLimits.KeywordPatternsWeakenIff | app/graph/google_schema.py:41-47 | among any patterns that alone admit names, those spelled like keywords are dropped, and the schema is only weakened exactly when every name they fit also fits a pattern that stays |
| EditDistance.GapBoundsDistance | app/services/country_recognition_service.py:132-133 | texts differ by at least as many edits as their lengths, so the length filter drops no candidate |
| CountryRecognition.BuildIndex | app/services/country_recognition_service.py:37-97 | the index loops build the declared index, and fail exactly when an alias names a country the dataset lacks |
| CountryRecognition.AddName | app/services/country_recognition_service.py:41-44 | adding a name keeps the table equal to all codes of all non-empty normalized names so far |
| CountryRecognition.LastShortcutDecides | app/services/country_recognition_service.py:85-89 | a two- or three-letter code overrides a name of the same spelling, the last one winning |
| CountryRecognition.CodesStandForTheirCountry | app/services/country_recognition_service.py:85-89 | the two- and three-letter code of a country stand for it alone, whatever names are spelled like them, unless a later country has the same |
| CountryRecognition.OtherNamesKeepTheirCodes | app/services/country_recognition_service.py:85-89 | names without such a code keep theirs |
| CountryRecognition.BestDistances | app/services/country_recognition_service.py:128-146 | the search with length filter, cut-off and running minimum gives each code the least distance of a close name, and only such codes |
| CountryRecognition.SortCodes | app/services/country_recognition_service.py:149-151 | codes are ordered by distance, then code |
| CountryRecognition.Recognize | app/services/country_recognition_service.py:99-153 | the answer is the one stated without the search: exact codes, or the first three codes within the edit bound and similarity |
| CountryRecognition.AnswerIsUnique | app/services/country_recognition_service.py:99-153 | that statement fixes the answer |
| CountryRecognition.InvalidIff | app/services/country_recognition_service.py:111-118 | an input is invalid exactly when it is missing, shorter than 2 or longer than 120, or normalizes to nothing |
| CountryRecognition.KnownNameAnswer | app/services/country_recognition_service.py:119-121 | a known name is answered with all its countries, exact when there is one and ambiguous otherwise |
| CountryRecognition.OfferedIff | app/services/country_recognition_service.py:128-146 | a code is offered exactly when a listed name of it is one edit away, or two from eight letters on, and never more than one letter in five |
| CountryRecognition.UnknownNameAnswer | app/services/country_recognition_service.py:123-153 | an unknown name is not recognized exactly when corrections are not wanted, it has fewer than four letters or no listed name is near; otherwise the answer asks for confirmation with exactly the codes that have fewer than three ahead of them |
| CountryRecognition.ProposalsAreCorrections | app/services/country_recognition_service.py:128-146 | a proposed code is at least one edit away and within the bound |
| CountryRecognition.ResultTells | app/services/country_recognition_service.py:155-178 | a result lists the codes in order under their own names; several are ambiguous, one corrected code asks for confirmation, one exact code does not |
| CountryRecognition.ResultIsValidIff | app/domain/destination_selection.py:25-57 | with known distinct codes the result passes its validator exactly when there are one to three |
| CountryRecognition.RecognitionFailsIffOvershared | app/services/country_recognition_service.py:119-121 | on a sound index recognition raises exactly for an exact name shared by more than three countries, and every answer it gives is valid |
| CountryRecognition.PlainNameKeepsCodes | app/services/country_recognition_service.py:41-89 | in the built index a name that is neither a shortcut nor shared by decree stands for all the codes the dataset and the aliases give it |
| CountryRecognition.FieldsAre | app/services/country_recognition_service.py:46-53 | a record gives its code its name, its official and its common name |
| CountryRecognition.ListedNames | app/services/country_recognition_service.py:77-97 | corrections are looked for among exactly the names of four letters or more, each with all its codes |
| CountryRecognition.NamesakesMakeRecognitionFail | app/services/country_recognition_service.py:119-121 | a dataset the constructor accepts, with an index that only names known countries, for which recognizing a name raises |
| CountryRecognition.BuiltIndexIsSoundIff | app/services/country_recognition_service.py:77-84 | the built index only names known countries exactly when the dataset has both codes that Congo stands for |
| Itineraries.ItineraryRepository.CreateNextDraft | app/database/repositories/itineraries.py:65-84 | the next version is one above the largest of the trip |
| Itineraries.ItineraryRepository.ReplaceSavedWith | app/database/repositories/itineraries.py:235-262 | the saved itinerary is superseded first and the new one saved after; the unique index holds in the state between the two writes and in the last |
| Itineraries.ItineraryService.ValidateItemPositions | app/services/itinerary_service.py:151-164 | a timeline is accepted exactly when it is non-empty and uses each position once |
| Itineraries.ItineraryService.CreateDraft | app/services/itinerary_service.py:35-60 | a draft in the user's own trip, or the reason why not with nothing stored |
| Itineraries.ItineraryService.CreateGeneratedDraft | app/services/itinerary_service.py:166-208 | over whatever the caller has staged: the message's itinerary if there is one, otherwise a new draft; what fails under the trip lock discards the staged work |
| Itineraries.SuccessDiscardsIff | app/services/itinerary_service.py:187-196 | a successful call discards the caller's staged work exactly when the itinerary turns up only under the trip lock |
| Itineraries.SuccessCanDiscard | app/services/itinerary_service.py:187-196 | a concrete database and a staged trip that such a success loses |
| Itineraries.CreateAnswer | app/services/itinerary_service.py:35-60 | a draft is made exactly in a trip of one's own from a non-empty timeline with distinct places and no day after the trip; what it stores, and when each reason is given |
| Itineraries.GenerateAnswer | app/services/itinerary_service.py:166-231 | generation answers with the itinerary the message has, or makes one under the same conditions unless another user's itinerary has the message |
| Itineraries.StagedWorkIsKeptIff | app/services/itinerary_service.py:166-208 | generation keeps the caller's staged work exactly when it stops before the trip lock or stages a new draft, and only a new draft is committed |
| Itineraries.SaveAnswer | app/services/itinerary_service.py:107-149 | a save succeeds exactly for one's own itinerary that has items and was not superseded; it is saved, what was saved in its trip is superseded, every other row is unchanged |
| Itineraries.ItineraryService.SaveItinerary | app/services/itinerary_service.py:107-149 | the whole effect of a save on every row, or the reason why not with nothing changed |
| Itineraries.PromoteFirstBreaksIndex | app/database/repositories/itineraries.py:235-262 | in the other order the first write breaks the index exactly when there is something to supersede |
| Itineraries.ReachableIsConsistent | app/database/repositories/itineraries.py:65-84 | in every reachable state versions are exactly 1 to n, at most one itinerary per trip is saved and has items, and each message has at most one |
| Itineraries.RunPreserves | app/services/itinerary_service.py:107-231 | a superseded version never returns, a saved one is only ever superseded, contents and numbers never change, and a trip with a saved itinerary keeps exactly one |
| Itineraries.LastSaveDecides | app/services/itinerary_service.py:107-149 | in every run, from an accepted save until the next one in its trip, the itinerary it named is the only saved one, with the items it had |
| Itineraries.RepeatedGenerationReturnsFirst | app/services/itinerary_service.py:166-208 | a later call for a message with an itinerary changes nothing and returns that one, exactly when its own items are valid |
| ConnectionManager.ConnectionManager.Register | app/api/websocket/connection_manager.py:48-75 | a connection is added and both indexes stay the inverse images of the map |
| ConnectionManager.ConnectionManager.Unregister | app/api/websocket/connection_manager.py:77-80 | exactly this connection is removed and returned, if present |
| ConnectionManager.ConnectionManager.CloseSession | app/api/websocket/connection_manager.py:102-106 | exactly the connections of the session are handed out, each once, and counted |
| ConnectionManager.ConnectionManager.CloseUser | app/api/websocket/connection_manager.py:108-112 | exactly the connections of the user are handed out, each once, and counted |
| ConnectionManager.ConnectionManager.CloseAll | app/api/websocket/connection_manager.py:149-161 | all connections are handed out, each once, and nothing is left |
| ConnectionManager.InverseImageAfterRemoval | app/api/websocket/connection_manager.py:82-100 | dropping one id from one entry, and the entry when it empties, is the inverse image of the smaller map |
| ConnectionManager.HandedOutOnce | app/api/websocket/connection_manager.py:77-161 | over any calls each connection is handed out at most once, and what was registered is either handed out or still there |

## Helpers

Read off one definition: `SchemaSimplifier.KeptMember` and `KeptNames` (what stays under a keyword, and that
names such as `title` under `properties` do), `TripRequirements.ExplicitUpdatesLand`, `Itineraries.SaveEffect`.
`CataloguePaging.FaithfulEnvironment` and `CountryRecognition.MeasureExists` show that what is asked of orders,
digests and the distance library can be met.

## Left out

- Database isolation anomalies, statement-level interleaving, ORM flushing and collation: a transaction is one step.
- Deletion of users, conversations and trips, and their cascades: rows are only added and updated.
- The check that a lease starts after the run was created, and text columns without a rule in the protocol.
- AssistantRuns.ConversationProcessingService.SaveReply: whether the caller saw an earlier reply is a parameter, because message rows other than the reply under its unique key are not part of this model.
- GenerationAdmission.RunningIsBounded: the bound on clean-up is an assumption on event-loop punctuality; cancellation itself is not modelled.
- ReplyProtocol.SectionIsExclusive: set-up, timeout and clean-up are assumed punctual bounds, for the same reason.
- AuthSessions.AuthService.Login: the answers of password verification, hashing and signing are parameters or fresh values.
- TripPlanning.MissingFields: question texts and their order of presentation in replies are not part of this model.
- PlanningExtraction.ApplyExtraction: language, itinerary, research cache and the text of replies are not carried in the state.
- DestinationCatalogue.ScoresAgree: card fields that ranking does not read (names, texts, coordinates) are left out; tags are sets.
- CursorText.JsonRoundTrip: other spellings of the same JSON text, which the program's parser also accepts, are refused by the modelled parser.
- CataloguePaging.WalkIsReference: the catalogue and the preference stay fixed during a walk; place pages, which use the same cursors, are left out.
- SchemaSimplifier.Weakens: unevaluatedItems, unevaluatedProperties and dynamic references are outside the fragment; anchors and references outside the document resolve to nothing; the keyword vocabulary and all other text are two kinds of words.
- CountryRecognition.Recognize: the text arrives stripped, normalization is a parameter, similarity is exact arithmetic, and the edit distance is the library call's contract; names are visited in any order.
- ConnectionManager.ConnectionManager.CloseAll: closing sockets and errors while closing are not modelled.
- Language model, prompts, provider clients, REST and WebSocket transport, logging and metrics: plumbing around these cores.
- Preference onboarding, trip status changes, rich content and context trimming: they would only add easy members.
