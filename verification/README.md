# Account API: verified model

A Dafny model of the stateful core of the account API, and proofs about it. Five parts, each a small store
with unique indexes and conditional updates plus the service calls that change it in several steps.

- **One-time codes.** `Activation` has the code document and its operations; `CodeRuns` runs guesses and split
  regenerations against each other and bounds the guesses; `Lockouts` has what the fifth wrong guess does and when it
  is over, `IssueRuns` how often codes are issued, `LateWrites` the budget when the second write of a guess lands
  late.
- **Teams and gyms.** `Periods`, `Memberships` and `MembershipStore` model rows and dated history, with the reconcile
  loop; `ReconciledHistory` when a repaired history stays ordered; `Hierarchy` the complete operations and their
  invariant, `SoundOperations` and `HierarchyRuns` that it is kept, `GymNames` the names; `OperationRules` says of
  each operation when it is done, why it is refused and what it changes; `HierarchyServices` has the service methods
  step by step; `HistoryTruth` says what the history tells about the past; `TeamProtocol` and `AcceptProtocol` have
  the same calls interleaved at single store steps, `AcceptResults` and `AcceptRaces` what holds of accepts;
  `ProtocolLinks` shows that a call run alone there is the complete operation, and `AcceptEnvironment` that the others
  there can do whatever any operation does.
- **Entitlements.** `Registry`, `Resolution`, `Precedence`, `Patch`, `Grantable`, `Grants`, `AccessService`, `Usage`,
  `Quotas` and `UsageProtocol`: layered resolution and what it says, patches with their own diff, version-checked
  grants, who may set them, shared usage counters. `Ordering` sorts keys.
- **Analytics.** `Intervals`, `Scope`, `ScopeMeaning` and `Analytics`: interval lists, who may ask for a scope and
  what it says.
- **Caches.** `StatusGate`, `ReadCache`, `CachedResolution` and `ServedAccess`: the account-status cache, and feature
  resolution through nested caches.

Check everything with `dafny verify dfyconfig.toml`.

## How it is modelled

Code that changes a store in place is a class whose methods are proved against functions on values; loops over maps
pick keys in arbitrary order, so a proved result holds for every order. Concurrency is a step machine: a state with a
map of calls in flight, one action per store access, an invariant of every step, and theorems over every sequence of
actions. The clock, generated ids and codes, lookup answers and clock readings are parameters. A database's single
update is one step. `HierarchyServices` marks the points between two store steps; what other callers did there is
unknown unless the service is `alone`, which is what makes its recheck and undo branches live code in the proofs; a
ghost log keeps what the call itself sent.

Where the code does not do what one would expect, the model keeps the code and says so:

- The head flag that a promote takes back can strand a team (`TeamProtocol.RollbackCanStrandATeam`).
  `TeamProtocol.RowsNameHeadsAtRest` tells exactly which rows are left without a flagged head by any run; the rollback
  keeps the step invariant exactly when other calls still look after every row of the candidate
  (`TeamProtocol.RollbackExact`), and a row that no call in flight touches stays stranded
  (`TeamProtocol.RollbackStrands`).
- Assign does not recheck the assigned coach, so a racing promote can nest two teams
  (`TeamProtocol.PromoteRaceCanNestTeams`). `TeamProtocol.NoHeadIsMemberAtRest` tells exactly which coaches any run
  leaves nested, `TeamProtocol.UpsertExact` the guard the code does not test, and without it the nesting stays
  (`TeamProtocol.UnguardedUpsertNests`).
- Two accepts of one caller at once can leave a seat without a head flag
  (`AcceptRaces.ParallelAcceptsCanUnflag`); `AcceptResults.SeatGuardIsExact` gives the condition under which a step
  does not. A seat that is released while its accept is in flight leaves an accepted invitation without a seat; the
  all-or-nothing theorem names those.
- Right guesses refill the guess budget by design, so the budget counts them. When a clear and a lock cross, a live
  code can stand beside a running lockout, and a window sees ten guesses where whole guesses allow five
  (`LateWrites.LateBudgetIsTight`); `LateWrites.LateGuessBudget` is the bound with that taken in.
- A window allows five issues, and two windows that meet inside an hour allow nine between them, not ten:
  `IssueRuns.HourlyCapIsTight` reaches nine.
- A backfilled period is dated at the row's `assigned_at` and can overlap older history
  (`ReconciledHistory.BackfillCanOverlap`). Reconcile promises the mirror of open periods; the history stays ordered
  exactly when every row it repairs was assigned in the past and after all its member's periods
  (`ReconciledHistory.ReconciledHistoryExact`).
- A patch's diff is exact unless the old overrides hold an empty limit map, or an empty entry under a patch that only
  clears (`Patch.DiffIsExact`). Stored overrides are always normalized (`Grants.StoredIsNormalized`), so theirs is.

## Model

| member | source | states |
|---|---|---|
| `Activation.CheckCodeComparesOnlyLiveCodes` | core/activation.go:50-61 | a code is OK or wrong only if it is stored, unexpired and within its five attempts; otherwise the answer does not depend on what was given |
| `Activation.CodeAccount.ConsumeAttempt` | repositories/User.go:1714-1729 | one attempt is added and the rest of the document stays, even when the code is locked |
| `Activation.CodeAccount.LockCode` | repositories/User.go:1760-1772 | blanks the code and sets the lockout; attempts and issue budget stay |
| `Activation.CodeAccount.ClearBudget` | repositories/code_issue.go:72-80 | attempts and lockout are reset; code and issue stamps stay |
| `Activation.CodeAccount.VerifyCode` | core/activation.go:127-145 | the consume, check, lock and clear sequence ends in exactly the document of one atomic step; locked exactly from the sixth attempt on, right exactly for the stored, unexpired code within five |
| `Activation.CodeAccount.IssueCode` | repositories/code_issue.go:49-58 | conditional on the issue stamp it was planned from: stored with code, expiry and budget together, lost to a newer issue, or failed on a removed document |
| `CodeRuns.StepKeepsInv` | core/activation.go:77-113 | no interleaving of guesses, late locks and clears, and split regenerations breaks the link between stored stamps and the issues in flight |
| `CodeRuns.StepKeepsLockInv` | core/activation.go:127-145 | while no guess is split, a lockout means spent attempts and lasts a lockout period from the last live guess, also in every copy that may still be stored |
| `Lockouts.FifthMissLocks` | core/activation.go:127-145 | the guess that leaves five wrong attempts on a stored code leaves no code and a lockout of 15 minutes from itself; until a regeneration is stored no later guess changes either, or meets a code |
| `Lockouts.EarlierGuesses` | core/activation.go:127-145 | before that a wrong guess only adds to the count, and a right one in time clears count and lockout |
| `Lockouts.MayIssueExactly` | core/activation.go:92-113 | a code may be issued exactly when no lockout runs, 60 s have passed since the last one and the hour of the stored window start has fewer than five; the next budget field by field; attempts are reset exactly after a lockout |
| `Lockouts.LockoutIsWaitedOut` | core/activation.go:92-145 | once every read regeneration knows of a lockout, the first one stored is stamped no earlier than its end, however guesses go on |
| `CodeRuns.EpochBound` | core/activation.go:50-66 | live guesses of any run of whole guesses, counted from any state, fit the attempts left plus five per lockout period and per right guess |
| `CodeRuns.GuessBudget` | core/activation.go:92-145 | over any history and any window of length L, a lockout running or not, at most 5 * (L / 15 min + 1 + right guesses) guesses meet a live code, however often codes are reissued, while each guess is one event |
| `LateWrites.TryAndLandAreVerify` | core/activation.go:127-145 | counting a guess and landing its lock or clear with nothing in between is the whole guess |
| `LateWrites.RefillsAreApart` | core/activation.go:92-113 | however locks, clears and issues cross, resets of the attempts by an issue are a lockout less the delay of a lock apart |
| `LateWrites.LateGuessBudget` | core/activation.go:92-145 | from any document, over any history and window, with every lock landing within delay D of its guess: at most 5 * (L / (15 min - D) + 2 + right guesses, those still owed their clear included) live guesses |
| `LateWrites.LateBudgetIsTight` | core/activation.go:127-145 | a run without any delay in which a crossing clear and lock let ten guesses meet a live code at one instant, none of them right |
| `IssueRuns.IssuesStayConditional` | services/code_budget.go:34-44 | once a document carries an expiry or a stamp, blanking its code never makes a later issue unconditional |
| `IssueRuns.RacingIssuesAreSequential` | repositories/code_issue.go:30-46 | however many callers plan from the same read, the stamps that get stored form one chain in which each was legal after the one before |
| `IssueRuns.IssueRate` | core/activation.go:92-113 | recorded regenerations are at least 60 s apart and at most nine fall in any half-open hour, under any interleaving |
| `IssueRuns.ChainIsReached` | repositories/code_issue.go:30-46 | the converse: every such chain is what some ordered run of loads, plans and stores issues |
| `IssueRuns.HourlyCapIsTight` | core/activation.go:92-113 | an initial state and an ordered run of events whose stored stamps put nine into one half-open hour |
| `TeamProtocol.StepKeepsInv` | services/team.go:207-448 | every store step of every team call keeps each membership row headed by a flagged user or covered by a call that will still look at it, unless it is a rollback over an uncovered row |
| `TeamProtocol.RowsNameHeadsAtRest` | services/team.go:265-296 | any interleaving of assigns, demotes, promotes, unassigns, removals and deletions, from any rows: once no call is in flight, a row names an existing flagged head, except exactly the rows that did not before the run or were stripped by such a rollback, and have since been neither written nor had their head flagged |
| `TeamProtocol.RollbackExact` | services/team.go:236-253 | a promote that takes its flag back keeps the step invariant exactly when other calls still look after every row of the candidate |
| `TeamProtocol.RollbackStrands` | services/team.go:236-253 | a rollback over a row that no other call in flight touches leaves that row under an unflagged user in every continuation, until somebody starts a call on it |
| `TeamProtocol.RollbackCanStrandATeam` | services/team.go:236-253 | a complete run in which the rollback leaves a settled coach under an unflagged head |
| `TeamProtocol.StepKeepsNestInv` | services/team.go:207-448 | a flagged coach has a row only while a promote of that coach will still recheck or roll back; every step keeps it, if the rows it writes pass the guard |
| `TeamProtocol.UpsertExact` | services/team.go:388-410 | writing a membership keeps that exactly when the coach is not flagged at the write or a promote will still recheck, which assign does not test |
| `TeamProtocol.NoHeadIsMemberAtRest` | services/team.go:215-262 | any interleaving, from any rows: once no call is in flight, a head coach is in a team exactly when that was so before the run or an assign wrote the row without the guard, and neither row nor flag has gone since |
| `TeamProtocol.UnguardedUpsertNests` | services/team.go:388-410 | a row written for a flagged coach that no other call touches survives the recheck and leaves a head coach in a team in every continuation, until somebody starts a call on it |
| `TeamProtocol.PromoteRaceCanNestTeams` | services/team.go:388-410 | a complete run that ends with a head coach inside another team: assign never rechecks the member itself |
| `AcceptResults.StepKeepsInv` | services/gym.go:587-691 | every store step of every accept, of any number of callers and of one caller at once, and every change by others, keeps rows, flags, endings and the invitations accepted in the run in agreement |
| `AcceptResults.AcceptIsAllOrNothing` | services/gym.go:587-691 | from any store in which carried invitations are accepted: a joined call has accepted its invitation; with nobody else changing its caller's flag or row a call ends with both or leaves both as found; at rest an invitation accepted in the run is accepted by x exactly when x holds a row carrying it, unless that row was taken away |
| `AcceptResults.LoneAcceptIsAllOrNothing` | services/gym.go:587-691 | an accept whose caller is left alone ends with accepted invitation, flag and row together, or with flag and row as found, whatever everybody else does |
| `AcceptResults.AcceptedIsSeated` | services/gym.go:587-691 | where nobody leaves or is removed in the run, that holds without exception: an accept takes back no row but its own |
| `AcceptResults.SeatGuardIsExact` | services/gym.go:618-672 | a step of an accept leaves every seat with a flagged head coach exactly when the flag is up as the row is added and no row is there as the flag is taken back, which the code does not test |
| `AcceptResults.LoneCallsAreGuarded` | services/gym.go:618-672 | that always holds for a call whose caller nobody else has changed |
| `AcceptRaces.ParallelAcceptsCanUnflag` | services/gym.go:618-672 | for every newcomer with two acceptable invitations, or one accepted twice at once, a complete run in which one accept joins and the other takes the flag back |
| `AcceptResults.AnsweredIsFinal` | repositories/gym.go:821-837 | no run changes an invitation whose status is not pending |
| `ProtocolLinks.PromoteAlone` | services/team.go:207-263 | the store steps of one promote, run alone, make exactly the change the complete operation makes |
| `ProtocolLinks.DemoteAlone` | services/team.go:265-343 | likewise |
| `ProtocolLinks.AssignAlone` | services/team.go:360-425 | likewise |
| `ProtocolLinks.UnassignAlone` | services/team.go:427-448 | likewise |
| `ProtocolLinks.RemoveMyCoachAlone` | services/team.go:515-539 | likewise |
| `ProtocolLinks.DeleteUserAlone` | services/auth.go:1280-1299 | likewise |
| `ProtocolLinks.AssignLooksAgain` | services/team.go:398-410 | whatever happened before its second look, an assign keeps its row exactly under an active head coach, and otherwise takes it back in the next step |
| `ProtocolLinks.PromoteLooksAgain` | services/team.go:236-253 | a promote that finds its candidate in a team takes the flag back in the next step |
| `ProtocolLinks.AcceptAlone` | services/gym.go:587-691 | likewise for the accept of an invitation by the active coach it is addressed to, with its outcome |
| `ProtocolLinks.AcceptLooksAgain` | services/gym.go:618-672 | an accept whose caller has gone ends without a write; one whose caller is in a team by now takes the flag back and ends without a seat |
| `AcceptEnvironment.EveryOperationIsOutside` | services/gym.go:445-986 | what any other complete operation does to any store is a run of outside steps of AcceptProtocol, so its theorems hold beside every operation |
| `AcceptEnvironment.OthersOnly` | repositories/gym.go:821-837 | outside steps never accept: they decline, revoke or expire what is overdue, send pending invitations, and give seats only as an admin does |
| `Periods.OpenParentMeaning` | repositories/membership_periods.go:50-64 | the open parent of a member is the parent of its one open row |
| `Periods.ClosedMoves` | repositories/membership_periods.go:92-99 | closing one member removes that member from its parent and moves nobody else |
| `Periods.ClosedByParentMoves` | repositories/membership_periods.go:102-109 | closing a parent releases exactly its members |
| `Periods.OpenedMoves` | repositories/membership_periods.go:66-89 | opening leaves the member under the new parent with one open row and moves nobody else |
| `Periods.HistoryMeansDisjoint` | repositories/membership_periods.go:66-109 | an ordered history has non-negative periods and no instant in two of a member's periods |
| `Periods.OpenedHistoryExact` | repositories/membership_periods.go:66-89 | dating a period at `at` keeps the history ordered exactly when `at` is not before the member's earlier rows |
| `MembershipStore.Store.OpenPeriod` | repositories/membership_periods.go:66-89 | reopens nothing when the member is already open under the parent; otherwise closes the old row and inserts one; an early stop leaves at most the close |
| `MembershipStore.Store.ClosePeriod` | repositories/membership_periods.go:92-99 | closes the open row of one member or, on an error, nothing |
| `MembershipStore.Store.CloseByParent` | repositories/membership_periods.go:102-109 | closes every open row of a parent or, on an error, nothing |
| `MembershipStore.Store.Upsert` | repositories/team.go:76-110 | the row and its period move together |
| `MembershipStore.Store.DeleteByCoach` | repositories/team.go:124-137 | the row goes and its period is closed |
| `MembershipStore.Store.DeleteByHead` | repositories/team.go:139-150 | a whole team goes and its periods are closed |
| `MembershipStore.Store.DeleteByAny` | repositories/team.go:153-185 | a user's own membership, team and gym seat go, with their periods |
| `MembershipStore.Store.AddHeadCoach` | repositories/gym.go:350-366 | a second gym row of a head is refused; otherwise row and period appear together |
| `MembershipStore.Store.RemoveHeadCoach` | repositories/gym.go:389-401 | only a row of that gym goes, with its period |
| `MembershipStore.Store.ReleaseHead` | repositories/gym.go:404-417 | the head's row goes with its period, whichever gym it names |
| `MembershipStore.Store.RemoveAllByGym` | repositories/gym.go:420-445 | every head of a gym goes, with their periods |
| `MembershipStore.Store.OpenByMembers` | repositories/membership_periods.go:280-297 | the open period of each asked member, and only those |
| `MembershipStore.Store.ExistingCoaches` | repositories/membership_periods.go:300-317 | each asked coach that has a row is found under the head the row names, and nobody else is; an error finds nobody |
| `MembershipStore.ReconcileMirrors` | repositories/membership_periods.go:164-278 | repairing any history with unique open rows makes the open team periods mirror the rows |
| `MembershipStore.ReconcileIdempotent` | repositories/membership_periods.go:164-278 | on a mirrored history a second run changes nothing and counts (0, 0) |
| `MembershipStore.Store.Flush` | repositories/membership_periods.go:176-199 | one batch repairs exactly its mismatched rows, and its count is theirs even when it stops early |
| `MembershipStore.Store.ReconcileTeam` | repositories/membership_periods.go:164-278 | the same result for every batch size; the counts are the mismatched rows and orphan periods; cut short anywhere, counts plus what is left equal what there was, so a full run afterwards ends in the mirror |
| `ReconciledHistory.RepairTold` | repositories/membership_periods.go:164-278 | everything the repair writes: each open period of a coach without a row ends now, each under another head ends as the row was assigned, each mismatched row gets its period, with their reasons, and nothing else changes |
| `ReconciledHistory.ReconciledHistoryExact` | repositories/membership_periods.go:164-278 | the whole repair of an ordered history ends ordered exactly when every mismatched row was assigned in the past and after all its member's periods |
| `ReconciledHistory.BackfillCanOverlap` | repositories/membership_periods.go:176-199 | a history write that failed, a demotion and a repair that end with two periods of one coach over one instant |
| `HierarchyRuns.ApplyKeepsSound` | services/team.go:207-448 | each complete operation keeps the flat hierarchy, the archived-gym rule, at most one pending invitation for a gym and an address, and rows mirrored by ordered history |
| `HierarchyRuns.RunKeepsSound` | services/gym.go:445-986 | so does every run under a monotone clock |
| `HierarchyRuns.EveryRunIsFlatAndMirrored` | services/gym.go:839-986 | in every run no head is a member, every head of a row is flagged, archived gyms have no heads and no pending invitations, open periods are exactly the rows and past periods are disjoint |
| `OperationRules.RowWritesFollow` | repositories/team.go:76-110 | a written row and its period, dated by the row or now, with the reason; deleting a row that is not there changes nothing |
| `OperationRules.DemoteFollows` | services/team.go:265-343 | done exactly for a flagged user or one with leftover members; the flag, the team, the seat and exactly their open periods go |
| `OperationRules.AssignFollows` | services/team.go:360-425 | each refusal exactly under its condition; the member moves, from wherever it was |
| `OperationRules.AcceptFollows` | services/gym.go:587-691 | each refusal exactly under its condition, and every field of the world after each |
| `OperationRules.InviteFollows` | services/gym.go:445-486 | each refusal exactly under its condition, rate limit and waiting invitations counted from the stored ones |
| `OperationRules.UpdateGymFollows` | services/gym.go:839-940 | done exactly for a sensible change with a fit owner, and every field of the world after it |
| `HistoryTruth.HistoryTellsThePast` | repositories/membership_periods.go:66-109 | cut any run at an instant: what the final history says about that instant is what the rows said then |
| `HierarchyServices.Services.SetHeadCoach` | repositories/User.go:1365-1392 | only that user's flag moves; a missing user is reported |
| `HierarchyServices.Services.Promote` | services/team.go:207-263 | NotFound, BadRequest, Conflict and Done each exactly when the rule for it holds; alone only the flag is raised and the hierarchy stays sound; whatever others do, an undone promote has sent its flag and taken it back |
| `HierarchyServices.Services.Demote` | services/team.go:265-343 | done exactly for a flagged user or one with leftover members, alone; flag, then team, then seat are sent; alone rows, periods and flag end as told row by row and the hierarchy stays sound |
| `HierarchyServices.Services.Assign` | services/team.go:360-425 | each refusal exactly under its condition, alone; done exactly for a named unflagged coach under an active head; the row moves, with reason assign or reassign; an undone assign has taken its row out again; keeps the hierarchy sound |
| `HierarchyServices.Services.Unassign` | services/team.go:427-448 | done exactly when there is a membership; only that row goes and its open period ends; keeps the hierarchy sound |
| `HierarchyServices.Services.RemoveMyCoach` | services/team.go:515-539 | forbidden exactly to all but active heads, done exactly for a coach of the caller's own team; keeps the hierarchy sound |
| `HierarchyServices.Services.TransitionInvitation` | repositories/gym.go:821-837 | moves the invitation only from the expected status |
| `HierarchyServices.Services.ExpireDue` | repositories/gym.go:788-800 | exactly the overdue pending invitations of that gym and email expire, an empty one standing for any |
| `HierarchyServices.Services.RevokePendingByGym` | repositories/gym.go:840-847 | exactly the pending invitations of that gym are revoked |
| `HierarchyServices.Services.Invite` | services/gym.go:445-486 | each refusal exactly under its condition; done exactly when the owner's gym is active, the address usable, fewer than perDay sent in 24 hours and none of that gym and address still waits; overdue ones expire on the way; keeps the hierarchy sound |
| `HierarchyServices.Services.RevokeInvitation` | services/gym.go:511-535 | done exactly for a pending invitation of a gym the caller owns, each refusal exactly under its condition; only its status changes; keeps the hierarchy sound |
| `HierarchyServices.Services.PendingInvitation` | services/gym.go:574-585 | an overdue invitation is refused and marked expired on the way |
| `HierarchyServices.Services.DeclineInvitation` | services/gym.go:693-718 | done exactly for an active coach, an invitation to the caller's own address, pending and not overdue, each refusal exactly under its condition; an overdue one expires; keeps the hierarchy sound |
| `HierarchyServices.Services.AcceptInvitation` | services/gym.go:587-691 | alone, done exactly for an active coach, an invitation to the caller's own address, pending and not overdue, a caller without team row or seat, and an active gym, each refusal exactly under its condition; flag, seat, period and status as told; whatever others do, an accept that is not done has taken back each write it sent in reverse order, and a done one leaves the invitation accepted; keeps the hierarchy sound |
| `HierarchyServices.Services.LeaveGym` | services/gym.go:756-772 | forbidden exactly to all but active heads, done exactly with a seat, which goes with its period; keeps the hierarchy sound |
| `HierarchyServices.Services.RemoveHeadCoach` | services/gym.go:391-408 | done exactly for a head of a gym the caller owns, forbidden exactly to all but active owners; keeps the hierarchy sound |
| `HierarchyServices.Services.AdminAddHeadCoach` | services/gym.go:942-986 | done exactly for an active gym and an active head that has no other gym; being there already changes nothing; keeps the hierarchy sound |
| `HierarchyServices.Services.AdminRemoveHeadCoach` | services/gym.go:988-1009 | done exactly for a head of that existing gym, whose seat goes with its period; keeps the hierarchy sound |
| `HierarchyServices.Services.AdminUpdateGym` | services/gym.go:839-940 | done exactly for a sensible change of an existing gym whose new owner is an active owner; archiving, again too, releases every head and revokes every pending invitation; nothing else changes; keeps the hierarchy sound |
| `HierarchyServices.Services.AdminCreateGym` | services/gym.go:812-837 | done exactly for a valid name, an active owner and a new id, each refusal exactly under its condition; keeps the hierarchy sound |
| `HierarchyServices.Services.RenameGym` | services/gym.go:355-376 | done exactly for the owner of an active gym and a valid name, each refusal exactly under its condition |
| `GymNames.ValidNameIsTheMiddle` | services/gym.go:314-318 | a name is accepted exactly when it is what stands between the first and last character that is not white space, 1 to 100 characters |
| `GymNames.SpacesByNumber` | services/gym.go:314-318 | white space is what strings.TrimSpace takes away, by code point |
| `HierarchyServices.Services.DeleteUser` | services/auth.go:1280-1299 | done exactly for an existing account; then its membership, team and gym seat go with their periods; keeps the hierarchy sound |
| `Registry.RegistryIsWellFormed` | services/entitlement_registry.go:68-86 | every parent is a registered top-level feature that applies to the same roles as its children |
| `Registry.FeaturesByName` | services/entitlement_registry.go:62-86 | each registered feature by name: its roles, parent, limits and default |
| `Registry.CounterTablesAreInverse` | services/entitlement_registry.go:88-103 | the two counter tables are inverse to each other |
| `Registry.CounterKeysAreDistinct` | services/entitlement_registry.go:109-114 | storage keys coincide exactly for the same counter and, when it is monthly, the same month |
| `Registry.OnlyMessagesRestart` | services/entitlement_registry.go:109-114 | messages are counted by the month, uploads and bytes for good |
| `Ordering.SortedKeys` | services/entitlement.go:834-838 | the keys of a map in ascending order |
| `Ordering.AscendingIsUnique` | services/entitlement.go:834-838 | which is one list whatever order the map is walked in |
| `Usage.UsageStore.ConsumeUsage` | repositories/entitlement.go:135-177 | create, zero-fill and conditional increment end in one all-or-nothing attempt; other subjects are untouched |
| `Usage.UsageStore.ReleaseUsage` | repositories/entitlement.go:180-193 | lowers the listed counters, never below zero, and only in an existing document |
| `Usage.ParseDeltas` | services/entitlement.go:654-680 | exactly the valid requests pass, and the answer then has an amount for each counter the feature has |
| `Usage.StorageKeys` | services/entitlement.go:717-723 | each amount lands under its own key, none is lost or merged |
| `Usage.QuotaDenial` | services/entitlement.go:726-747 | names the first counter in key order that is over, with its use and maximum; without one, the first of all |
| `Usage.Consume` | services/entitlement.go:682-714 | every amount is added and the totals reported, or nothing moves and the first exceeded limit is named; which of the two depends only on room |
| `Quotas.RequestsByName` | services/entitlement.go:654-680 | what passes is messages of the chat, or uploads and bytes of the file manager; something, and nothing negative |
| `Quotas.MessagesByName` | services/entitlement.go:682-714 | messages are counted in their month's counter, or refused with max_messages_month, the use and the maximum exactly when they are too many; no other counter moves |
| `Quotas.FilesByName` | services/entitlement.go:682-714 | bytes and uploads are counted together or not at all, refused exactly when one is too much for its own limit; when both are, the bytes are named |
| `Quotas.DenialOfFiles` | services/entitlement.go:726-747 | of bytes and uploads a denial names the first that is over with its use, or the first bounded with none when neither is over any more |
| `Usage.Release` | services/entitlement.go:749-758 | each counter of the feature falls by its amount, floored at zero; nothing else moves |
| `UsageProtocol.ServiceSendsRequests` | services/entitlement.go:654-703 | what the service hands the store meets the store's assumptions |
| `UsageProtocol.ConsumeAlone` | repositories/entitlement.go:135-177 | three updates with nothing in between are the one attempt of the store |
| `UsageProtocol.ReleaseAlone` | repositories/entitlement.go:180-193 | a release is one update, and none without a document |
| `UsageProtocol.StepKeepsInv` | repositories/entitlement.go:135-193 | every store update of every racing call keeps counters non-negative, zero-filled before they are checked, and equal to their history |
| `UsageProtocol.DenialIsExact` | repositories/entitlement.go:162-176 | in every interleaving a denial happens exactly when some bounded counter has no room at that step; a denied request has a bounded counter; a granted one moves all its counters and leaves none above its maximum |
| `UsageProtocol.CountersFollowHistory` | repositories/entitlement.go:135-193 | counters never go below zero and are what grants and releases leave |
| `UsageProtocol.Conservation` | repositories/entitlement.go:167-193 | a counter equals consumed minus released throughout exactly when that difference never goes below zero |
| `UsageProtocol.CounterIsLargestTail` | repositories/entitlement.go:167-193 | with floors hit, a counter is the largest net amount of any final stretch of its history |
| `UsageProtocol.CeilingHolds` | repositories/entitlement.go:162-176 | however many callers race, a counter checked against at most max never passes max |
| `Patch.CloneFeatures` | services/entitlement.go:793-810 | a copy whose empty limit maps are gone |
| `Patch.PatchLimits` | services/entitlement.go:853-871 | refused on an unknown or negative limit, else set and cleared limit by limit, in any map order |
| `Patch.ApplyPatch` | services/entitlement.go:828-884 | rejects exactly an empty patch and one with a feature unknown or of another role, an unknown limit or a negative one; otherwise the new overrides and both sides of the diff, independent of map order |
| `Patch.PatchIsStored` | services/entitlement.go:828-884 | switch by switch and limit by limit: what the patch sets is stored with its own value, a null is gone, all else is the old one; keys outside the patch stay, and an entry with nothing left is gone |
| `Patch.PatchKeepsNormalized` | services/entitlement.go:828-884 | normalized overrides stay normalized |
| `Patch.DiffIsExact` | services/entitlement.go:828-884 | the diff leads to the new overrides and back exactly when the old ones hold no empty limit map and no empty entry under a patch that only clears; normalized ones do not |
| `Patch.DiffNamesTheChanges` | services/entitlement.go:828-884 | on normalized overrides the diff names exactly the changed entries with both values, and is empty exactly when nothing changed |
| `Patch.PatchTwiceIsOnce` | services/entitlement.go:828-884 | applying a patch again changes and records nothing |
| `Patch.EmptyEntryEscapesTheDiff` | services/entitlement.go:828-884 | off normalized overrides a change can go unrecorded |
| `Grants.GrantStore.ReplaceGrant` | repositories/entitlement.go:63-82 | compare-and-set on the version; version 0 inserts and loses to an existing document |
| `Grants.GrantStore.WriteGrant` | services/entitlement.go:902-929 | quoted-version check, no-op and conditional write, with the answer of each |
| `Grants.GrantStore.SetAccess` | services/entitlement.go:992-1013 | one write from the read of the old grant on: rejected, refused, conflicting, unchanged or written |
| `Grants.AloneNeverConflicts` | services/entitlement.go:902-931 | with nobody racing only a wrong quoted version conflicts |
| `Grants.StepKeepsInv` | services/entitlement.go:902-1016 | every step of every racing request keeps the stored grant the replay of the logged requests |
| `Grants.ReadingAnswers` | services/entitlement.go:958-1016 | a bad patch ends as a bad request and one beyond the coach as refused, before anything is written; any other goes on with the grant as it stands |
| `Grants.NoLostUpdate` | services/entitlement.go:902-1016 | under any interleaving the stored grant is the replay of every request that reported success, its version counts them, and each version belongs to exactly one |
| `Grants.EachVersionPatchesTheOneBefore` | services/entitlement.go:988-1016 | the features at version n are request n's patch of those at n - 1, or of nothing when the granting coach changed |
| `Grants.ConflictIsExact` | services/entitlement.go:902-923 | a writer conflicts exactly when it quotes another version or somebody wrote since it read |
| `Grants.StoredIsNormalized` | services/entitlement.go:902-1016 | only normalized overrides are ever stored |
| `Grants.EveryVersionChangesSomething` | services/entitlement.go:910-920 | no version repeats the overrides it patched |
| `Grantable.CheckGrantable` | services/entitlement.go:959-986 | refuses exactly a switch that turns on what the coach has off, and a limit beyond the coach's own |
| `Grantable.GrantedIsServed` | services/entitlement.go:958-1017 | what an accepted patch sets is what the capped client gets: limits as set, off is off, and on is on, for a child exactly when its parent's own switch is on |
| `AccessService.Service.SetCoachAccess` | services/entitlement.go:931-956 | unknown accounts and non-coaches are refused and change nothing; otherwise the grant write with its answer |
| `AccessService.Service.SetClientAccess` | services/entitlement.go:988-1017 | refused without the link; the patch is checked before the coach is resolved; whatever is written, the client then resolves to what the patch set, a child turned on only under a parent that is on |
| `Resolution.ApplyLayer` | services/entitlement.go:307-323 | each field is overridden on its own; only the state's own limit map is written |
| `Resolution.CapByCoach` | services/entitlement.go:326-348 | the smaller of both states; the coach's limit map is read only |
| `Resolution.ComputeLayered` | services/entitlement.go:350-397 | for every map order the same result, field by field, in new limit maps; the shared coach resolution is not written; Precedence says what the result is |
| `Resolution.EnabledFromLastDefiner` | services/entitlement.go:306-372 | the switch comes from the last layer that defines it |
| `Resolution.LimitFromLastDefiner` | services/entitlement.go:306-372 | so does each limit |
| `Resolution.UntouchedIsDefault` | services/entitlement.go:306-372 | a feature no layer defines is the registry default |
| `Precedence.ResolvedByPrecedence` | services/entitlement.go:306-397 | from the stored overrides alone: each switch and registered limit is the grant's where it gives one, else the plan's, else the role default's, else the registry's; then the parent rule; and the source of each |
| `Precedence.CappedByPrecedence` | services/entitlement.go:325-347 | under a coach a client's feature is on when both are, each limit is the smaller of both, and the source says so exactly when something was taken; where the coach has no part nothing is |
| `Precedence.OtherRolesResolve` | services/entitlement.go:274-304 | roles above entitlements have everything without limit, roles outside have nothing |
| `Resolution.AccountsResolveWell` | services/entitlement.go:274-397 | every account resolves to exactly the registered features and limits, children following their parents |
| `Resolution.ClientStaysUnderCoach` | services/entitlement.go:325-347 | a capped client never exceeds its coach, keeps exactly the registered limits and loses no more than the cap takes |
| `Resolution.CapKeepsParentRule` | services/entitlement.go:373-397 | children still follow their parents after the cap, although the rule ran before it |
| `Resolution.ClientOfCoach` | services/entitlement.go:350-397 | both, for a client capped by a coach resolved from its own layers |
| `Intervals.SortIsStable` | services/analytics_scope.go:357-357 | the stable sort by start keeps every element and the order of equal starts |
| `Intervals.HasOpenPeriod` | services/analytics_scope.go:324-331 | true exactly when some interval has no end |
| `Intervals.IntersectPeriods` | services/analytics_scope.go:334-359 | the nested loops and sort compute the intersection list |
| `Intervals.IntersectionIsExact` | services/analytics_scope.go:334-359 | an instant lies in the result exactly when it lies in both lists |
| `Intervals.IntersectionShape` | services/analytics_scope.go:334-359 | the result is sorted, has no empty interval, is disjoint when both lists are, and is open exactly when both are |
| `Scope.GroupPeriodsByMember` | repositories/membership_periods.go:145-161 | one group per member in first-seen order, each sorted by start |
| `Scope.GroupingKeepsEveryPeriod` | repositories/membership_periods.go:145-161 | grouping neither loses nor duplicates a period |
| `Scope.MembersAreExact` | repositories/membership_periods.go:145-161 | there is a group for exactly the members that have a period |
| `Scope.MembersAreDistinct` | repositories/membership_periods.go:145-161 | and no member has two groups |
| `Scope.PeriodStore.ListForParents` | repositories/membership_periods.go:132-137 | the periods of those parents, each as often as it is stored and no others, ascending by start; none for no parents |
| `Scope.PeriodStore.TeamEntriesOf` | services/analytics_scope.go:148-163 | a foreign head filter is refused; otherwise the head since the promotion, and the team |
| `Scope.PeriodStore.GymEntriesOf` | services/analytics_scope.go:186-225 | the entries of heads and of their teams while the head was in the gym; an unknown head is refused |
| `Scope.Finish` | services/analytics_scope.go:254-321 | narrows to one coach or refuses, marks current entries and lists current coaches |
| `Analytics.AnalyticsService.TeamScope` | services/analytics_scope.go:143-168 | denied to all but active head coaches; shows exactly the caller since the promotion, or since the account was made, and the team while in it; not found only for a foreign head filter or a coach never in scope |
| `Analytics.AnalyticsService.GymScope` | services/analytics_scope.go:170-232 | denied to all but active gym owners, not found for a gym not theirs or a filter never in scope; otherwise shows a coach under a head at an instant exactly when the history says so |
| `ScopeMeaning.GymScopeMeaning` | services/analytics_scope.go:170-232 | an entry covers an instant exactly when the head was in the gym and the coach was that head or in the head's team then; likewise for now |
| `ScopeMeaning.TeamScopeMeaning` | services/analytics_scope.go:143-168 | the same for a head coach's own scope |
| `ScopeMeaning.CurrentIdsAreExact` | services/analytics_scope.go:298-321 | the current coaches are exactly those with an open entry, each once |
| `ScopeMeaning.CurrentIdsKeepOrder` | services/analytics_scope.go:298-321 | in the order of their first open entries |
| `ScopeMeaning.GymScopeCurrent` | services/analytics_scope.go:190-225 | which are the heads now in the gym and the coaches now in their teams |
| `StatusGate.StatusCache.MapFinds` | router/status_gate.go:65-72 | the map finds exactly the list's entry of a user |
| `StatusGate.StatusCache.Get` | router/status_gate.go:65-72 | the cached entry of a user, if any |
| `StatusGate.StatusCache.PutEntry` | router/status_gate.go:74-88 | overwrite and move to the back, or append and evict from the front; map and list stay in one-to-one agreement within the bound |
| `StatusGate.StatusCache.Status` | router/status_gate.go:90-130 | entries and answer are those of the step machine, branch by branch |
| `StatusGate.StepKeepsInv` | router/status_gate.go:90-130 | entries stay bounded, one per user, ordered by fetch time, each the user's last definite answer |
| `StatusGate.EvictsOldest` | router/status_gate.go:74-88 | only a full cache evicts, and what it drops is at least as old as all it keeps |
| `StatusGate.AnswersExactly` | router/status_gate.go:90-130 | served, unknown and unavailable each exactly when: a recent entry answers by itself, else the lookup, else for a failed one a served status younger than 5 minutes, and without one the call is turned away |
| `StatusGate.AnswerIsKept` | router/status_gate.go:90-130 | a definite answer is what the user's next call gets without a lookup, for ttl, or for 30 s when it was not-found |
| `StatusGate.ServedIsRecentAnswer` | router/status_gate.go:90-130 | after any run a served status is the lookup's, or the last definite answer younger than ttl, or than 5 minutes when the lookup failed, and never one of not-found |
| `StatusGate.MissingIsNeverServed` | router/status_gate.go:90-130 | a user last answered not-found is served only when the lookup finds it again |
| `ReadCache.Cache.Purge` | services/readcache.go:31-38 | empties the cache unless it is disabled |
| `ReadCache.Cache.Lookup` | services/readcache.go:42-51 | a value strictly before its expiry, never from a disabled cache |
| `ReadCache.Cache.Store` | services/readcache.go:57-66 | an overfull map is emptied first; a disabled cache stores nothing |
| `ReadCache.PutIsBounded` | services/readcache.go:57-66 | up to 4096 entries a new one drops none; beyond that it stays alone, so the map never exceeds 4097 |
| `CachedResolution.Resolver.ReadDefaults` | services/entitlement.go:399-411 | the cached defaults, or the stored ones cached on the way |
| `CachedResolution.Resolver.ResolveUser` | services/entitlement.go:471-523 | hit, own load or client load with the coach's resolution nested in it, in the order of the source; only successes are cached |
| `CachedResolution.Resolver.Write` | services/entitlement.go:886-889 | a local write purges both caches |
| `CachedResolution.FirstResolveAfterWrite` | services/entitlement.go:886-889 | the first resolution after a local write is computed from the stored data alone |
| `CachedResolution.CachedIsServed` | services/readcache.go:31-70 | over runs: an answer stored at t is the answer of each resolution checked before t + 30 s, with no local write and no overfull cache in between |
| `CachedResolution.AnswersExactly` | services/entitlement.go:471-523 | a live entry is served; not found exactly for a missing account without one whose read went through; an answer of down only when one of the resolution's own reads failed |
| `CachedResolution.DefaultsLoaded` | services/entitlement.go:399-411 | defaults are read from the store exactly when there is no live copy, which then lives for 30 s; a failed read keeps nothing |
| `CachedResolution.RunKeepsSound` | services/readcache.go:31-70 | in every run of writes and resolutions each cached value was made from the store as it was, at the instant its expiry tells |
| `CachedResolution.ServedIsRecent` | services/entitlement.go:471-523 | a served client is its resolution from its own grant as of less than 30 s ago, plan defaults at most 30 s older, and its coach resolved from a grant of less than 60 s ago, plus the time resolutions take |
| `ServedAccess.ServedUnderRecentCoach` | services/entitlement.go:471-523 | end to end: what is served is the client's resolution at that recent instant; with a coach it has no more than that coach resolves to from a grant that recent, and its children follow their parents |
| `ServedAccess.GrantsThatCount` | services/entitlement.go:484-523 | a client's grant counts exactly while the coach that gave it is the client's coach |
| `ServedAccess.WrittenIsServed` | services/entitlement.go:471-523 | after a write here the next resolution is told by the stored grants, links and defaults alone: a coach by its own grant, a client by its coach's grant under that coach's resolution |
| `ServedAccess.OthersHaveAll` | services/entitlement.go:471-483 | an account of another role has every feature without a limit |

## Left out

Deliberately weaker than a first reading of the source:

- CodeRuns.GuessBudget: a guess is one event here; LateWrites.LateGuessBudget has the bound for guesses whose lock or clear lands later.
- AcceptResults.AcceptIsAllOrNothing: releases, flag changes and admin seats are single outside steps; the order in which a demotion makes its own is not followed.
- UsageProtocol.StepKeepsInv: counters are unbounded integers; overflow of an unlimited 64-bit counter is not modelled.
- CachedResolution.ServedIsRecent: sequential callers; the request coalescing of concurrent misses is not modelled. The 5-minute plan cache is left out: an account's plan is a parameter.
- StatusGate.ServedIsRecentAnswer: sequential callers, as above.
- HierarchyServices.Services.AdminUpdateGym: archiving is claimed as a complete operation; a race with an accept or an admin add is not modelled.
- Grants.GrantStore.SetAccess: starts after the account-role and coach-link checks, with the grantable check as one yes or no; AccessService has the checks, Grants what racing writes do.
- AccessService.Service.SetClientAccess: one call at a time, and the coach's resolution is a parameter.

Not modelled:

- Store errors, except in the history store and ReconcileTeam, where an early stop is part of the claim. Period writes are best effort in the code; elsewhere they succeed.
- Rounding of stored times to milliseconds, and the time zone of the month in a counter key; instants are integers of nanoseconds and the month is a string.
- Multi-document deletes and updates are one step.
- The first code issue of an account without any code, which has no condition to race on; RegenBlocked.
- Removal of a code document: by an OAuth sign-in, or by a completed password reset (repositories/User.go:317-334). Either restarts the issue window, and the next issue has no condition to race on.
- A role change of a user, which releases memberships like a deletion does.
- Email normalisation: an invitation gets the normalised address, or none for an invalid one, as a parameter. Ids chosen by the database are parameters, too.
- A client's coach that is itself a client: resolution nests once. Accounts whose role has no entitlements do not occur in the cached runs.
- SetPlanDefault as a concurrent protocol: it has no version check. It is an input layer and a cache-purging write.
- The sorted feature listing (Features), usage attached to a resolution, and the invitation quota checks: only easy members.
- Which of two faults in one request is reported first, and message texts: a bad request is one outcome.
- Names attached to a scope, the platform scope and its size cap, and the queries that list clients.
- HTTP handlers, routing, tokens, hashing, mail, chat and payments clients, aggregation pipelines, pagination, audit writes and logging: plumbing or foreign calls.
- The circuit breaker, retries and password rules: only easy members.
