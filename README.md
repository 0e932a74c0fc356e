# FitCheck check-in engine in Dafny

FitCheck is a small GraphQL API through which gym members check into clubs
and into fitness classes. This project models its authorization engine, the
two `Mutation` resolvers `checkInClub` and `checkInClass`, together with the
in-memory store they read and write. It then proves the membership rules
those resolvers implement.

- `records.dfy` (module `Records`): the schema's two enums, `MembershipType`
  and `SubscriptionStatus`, and the `User`, `Club` and `Class` records.
  Nullable fields are `Option<string>`.
- `database.dfy` (module `Database`): the store.
  - `IndexOf` and `Find` are first-match lookups by identifier.
  - `WithCheckIn` is the one write, stated as a function of the user
    collection.
  - The seed records and the invariant they satisfy are defined here too.
  - The class `Store` holds the three collections as `seq` fields. It offers
    `FindUserById`, `FindClubById` and `FindClassById` as functions and
    `GetAll*` as accessors. `UpdateUserCheckIn` is a method that searches with
    a loop and rewrites one record in place.
- `resolvers.dfy` (module `Resolvers`): the policy engine.
  - `ClubOutcome` and `ClassOutcome` are the two decisions over a snapshot of
    the store.
  - `CheckInClub` is a method that `modifies` the store. It is proved to
    write exactly on its success paths.
  - `CheckInClass` is a method with no `modifies` clause.
  - Every outcome carries the `{success, message}` pair of the API, plus a
    `Tag` that holds the failure reason or the access path the source reports
    to its tracer (`ReasonName` and `PathName` give the tag strings).
  - Lemmas state the gate order, the access rules and how the two
    operations interact.
- `scenarios.dfy` (module `Scenarios`): the example check-ins of
  `express/test-examples.js` worked out against the seed data. One method
  runs Steve's club-then-class sequence end to end through a `Store`.

The `await delay(150)` on the single-club path is a suspension point. The
model runs it as a no-op. What it means for correctness is stated by
`ClubVerdictStableUnderCheckIns`: any check-ins written by other requests
while the resolver is suspended cannot change its verdict. The fields the
verdict compares are membership, subscription and home club, and no
operation ever writes them.

Two points of the code are easy to misread, and the model follows the code
in both:
- A user's `checkedInClubId`, when present, need not name an existing club.
  Club check-in never looks the club up: an active all-access member can
  check into any identifier at all, and `updateUserCheckIn` stores it
  unvalidated. `UnknownClubRecorded` exhibits this on the seed data. The
  store invariant proved here (`StoreInvariant`) therefore has no clause
  tying `checkedInClubId` to the stored clubs.
- Class check-in looks up both the user and the class before testing either
  (`express/src/resolvers.js:146-147`). An unknown user is still reported
  first, even when the class is unknown too, and the outcomes are those of
  testing one after the other because lookups have no effect.

## Model

| member | source | states |
|---|---|---|
| `Database.IndexOf` | express/src/database.js:99 | the index of the first record whose identifier matches, or -1 exactly when no record matches |
| `Database.Find` | express/src/database.js:86-96 | absence exactly when no record has the identifier; otherwise a stored record with that identifier and no earlier match |
| `Database.WithCheckIn` | express/src/database.js:98-105 | the length is kept and only `checkedInClubId` may change; the first user with the identifier gets the club, every other position (later duplicates included) is untouched |
| `Database.FindAfterCheckIn` | express/src/database.js:98-102 | after the write, looking the user up gives the old record with `checkedInClubId` set to the written club |
| `Database.FindOtherAfterCheckIn` | express/src/database.js:99-101 | the write leaves the lookup of every other identifier unchanged |
| `Database.CheckInUnknownUser` | express/src/database.js:100-104 | a write for an unknown user leaves the collection unchanged |
| `Database.SeedIsValid` | express/src/database.js:8-77 | the seed has unique user, club and class ids, every class hosted by a seeded club, a home club for the single-club user, and nobody checked in |
| `Database.CheckInsKeepInvariant` | express/src/database.js:98-105 | any series of check-in writes preserves the store invariant |
| `Database.Store.constructor` | express/src/database.js:2-4 | the collections start empty |
| `Database.Store.InitializeDatabase` | express/src/database.js:6-83 | replaces the collections by the seed records, which satisfy the store invariant |
| `Database.Store.FindUserById` | express/src/database.js:86-88 | a stored user with that id and no earlier user with it, or absence exactly when no user has it |
| `Database.Store.FindClubById` | express/src/database.js:90-92 | a stored club with that id and no earlier club with it, or absence exactly when no club has it |
| `Database.Store.FindClassById` | express/src/database.js:94-96 | a stored class with that id and no earlier class with it, or absence exactly when no class has it |
| `Database.Store.UpdateUserCheckIn` | express/src/database.js:98-105 | a known user gets `checkedInClubId` set and the updated record is returned, and a later lookup finds it; an unknown user gives absence and no change; clubs and classes are untouched; the invariant is kept; the club is not validated |
| `Database.Store.GetAllUsers` | express/src/database.js:107 | the stored users themselves, in insertion order |
| `Database.Store.GetAllClubs` | express/src/database.js:108 | the stored clubs themselves, in insertion order |
| `Database.Store.GetAllClasses` | express/src/database.js:109 | the stored classes themselves, in insertion order |
| `Resolvers.Message` | express/src/resolvers.js:48-229 | "Successfully checked into club" is the message of a club success and of nothing else; "Successfully checked into class" that of a class success by either path and of nothing else |
| `Resolvers.TagStringsDistinct` | express/src/resolvers.js:44-221 | the six failure messages are pairwise different, as are the six `check_in.failure_reason` values (`ReasonName`) and the two `check_in.access_path` values (`PathName`, lines 203 and 208), so each string identifies its outcome |
| `Resolvers.ClubOutcome` | express/src/resolvers.js:39-121 | every outcome is well formed (success exactly for a success tag, with that tag's message) and is a club success or a failure |
| `Resolvers.CheckInClub` | express/src/resolvers.js:26-131 | the outcome is the club decision on the store as it was; the users are rewritten by the check-in exactly when it succeeds; clubs and classes are untouched; the store invariant is kept |
| `Resolvers.AccessPathFor` | express/src/resolvers.js:197-210 | club access exactly when checked into the hosting club; membership access exactly when not, and the tier is class-access or all-access |
| `Resolvers.ClassOutcome` | express/src/resolvers.js:146-230 | every outcome is well formed and is a class success or a failure |
| `Resolvers.CheckInClass` | express/src/resolvers.js:133-240 | the outcome is the class decision on the current store; no `modifies` clause, so nothing is written on any path |
| `Resolvers.ClubUnknownUser` | express/src/resolvers.js:39-50 | an unknown user gives `{false, "User not found"}` |
| `Resolvers.ClubInactive` | express/src/resolvers.js:60-69 | an inactive user gives `{false, "Subscription is not active"}` whatever the membership type |
| `Resolvers.ClubAllAccess` | express/src/resolvers.js:73-81 | an active all-access user succeeds for any club identifier |
| `Resolvers.ClubSingleClub` | express/src/resolvers.js:82-112 | an active single-club user succeeds iff the club is the home club, and otherwise gets the home-club message |
| `Resolvers.ClubClassAccess` | express/src/resolvers.js:113-121 | an active class-access user gets the invalid-membership failure |
| `Resolvers.ClubSuccessIff` | express/src/resolvers.js:39-121 | club check-in succeeds iff the user is found and may enter the club under the membership rules (`MayEnterClub`) |
| `Resolvers.ClubIgnoresCheckInState` | express/src/resolvers.js:39-121 | the club decision does not depend on anyone's `checkedInClubId` |
| `Resolvers.ClubVerdictStableUnderCheckIns` | express/src/resolvers.js:88-92 | check-ins written during the location-check delay cannot change the verdict |
| `Resolvers.ClubCheckInRecorded` | express/src/resolvers.js:73-112 | after a successful club check-in the user is found checked into that club and every other user is found as before |
| `Resolvers.ClassGateOrder` | express/src/resolvers.js:146-188 | unknown user first (even with an unknown class), then unknown class, then inactive subscription, each with its message |
| `Resolvers.ClassAccessRule` | express/src/resolvers.js:197-230 | for found records and an active user: success iff `MayTakeClass`; club access is recorded whenever the user is checked into the hosting club; otherwise an active class-access or all-access user gets membership access; any failure is the no-access failure |
| `Resolvers.ClassSuccessIff` | express/src/resolvers.js:146-230 | class check-in succeeds iff user and class are found and the user may take the class under the membership rules |
| `Resolvers.ClubCheckInEnablesClass` | express/src/resolvers.js:200-203 | after a successful club check-in, class check-in to any class of that club succeeds by club access |
| `Scenarios.AliceClubCheckIn` | express/test-examples.js:62-72 | Alice checks into Hudson Yards successfully |
| `Scenarios.SteveHomeClubCheckIn` | express/test-examples.js:75-85 | Steve checks into his home club successfully |
| `Scenarios.SteveWrongClubCheckIn` | express/test-examples.js:88-98 | Steve is refused at the LA club with the home-club message |
| `Scenarios.InactiveUserCheckIn` | express/test-examples.js:101-111 | Irene is refused with the inactive-subscription message |
| `Scenarios.ConnieClubCheckIn` | express/src/resolvers.js:113-121 | Connie, class-access, is refused club check-in |
| `Scenarios.AliceClassCheckIn` | express/test-examples.js:118-128 | Alice gets into the yoga class by membership access |
| `Scenarios.ConnieClassCheckIn` | express/test-examples.js:131-141 | Connie gets into the yoga class by membership access |
| `Scenarios.SteveClassCheckInWithoutClub` | express/test-examples.js:144-154 | Steve, not checked into any club, gets `{false, "You do not have access to this class"}` |
| `Scenarios.SeedSteveClubThenClass` | express/test-examples.js:157-167 | after Steve's home-club check-in the yoga class admits him by club access |
| `Scenarios.UnknownClubRecorded` | express/src/database.js:98-105 | a club identifier that names no seeded club is accepted for Alice and recorded as her check-in |
| `Scenarios.SteveClubThenClass` | express/test-examples.js:157-167 | run through the store from seeding, the club check-in and then the class check-in both succeed, the second by club access |

## Left out

- The `catch` branches that return "Internal server error"
  (`express/src/resolvers.js:122-130`, `231-239`). In the model no lookup can
  throw, so these branches cannot be reached. In the source they write nothing
  to the store. One such path is not covered: should a span or tag call
  after `updateUserCheckIn` throw (`express/src/resolvers.js:76-77`,
  `107-108`), the source would answer "Internal server error" with the
  check-in already written. `CheckInClub` is proved to write exactly on
  success on the assumption that the tracer calls do not throw.
- Tracing: the span and tag calls and `Sentry.captureException` are foreign
  observability calls. Only the reason and access-path tag values are kept,
  as the `Tag` of each outcome. On a no-access failure the source also
  reports an empty `check_in.access_path`; the model's tag records the
  failure reason only.
- `await delay(150)` runs as a no-op. Real concurrent interleaving is not
  modelled. Its one observable consequence, other check-ins written during
  the suspension, is covered by `ClubVerdictStableUnderCheckIns`.
- Object identity: the JavaScript store hands out references to its user
  objects, so the resolver's `user` aliases the stored record. The model uses
  value records. This is safe because the only write is to
  `checkedInClubId`, and the club decision never reads that field
  (`ClubIgnoresCheckInState`).
- The `Query` resolvers (`express/src/resolvers.js:16-23`) are one-line
  delegations. Their behaviour is exactly that of the `Store` functions they
  call (`GetAll*`, `Find*ById`), so they are not repeated as members.
- Membership types outside the schema enum: the source's final `else`
  branch also catches any other string. In the model the enum is closed, so
  that branch is reached by `ClassAccess` alone.
- The `console.log` calls of `initializeDatabase`, the Express, Apollo,
  helmet, cors and Sentry set-up in `express/src/index.js`, and the GraphQL
  SDL of `express/src/schema.js` (used only to shape the records). These are
  I/O and framework plumbing.
