/** The in-memory store of the FitCheck API: three record collections seeded
    once, lookups by identifier, and the one write, which records the club a
    user is checked into. */
module Database {
  import opened Records

  // ---------------------------------------------------------------------
  // Lookups over a collection
  // ---------------------------------------------------------------------

  /** The index of the first record whose identifier is `id`, or -1 when no
      record has it (the contract of `findIndex`). */
  function IndexOf<T>(s: seq<T>, key: T -> string, id: string): (r: int)
    ensures -1 <= r < |s|
    ensures r == -1 <==> forall i | 0 <= i < |s| :: key(s[i]) != id
    ensures 0 <= r ==> key(s[r]) == id && forall i | 0 <= i < r :: key(s[i]) != id
    decreases |s|
  {
    if |s| == 0 then -1
    else if key(s[0]) == id then 0
    else
      var k := IndexOf(s[1..], key, id);
      if k < 0 then -1 else k + 1
  }

  /** The first record whose identifier is `id`, or nothing (the contract of
      `find`): absence exactly when no record carries the identifier. */
  function Find<T>(s: seq<T>, key: T -> string, id: string): (r: Option<T>)
    ensures r.None? <==> forall i | 0 <= i < |s| :: key(s[i]) != id
    ensures r.Some? ==>
      exists i | 0 <= i < |s| :: s[i] == r.value && key(s[i]) == id &&
        forall j | 0 <= j < i :: key(s[j]) != id
  {
    var k := IndexOf(s, key, id);
    if k < 0 then None else Some(s[k])
  }

  /** The first match depends on the identifiers alone, so two collections
      with the same identifiers in the same order have the same first match. */
  lemma IndexOfSameKeys<T>(s: seq<T>, t: seq<T>, key: T -> string, id: string)
    requires |s| == |t|
    requires forall i | 0 <= i < |s| :: key(s[i]) == key(t[i])
    ensures IndexOf(s, key, id) == IndexOf(t, key, id)
    decreases |s|
  {
  }

  // ---------------------------------------------------------------------
  // The check-in write, as a function of the user collection
  // ---------------------------------------------------------------------

  /** `b` is `a` with at most the `checkedInClubId` of some users changed. */
  predicate SameButCheckIns(a: seq<User>, b: seq<User>)
  {
    |a| == |b| &&
    forall i | 0 <= i < |a| :: b[i] == a[i].(checkedInClubId := b[i].checkedInClubId)
  }

  /** The user collection after `updateUserCheckIn(userId, clubId)`: the first
      user with that identifier now has `clubId` as `checkedInClubId`; when
      there is none, nothing changes. */
  function WithCheckIn(users: seq<User>, userId: string, clubId: string): (r: seq<User>)
    ensures SameButCheckIns(users, r)
    ensures forall i | 0 <= i < |r| && i != IndexOf(users, UserKey, userId) :: r[i] == users[i]
    ensures 0 <= IndexOf(users, UserKey, userId) ==> r[IndexOf(users, UserKey, userId)].checkedInClubId == Some(clubId)
  {
    var k := IndexOf(users, UserKey, userId);
    if k < 0 then users else users[k := users[k].(checkedInClubId := Some(clubId))]
  }

  /** The user collection after a series of check-in writes, one after another. */
  function WithCheckIns(users: seq<User>, writes: seq<(string, string)>): (r: seq<User>)
    ensures SameButCheckIns(users, r)
    decreases |writes|
  {
    if writes == [] then users
    else WithCheckIns(WithCheckIn(users, writes[0].0, writes[0].1), writes[1..])
  }

  /** Round trip: after the write, looking the user up finds the same record
      with `checkedInClubId` set to `clubId`. */
  lemma FindAfterCheckIn(users: seq<User>, userId: string, clubId: string)
    requires Find(users, UserKey, userId).Some?
    ensures Find(WithCheckIn(users, userId, clubId), UserKey, userId)
         == Some(Find(users, UserKey, userId).value.(checkedInClubId := Some(clubId)))
  {
    IndexOfSameKeys(users, WithCheckIn(users, userId, clubId), UserKey, userId);
  }

  /** The write is invisible to lookups of every other user. */
  lemma FindOtherAfterCheckIn(users: seq<User>, userId: string, clubId: string, otherId: string)
    requires otherId != userId
    ensures Find(WithCheckIn(users, userId, clubId), UserKey, otherId) == Find(users, UserKey, otherId)
  {
    IndexOfSameKeys(users, WithCheckIn(users, userId, clubId), UserKey, otherId);
  }

  /** Writing for an unknown user changes nothing. */
  lemma CheckInUnknownUser(users: seq<User>, userId: string, clubId: string)
    requires Find(users, UserKey, userId).None?
    ensures WithCheckIn(users, userId, clubId) == users
  {
  }

  /** Lookups ignore `checkedInClubId`: in a collection that differs only in
      check-in state the same user is found, with only that field different. */
  lemma FindSameButCheckIns(a: seq<User>, b: seq<User>, userId: string)
    requires SameButCheckIns(a, b)
    ensures Find(a, UserKey, userId).None? <==> Find(b, UserKey, userId).None?
    ensures Find(b, UserKey, userId).Some? ==>
      Find(b, UserKey, userId).value
        == Find(a, UserKey, userId).value.(checkedInClubId := Find(b, UserKey, userId).value.checkedInClubId)
  {
  }

  // ---------------------------------------------------------------------
  // Seed data and the invariants it satisfies
  // ---------------------------------------------------------------------

  const ALICE := "a1b2c3d4-e5f6-7890-1234-567890abcdef"
  const STEVE := "b2c3d4e5-f6a7-8901-2345-67890abcdef1"
  const CONNIE := "d4e5f6a7-b8c9-0123-4567-890abcdef123"
  const IRENE := "c3d4e5f6-a7b8-9012-3456-7890abcdef12"

  const HUDSON_YARDS := "club-nyc-hudson-yards"
  const LA_SPORTS_CLUB := "club-la-sports-club"

  const NYC_YOGA := "class-nyc-yoga-101"
  const NYC_SPIN := "class-nyc-spin-201"
  const LA_PILATES := "class-la-pilates-101"
  const LA_HIIT := "class-la-hiit-301"

  function SeedUsers(): seq<User>
  {
    [ User(ALICE, "Alice Access", AllAccess, Active, None, None),
      User(STEVE, "Steve Single", SingleClub, Active, Some(HUDSON_YARDS), None),
      User(CONNIE, "Connie Class", ClassAccess, Active, None, None),
      User(IRENE, "Inactive Irene", AllAccess, Inactive, None, None) ]
  }

  function SeedClubs(): seq<Club>
  {
    [ Club(HUDSON_YARDS, "The Sports Club Hudson Yards"),
      Club(LA_SPORTS_CLUB, "The Sports Club LA") ]
  }

  function SeedClasses(): seq<Class>
  {
    [ Class(NYC_YOGA, "Vinyasa Yoga", HUDSON_YARDS),
      Class(NYC_SPIN, "Power Spin", HUDSON_YARDS),
      Class(LA_PILATES, "Mat Pilates", LA_SPORTS_CLUB),
      Class(LA_HIIT, "Advanced HIIT", LA_SPORTS_CLUB) ]
  }

  /** No two records of a collection share an identifier. */
  predicate UniqueKeys<T>(s: seq<T>, key: T -> string)
  {
    forall i, j | 0 <= i < j < |s| :: key(s[i]) != key(s[j])
  }

  /** What the seed data guarantees and no operation of the store undoes:
      unique identifiers, every class hosted by a stored club, and a home club
      for every single-club member. */
  predicate StoreInvariant(users: seq<User>, clubs: seq<Club>, classes: seq<Class>)
  {
    && UniqueKeys(users, UserKey)
    && UniqueKeys(clubs, ClubKey)
    && UniqueKeys(classes, ClassKey)
    && (forall k | 0 <= k < |classes| :: Find(clubs, ClubKey, classes[k].clubId).Some?)
    && (forall i | 0 <= i < |users| :: users[i].membershipType == SingleClub ==> users[i].homeClubId.Some?)
  }

  /** The seed satisfies the store invariant, and nobody starts checked in. */
  lemma SeedIsValid()
    ensures StoreInvariant(SeedUsers(), SeedClubs(), SeedClasses())
    ensures forall i | 0 <= i < |SeedUsers()| :: SeedUsers()[i].checkedInClubId.None?
  {
  }

  /** Check-in writes never break the store invariant. */
  lemma CheckInsKeepInvariant(users: seq<User>, clubs: seq<Club>, classes: seq<Class>, writes: seq<(string, string)>)
    requires StoreInvariant(users, clubs, classes)
    ensures StoreInvariant(WithCheckIns(users, writes), clubs, classes)
  {
  }

  // ---------------------------------------------------------------------
  // The store
  // ---------------------------------------------------------------------

  /** The module-level `users`, `clubs` and `classes` collections. */
  class Store {
    var users: seq<User>
    var clubs: seq<Club>
    var classes: seq<Class>

    ghost predicate Valid()
      reads this
    {
      StoreInvariant(users, clubs, classes)
    }

    /** The collections before seeding: all empty. */
    constructor ()
      ensures users == [] && clubs == [] && classes == []
      ensures Valid()
    {
      users, clubs, classes := [], [], [];
    }

    /** `initializeDatabase`: replaces the three collections by the seed. */
    method InitializeDatabase()
      modifies this
      ensures users == SeedUsers() && clubs == SeedClubs() && classes == SeedClasses()
      ensures Valid()
    {
      users := SeedUsers();
      clubs := SeedClubs();
      classes := SeedClasses();
      SeedIsValid();
    }

    /** `findUserById`: the first user with this identifier, or nothing. */
    function FindUserById(userId: string): (r: Option<User>)
      reads this
      ensures r.Some? ==> r.value in users && r.value.userId == userId
      ensures r.None? <==> forall i | 0 <= i < |users| :: users[i].userId != userId
      ensures r.Some? ==>
        exists i | 0 <= i < |users| :: users[i] == r.value && forall j | 0 <= j < i :: users[j].userId != userId
    {
      Find(users, UserKey, userId)
    }

    /** `findClubById`: the first club with this identifier, or nothing. */
    function FindClubById(clubId: string): (r: Option<Club>)
      reads this
      ensures r.Some? ==> r.value in clubs && r.value.clubId == clubId
      ensures r.None? <==> forall i | 0 <= i < |clubs| :: clubs[i].clubId != clubId
      ensures r.Some? ==>
        exists i | 0 <= i < |clubs| :: clubs[i] == r.value && forall j | 0 <= j < i :: clubs[j].clubId != clubId
    {
      Find(clubs, ClubKey, clubId)
    }

    /** `findClassById`: the first class with this identifier, or nothing. */
    function FindClassById(classId: string): (r: Option<Class>)
      reads this
      ensures r.Some? ==> r.value in classes && r.value.classId == classId
      ensures r.None? <==> forall i | 0 <= i < |classes| :: classes[i].classId != classId
      ensures r.Some? ==>
        exists i | 0 <= i < |classes| :: classes[i] == r.value && forall j | 0 <= j < i :: classes[j].classId != classId
    {
      Find(classes, ClassKey, classId)
    }

    /** `updateUserCheckIn`: finds the first user with `userId` and overwrites
        its `checkedInClubId` with `clubId`, returning the updated record;
        returns nothing, and writes nothing, for an unknown user. Whether
        `clubId` names a stored club is not checked. */
    method UpdateUserCheckIn(userId: string, clubId: string) returns (r: Option<User>)
      modifies this
      ensures users == WithCheckIn(old(users), userId, clubId)
      ensures clubs == old(clubs) && classes == old(classes)
      ensures r.None? <==> old(FindUserById(userId)).None?
      ensures r.None? ==> users == old(users)
      ensures r.Some? ==>
        r == FindUserById(userId) &&
        r.value == old(FindUserById(userId)).value.(checkedInClubId := Some(clubId))
      ensures old(Valid()) ==> Valid()
    {
      var i := 0;
      while i < |users| && users[i].userId != userId
        invariant 0 <= i <= |users|
        invariant forall j | 0 <= j < i :: users[j].userId != userId
      {
        i := i + 1;
      }
      ghost var before := users;
      if i < |users| {
        assert i == IndexOf(users, UserKey, userId);
        users := users[i := users[i].(checkedInClubId := Some(clubId))];
        r := Some(users[i]);
        FindAfterCheckIn(before, userId, clubId);
      } else {
        r := None;
      }
      if StoreInvariant(before, clubs, classes) {
        CheckInsKeepInvariant(before, clubs, classes, [(userId, clubId)]);
        assert WithCheckIns(before, [(userId, clubId)]) == WithCheckIns(users, []);
      }
    }

    /** `getAllUsers`: the stored users themselves, in insertion order. */
    function GetAllUsers(): (r: seq<User>)
      reads this
      ensures r == users
    {
      users
    }

    /** `getAllClubs`: the stored clubs themselves, in insertion order. */
    function GetAllClubs(): (r: seq<Club>)
      reads this
      ensures r == clubs
    {
      clubs
    }

    /** `getAllClasses`: the stored classes themselves, in insertion order. */
    function GetAllClasses(): (r: seq<Class>)
      reads this
      ensures r == classes
    {
      classes
    }
  }
}
