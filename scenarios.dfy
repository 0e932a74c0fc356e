/** The example check-ins of the API run against the seed data, first on the
    decision functions and then end to end through the store. */
module Scenarios {
  import opened Records
  import opened Database
  import opened Resolvers

  /** The seeded users found by their identifiers. */
  lemma SeedLookups()
    ensures Find(SeedUsers(), UserKey, ALICE) == Some(SeedUsers()[0])
    ensures Find(SeedUsers(), UserKey, STEVE) == Some(SeedUsers()[1])
    ensures Find(SeedUsers(), UserKey, CONNIE) == Some(SeedUsers()[2])
    ensures Find(SeedUsers(), UserKey, IRENE) == Some(SeedUsers()[3])
    ensures Find(SeedClasses(), ClassKey, NYC_YOGA) == Some(SeedClasses()[0])
  {
    assert ALICE[0] == 'a' && STEVE[0] == 'b' && IRENE[0] == 'c' && CONNIE[0] == 'd';
  }

  /** Alice (all-access, active) checks into Hudson Yards. */
  lemma AliceClubCheckIn()
    ensures ClubOutcome(SeedUsers(), ALICE, HUDSON_YARDS) == Outcome(true, "Successfully checked into club", ClubCheckedIn)
  {
  }

  /** Steve (single-club, home Hudson Yards) checks into his home club. */
  lemma SteveHomeClubCheckIn()
    ensures ClubOutcome(SeedUsers(), STEVE, HUDSON_YARDS) == Outcome(true, "Successfully checked into club", ClubCheckedIn)
  {
  }

  /** Steve is turned away from the LA club. */
  lemma SteveWrongClubCheckIn()
    ensures ClubOutcome(SeedUsers(), STEVE, LA_SPORTS_CLUB)
         == Outcome(false, "You can only check into your home club", Failed(WrongClub))
  {
  }

  /** Irene (all-access, inactive) is turned away. */
  lemma InactiveUserCheckIn()
    ensures ClubOutcome(SeedUsers(), IRENE, HUDSON_YARDS)
         == Outcome(false, "Subscription is not active", Failed(InactiveSubscription))
  {
  }

  /** Connie (class-access, active) cannot check into a club. */
  lemma ConnieClubCheckIn()
    ensures ClubOutcome(SeedUsers(), CONNIE, HUDSON_YARDS)
         == Outcome(false, "Invalid membership type for club check-in", Failed(InvalidMembership))
  {
  }

  /** Alice (all-access) gets into the Hudson Yards yoga class through her
      membership. */
  lemma AliceClassCheckIn()
    ensures ClassOutcome(SeedUsers(), SeedClasses(), ALICE, NYC_YOGA)
         == Outcome(true, "Successfully checked into class", ClassCheckedIn(MembershipAccess))
  {
    SeedLookups();
    ClassAccessRule(SeedUsers(), SeedClasses(), ALICE, NYC_YOGA);
  }

  /** Connie (class-access) gets into the same class through her membership. */
  lemma ConnieClassCheckIn()
    ensures ClassOutcome(SeedUsers(), SeedClasses(), CONNIE, NYC_YOGA)
         == Outcome(true, "Successfully checked into class", ClassCheckedIn(MembershipAccess))
  {
    SeedLookups();
    ClassAccessRule(SeedUsers(), SeedClasses(), CONNIE, NYC_YOGA);
  }

  /** Steve (single-club), not checked into any club, has no access to it. */
  lemma SteveClassCheckInWithoutClub()
    ensures ClassOutcome(SeedUsers(), SeedClasses(), STEVE, NYC_YOGA)
         == Outcome(false, "You do not have access to this class", Failed(NoAccess))
  {
    SeedLookups();
    ClassAccessRule(SeedUsers(), SeedClasses(), STEVE, NYC_YOGA);
  }

  /** Steve checks into his home club; the yoga class it hosts then lets him
      in through the club-access path. */
  lemma SeedSteveClubThenClass()
    ensures ClubOutcome(SeedUsers(), STEVE, HUDSON_YARDS).success
    ensures ClassOutcome(WithCheckIn(SeedUsers(), STEVE, HUDSON_YARDS), SeedClasses(), STEVE, NYC_YOGA)
         == Outcome(true, "Successfully checked into class", ClassCheckedIn(ClubAccess))
  {
  }

  /** Club check-in does not check that the club exists: Alice checks into an
      identifier that names no stored club, and it is recorded. */
  lemma UnknownClubRecorded()
    ensures Find(SeedClubs(), ClubKey, "club-unknown").None?
    ensures ClubOutcome(SeedUsers(), ALICE, "club-unknown").success
    ensures Find(WithCheckIn(SeedUsers(), ALICE, "club-unknown"), UserKey, ALICE).value.checkedInClubId
         == Some("club-unknown")
  {
  }

  /** The same sequence end to end through the store: seed it, check Steve
      into his home club, then into the yoga class; the class check-in leaves
      the store as the club check-in left it. */
  method SteveClubThenClass() returns (club: Outcome, cls: Outcome)
    ensures club == Outcome(true, "Successfully checked into club", ClubCheckedIn)
    ensures cls == Outcome(true, "Successfully checked into class", ClassCheckedIn(ClubAccess))
  {
    var store := new Store();
    store.InitializeDatabase();
    SeedSteveClubThenClass();
    SteveHomeClubCheckIn();
    club := CheckInClub(store, STEVE, HUDSON_YARDS);
    var users := store.users;
    cls := CheckInClass(store, STEVE, NYC_YOGA);
    assert store.users == users;
  }
}
