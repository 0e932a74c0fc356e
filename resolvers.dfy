/** The check-in policy engine: the two mutations of the API. Each runs a
    fixed chain of gates over the store and ends in a `{success, message}`
    pair, with the failure reason or the access path kept as a tag. */
module Resolvers {
  import opened Records
  import opened Database

  // ---------------------------------------------------------------------
  // Outcomes
  // ---------------------------------------------------------------------

  /** The values of the `check_in.failure_reason` tag. */
  datatype FailureReason =
    | UserNotFound | ClassNotFound | InactiveSubscription
    | WrongClub | InvalidMembership | NoAccess

  /** The values of the `check_in.access_path` tag. */
  datatype AccessPath = ClubAccess | MembershipAccess

  /** Why a check-in failed, or that it succeeded (for a class: by which path). */
  datatype Tag = Failed(reason: FailureReason) | ClubCheckedIn | ClassCheckedIn(path: AccessPath)

  /** The `CheckInResponse` of the schema, with the tag beside it. */
  datatype Outcome = Outcome(success: bool, message: string, tag: Tag)

  /** The message returned with each tag: the two success messages belong
      to success tags and to nothing else. */
  function Message(t: Tag): (m: string)
    ensures t == ClubCheckedIn <==> m == "Successfully checked into club"
    ensures t.ClassCheckedIn? <==> m == "Successfully checked into class"
  {
    match t
    case Failed(UserNotFound) => "User not found"
    case Failed(ClassNotFound) => "Class not found"
    case Failed(InactiveSubscription) => "Subscription is not active"
    case Failed(WrongClub) => "You can only check into your home club"
    case Failed(InvalidMembership) => "Invalid membership type for club check-in"
    case Failed(NoAccess) => "You do not have access to this class"
    case ClubCheckedIn => "Successfully checked into club"
    case ClassCheckedIn(_) => "Successfully checked into class"
  }

  /** The tag string the source reports for each failure reason. */
  function ReasonName(r: FailureReason): string
  {
    match r
    case UserNotFound => "user_not_found"
    case ClassNotFound => "class_not_found"
    case InactiveSubscription => "inactive_subscription"
    case WrongClub => "wrong_club"
    case InvalidMembership => "invalid_membership"
    case NoAccess => "no_access"
  }

  /** The tag string the source reports for each access path. */
  function PathName(p: AccessPath): string
  {
    match p
    case ClubAccess => "club_access"
    case MembershipAccess => "membership_access"
  }

  /** The messages and the tag strings tell the outcomes apart: no two
      failure reasons share a message or a `check_in.failure_reason` value,
      and the two access paths have different `check_in.access_path` values. */
  lemma TagStringsDistinct()
    ensures forall a: FailureReason, b: FailureReason :: Message(Failed(a)) == Message(Failed(b)) ==> a == b
    ensures forall a: FailureReason, b: FailureReason :: ReasonName(a) == ReasonName(b) ==> a == b
    ensures forall p: AccessPath, q: AccessPath :: PathName(p) == PathName(q) ==> p == q
  {
  }

  /** An outcome is well formed when it succeeds exactly for a success tag
      and carries that tag's message. */
  predicate WellFormed(r: Outcome)
  {
    r.success == !r.tag.Failed? && r.message == Message(r.tag)
  }

  function Respond(t: Tag): (r: Outcome)
    ensures WellFormed(r) && r.tag == t
  {
    Outcome(!t.Failed?, Message(t), t)
  }

  // ---------------------------------------------------------------------
  // Club check-in
  // ---------------------------------------------------------------------

  /** The decision of `checkInClub` over a snapshot of the users: user
      lookup, then the subscription gate, then a branch on membership type. */
  function ClubOutcome(users: seq<User>, userId: string, clubId: string): (r: Outcome)
    ensures WellFormed(r)
    ensures r.tag == ClubCheckedIn || r.tag.Failed?
  {
    match Find(users, UserKey, userId)
    case None => Respond(Failed(UserNotFound))
    case Some(user) =>
      if user.subscriptionStatus != Active then Respond(Failed(InactiveSubscription))
      else match user.membershipType
        case AllAccess => Respond(ClubCheckedIn)
        case SingleClub =>
          if user.homeClubId != Some(clubId) then Respond(Failed(WrongClub))
          else Respond(ClubCheckedIn)
        case ClassAccess => Respond(Failed(InvalidMembership))
  }

  /** Club eligibility as the membership rules state it: an active member
      with all-access, or a single-club member at their home club. */
  predicate MayEnterClub(user: User, clubId: string)
  {
    user.subscriptionStatus == Active &&
    (user.membershipType == AllAccess ||
     (user.membershipType == SingleClub && user.homeClubId == Some(clubId)))
  }

  /** `checkInClub`: evaluates the gates in order and, on the two success
      paths only, records `clubId` as the user's check-in. The store is
      written exactly when the outcome is a success, and only the users. */
  method CheckInClub(store: Store, userId: string, clubId: string) returns (r: Outcome)
    modifies store
    ensures r == ClubOutcome(old(store.users), userId, clubId)
    ensures store.users == if r.success then WithCheckIn(old(store.users), userId, clubId) else old(store.users)
    ensures store.clubs == old(store.clubs) && store.classes == old(store.classes)
    ensures old(store.Valid()) ==> store.Valid()
  {
    var user := store.FindUserById(userId);
    if user.None? {
      return Respond(Failed(UserNotFound));
    }
    if user.value.subscriptionStatus != Active {
      return Respond(Failed(InactiveSubscription));
    }
    if user.value.membershipType == AllAccess {
      var _ := store.UpdateUserCheckIn(userId, clubId);
      return Respond(ClubCheckedIn);
    } else if user.value.membershipType == SingleClub {
      // The simulated location check (`await delay(150)`) has no effect; the
      // comparison below reads the record captured before it.
      if user.value.homeClubId != Some(clubId) {
        return Respond(Failed(WrongClub));
      }
      var _ := store.UpdateUserCheckIn(userId, clubId);
      return Respond(ClubCheckedIn);
    } else {
      return Respond(Failed(InvalidMembership));
    }
  }

  // ---------------------------------------------------------------------
  // Class check-in
  // ---------------------------------------------------------------------

  /** The access path of an active user to a class: being checked into the
      hosting club wins over a class-capable membership. */
  function AccessPathFor(user: User, cls: Class): (p: Option<AccessPath>)
    ensures p == Some(ClubAccess) <==> user.checkedInClubId == Some(cls.clubId)
    ensures p == Some(MembershipAccess) <==>
      user.checkedInClubId != Some(cls.clubId) &&
      (user.membershipType == ClassAccess || user.membershipType == AllAccess)
  {
    if user.checkedInClubId == Some(cls.clubId) then Some(ClubAccess)
    else if user.membershipType == ClassAccess || user.membershipType == AllAccess then Some(MembershipAccess)
    else None
  }

  /** The decision of `checkInClass` over a snapshot of users and classes:
      user lookup, class lookup, subscription gate, then the access path. */
  function ClassOutcome(users: seq<User>, classes: seq<Class>, userId: string, classId: string): (r: Outcome)
    ensures WellFormed(r)
    ensures r.tag.ClassCheckedIn? || r.tag.Failed?
  {
    match (Find(users, UserKey, userId), Find(classes, ClassKey, classId))
    case (None, _) => Respond(Failed(UserNotFound))
    case (Some(_), None) => Respond(Failed(ClassNotFound))
    case (Some(user), Some(cls)) =>
      if user.subscriptionStatus != Active then Respond(Failed(InactiveSubscription))
      else match AccessPathFor(user, cls)
        case None => Respond(Failed(NoAccess))
        case Some(path) => Respond(ClassCheckedIn(path))
  }

  /** Class eligibility as the membership rules state it: an active member
      who is checked into the hosting club or whose tier grants classes. */
  predicate MayTakeClass(user: User, cls: Class)
  {
    user.subscriptionStatus == Active &&
    (user.checkedInClubId == Some(cls.clubId) ||
     user.membershipType == ClassAccess || user.membershipType == AllAccess)
  }

  /** `checkInClass`: looks up the user and the class, checks the
      subscription, then picks the access path. It has no `modifies` clause:
      the store is left as it was on every path, success included. */
  method CheckInClass(store: Store, userId: string, classId: string) returns (r: Outcome)
    ensures r == ClassOutcome(store.users, store.classes, userId, classId)
  {
    var user := store.FindUserById(userId);
    var classData := store.FindClassById(classId);
    if user.None? {
      return Respond(Failed(UserNotFound));
    }
    if classData.None? {
      return Respond(Failed(ClassNotFound));
    }
    if user.value.subscriptionStatus != Active {
      return Respond(Failed(InactiveSubscription));
    }
    var hasAccess := false;
    var accessPath := ClubAccess;
    if user.value.checkedInClubId == Some(classData.value.clubId) {
      hasAccess, accessPath := true, ClubAccess;
    } else if user.value.membershipType == ClassAccess || user.value.membershipType == AllAccess {
      hasAccess, accessPath := true, MembershipAccess;
    }
    if !hasAccess {
      return Respond(Failed(NoAccess));
    }
    return Respond(ClassCheckedIn(accessPath));
  }

  // ---------------------------------------------------------------------
  // Properties of club check-in
  // ---------------------------------------------------------------------

  /** An unknown user is reported before anything else. */
  lemma ClubUnknownUser(users: seq<User>, userId: string, clubId: string)
    requires forall i | 0 <= i < |users| :: users[i].userId != userId
    ensures ClubOutcome(users, userId, clubId) == Outcome(false, "User not found", Failed(UserNotFound))
  {
  }

  /** An inactive subscription fails club check-in whatever the membership
      type: the subscription gate comes before the membership branch. */
  lemma ClubInactive(users: seq<User>, userId: string, clubId: string)
    requires Find(users, UserKey, userId).Some?
    requires Find(users, UserKey, userId).value.subscriptionStatus == Inactive
    ensures ClubOutcome(users, userId, clubId)
         == Outcome(false, "Subscription is not active", Failed(InactiveSubscription))
  {
  }

  /** An active all-access member gets into any club at all: the identifier
      is not checked against the stored clubs. */
  lemma ClubAllAccess(users: seq<User>, userId: string, clubId: string)
    requires Find(users, UserKey, userId).Some?
    requires Find(users, UserKey, userId).value.subscriptionStatus == Active
    requires Find(users, UserKey, userId).value.membershipType == AllAccess
    ensures ClubOutcome(users, userId, clubId)
         == Outcome(true, "Successfully checked into club", ClubCheckedIn)
  {
  }

  /** An active single-club member gets in exactly at the home club, and is
      otherwise told so. */
  lemma ClubSingleClub(users: seq<User>, userId: string, clubId: string)
    requires Find(users, UserKey, userId).Some?
    requires Find(users, UserKey, userId).value.subscriptionStatus == Active
    requires Find(users, UserKey, userId).value.membershipType == SingleClub
    ensures ClubOutcome(users, userId, clubId).success
        <==> Find(users, UserKey, userId).value.homeClubId == Some(clubId)
    ensures !ClubOutcome(users, userId, clubId).success ==>
      ClubOutcome(users, userId, clubId)
        == Outcome(false, "You can only check into your home club", Failed(WrongClub))
  {
  }

  /** An active class-access member cannot check into a club. */
  lemma ClubClassAccess(users: seq<User>, userId: string, clubId: string)
    requires Find(users, UserKey, userId).Some?
    requires Find(users, UserKey, userId).value.subscriptionStatus == Active
    requires Find(users, UserKey, userId).value.membershipType == ClassAccess
    ensures ClubOutcome(users, userId, clubId)
         == Outcome(false, "Invalid membership type for club check-in", Failed(InvalidMembership))
  {
  }

  /** Club check-in succeeds exactly for a found user who may enter the club
      by the membership rules. */
  lemma ClubSuccessIff(users: seq<User>, userId: string, clubId: string)
    ensures ClubOutcome(users, userId, clubId).success
        <==> Find(users, UserKey, userId).Some? && MayEnterClub(Find(users, UserKey, userId).value, clubId)
  {
  }

  /** The club decision does not read check-in state: two user collections
      that differ only in `checkedInClubId` give the same outcome. */
  lemma ClubIgnoresCheckInState(a: seq<User>, b: seq<User>, userId: string, clubId: string)
    requires SameButCheckIns(a, b)
    ensures ClubOutcome(b, userId, clubId) == ClubOutcome(a, userId, clubId)
  {
    FindSameButCheckIns(a, b, userId);
  }

  /** The verdict of a club check-in is the same whatever check-ins are
      written while it is suspended in the location check: the membership,
      subscription and home club it compares never change. */
  lemma ClubVerdictStableUnderCheckIns(users: seq<User>, writes: seq<(string, string)>, userId: string, clubId: string)
    ensures ClubOutcome(WithCheckIns(users, writes), userId, clubId) == ClubOutcome(users, userId, clubId)
  {
    ClubIgnoresCheckInState(users, WithCheckIns(users, writes), userId, clubId);
  }

  /** After a successful club check-in the user is found checked into that
      club, and every other user looks as before. */
  lemma ClubCheckInRecorded(users: seq<User>, userId: string, clubId: string, otherId: string)
    requires ClubOutcome(users, userId, clubId).success
    ensures Find(WithCheckIn(users, userId, clubId), UserKey, userId).Some?
    ensures Find(WithCheckIn(users, userId, clubId), UserKey, userId).value.checkedInClubId == Some(clubId)
    ensures otherId != userId ==>
      Find(WithCheckIn(users, userId, clubId), UserKey, otherId) == Find(users, UserKey, otherId)
  {
    FindAfterCheckIn(users, userId, clubId);
    if otherId != userId {
      FindOtherAfterCheckIn(users, userId, clubId, otherId);
    }
  }

  // ---------------------------------------------------------------------
  // Properties of class check-in
  // ---------------------------------------------------------------------

  /** The gates run in a fixed order: unknown user (even when the class is
      unknown too), then unknown class, then the subscription. */
  lemma ClassGateOrder(users: seq<User>, classes: seq<Class>, userId: string, classId: string)
    ensures Find(users, UserKey, userId).None? ==>
      ClassOutcome(users, classes, userId, classId) == Outcome(false, "User not found", Failed(UserNotFound))
    ensures Find(users, UserKey, userId).Some? && Find(classes, ClassKey, classId).None? ==>
      ClassOutcome(users, classes, userId, classId) == Outcome(false, "Class not found", Failed(ClassNotFound))
    ensures Find(users, UserKey, userId).Some? && Find(classes, ClassKey, classId).Some? &&
            Find(users, UserKey, userId).value.subscriptionStatus != Active ==>
      ClassOutcome(users, classes, userId, classId)
        == Outcome(false, "Subscription is not active", Failed(InactiveSubscription))
  {
  }

  /** With both records found and an active subscription, class check-in
      succeeds exactly when the user may take the class; being checked into
      the hosting club is the path recorded whenever it holds; otherwise the
      failure is "no access". */
  lemma ClassAccessRule(users: seq<User>, classes: seq<Class>, userId: string, classId: string)
    requires Find(users, UserKey, userId).Some? && Find(classes, ClassKey, classId).Some?
    requires Find(users, UserKey, userId).value.subscriptionStatus == Active
    ensures ClassOutcome(users, classes, userId, classId).success
        <==> MayTakeClass(Find(users, UserKey, userId).value, Find(classes, ClassKey, classId).value)
    ensures Find(users, UserKey, userId).value.checkedInClubId == Some(Find(classes, ClassKey, classId).value.clubId) ==>
      ClassOutcome(users, classes, userId, classId)
        == Outcome(true, "Successfully checked into class", ClassCheckedIn(ClubAccess))
    ensures Find(users, UserKey, userId).value.checkedInClubId != Some(Find(classes, ClassKey, classId).value.clubId) &&
            (Find(users, UserKey, userId).value.membershipType == ClassAccess ||
             Find(users, UserKey, userId).value.membershipType == AllAccess) ==>
      ClassOutcome(users, classes, userId, classId)
        == Outcome(true, "Successfully checked into class", ClassCheckedIn(MembershipAccess))
    ensures !ClassOutcome(users, classes, userId, classId).success ==>
      ClassOutcome(users, classes, userId, classId)
        == Outcome(false, "You do not have access to this class", Failed(NoAccess))
  {
  }

  /** Class check-in succeeds exactly for a found user and a found class
      where the user may take the class by the membership rules. */
  lemma ClassSuccessIff(users: seq<User>, classes: seq<Class>, userId: string, classId: string)
    ensures ClassOutcome(users, classes, userId, classId).success
        <==> Find(users, UserKey, userId).Some? && Find(classes, ClassKey, classId).Some? &&
             MayTakeClass(Find(users, UserKey, userId).value, Find(classes, ClassKey, classId).value)
  {
  }

  /** A successful club check-in lets the user into every class hosted by
      that club, by the club-access path, whatever the membership type. */
  lemma ClubCheckInEnablesClass(users: seq<User>, classes: seq<Class>, userId: string, clubId: string, classId: string)
    requires ClubOutcome(users, userId, clubId).success
    requires Find(classes, ClassKey, classId).Some?
    requires Find(classes, ClassKey, classId).value.clubId == clubId
    ensures ClassOutcome(WithCheckIn(users, userId, clubId), classes, userId, classId)
         == Outcome(true, "Successfully checked into class", ClassCheckedIn(ClubAccess))
  {
  }
}
