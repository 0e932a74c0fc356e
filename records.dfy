/** The records of the FitCheck API: users, clubs and classes, shaped by the
    GraphQL schema (its two enums and the nullability of each field). */
module Records {

  /** A nullable field or a lookup that may find nothing. */
  datatype Option<+T> = None | Some(value: T)

  /** `enum MembershipType` of the schema. */
  datatype MembershipType = AllAccess | SingleClub | ClassAccess

  /** `enum SubscriptionStatus` of the schema. */
  datatype SubscriptionStatus = Active | Inactive

  /** A gym member. `homeClubId` and `checkedInClubId` are nullable strings;
      `checkedInClubId` is the only field that changes after seeding. */
  datatype User = User(
    userId: string,
    name: string,
    membershipType: MembershipType,
    subscriptionStatus: SubscriptionStatus,
    homeClubId: Option<string>,
    checkedInClubId: Option<string>)

  datatype Club = Club(clubId: string, name: string)

  /** A fitness class, hosted by the club named by `clubId`. */
  datatype Class = Class(classId: string, name: string, clubId: string)

  // The identifier of each kind of record, as the lookups compare it.

  function UserKey(u: User): string { u.userId }

  function ClubKey(c: Club): string { c.clubId }

  function ClassKey(c: Class): string { c.classId }
}
