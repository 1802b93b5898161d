/**
 * The user row, its uniqueness constraints, and the effect of `User.save`
 * on the names. The subscription table's constraints are
 * `QuerySets.NoRepeats` and `Relations.NoSelfLinks` over its rows.
 */
module UserModels {
  import opened Base
  import Text
  import UserValidators

  /** A user row. `email` is the login field. */
  datatype UserRow = UserRow(email: string, username: string, firstName: string, lastName: string)

  /** `User.email` is unique. */
  predicate UniqueEmails(users: map<int, UserRow>) {
    forall a, b :: a in users && b in users && users[a].email == users[b].email ==> a == b
  }

  /** `User.username` is unique. */
  predicate UniqueUsernames(users: map<int, UserRow>) {
    forall a, b :: a in users && b in users && users[a].username == users[b].username ==> a == b
  }

  /** The reserved-name validator of `User.username`. */
  function CleanUsername(username: string): (r: Outcome<string>)
    ensures r.Fail? <==> Text.LowerString(username) == UserValidators.ReservedUsername
  {
    UserValidators.LowerIsMe(username);
    UserValidators.ValidateUsernameNotMe(username)
  }

  /**
   * What `save` does to the row before writing it: both names capitalised,
   * every other field as it was.
   */
  function SavedNames(row: UserRow): (r: UserRow)
    ensures r.email == row.email && r.username == row.username
    ensures |r.firstName| == |row.firstName| && |r.lastName| == |row.lastName|
    ensures |r.firstName| > 0 ==> !Text.IsLower(r.firstName[0])
    ensures |r.lastName| > 0 ==> !Text.IsLower(r.lastName[0])
    ensures forall i :: 1 <= i < |r.firstName| ==> !Text.IsUpper(r.firstName[i])
    ensures forall i :: 1 <= i < |r.lastName| ==> !Text.IsUpper(r.lastName[i])
    ensures forall i :: 0 <= i < |r.firstName| ==> Text.Lower(r.firstName[i]) == Text.Lower(row.firstName[i])
    ensures forall i :: 0 <= i < |r.lastName| ==> Text.Lower(r.lastName[i]) == Text.Lower(row.lastName[i])
  {
    row.(firstName := Text.Capitalize(row.firstName), lastName := Text.Capitalize(row.lastName))
  }

  /** Saving twice leaves the same names as saving once. */
  lemma SavedNamesIdempotent(row: UserRow)
    ensures SavedNames(SavedNames(row)) == SavedNames(row)
  {
    Text.CapitalizeIdempotent(row.firstName);
    Text.CapitalizeIdempotent(row.lastName);
  }
}
