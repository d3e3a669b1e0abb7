/** The `users` table and the profile read from it.
    A row's text columns may hold SQL NULL (None) or a string; `is_paid` is a boolean. */
module Profiles {

  datatype Option<T> = None | Some(value: T)

  /** The placeholder the service writes for any attribute it does not know ("unknown"). */
  const Unknown: string := "不明"

  /** One row of the `users` table, keyed by the messaging platform's user id. */
  datatype Row = Row(mbti: Option<string>, gender: Option<string>, targetMbti: Option<string>, isPaid: bool)

  type Users = map<string, Row>

  /** The dictionary `get_user_profile` returns: every text attribute is filled in. */
  datatype Profile = Profile(mbti: string, gender: string, targetMbti: string, isPaid: bool)

  /** A text column read with Python truthiness: NULL and "" both fall back to `Unknown`. */
  function OrUnknown(column: Option<string>): (s: string)
    ensures s != ""
    ensures s == Unknown <==> column.None? || column.value == "" || column.value == Unknown
  {
    if column.Some? && column.value != "" then column.value else Unknown
  }

  /** An attribute the retriever selection treats as present: truthy and not the placeholder.
      These are exactly the values that read back as themselves rather than as `Unknown`. */
  predicate Known(s: string)
    ensures Known(s) <==> OrUnknown(Some(s)) != Unknown
  {
    s != "" && s != Unknown
  }

  /** `get_user_profile`: a missing row reads as all-unknown and unpaid. */
  function GetUserProfile(users: Users, userId: string): (p: Profile)
    ensures p.mbti != "" && p.gender != "" && p.targetMbti != ""
    ensures p.isPaid <==> userId in users && users[userId].isPaid
    ensures userId !in users ==> p == Profile(Unknown, Unknown, Unknown, false)
    ensures userId in users ==>
      && p.mbti == OrUnknown(users[userId].mbti)
      && p.gender == OrUnknown(users[userId].gender)
      && p.targetMbti == OrUnknown(users[userId].targetMbti)
    ensures userId in users ==>
      (Known(p.mbti) <==> users[userId].mbti.Some? && Known(users[userId].mbti.value))
  {
    if userId in users then
      var row := users[userId];
      Profile(OrUnknown(row.mbti), OrUnknown(row.gender), OrUnknown(row.targetMbti), row.isPaid)
    else
      Profile(Unknown, Unknown, Unknown, false)
  }

  /** A profile depends on its own row only: other users' rows never show through. */
  lemma ProfileDependsOnOwnRow(a: Users, b: Users, userId: string)
    requires userId in a <==> userId in b
    requires userId in a ==> a[userId] == b[userId]
    ensures GetUserProfile(a, userId) == GetUserProfile(b, userId)
  {
  }

  /** Column by column, whatever the other columns hold: a stored non-empty text value comes back
      unchanged, and a NULL or empty one comes back as `Unknown`. */
  lemma ProfileReadsStoredValue(users: Users, userId: string)
    requires userId in users
    ensures var row, p := users[userId], GetUserProfile(users, userId);
      && (row.mbti.Some? && row.mbti.value != "" ==> p.mbti == row.mbti.value)
      && (row.gender.Some? && row.gender.value != "" ==> p.gender == row.gender.value)
      && (row.targetMbti.Some? && row.targetMbti.value != "" ==> p.targetMbti == row.targetMbti.value)
      && ((row.mbti.None? || row.mbti.value == "") ==> p.mbti == Unknown)
      && ((row.gender.None? || row.gender.value == "") ==> p.gender == Unknown)
      && ((row.targetMbti.None? || row.targetMbti.value == "") ==> p.targetMbti == Unknown)
      && p.isPaid == row.isPaid
  {
  }
}
