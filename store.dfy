/** The two endpoints that write the `users` table: `mbti_collect` stores a finished
    questionnaire, `stripe_webhook` records a payment. The table is a map from user id to row;
    each endpoint is a pure transition (`Collect`, `Webhook`) that the `UserStore` methods carry out. */
module Store {
  import opened Profiles
  import opened Requests
  import Scorer

  /** The `answers` field, each element already read with Python truthiness.
      A missing key reads as the empty list. */
  datatype AnswersField = NotAList | AList(items: seq<bool>)

  /** The body `mbti_collect` receives. */
  datatype CollectRequest = CollectRequest(userId: Field, gender: Field, targetMbti: Field, answers: AnswersField)

  /** Status 400, or status 200 with the computed code. */
  datatype CollectResponse = CollectBadRequest | CollectOk(mbti: string)

  /** Status 400, or status 200 together with the code the detailed advice was pushed for, if any. */
  datatype WebhookResponse = WebhookBadRequest | WebhookOk(adviceSentFor: Option<string>)

  /** `data.get(key, default)` as it lands in a text column: a missing key gives the default,
      a JSON null gives SQL NULL. */
  function Column(f: Field, default: string): (c: Option<string>)
    ensures f.Absent? ==> c == Some(default)
    ensures f.Null? ==> c.None?
    ensures f.Str? ==> c == Some(f.s)
  {
    match f
    case Absent => Some(default)
    case Null => None
    case Str(s) => Some(s)
  }

  /** The request check of `mbti_collect`: a user id and a list of exactly ten answers.
      An accepted list answers every question of the scoring table, no more and no fewer. */
  predicate ValidCollect(req: CollectRequest)
    ensures ValidCollect(req) ==> req.answers.AList? && |req.answers.items| == |Scorer.Mapping|
  {
    Truthy(req.userId) && req.answers.AList? && |req.answers.items| == 10
  }

  /** `mbti_collect` as a transition of the table: the new table and the response. */
  function Collect(users: Users, req: CollectRequest): (r: (Users, CollectResponse))
    ensures r.1.CollectOk? <==> ValidCollect(req)
    ensures !ValidCollect(req) ==> r.0 == users
  {
    if !ValidCollect(req) then (users, CollectBadRequest)
    else
      var userId := req.userId.s;
      var mbti := Scorer.Mbti(req.answers.items);
      var isPaid := userId in users && users[userId].isPaid;
      (users[userId := Row(Some(mbti), Column(req.gender, Unknown), Column(req.targetMbti, Unknown), isPaid)],
       CollectOk(mbti))
  }

  /** The UPDATE of `stripe_webhook`: sets `is_paid` on an existing row and on nothing else. */
  function MarkPaid(users: Users, userId: Field): (after: Users)
    ensures after.Keys == users.Keys
  {
    if Truthy(userId) && userId.s in users then
      users[userId.s := users[userId.s].(isPaid := true)]
    else
      users
  }

  /** The push `stripe_webhook` makes after the update, as written: the guard
      `user_profile and user_profile.get("mbti")` only asks that the code be non-empty. */
  function AdviceTargetAsWritten(p: Profile): (r: Option<string>)
    ensures r.Some? <==> p.mbti != ""
    ensures r.Some? ==> r.value == p.mbti
  {
    if p.mbti != "" then Some(p.mbti) else None
  }

  /** The push as the guard's else-branch intends: only for a user whose code is known. */
  function AdviceTarget(p: Profile): (r: Option<string>)
    ensures r.Some? <==> Known(p.mbti)
    ensures r.Some? ==> r.value == p.mbti
  {
    if Known(p.mbti) then Some(p.mbti) else None
  }

  /** `stripe_webhook` as a transition of the table: the new table and the response. */
  function Webhook(users: Users, userId: Field): (r: (Users, WebhookResponse))
    ensures r.1.WebhookOk? <==> Truthy(userId)
    ensures !Truthy(userId) ==> r.0 == users
  {
    if !Truthy(userId) then (users, WebhookBadRequest)
    else
      var after := MarkPaid(users, userId);
      (after, WebhookOk(AdviceTargetAsWritten(GetUserProfile(after, userId.s))))
  }

  /** `stripe_webhook` with the advice push it evidently intends: the same update of the
      table, and a push only for a payer whose code is known. */
  function WebhookIntended(users: Users, userId: Field): (r: (Users, WebhookResponse))
    ensures r.1.WebhookOk? <==> Truthy(userId)
    ensures r.0 == Webhook(users, userId).0
  {
    if !Truthy(userId) then (users, WebhookBadRequest)
    else
      var after := MarkPaid(users, userId);
      (after, WebhookOk(AdviceTarget(GetUserProfile(after, userId.s))))
  }

  /** The `users` table and the two endpoints that write it. */
  class UserStore {
    var users: Users

    /** An empty table. */
    constructor ()
      ensures users == map[]
    {
      users := map[];
    }

    /** `mbti_collect`: reject a request without a user id or without exactly ten answers;
        otherwise score the answers and upsert the row, keeping the stored payment flag. */
    method MbtiCollect(req: CollectRequest) returns (resp: CollectResponse)
      modifies this
      ensures (users, resp) == Collect(old(users), req)
    {
      if !Truthy(req.userId) || !req.answers.AList? || |req.answers.items| != 10 {
        return CollectBadRequest;
      }
      var userId := req.userId.s;
      var mbti := Scorer.CalcMbti(req.answers.items);
      var isPaid := if userId in users then users[userId].isPaid else false;
      users := users[userId := Row(Some(mbti), Column(req.gender, Unknown), Column(req.targetMbti, Unknown), isPaid)];
      resp := CollectOk(mbti);
    }

    /** `stripe_webhook`: reject a request without a user id; otherwise mark an existing row as
        paid (a missing row stays missing) and push the detailed advice for the profile's code
        whenever that code is non-empty, which it always is. */
    method StripeWebhook(userId: Field) returns (resp: WebhookResponse)
      modifies this
      ensures (users, resp) == Webhook(old(users), userId)
    {
      if !Truthy(userId) {
        return WebhookBadRequest;
      }
      var id := userId.s;
      if id in users {
        users := users[id := users[id].(isPaid := true)];
      }
      var profile := GetUserProfile(users, id);
      resp := WebhookOk(AdviceTargetAsWritten(profile));
    }
  }

  /** A rejected request changes nothing: no user id, a null or empty one, answers that are
      not a list, or a list whose length is not ten. */
  lemma CollectRejects(users: Users, req: CollectRequest)
    requires !Truthy(req.userId) || req.answers.NotAList? || |req.answers.items| != 10
    ensures Collect(users, req) == (users, CollectBadRequest)
  {
  }

  /** An accepted request writes exactly one row, the requester's, and no other. */
  lemma CollectFrame(users: Users, req: CollectRequest, other: string)
    requires ValidCollect(req) && other != req.userId.s
    ensures Collect(users, req).0.Keys == users.Keys + {req.userId.s}
    ensures other in Collect(users, req).0 <==> other in users
    ensures other in users ==> Collect(users, req).0[other] == users[other]
  {
  }

  /** What the requester reads back after an accepted request: the scored code (a key of the
      nickname table), the submitted attributes with "unknown" for missing ones, and the
      payment flag as it was, false for a new user. */
  lemma CollectProfile(users: Users, req: CollectRequest)
    requires ValidCollect(req)
    ensures var p := GetUserProfile(Collect(users, req).0, req.userId.s);
      && p.mbti == Scorer.Mbti(req.answers.items)
      && p.mbti in Scorer.NicknameKeys
      && Known(p.mbti)
      && p.gender == OrUnknown(Column(req.gender, Unknown))
      && p.targetMbti == OrUnknown(Column(req.targetMbti, Unknown))
      && (req.gender.Absent? ==> p.gender == Unknown)
      && p.isPaid == GetUserProfile(users, req.userId.s).isPaid
      && Collect(users, req).1 == CollectOk(p.mbti)
  {
    Scorer.MbtiIsNicknameKey(req.answers.items);
  }

  /** The webhook never creates a row, changes only the payer's row, and in it only the flag. */
  lemma MarkPaidFrame(users: Users, userId: Field, other: string)
    requires Truthy(userId) && other != userId.s
    ensures other in users ==> MarkPaid(users, userId)[other] == users[other]
    ensures userId.s in users ==> MarkPaid(users, userId)[userId.s] == users[userId.s].(isPaid := true)
    ensures userId.s !in users ==> MarkPaid(users, userId) == users
  {
  }

  /** After the webhook the payer reads back as paid exactly when a row existed for them;
      every other profile is unchanged. */
  lemma WebhookProfile(users: Users, userId: Field, other: string)
    requires Truthy(userId) && other != userId.s
    ensures GetUserProfile(Webhook(users, userId).0, userId.s).isPaid <==> userId.s in users
    ensures GetUserProfile(Webhook(users, userId).0, other) == GetUserProfile(users, other)
  {
    ProfileDependsOnOwnRow(Webhook(users, userId).0, users, other);
  }

  /** A repeated webhook delivery changes nothing more. */
  lemma MarkPaidIdempotent(users: Users, userId: Field)
    ensures MarkPaid(MarkPaid(users, userId), userId) == MarkPaid(users, userId)
  {
  }

  /** A payment survives a later diagnosis: the row is replaced but the flag is carried over. */
  lemma PaidSurvivesRediagnosis(users: Users, userId: Field, req: CollectRequest)
    requires Truthy(userId) && userId.s in users
    requires ValidCollect(req) && req.userId == userId
    ensures GetUserProfile(Collect(MarkPaid(users, userId), req).0, userId.s).isPaid
  {
  }

  /** A payment for a user who never finished the questionnaire is lost: no row appears, and a
      later diagnosis stores the user as unpaid. */
  lemma PaymentBeforeDiagnosisIsLost(users: Users, userId: Field, req: CollectRequest)
    requires Truthy(userId) && userId.s !in users
    requires ValidCollect(req) && req.userId == userId
    ensures !GetUserProfile(Collect(MarkPaid(users, userId), req).0, userId.s).isPaid
  {
  }

  /** As written, the advice push is never skipped: the profile always carries a non-empty code,
      so a payer without a row gets the advice for "不明". */
  lemma AdviceGuardAsWrittenNeverSkips(users: Users, userId: Field)
    requires Truthy(userId)
    ensures Webhook(users, userId).1.WebhookOk? && Webhook(users, userId).1.adviceSentFor.Some?
    ensures userId.s !in users ==> Webhook(users, userId).1 == WebhookOk(Some(Unknown))
  {
  }

  /** As intended, the push happens exactly when the payer has a diagnosed code, and it is that code. */
  lemma WebhookAdvice(users: Users, userId: Field)
    requires Truthy(userId)
    ensures var row := if userId.s in users then users[userId.s].mbti else None;
      WebhookIntended(users, userId).1 ==
        WebhookOk(if row.Some? && Known(row.value) then Some(row.value) else None)
  {
  }

  /** The written and the intended webhook write the same table, and they push the same advice
      exactly when the payer's stored code is known. */
  lemma WebhookDiffersOnlyForUnknownCodes(users: Users, userId: Field)
    requires Truthy(userId)
    ensures var row := if userId.s in users then users[userId.s].mbti else None;
      WebhookIntended(users, userId).1 == Webhook(users, userId).1 <==> row.Some? && Known(row.value)
  {
  }

  /** After a diagnosis, a payment pushes the advice for the code that diagnosis produced, both as
      written and as intended. */
  lemma WebhookAfterCollect(users: Users, req: CollectRequest)
    requires ValidCollect(req)
    ensures Webhook(Collect(users, req).0, req.userId).1 == WebhookOk(Some(Scorer.Mbti(req.answers.items)))
    ensures WebhookIntended(Collect(users, req).0, req.userId).1 == WebhookOk(Some(Scorer.Mbti(req.answers.items)))
  {
    CollectProfile(users, req);
  }
}
