/** The read-only decisions of `mbti_detail` and `ask`: the paid gate in front of both,
    the detailed-advice lookup, and the rule by which `ask` falls back from the retrieval
    answer to a direct model answer. The model calls themselves are parameters. */
module Gates {
  import opened Profiles
  import opened Requests
  import Retrievers

  /** The advice returned when the advice table has no entry for the user's code. */
  const DefaultAdvice: string := "詳細アドバイスは現在準備中です。"

  /** The answer `ask` starts from ("no answer to the question was found"). */
  const DefaultAnswer: string := "質問の答えが見つかりませんでした。"

  /** Phrases that mark a retrieval answer as a non-answer: "sorry", "cannot answer",
      "cannot confirm", "not found", "cannot provide". */
  const FallbackPhrases: seq<string> := ["申し訳", "お答えできません", "確認できません", "見つかりません", "提供できません"]

  /** Status 400, status 403, or the detailed advice. */
  datatype DetailResponse = DetailBadRequest | DetailForbidden | DetailAdvice(text: string)

  /** Status 400, status 403, or go on to answer the question for this profile. */
  datatype AskDecision = AskBadRequest | AskForbidden | AskProceed(profile: Profile)

  /** `mbti_detail`: a user id is required, the user must be paid, and the advice is looked up
      by the profile's code with a fixed default. */
  function MbtiDetail(users: Users, userId: Field, advice: map<string, string>): (r: DetailResponse)
    ensures r.DetailBadRequest? <==> !Truthy(userId)
    ensures r.DetailForbidden? <==> Truthy(userId) && !(userId.s in users && users[userId.s].isPaid)
    ensures r.DetailAdvice? ==> r.text == DefaultAdvice || r.text in advice.Values
  {
    if !Truthy(userId) then DetailBadRequest
    else
      var profile := GetUserProfile(users, userId.s);
      if !profile.isPaid then DetailForbidden
      else DetailAdvice(if profile.mbti in advice then advice[profile.mbti] else DefaultAdvice)
  }

  /** The gate of `ask`: a user id and a question are required, and the user must be paid. */
  function AskGate(users: Users, userId: Field, question: Field): (d: AskDecision)
    ensures d.AskBadRequest? <==> !Truthy(userId) || !Truthy(question)
    ensures d.AskProceed? <==> Truthy(userId) && Truthy(question) && userId.s in users && users[userId.s].isPaid
    ensures d.AskProceed? ==> d.profile == GetUserProfile(users, userId.s) && d.profile.isPaid
  {
    if !Truthy(userId) || !Truthy(question) then AskBadRequest
    else
      var profile := GetUserProfile(users, userId.s);
      if !profile.isPaid then AskForbidden else AskProceed(profile)
  }

  /** Python's `x in s` on strings, scanning s from the left. Only a string no longer than s can
      occur in it, and the empty string occurs in every string. */
  predicate Occurs(x: string, s: string)
    ensures Occurs(x, s) ==> |x| <= |s|
    ensures x == [] ==> Occurs(x, s)
  {
    x <= s || (s != [] && Occurs(x, s[1..]))
  }

  /** x occurs in s starting at offset i. */
  predicate OccursAt(x: string, s: string, i: int) {
    0 <= i <= |s| - |x| && s[i..i + |x|] == x
  }

  /** Dropping the first character shifts every occurrence one place to the left. */
  lemma OccursAtShift(x: string, s: string, i: int)
    requires s != [] && i >= 1
    ensures OccursAt(x, s, i) <==> OccursAt(x, s[1..], i - 1)
  {
    if i <= |s| - |x| {
      assert s[1..][i - 1..i - 1 + |x|] == s[i..i + |x|];
    }
  }

  /** The scan agrees with the textbook definition: x occurs at some offset of s. */
  lemma {:induction false} OccursIff(x: string, s: string)
    ensures Occurs(x, s) <==> exists i :: OccursAt(x, s, i)
  {
    if x <= s {
      assert OccursAt(x, s, 0);
    } else if s != [] {
      OccursIff(x, s[1..]);
      if Occurs(x, s[1..]) {
        var j :| OccursAt(x, s[1..], j);
        OccursAtShift(x, s, j + 1);
      } else {
        forall i | 0 <= i
          ensures !OccursAt(x, s, i)
        {
          if i > 0 {
            OccursAtShift(x, s, i);
          }
        }
      }
    }
  }

  /** The fallback trigger of `ask`: no retrieval chain, or one of the phrases in the answer.
      Without a chain it always fires; with one, an answer shorter than the shortest phrase
      (three characters) never triggers it. */
  predicate NeedsFallback(hasChain: bool, answer: string)
    ensures !hasChain ==> NeedsFallback(hasChain, answer)
    ensures hasChain && |answer| < 3 ==> !NeedsFallback(hasChain, answer)
  {
    !hasChain || exists k :: 0 <= k < |FallbackPhrases| && Occurs(FallbackPhrases[k], answer)
  }

  /** The answer `ask` returns. `hasChain` says whether any retriever loaded, `qaResult` is the
      chain's "result" field if present, `llmContent` the direct model answer ("" if empty). */
  function AskAnswer(hasChain: bool, qaResult: Option<string>, llmContent: string): (answer: string)
    ensures answer == DefaultAnswer || answer == llmContent || (hasChain && qaResult.Some? && answer == qaResult.value)
    ensures llmContent == "" ==> answer == (if hasChain && qaResult.Some? then qaResult.value else DefaultAnswer)
  {
    var retrieved := if hasChain && qaResult.Some? then qaResult.value else DefaultAnswer;
    if NeedsFallback(hasChain, retrieved) && llmContent != "" then llmContent else retrieved
  }

  /** Both endpoints apply the same paid gate: with a question present, `ask` proceeds exactly
      when `mbti_detail` hands out advice. */
  lemma PaidGatesAgree(users: Users, userId: Field, question: Field, advice: map<string, string>)
    requires Truthy(question)
    ensures AskGate(users, userId, question).AskProceed? <==> MbtiDetail(users, userId, advice).DetailAdvice?
  {
  }

  /** A paid user with a diagnosed code gets that code's advice, or the default if the table
      lacks it; a paid user without a code is looked up under "不明". */
  lemma DetailAdviceLookup(users: Users, userId: Field, advice: map<string, string>)
    requires Truthy(userId) && userId.s in users && users[userId.s].isPaid
    ensures var row := users[userId.s];
      var key := if row.mbti.Some? && row.mbti.value != "" then row.mbti.value else Unknown;
      MbtiDetail(users, userId, advice) == DetailAdvice(if key in advice then advice[key] else DefaultAdvice)
  {
  }

  /** The starting answer is itself a non-answer: it contains "見つかりません". So a chain that
      yields no "result" always falls back to the direct model answer. */
  lemma DefaultAnswerFallsBack()
    ensures NeedsFallback(true, DefaultAnswer)
  {
    var phrase := FallbackPhrases[3];
    assert OccursAt(phrase, DefaultAnswer, 6);
    OccursIff(phrase, DefaultAnswer);
  }

  /** Without a chain the direct model answer is used whenever it is non-empty. */
  lemma NoChainUsesModel(qaResult: Option<string>, llmContent: string)
    ensures AskAnswer(false, qaResult, llmContent) == if llmContent != "" then llmContent else DefaultAnswer
  {
  }

  /** A retrieval answer free of every phrase is returned as it is; one holding a phrase is
      replaced by a non-empty direct model answer, and kept when that answer is empty. */
  lemma RetrievalAnswerKeptUnlessFlagged(r: string, llmContent: string)
    ensures (forall k :: 0 <= k < |FallbackPhrases| ==> !Occurs(FallbackPhrases[k], r))
      ==> AskAnswer(true, Some(r), llmContent) == r
    ensures (exists k :: 0 <= k < |FallbackPhrases| && Occurs(FallbackPhrases[k], r)) && llmContent != ""
      ==> AskAnswer(true, Some(r), llmContent) == llmContent
    ensures llmContent == "" ==> AskAnswer(true, Some(r), llmContent) == r
  {
  }

  /** A chain without a "result" field ends with the model's answer if it has one, else the default. */
  lemma MissingResultUsesModel(llmContent: string)
    ensures AskAnswer(true, None, llmContent) == if llmContent != "" then llmContent else DefaultAnswer
  {
    DefaultAnswerFallsBack();
  }

  /** When no knowledge-base directory of the profile loads, no chain is built and `ask`
      answers with the direct model answer, or the default if that is empty. */
  lemma NoRetrieverUsesModel<R>(p: Profile, load: string -> Option<R>, qaResult: Option<string>, llmContent: string)
    requires forall j :: 0 <= j < |Retrievers.SubPaths(p)| ==>
      load(Retrievers.Join(Retrievers.VectorBase, Retrievers.SubPaths(p)[j])).None?
    ensures var hasChain := Retrievers.Loaded(Retrievers.SubPaths(p), load) != [];
      AskAnswer(hasChain, qaResult, llmContent) == if llmContent != "" then llmContent else DefaultAnswer
  {
    Retrievers.LoadedEmptyIff(Retrievers.SubPaths(p), load);
  }
}
