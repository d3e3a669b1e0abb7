# A verified model of the LOVEHACK20 personality-advice service

The service is a Flask app (`app.py`) behind a chat bot. A user answers ten yes/no
questions. The app reduces the answers to a four-letter personality code
(`calc_mbti`) and stores it in a `users` table together with the user's gender, the
partner's code and a payment flag. A payment webhook marks the user as paid. Paid
users can then read detailed advice for their code (`mbti_detail`) and ask free-text
questions (`ask`). `ask` answers from knowledge-base directories chosen from the
profile (`get_retrievers`), and it falls back to a direct language-model answer when
retrieval gives a non-answer.

The model has one module per concern:

- `profiles.dfy` (`Profiles`): a table row, the `users` table as a map from user id to
  row, and `get_user_profile`, which fills unknown attributes with "不明" ("unknown").
- `requests.dfy` (`Requests`): a JSON request field, which is missing, null or a string,
  and Python's truthiness test on it.
- `scorer.dfy` (`Scorer`): `calc_mbti`.
  - `CalcMbti` is the source's loop over a score map, proved equal to the specification
    `Mbti`.
  - `Mbti` is defined from per-letter tallies `Tally`, which are the partner definition.
  - Lemmas give the counting facts, the tie rule, a closed form per axis and golden vectors.
- `store.dfy` (`Store`): `mbti_collect` and `stripe_webhook`.
  - Each is a pure transition of the table (`Collect`, `Webhook`).
  - The methods of the `UserStore` class carry out those transitions on their `users`
    field.
  - Lemmas give frame conditions, what the user reads back, idempotence and the order of
    payment and diagnosis.
  - `Webhook` and the class push the advice as the code is written. `WebhookIntended`
    is the corrected push of the first finding below, kept beside it.
- `retrievers.dfy` (`Retrievers`): `get_retrievers`.
  - `CollectSubPaths` and `GetRetrievers` are the source's append steps and loop, proved
    against `SubPaths` and `Loaded`.
  - The loader `load_retriever` is a function parameter that returns an optional
    retriever.
  - `ConfinedSubPaths` is the corrected path selection of the second finding below;
    `GetRetrievers` follows the code as written.
- `gates.dfy` (`Gates`): the decisions made by `mbti_detail` and `ask`.
  - The paid gate, and the detailed-advice lookup with its default.
  - The substring test that triggers the fallback, with the answer that `ask` returns.

## Model

| member | source | states |
|---|---|---|
| Profiles.OrUnknown | app.py:240-242 | a text column read with truthiness is never empty; it is "不明" exactly when the column is NULL, empty or itself "不明" |
| Profiles.Known | app.py:161-168 | the test `x and x != "不明"` holds exactly for the values that do not read back as "不明" once a NULL or empty column is defaulted |
| Profiles.GetUserProfile | app.py:233-244 | every text attribute of a profile is non-empty; the profile is paid iff a row exists and is paid; a missing row reads as all-"不明" and unpaid; for an existing row each of the three text attributes is its column read with the NULL-or-empty-to-"不明" rule; a row's code is known in the profile iff it is stored and known |
| Profiles.ProfileDependsOnOwnRow | app.py:236-244 | a profile depends only on the row of its own user id |
| Profiles.ProfileReadsStoredValue | app.py:239-243 | column by column, whatever the other columns hold, a non-empty stored value comes back unchanged and a NULL or empty one as "不明"; the flag is the stored one |
| Scorer.Pick | app.py:267-284 | the letter an answer scores is always one of the eight axis letters |
| Scorer.Tally | app.py:279-284 | a letter's tally never exceeds the number of answers |
| Scorer.Tallies | app.py:266 | the score map has exactly the eight letters as keys |
| Scorer.Resolve | app.py:285-290 | resolving a score map always gives a well-formed code: E/I, S/N, T/F, J/P in that order |
| Scorer.Mbti | app.py:265-291 | the code of any at most ten answers is a well-formed four-letter code |
| Scorer.CalcMbti | app.py:265-291 | the loop that updates the score map returns exactly the code defined by the per-letter tallies |
| Scorer.MbtiIsNicknameKey | app.py:76-93 | every computed code is one of the sixteen keys of the nickname table |
| Scorer.TypeCodeIsNicknameKey | app.py:76-93 | the sixteen nickname keys are exactly the well-formed codes |
| Scorer.AxisQuestions | app.py:267-278 | a count of the questions on one axis never exceeds the number of questions |
| Scorer.AxisTotal | app.py:279-284 | each answer raises exactly one tally of its own axis, so the two tallies of an axis add up to that axis's questions |
| Scorer.TalliesSumToAnswers | app.py:279-284 | the eight tallies add up to the number of answers |
| Scorer.FullQuestionnaireAxisTotals | app.py:267-284 | with ten answers E+I=3, S+N=2, T+F=2 and J+P=3 |
| Scorer.AxisQuestionsOfTable | app.py:267-278 | the table asks E/I and J/P three times each and S/N and T/F twice each |
| Scorer.OnlyEvenAxesTie | app.py:267-290 | with ten answers E/I and J/P can never tie |
| Scorer.TallyOfTen | app.py:279-284 | a tally of ten answers is the sum of what each question contributes |
| Scorer.AxisEIClosedForm | app.py:268-286 | the code starts with E iff at least two of "yes to 0", "yes to 4" and "no to 7" hold |
| Scorer.AxisSNClosedForm | app.py:270-287 | the second letter is S iff question 2 is yes or question 6 is no, so a 1-1 tie gives S |
| Scorer.AxisTFClosedForm | app.py:271-288 | the third letter is T iff question 3 is yes or question 8 is no, so a 1-1 tie gives T |
| Scorer.AxisJPClosedForm | app.py:269-289 | the last letter is J iff at least two of "no to 1", "yes to 5" and "no to 9" hold |
| Scorer.GoldenVectors | app.py:265-291 | ten no's give ISTJ and ten yes's give ESTP |
| Scorer.TieGoesToFirstLetter | app.py:285-290 | S/N and T/F ties are reachable and resolve to S and T, because the comparison is `>=` |
| Store.Column | app.py:299-300 | a missing field stores the default, a JSON null stores NULL, a string is stored as is |
| Store.ValidCollect | app.py:302 | an accepted request carries a list that answers every question of the scoring table, no more and no fewer |
| Store.Collect | app.py:296-316 | a request succeeds iff it has a truthy user id and a list of exactly ten answers; a rejected request leaves the table unchanged |
| Store.MarkPaid | app.py:432 | the payment update never adds or removes a row |
| Store.AdviceTargetAsWritten | app.py:441-442 | the guard as written pushes iff the profile's code is non-empty, and it pushes that code |
| Store.AdviceTarget | app.py:439-445 | corrected half of the finding below: the push happens iff the payer's code is known, and it is for that code |
| Store.Webhook | app.py:423-450 | the webhook as written succeeds iff the user id is truthy, and a rejected call leaves the table unchanged; its push uses the written guard |
| Store.WebhookIntended | app.py:439-445 | corrected half of the finding below: the same outcome and the same new table as the written webhook, with the push decided by the intended guard |
| Store.UserStore.constructor | app.py:107-141 | a freshly created database starts with an empty `users` table (`CREATE TABLE IF NOT EXISTS` keeps the rows of an existing database, which the model does not cover) |
| Store.UserStore.MbtiCollect | app.py:296-316 | validating, scoring with `CalcMbti` and upserting the row gives exactly the new table and response of `Collect` |
| Store.UserStore.StripeWebhook | app.py:423-450 | updating an existing row and deciding the advice push with the written guard gives exactly the new table and response of `Webhook` |
| Store.CollectRejects | app.py:302-303 | a missing, null or empty user id, answers that are not a list, or a list not of length ten: status 400 and an unchanged table |
| Store.CollectFrame | app.py:310-313 | an accepted request adds the requester's key if it is new and leaves every other row untouched |
| Store.CollectProfile | app.py:298-316 | the requester reads back the scored code (a nickname key and known), the submitted or defaulted gender and partner code, and the payment flag as it was (false for a new user); the response carries the same code |
| Store.MarkPaidFrame | app.py:432 | the webhook sets the flag on an existing payer's row and changes nothing else; with no row, the table is unchanged |
| Store.WebhookProfile | app.py:432-440 | after the webhook the payer reads as paid iff a row existed, and every other profile is unchanged |
| Store.MarkPaidIdempotent | app.py:432 | a repeated delivery changes nothing more |
| Store.PaidSurvivesRediagnosis | app.py:307-313 | a paid user who is diagnosed again stays paid |
| Store.PaymentBeforeDiagnosisIsLost | app.py:307-313 | a payment that arrives before the user has a row is lost: the later diagnosis stores the user as unpaid |
| Store.AdviceGuardAsWrittenNeverSkips | app.py:439-445 | the written webhook always pushes advice for an accepted call, and a payer with no row gets the advice for "不明" |
| Store.WebhookAdvice | app.py:439-445 | the intended webhook pushes exactly for a payer whose stored code is known, and for that code |
| Store.WebhookDiffersOnlyForUnknownCodes | app.py:439-445 | the written and the intended webhook give the same response exactly when the payer's stored code is known |
| Store.WebhookAfterCollect | app.py:296-316 | a payment after a diagnosis pushes the advice for the code that diagnosis computed, as written and as intended |
| Retrievers.Join | app.py:174 | `os.path.join` puts one slash between the base and a relative sub-path, and an absolute sub-path replaces the base |
| Retrievers.SubPaths | app.py:159-170 | the sub-path list has one entry per known attribute and ends with `common` |
| Retrievers.Loaded | app.py:172-178 | no more retrievers than paths |
| Retrievers.LoadedStep | app.py:173-177 | loading one more path appends its retriever, if the loader gives one |
| Retrievers.CollectSubPaths | app.py:159-170 | the append steps give exactly `SubPaths`: self, then partner, then gender (each only when known), then `common` |
| Retrievers.GetRetrievers | app.py:158-178 | the loop returns the loaded retrievers of the sub-paths, in path order, dropping empty loads |
| Retrievers.SubPathsShape | app.py:159-170 | one sub-path per known attribute plus `common`, which is always last; 1 to 4 entries, in the fixed order |
| Retrievers.UnknownProfileUsesCommonOnly | app.py:159-170 | a profile with nothing known consults `common` alone |
| Retrievers.LoadedAppend | app.py:172-178 | the retrievers of a concatenation of paths are those of each part, in turn |
| Retrievers.LoadedEmptyIff | app.py:172-178 | no retriever comes back iff every path's load is empty |
| Retrievers.LoadedAllPresent | app.py:172-178 | when every load succeeds, the i-th retriever comes from the i-th path |
| Retrievers.CommonRetrieverLast | app.py:170-178 | if the common store loads, it is the last retriever |
| Retrievers.PathsUnderBase | app.py:161-174 | every path's text starts with `./chroma_db/` unless the stored gender starts with a slash (the text may still hold a `..` step) |
| Retrievers.ParentStepLeavesBase | app.py:167-174 | a stored gender "../secret" is used unchecked and gives the path "./chroma_db/../secret", which holds a `..` step below the root |
| Retrievers.PartnerCodeLeavesBase | app.py:164-174 | a stored partner code "../../secret" is used unchecked and gives "./chroma_db/partner/../../secret", which holds `..` steps below the root |
| Retrievers.AbsoluteGenderReplacesBase | app.py:167-174 | a stored gender "/secret" is used unchecked and replaces the root, giving the path "/secret" |
| Retrievers.ConfinedSubPaths | app.py:159-170 | corrected half of the path finding: never more sub-paths than the written list, and `common` still last |
| Retrievers.ConfinedSubPathsConfined | app.py:159-170 | with the check, every sub-path is neither absolute nor holds `..` |
| Retrievers.ConfinedPathsUnderBase | app.py:172-174 | with the check, every path is `./chroma_db/` followed by a remainder without any `..` step |
| Retrievers.ConfinedSubPathsAgree | app.py:159-170 | for a profile whose attributes are all confined, the check changes nothing |
| Gates.MbtiDetail | app.py:357-368 | status 400 iff the user id is not truthy; status 403 iff it is truthy but no paid row exists; advice is a table value or the default |
| Gates.AskGate | app.py:372-380 | status 400 iff the user id or the question is not truthy; `ask` goes on iff both are given and the user's row exists and is paid, and then with that user's profile |
| Gates.Occurs | app.py:394 | Python's `x in s`: only a string no longer than s occurs in it, and the empty string occurs everywhere |
| Gates.OccursIff | app.py:394 | the substring scan agrees with "x occurs at some offset of s" in both directions |
| Gates.NeedsFallback | app.py:394 | the fallback always fires without a chain; with a chain, an answer shorter than the shortest phrase (three characters) never triggers it |
| Gates.AskAnswer | app.py:384-408 | the answer is the default, the direct model answer or the retrieval result; an empty model reply never replaces anything, so the answer is then the retrieval result, or the default without one |
| Gates.PaidGatesAgree | app.py:364-380 | with a question given, `ask` goes on exactly when `mbti_detail` returns advice |
| Gates.DetailAdviceLookup | app.py:363-368 | a paid user gets the advice stored for their code (or for "不明" when they have none), or the default if the table has no entry |
| Gates.DefaultAnswerFallsBack | app.py:385-394 | the starting answer itself contains "見つかりません", so it always triggers the fallback |
| Gates.NoChainUsesModel | app.py:388-407 | without a chain the direct model answer is used when it is non-empty, else the default |
| Gates.RetrievalAnswerKeptUnlessFlagged | app.py:389-407 | a retrieval answer with none of the five phrases is returned as is; one with a phrase is replaced by a non-empty direct model answer, and kept when that answer is empty |
| Gates.MissingResultUsesModel | app.py:389-407 | a chain result without a "result" field ends with the direct model answer, or the default if that is empty |
| Gates.NoRetrieverUsesModel | app.py:181-188 | when no directory of the profile loads, no chain is built and `ask` answers from the model directly |

## Left out

- HTTP and Flask plumbing: JSON parsing, responses and status codes become datatypes. Request fields are only missing, null or strings; other JSON values are not modelled.
- The `answers` elements are taken as already read with Python truthiness (`seq<bool>`), which is all `calc_mbti` looks at.
- SQLite: connections, SQL text and the `messages` table (`save_message`, `get_recent_history`) are left out. `users` is a map; `INSERT OR REPLACE` is a map update.
- Stripe checkout, GAS notifications (`notify_gas_payment_success`, `send_detailed_advice_to_gas`), LINE push and URL shortening are calls to foreign services. The webhook's advice push appears only as the code it would be sent for.
- LangChain, Chroma, embeddings and the language model are left out. The loader, the chain's "result" field and the model's reply are parameters. `lru_cache` and the float ensemble weights are not modelled.
- The `ValueError` raised by `load_retriever` when embeddings are missing, and every exception path that ends in status 500, are left out.
- The prompt text `ask` builds for the direct model call, and the contents of the nickname and advice tables, are left out. The advice table is a parameter `map<string, string>`; of the nickname table, only its key set is used.
- Start-up work (zip extraction, loading the advice file, `init_db`) is left out. db_check.py is not part of this model: it only dumps the table.
- The multi-turn questionnaire conversation is not modelled: no modes, no pending-answer buffer, no 16-question variant. That logic is not in `app.py`; its webhook handlers return 200 without handling messages. This model follows the code: ten answers against a fixed table with unbalanced axes (three E/I and J/P questions, two S/N and T/F questions), rather than a configurable N with N/4 questions per axis.
- Scorer.CalcMbti: requires at most ten answers. A longer list makes the source's `mapping[i]` raise, and the only caller accepts exactly ten.
- Each endpoint is modelled as one atomic transition of the table; concurrent requests are not. `mbti_collect`'s SELECT of `is_paid` (app.py:307-309) and its `INSERT OR REPLACE` (app.py:310-313) are separate statements on their own connection, with no transaction around both, so a `stripe_webhook` UPDATE (app.py:432) committed between them is overwritten with `is_paid` false and the payment is lost. `PaymentBeforeDiagnosisIsLost` shows only the sequential case.
- Retrievers.Join: requires a non-empty base without a trailing slash, which is all the constant `./chroma_db` needs.

## Findings

| source | as written | input that shows it | evidently intended | confidence | as-written member | corrected member |
|---|---|---|---|---|---|---|
| app.py:440-445 | the guard `user_profile and user_profile.get("mbti")` is always true: the profile dictionary is never empty, and its code defaults to "不明", so the "code not found" branch is dead | a payment webhook for a user id that has no row: the detailed advice is sent for "不明" | push the advice only for a payer whose code is known, and otherwise take the "not found" branch | not executed | Store.AdviceGuardAsWrittenNeverSkips | Store.WebhookAdvice |
| app.py:164-174 | the stored partner code and gender, taken from the request as sent (app.py:299-300), become path parts unchecked | a diagnosis request whose gender is "../secret": for a paid user, `ask` passes "./chroma_db/../secret" to `load_retriever`, which opens it when `./secret` exists; with a gender "/secret", it passes "/secret", which is opened when `/secret` exists; with a partner code "../../secret", it passes "./chroma_db/partner/../../secret" (`PartnerCodeLeavesBase`) | use an attribute as a path part only when it stays under `./chroma_db` | not executed | Retrievers.ParentStepLeavesBase | Retrievers.ConfinedPathsUnderBase |
