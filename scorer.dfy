/** `calc_mbti`: ten yes/no answers reduced to a four-letter type code.
    Each question awards one letter for a yes and another for a no; each of the four
    axes is then resolved with `>=`, so a tie goes to E, S, T or J. */
module Scorer {

  /** The answer table: question i awards `Mapping[i].0` on a yes and `Mapping[i].1` on a no. */
  const Mapping: seq<(char, char)> := [
    ('E', 'I'), ('P', 'J'), ('S', 'N'), ('T', 'F'), ('E', 'I'),
    ('J', 'P'), ('N', 'S'), ('I', 'E'), ('F', 'T'), ('P', 'J')
  ]

  /** The eight letters the tally starts with, each at zero. */
  const Letters: set<char> := {'E', 'I', 'S', 'N', 'T', 'F', 'J', 'P'}

  /** The keys of the nickname table: the sixteen type codes the rest of the service knows. */
  const NicknameKeys: set<string> := {
    "INTJ", "INTP", "ENTJ", "ENTP", "INFJ", "INFP", "ENFJ", "ENFP",
    "ISTJ", "ISFJ", "ESTJ", "ESFJ", "ISTP", "ISFP", "ESTP", "ESFP"
  }

  /** The type-code grammar: one letter from each axis pair, in axis order. */
  predicate IsTypeCode(s: string) {
    |s| == 4 && s[0] in "EI" && s[1] in "SN" && s[2] in "TF" && s[3] in "JP"
  }

  /** The letter question i awards for the answer `yes`. */
  function Pick(i: nat, yes: bool): (c: char)
    requires i < |Mapping|
    ensures c in Letters
  {
    if yes then Mapping[i].0 else Mapping[i].1
  }

  /** How many of the answers so far awarded the letter c (the `score[c]` of the loop). */
  function Tally(answers: seq<bool>, c: char): (n: nat)
    requires |answers| <= |Mapping|
    ensures n <= |answers|
  {
    if answers == [] then 0
    else
      var k := |answers| - 1;
      Tally(answers[..k], c) + Bit(Pick(k, answers[k]) == c)
  }

  /** 1 for a condition that holds, 0 otherwise. */
  function Bit(b: bool): nat { if b then 1 else 0 }

  /** Answering one more question adds one to the tally of the letter it awards. */
  lemma TallyStep(answers: seq<bool>, i: nat, c: char)
    requires i < |answers| <= |Mapping|
    ensures Tally(answers[..i + 1], c) == Tally(answers[..i], c) + Bit(Pick(i, answers[i]) == c)
  {
    assert answers[..i + 1][..i] == answers[..i];
  }

  /** The tally dictionary after the given answers: one entry per letter. */
  function Tallies(answers: seq<bool>): (score: map<char, int>)
    requires |answers| <= |Mapping|
    ensures score.Keys == Letters
  {
    map c | c in Letters :: Tally(answers, c)
  }

  /** The final expression of `calc_mbti`: each axis goes to its first letter unless the second has strictly more. */
  function Resolve(score: map<char, int>): (code: string)
    requires Letters <= score.Keys
    ensures IsTypeCode(code)
  {
    [if score['E'] >= score['I'] then 'E' else 'I',
     if score['S'] >= score['N'] then 'S' else 'N',
     if score['T'] >= score['F'] then 'T' else 'F',
     if score['J'] >= score['P'] then 'J' else 'P']
  }

  /** The code `calc_mbti` returns. */
  function Mbti(answers: seq<bool>): (code: string)
    requires |answers| <= |Mapping|
    ensures IsTypeCode(code)
  {
    Resolve(Tallies(answers))
  }

  /** The loop's step: bumping the letter answer i awards keeps the dictionary equal to the tallies. */
  lemma ScoreStep(answers: seq<bool>, i: nat, score: map<char, int>, won: char)
    requires i < |answers| <= |Mapping|
    requires forall c :: c in Letters ==> c in score && score[c] == Tally(answers[..i], c)
    requires won == Pick(i, answers[i])
    ensures won in score
    ensures forall c :: c in Letters ==>
      c in score[won := score[won] + 1] && score[won := score[won] + 1][c] == Tally(answers[..i + 1], c)
  {
    forall c | c in Letters
      ensures Tally(answers[..i + 1], c) == Tally(answers[..i], c) + Bit(Pick(i, answers[i]) == c)
    {
      TallyStep(answers, i, c);
    }
  }

  /** `calc_mbti`: tally each answer's letter in a dictionary, then resolve the four axes.
      More than ten answers would index past the table, so the caller must not pass them. */
  method CalcMbti(answers: seq<bool>) returns (mbti: string)
    requires |answers| <= |Mapping|
    ensures mbti == Mbti(answers)
  {
    var score: map<char, int> := map['E' := 0, 'I' := 0, 'S' := 0, 'N' := 0,
                                     'T' := 0, 'F' := 0, 'J' := 0, 'P' := 0];
    var i := 0;
    while i < |answers|
      invariant 0 <= i <= |answers|
      invariant forall c :: c in Letters ==> c in score && score[c] == Tally(answers[..i], c)
    {
      var (yes, no) := Mapping[i];
      assert yes == Pick(i, true) && no == Pick(i, false);
      if answers[i] {
        ScoreStep(answers, i, score, yes);
        score := score[yes := score[yes] + 1];
      } else {
        ScoreStep(answers, i, score, no);
        score := score[no := score[no] + 1];
      }
      i := i + 1;
    }
    assert answers[..i] == answers;
    mbti := Resolve(score);
  }

  /** Whatever the answers, the code is one of the sixteen keys of the nickname table. */
  lemma MbtiIsNicknameKey(answers: seq<bool>)
    requires |answers| <= |Mapping|
    ensures Mbti(answers) in NicknameKeys
  {
    TypeCodeIsNicknameKey(Mbti(answers));
  }

  /** Every code the grammar admits is a key of the nickname table, and conversely. */
  lemma TypeCodeIsNicknameKey(s: string)
    ensures IsTypeCode(s) <==> s in NicknameKeys
  {
    if IsTypeCode(s) {
      assert s == [s[0], s[1], s[2], s[3]];
    }
  }

  /** How many of the first n questions sit on the axis {x, y}. */
  function AxisQuestions(n: nat, x: char, y: char): (q: nat)
    requires n <= |Mapping|
    ensures q <= n
  {
    if n == 0 then 0
    else AxisQuestions(n - 1, x, y) + (if Mapping[n - 1] == (x, y) || Mapping[n - 1] == (y, x) then 1 else 0)
  }

  /** Each answer raises exactly one tally of its own axis: per axis, the two tallies add up to
      the number of that axis's questions answered. */
  lemma {:induction false} AxisTotal(answers: seq<bool>, x: char, y: char)
    requires |answers| <= |Mapping|
    requires (x, y) in {('E', 'I'), ('S', 'N'), ('T', 'F'), ('J', 'P')}
    ensures Tally(answers, x) + Tally(answers, y) == AxisQuestions(|answers|, x, y)
  {
    if answers != [] {
      AxisTotal(answers[..|answers| - 1], x, y);
    }
  }

  /** The eight tallies add up to the number of answers. */
  lemma {:induction false} TalliesSumToAnswers(answers: seq<bool>)
    requires |answers| <= |Mapping|
    ensures Tally(answers, 'E') + Tally(answers, 'I') + Tally(answers, 'S') + Tally(answers, 'N')
          + Tally(answers, 'T') + Tally(answers, 'F') + Tally(answers, 'J') + Tally(answers, 'P')
         == |answers|
  {
    if answers != [] {
      var k := |answers| - 1;
      TalliesSumToAnswers(answers[..k]);
      OneLetterWins(Pick(k, answers[k]));
    }
  }

  /** An awarded letter is exactly one of the eight. */
  lemma OneLetterWins(w: char)
    requires w in Letters
    ensures Bit(w == 'E') + Bit(w == 'I') + Bit(w == 'S') + Bit(w == 'N')
          + Bit(w == 'T') + Bit(w == 'F') + Bit(w == 'J') + Bit(w == 'P') == 1
  {
  }

  /** With a full questionnaire the axes are unbalanced: E/I and J/P are asked three times,
      S/N and T/F twice. */
  lemma FullQuestionnaireAxisTotals(answers: seq<bool>)
    requires |answers| == |Mapping|
    ensures Tally(answers, 'E') + Tally(answers, 'I') == 3
    ensures Tally(answers, 'S') + Tally(answers, 'N') == 2
    ensures Tally(answers, 'T') + Tally(answers, 'F') == 2
    ensures Tally(answers, 'J') + Tally(answers, 'P') == 3
  {
    AxisQuestionsOfTable();
    AxisTotal(answers, 'E', 'I');
    AxisTotal(answers, 'S', 'N');
    AxisTotal(answers, 'T', 'F');
    AxisTotal(answers, 'J', 'P');
  }

  /** Counting the table: three E/I and three J/P questions, two S/N and two T/F ones. */
  lemma AxisQuestionsOfTable()
    ensures AxisQuestions(|Mapping|, 'E', 'I') == 3 && AxisQuestions(|Mapping|, 'S', 'N') == 2
    ensures AxisQuestions(|Mapping|, 'T', 'F') == 2 && AxisQuestions(|Mapping|, 'J', 'P') == 3
  {
    MappingEntries();
    assert AxisQuestions(1, 'E', 'I') == 1;
  }

  /** With ten answers only S/N and T/F can tie, since E/I and J/P have an odd total. */
  lemma OnlyEvenAxesTie(answers: seq<bool>)
    requires |answers| == |Mapping|
    ensures Tally(answers, 'E') != Tally(answers, 'I')
    ensures Tally(answers, 'J') != Tally(answers, 'P')
  {
    FullQuestionnaireAxisTotals(answers);
  }

  /** The answer table entry by entry. */
  lemma MappingEntries()
    ensures Mapping[0] == ('E', 'I') && Mapping[1] == ('P', 'J') && Mapping[2] == ('S', 'N')
    ensures Mapping[3] == ('T', 'F') && Mapping[4] == ('E', 'I') && Mapping[5] == ('J', 'P')
    ensures Mapping[6] == ('N', 'S') && Mapping[7] == ('I', 'E') && Mapping[8] == ('F', 'T')
    ensures Mapping[9] == ('P', 'J')
  {
  }

  /** The tallies of a full questionnaire written out question by question. */
  lemma {:induction false} TallyOfTen(a: seq<bool>, c: char)
    requires |a| == |Mapping|
    ensures Tally(a, c) ==
      Bit(Pick(0, a[0]) == c) + Bit(Pick(1, a[1]) == c) + Bit(Pick(2, a[2]) == c) + Bit(Pick(3, a[3]) == c)
      + Bit(Pick(4, a[4]) == c) + Bit(Pick(5, a[5]) == c) + Bit(Pick(6, a[6]) == c)
      + Bit(Pick(7, a[7]) == c) + Bit(Pick(8, a[8]) == c) + Bit(Pick(9, a[9]) == c)
  {
    forall k | 0 <= k < |a|
      ensures Tally(a[..k + 1], c) == Tally(a[..k], c) + Bit(Pick(k, a[k]) == c)
    {
      TallyStep(a, k, c);
    }
    assert a[..|a|] == a;
    assert a[..0] == [];
  }

  /** E/I is asked by questions 0, 4 and 7 (7 reversed): E needs two of its three. */
  lemma AxisEIClosedForm(a: seq<bool>)
    requires |a| == |Mapping|
    ensures Mbti(a)[0] == 'E' <==> Bit(a[0]) + Bit(a[4]) + Bit(!a[7]) >= 2
  {
    MappingEntries();
    TallyOfTen(a, 'E');
    TallyOfTen(a, 'I');
  }

  /** S/N is asked by questions 2 and 6 (6 reversed): S loses only to two N's, so a 1-1 tie is S. */
  lemma AxisSNClosedForm(a: seq<bool>)
    requires |a| == |Mapping|
    ensures Mbti(a)[1] == 'S' <==> a[2] || !a[6]
  {
    MappingEntries();
    TallyOfTen(a, 'S');
    TallyOfTen(a, 'N');
  }

  /** T/F is asked by questions 3 and 8 (8 reversed): T loses only to two F's, so a 1-1 tie is T. */
  lemma AxisTFClosedForm(a: seq<bool>)
    requires |a| == |Mapping|
    ensures Mbti(a)[2] == 'T' <==> a[3] || !a[8]
  {
    MappingEntries();
    TallyOfTen(a, 'T');
    TallyOfTen(a, 'F');
  }

  /** J/P is asked by questions 1, 5 and 9 (1 and 9 reversed): J needs two of its three. */
  lemma AxisJPClosedForm(a: seq<bool>)
    requires |a| == |Mapping|
    ensures Mbti(a)[3] == 'J' <==> Bit(!a[1]) + Bit(a[5]) + Bit(!a[9]) >= 2
  {
    MappingEntries();
    TallyOfTen(a, 'J');
    TallyOfTen(a, 'P');
  }

  /** Golden vectors: ten no's give ISTJ (S/N and T/F tie and go to S and T); ten yes's give ESTP. */
  lemma GoldenVectors()
    ensures Mbti(seq(10, _ => false)) == "ISTJ"
    ensures Mbti(seq(10, _ => true)) == "ESTP"
  {
    var no := seq(10, _ => false);
    var yes := seq(10, _ => true);
    AxisEIClosedForm(no);
    AxisSNClosedForm(no);
    AxisTFClosedForm(no);
    AxisJPClosedForm(no);
    AxisEIClosedForm(yes);
    AxisSNClosedForm(yes);
    AxisTFClosedForm(yes);
    AxisJPClosedForm(yes);
  }

  /** Ties are reachable on S/N and T/F, and they resolve to S and T. */
  lemma TieGoesToFirstLetter()
    ensures var a := seq(10, _ => false);
      Tally(a, 'S') == Tally(a, 'N') && Tally(a, 'T') == Tally(a, 'F') && Mbti(a)[1] == 'S' && Mbti(a)[2] == 'T'
  {
    var a := seq(10, _ => false);
    TallyOfTen(a, 'S');
    TallyOfTen(a, 'N');
    TallyOfTen(a, 'T');
    TallyOfTen(a, 'F');
  }
}
