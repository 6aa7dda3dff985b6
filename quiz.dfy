/**
  The quiz screen: six multiple-choice questions answered in order. An answer
  locks the screen and, after a two-second pause, either moves on to the next
  question or reports the final score. The pause is modelled as an explicit
  pending continuation that `Tick` runs.
 */
module QuizScreen {
  import opened Options

  /** The option labels every question offers. */
  datatype Choice = A | B | C

  /** The correct option of each question, in order. */
  const CorrectIds: seq<Choice> := [A, B, A, B, B, B]

  const QuestionCount := 6

  /** Whether `c` is the right answer to question `index`. */
  predicate IsCorrect(index: nat, c: Choice)
    requires index < QuestionCount
  {
    c == CorrectIds[index]
  }

  /** The number of answers in `cs` that are right, `cs[i]` being the answer to question `i`. */
  function CountCorrect(cs: seq<Choice>): (n: nat)
    requires |cs| <= QuestionCount
    ensures n <= |cs|
    ensures n == |cs| <==> forall i :: 0 <= i < |cs| ==> IsCorrect(i, cs[i])
  {
    if |cs| == 0 then 0
    else CountCorrect(cs[..|cs| - 1]) + (if IsCorrect(|cs| - 1, cs[|cs| - 1]) then 1 else 0)
  }

  /** Counting one more answer adds one exactly when that answer is right. */
  lemma CountCorrectSnoc(cs: seq<Choice>, c: Choice)
    requires |cs| < QuestionCount
    ensures CountCorrect(cs + [c]) == CountCorrect(cs) + (if IsCorrect(|cs|, c) then 1 else 0)
  {
    assert (cs + [c])[..|cs|] == cs;
  }

  /**
    The timer scheduled by an accepted answer. Like the callback it stands for, it
    carries the question index, the score and the option as they were when the
    answer was given.
   */
  datatype PendingAdvance = PendingAdvance(index: nat, capturedScore: nat, choice: Choice)

  /**
    Whether an option is highlighted with its result: only while an answer is being
    checked, and then for the selected option, and for the correct one once there is
    a selection.
   */
  function ShowResult(isChecking: bool, selectedId: Option<Choice>, option: Choice, correctId: Choice): (r: bool)
    ensures !isChecking ==> !r
    ensures isChecking && selectedId.Some? ==> (r <==> option == selectedId.value || option == correctId)
    ensures selectedId.None? ==> !r
  {
    var isSelected := selectedId == Some(option);
    var isCorrect := option == correctId;
    isChecking && (isSelected || (isChecking && isCorrect && selectedId != None))
  }

  /** How an option button is drawn. */
  datatype Style = Plain | Picked | MarkedCorrect | MarkedWrong

  /** The option's look: its result if shown, otherwise picked or plain. */
  function ButtonStyle(isChecking: bool, selectedId: Option<Choice>, option: Choice, correctId: Choice): (s: Style)
    ensures s == MarkedCorrect ==> isChecking && option == correctId
    ensures s == MarkedWrong ==> isChecking && selectedId == Some(option) && option != correctId
  {
    var isSelected := selectedId == Some(option);
    if ShowResult(isChecking, selectedId, option, correctId) then
      if option == correctId then MarkedCorrect
      else if isSelected then MarkedWrong
      else Plain
    else if isSelected then Picked
    else Plain
  }

  /**
    While an answer is checked, the correct option is marked correct, the chosen
    option is marked wrong when it is not the correct one, and every other option is plain.
   */
  lemma CheckedStyles(selected: Choice, option: Choice, correctId: Choice)
    ensures ButtonStyle(true, Some(selected), option, correctId) ==
      if option == correctId then MarkedCorrect
      else if option == selected then MarkedWrong
      else Plain
  {
  }

  /** The quiz screen's state (its `useState` fields) and the pending timer. */
  class QuizSession {
    var currentIndex: nat
    var selectedId: Option<Choice>
    /** The lock: set from an accepted answer until the next question is shown. */
    var isChecking: bool
    var score: nat
    /** The scheduled two-second continuation, if it has not fired yet. */
    var timer: Option<PendingAdvance>
    /** The answers accepted so far, one per question reached. */
    ghost var answers: seq<Choice>

    /**
      The index stays within the questions; one answer has been given for every
      question before the current one, and one for the current question exactly
      while the screen is locked; the score counts the right ones; a selection is
      shown exactly while locked; a pending timer belongs to the current question,
      and what it captured is the state just before the answer it follows.
     */
    ghost predicate Valid()
      reads this
    {
      && currentIndex < QuestionCount
      && |answers| == currentIndex + (if isChecking then 1 else 0)
      && score == CountCorrect(answers)
      && (isChecking <==> selectedId.Some?)
      && (isChecking ==> selectedId == Some(answers[currentIndex]))
      && (timer.Some? ==>
            && isChecking
            && timer.value.index == currentIndex
            && timer.value.choice == answers[currentIndex]
            && timer.value.capturedScore == CountCorrect(answers[..currentIndex]))
    }

    /** Mounting the screen: first question, nothing selected, unlocked, no score. */
    constructor ()
      ensures Valid()
      ensures currentIndex == 0 && selectedId == None && !isChecking && score == 0
      ensures timer == None && answers == []
    {
      currentIndex := 0;
      selectedId := None;
      isChecking := false;
      score := 0;
      timer := None;
      answers := [];
    }

    /**
      Clicking an option. While locked nothing happens. Otherwise the option becomes
      the selection, the screen locks, a right answer scores one point and the
      timer is scheduled with the current index, score and option.
     */
    method Answer(choice: Choice) returns (accepted: bool)
      requires Valid()
      modifies this
      ensures Valid()
      ensures accepted <==> !old(isChecking)
      ensures !accepted ==>
        && currentIndex == old(currentIndex) && selectedId == old(selectedId) && isChecking
        && score == old(score) && timer == old(timer) && answers == old(answers)
      ensures accepted ==>
        && currentIndex == old(currentIndex)
        && selectedId == Some(choice) && isChecking
        && score == old(score) + (if IsCorrect(currentIndex, choice) then 1 else 0)
        && timer == Some(PendingAdvance(currentIndex, old(score), choice))
        && answers == old(answers) + [choice]
    {
      if isChecking {
        return false;
      }
      CountCorrectSnoc(answers, choice);
      assert (answers + [choice])[..currentIndex] == answers;
      selectedId := Some(choice);
      isChecking := true;
      timer := Some(PendingAdvance(currentIndex, score, choice));
      if IsCorrect(currentIndex, choice) {
        score := score + 1;
      }
      answers := answers + [choice];
      accepted := true;
    }

    /**
      The timer fires. Before the last question it moves to the next question,
      clears the selection and unlocks. On the last question it reports the score
      it captured plus the point of the answer it follows, which is the number of
      right answers among all six, and the screen stays locked.
     */
    method Tick() returns (finished: Option<nat>)
      requires Valid()
      requires timer.Some?
      modifies this
      ensures Valid()
      ensures timer == None && score == old(score) && answers == old(answers)
      ensures old(currentIndex) < QuestionCount - 1 ==>
        && finished == None
        && currentIndex == old(currentIndex) + 1
        && selectedId == None && !isChecking
      ensures old(currentIndex) == QuestionCount - 1 ==>
        && finished == Some(score)
        && |answers| == QuestionCount
        && currentIndex == old(currentIndex) && selectedId == old(selectedId) && isChecking
    {
      var t := timer.value;
      timer := None;
      if t.index < QuestionCount - 1 {
        currentIndex := currentIndex + 1;
        selectedId := None;
        isChecking := false;
        finished := None;
      } else {
        CountCorrectSnoc(answers[..currentIndex], t.choice);
        assert answers[..currentIndex] + [t.choice] == answers;
        finished := Some(t.capturedScore + (if IsCorrect(t.index, t.choice) then 1 else 0));
      }
    }
  }
}
