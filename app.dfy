/**
  The application shell: a five-phase screen controller that owns the quiz score,
  and the mascot's message and mood, which are computed from the phase and the score.
  Only the screen of the current phase is mounted, so each screen callback is
  modelled with its phase as a precondition; the quiz's finish report is the
  exception, because it arrives from a timer that outlives the quiz screen, and
  possibly after a later quiz screen has been mounted.
 */
module App {
  import opened Options
  import QuizScreen

  datatype Phase = Intro | MindMap | Quiz | Result | Game

  datatype Emotion = Happy | Excited | Neutral

  /** The score above which the result counts as a victory. */
  const VictoryThreshold := 5

  /**
    The screen flow: start, mind map to quiz, quiz to result, restart or play the
    game from the result, leave the game, and the home button of the mind map, of
    the quiz and of the game.
   */
  predicate Edge(from: Phase, to: Phase)
  {
    || (from == Intro && to == MindMap)
    || (from == MindMap && to == Quiz)
    || (from == Quiz && to == Result)
    || (from == Result && to == MindMap)
    || (from == Result && to == Game)
    || (from == Game && to == Intro)
    || (from == MindMap && to == Intro)
    || (from == Quiz && to == Intro)
  }

  /** The result screen is entered only from the quiz, and the quiz only from the mind map. */
  lemma EdgeEntries(p: Phase)
    ensures Edge(p, Result) <==> p == Quiz
    ensures Edge(p, Quiz) <==> p == MindMap
    ensures Edge(p, Game) <==> p == Result
    ensures Edge(p, Intro) <==> p in {MindMap, Quiz, Game}
  {
  }

  const IntroMessage := "Chào bạn! Cùng tìm hiểu về Thực vật và Động vật nhé!"
  const MindMapMessage := "Bấm vào các ô để nghe kiến thức nha!"
  const QuizMessage := "Chọn đáp án đúng nhất nhé!"
  const GameMessage := "Kéo thả vào đúng nhóm nào!"
  const PraiseMessage := "Bạn giỏi quá đi!"
  const EncourageMessage := "Không sao, làm lại nào!"

  /**
    The mascot's line for each phase. It is never empty, and on the result screen it
    is the praise exactly when the score is above the threshold.
   */
  function CharacterMessage(phase: Phase, score: int): (m: string)
    ensures m != ""
    ensures phase == Result ==> (m == PraiseMessage <==> score > VictoryThreshold)
    ensures phase == Result ==> (m == EncourageMessage <==> score <= VictoryThreshold)
    ensures phase != Result ==> m != PraiseMessage && m != EncourageMessage
  {
    match phase
    case Intro => IntroMessage
    case MindMap => MindMapMessage
    case Quiz => QuizMessage
    case Game => GameMessage
    case Result => if score > VictoryThreshold then PraiseMessage else EncourageMessage
  }

  /** The mascot's mood: excited exactly after a victory, neutral during the quiz and the game, happy otherwise. */
  function CharacterEmotion(phase: Phase, score: int): (e: Emotion)
    ensures e == Excited <==> phase == Result && score > VictoryThreshold
    ensures e == Neutral <==> phase == Quiz || phase == Game
    ensures e == Happy <==> phase.Intro? || phase.MindMap? || (phase.Result? && score <= VictoryThreshold)
  {
    if phase == Result && score > VictoryThreshold then Excited
    else if phase == Quiz || phase == Game then Neutral
    else Happy
  }

  /** The mascot is excited exactly when it speaks the praise. */
  lemma ExcitedIffPraised(phase: Phase, score: int)
    ensures CharacterEmotion(phase, score) == Excited <==> CharacterMessage(phase, score) == PraiseMessage
  {
  }

  /** The shell's state: the phase, the last quiz score and the outcome of the voice check. */
  class AppController {
    var phase: Phase
    var score: int
    /** Whether a Vietnamese voice was found; `None` until the check has answered. */
    var hasVoice: Option<bool>
    /** How many times a quiz screen has been mounted; the current one is number `quizMount`. */
    var quizMount: nat

    constructor ()
      ensures phase == Intro && score == 0 && hasVoice == None && quizMount == 0
    {
      phase := Intro;
      score := 0;
      hasVoice := None;
      quizMount := 0;
    }

    /** The voice check started at mount has answered. */
    method VoiceChecked(status: bool)
      modifies this
      ensures hasVoice == Some(status)
      ensures phase == old(phase) && score == old(score) && quizMount == old(quizMount)
    {
      hasVoice := Some(status);
    }

    /** The intro's start button. */
    method StartApp()
      requires phase == Intro
      modifies this
      ensures phase == MindMap && Edge(old(phase), phase)
      ensures score == old(score) && hasVoice == old(hasVoice) && quizMount == old(quizMount)
    {
      phase := MindMap;
    }

    /** The mind map's "go to the quiz" button: a fresh quiz screen is mounted. */
    method MindMapComplete()
      requires phase == MindMap
      modifies this
      ensures phase == Quiz && Edge(old(phase), phase)
      ensures quizMount == old(quizMount) + 1
      ensures score == old(score) && hasVoice == old(hasVoice)
    {
      phase := Quiz;
      quizMount := quizMount + 1;
    }

    /** The home button of the mind map, of the quiz or of the game. */
    method GoHome()
      requires phase in {MindMap, Quiz, Game}
      modifies this
      ensures phase == Intro && Edge(old(phase), phase)
      ensures score == old(score) && hasVoice == old(hasVoice) && quizMount == old(quizMount)
    {
      phase := Intro;
    }

    /**
      The quiz's finish report as the shell wires it: it stores the score and shows
      the result screen, whatever the current phase is and whichever quiz screen
      scheduled it.
     */
    method QuizFinishAsWritten(finalScore: int)
      modifies this
      ensures phase == Result && score == finalScore
      ensures hasVoice == old(hasVoice) && quizMount == old(quizMount)
    {
      score := finalScore;
      phase := Result;
    }

    /**
      The finish report with the screen discipline the shell relies on. The report
      carries the number of the quiz screen that scheduled it, and it is honoured
      only while that very screen is the one shown; a report from a screen that has
      gone away, even if another quiz screen has been mounted since, is ignored.
      Every change it makes follows the screen flow.
     */
    method QuizFinish(finalScore: int, mount: nat)
      modifies this
      ensures old(phase) == Quiz && mount == old(quizMount) ==> phase == Result && score == finalScore
      ensures !(old(phase) == Quiz && mount == old(quizMount)) ==> phase == old(phase) && score == old(score)
      ensures phase == old(phase) || Edge(old(phase), phase)
      ensures hasVoice == old(hasVoice) && quizMount == old(quizMount)
    {
      if phase == Quiz && mount == quizMount {
        score := finalScore;
        phase := Result;
      }
    }

    /** The result screen's restart button: the score is cleared and the mind map shown again. */
    method Restart()
      requires phase == Result
      modifies this
      ensures phase == MindMap && score == 0 && Edge(old(phase), phase)
      ensures hasVoice == old(hasVoice) && quizMount == old(quizMount)
    {
      score := 0;
      phase := MindMap;
    }

    /** The result screen's "play the game" button. */
    method PlayGame()
      requires phase == Result
      modifies this
      ensures phase == Game && Edge(old(phase), phase)
      ensures score == old(score) && hasVoice == old(hasVoice) && quizMount == old(quizMount)
    {
      phase := Game;
    }

    /** The game's finish button, shown once every item is placed. */
    method GameComplete()
      requires phase == Game
      modifies this
      ensures phase == Intro && Edge(old(phase), phase)
      ensures score == old(score) && hasVoice == old(hasVoice) && quizMount == old(quizMount)
    {
      phase := Intro;
    }
  }

  /**
    A freshly mounted quiz screen answered with option `A` on every question, up to
    the moment the last answer is shown and the final two-second timer is pending.
    Two of the six answers are right (questions one and three).
   */
  method AnswerAllQuestions() returns (quiz: QuizScreen.QuizSession)
    ensures fresh(quiz) && quiz.Valid()
    ensures quiz.currentIndex == QuizScreen.QuestionCount - 1 && quiz.timer.Some?
    ensures quiz.score == 2
  {
    quiz := new QuizScreen.QuizSession();
    var i := 0;
    while i < QuizScreen.QuestionCount - 1
      invariant 0 <= i <= QuizScreen.QuestionCount - 1
      invariant quiz.Valid() && quiz.currentIndex == i && !quiz.isChecking && quiz.timer == None
      invariant quiz.score == [0, 1, 1, 2, 2, 2][i]
    {
      var accepted := quiz.Answer(QuizScreen.A);
      var report := quiz.Tick();
      i := i + 1;
    }
    var accepted := quiz.Answer(QuizScreen.A);
  }

  /**
    The quiz's two-second timer is not cancelled when the quiz screen goes away.
    Answer the six questions, press home while the last answer is shown, and the
    timer still reports: as wired, the shell jumps from the intro straight to the
    result screen, a move the screen flow does not have; with the guard it stays put.
   */
  method StaleQuizTimer() returns (before: Phase, asWritten: Phase, corrected: Phase)
    ensures before == Intro && asWritten == Result && corrected == Intro
    ensures !Edge(before, asWritten)
  {
    var shell := new AppController();
    var guarded := new AppController();
    shell.StartApp();
    shell.MindMapComplete();
    guarded.StartApp();
    guarded.MindMapComplete();
    var mount := guarded.quizMount;
    var quiz := AnswerAllQuestions();
    shell.GoHome();
    guarded.GoHome();
    before := shell.phase;
    var report := quiz.Tick();
    shell.QuizFinishAsWritten(report.value);
    guarded.QuizFinish(report.value, mount);
    asWritten, corrected := shell.phase, guarded.phase;
  }

  /**
    The same timer after re-entering the quiz: answer the six questions, press home,
    start again and open a new quiz, all within the two seconds. The old screen's
    report then arrives while the new quiz is in progress: as wired, the shell
    abandons the new quiz for the result screen and stores the old quiz's score 2;
    with the mount check the new quiz stays on screen and the score is still 0. A
    check of the phase alone would not tell the two quiz screens apart.
   */
  method StaleTimerAfterReentry() returns (before: Phase, asWritten: Phase, corrected: Phase, asWrittenScore: int, correctedScore: int)
    ensures before == Quiz && asWritten == Result && corrected == Quiz
    ensures asWrittenScore == 2 && correctedScore == 0
  {
    var shell := new AppController();
    var guarded := new AppController();
    shell.StartApp();
    shell.MindMapComplete();
    guarded.StartApp();
    guarded.MindMapComplete();
    var mount := guarded.quizMount;
    var quiz := AnswerAllQuestions();
    shell.GoHome();
    guarded.GoHome();
    shell.StartApp();
    shell.MindMapComplete();
    guarded.StartApp();
    guarded.MindMapComplete();
    before := shell.phase;
    var report := quiz.Tick();
    shell.QuizFinishAsWritten(report.value);
    guarded.QuizFinish(report.value, mount);
    asWritten, corrected := shell.phase, guarded.phase;
    asWrittenScore, correctedScore := shell.score, guarded.score;
  }
}
