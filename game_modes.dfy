/**
 * The game logic around the analyser: quiz grading and levelling, the
 * end-behaviour race, the holes step of the graph builder and the generation
 * of quiz and race functions. Widgets, layout and randomness are not modelled:
 * button presses, parsed answers and random draws arrive as parameters.
 */
module GameModes {
  import opened Wrappers
  import opened Polynomials
  import opened RationalAnalysis
  import opened Text
  import opened Session

  // ---------------------------------------------------------------------------
  // Quiz grading

  /** The horizontal-asymptote answer after `strip()`: the word `none` in any
      case, a number `float()` accepts, or anything else. */
  datatype HorizontalAnswer = SaysNone | Numeral(v: real) | Unreadable

  /** The four answers after parsing; `None` stands for text `float()` rejects. */
  datatype QuizAnswers = QuizAnswers(
    vertical: Option<seq<real>>,
    horizontal: HorizontalAnswer,
    xIntercepts: Option<seq<real>>,
    yIntercept: Option<real>)

  function SetOf(s: seq<real>): set<real> {
    set x | x in s
  }

  /** Within the 0.01 grading tolerance. */
  predicate Close(a: real, b: real) {
    Abs(a - b) < 0.01
  }

  /** 2 points when the answered values, as a set, are the correct values. */
  function VerticalCredit(answer: Option<seq<real>>, correct: seq<real>): nat {
    if answer.Some? && SetOf(answer.value) == SetOf(correct) then 2 else 0
  }

  /** 2 points for `none` when there is no asymptote, or for a number close to it. */
  function HorizontalCredit(answer: HorizontalAnswer, correct: Horizontal): nat {
    if answer == SaysNone && correct == NoAsymptote then 2
    else if correct.AsymptoteAt? && answer.Numeral? && Close(answer.v, correct.y) then 2
    else 0
  }

  /** 1 point when the answered values, as a set, are the correct values. */
  function InterceptCredit(answer: Option<seq<real>>, correct: seq<real>): nat {
    if answer.Some? && SetOf(answer.value) == SetOf(correct) then 1 else 0
  }

  /** 1 point for a number close to an existing y-intercept. */
  function YInterceptCredit(answer: Option<real>, correct: Option<real>): nat {
    if correct.Some? && answer.Some? && Close(answer.value, correct.value) then 1 else 0
  }

  /** The quiz score for a summary. An error summary has none of the four keys,
      so every lookup raises and nothing is earned. */
  function QuizScore(summary: Summary, answers: QuizAnswers): (score: nat)
    ensures score <= 6
  {
    if summary.Error? then 0
    else VerticalCredit(answers.vertical, summary.verticalAsymptotes)
         + HorizontalCredit(answers.horizontal, summary.horizontalAsymptote)
         + InterceptCredit(answers.xIntercepts, summary.xIntercepts)
         + YInterceptCredit(answers.yIntercept, summary.yIntercept)
  }

  /** `grade_quiz_answers`: the score accumulates over four independent checks. */
  method GradeQuizAnswers(analyzer: RationalAnalyzer, answers: QuizAnswers) returns (score: int)
    ensures score == QuizScore(analyzer.SummaryOf(), answers)
    ensures 0 <= score <= 6
  {
    score := 0;
    var analysis := analyzer.GetAnalysisSummary();
    if analysis.Error? {
      return;
    }
    if answers.vertical.Some? && SetOf(answers.vertical.value) == SetOf(analysis.verticalAsymptotes) {
      score := score + 2;
    }
    var correctHorizontal := analysis.horizontalAsymptote;
    if answers.horizontal == SaysNone && correctHorizontal == NoAsymptote {
      score := score + 2;
    } else if correctHorizontal.AsymptoteAt? && answers.horizontal.Numeral?
              && Close(answers.horizontal.v, correctHorizontal.y) {
      score := score + 2;
    }
    if answers.xIntercepts.Some? && SetOf(answers.xIntercepts.value) == SetOf(analysis.xIntercepts) {
      score := score + 1;
    }
    var correctY := analysis.yIntercept;
    if correctY.Some? && answers.yIntercept.Some? && Close(answers.yIntercept.value, correctY.value) {
      score := score + 1;
    }
  }

  /** Order and repetition in an answer list do not matter, and an empty answer
      earns the points exactly when there is nothing to list. */
  lemma ListCreditIgnoresOrder(a: seq<real>, b: seq<real>, correct: seq<real>)
    requires forall x :: x in a <==> x in b
    ensures VerticalCredit(Some(a), correct) == VerticalCredit(Some(b), correct)
    ensures InterceptCredit(Some(a), correct) == InterceptCredit(Some(b), correct)
    ensures VerticalCredit(Some([]), correct) == 2 <==> correct == []
    ensures InterceptCredit(Some([]), correct) == 1 <==> correct == []
  {
    assert SetOf(a) == SetOf(b) by {
      forall x ensures x in SetOf(a) <==> x in SetOf(b) {
      }
    }
    if correct != [] {
      assert correct[0] in SetOf(correct);
    }
  }

  /** Answering `none` earns the horizontal points exactly when the numerator's
      degree exceeds the denominator's. */
  lemma NoneAnswerCreditIffDegreeAbove(analyzer: RationalAnalyzer)
    requires analyzer.valid
    ensures HorizontalCredit(SaysNone, analyzer.FindHorizontalAsymptote()) == 2 <==>
            Degree(analyzer.numerator) > Degree(analyzer.denominator)
  {
  }

  /** No y-intercept answer scores when the denominator's constant term is 0. */
  lemma NoYCreditWhenUndefinedAtZero(analyzer: RationalAnalyzer, answer: Option<real>)
    requires analyzer.valid && Coef(analyzer.denominator, 0) == 0.0
    ensures YInterceptCredit(answer, analyzer.FindYIntercept()) == 0
  {
  }

  /** The answers that repeat the summary earn all six points, whenever the
      summary has a finite horizontal asymptote or none, and a y-intercept. */
  lemma CorrectAnswersEarnSix(summary: Summary, answers: QuizAnswers)
    requires summary.Analysis? && !summary.horizontalAsymptote.NaN? && summary.yIntercept.Some?
    requires answers.vertical == Some(summary.verticalAsymptotes)
    requires answers.xIntercepts == Some(summary.xIntercepts)
    requires answers.yIntercept == summary.yIntercept
    requires answers.horizontal ==
             (if summary.horizontalAsymptote.NoAsymptote? then SaysNone
              else Numeral(summary.horizontalAsymptote.y))
    ensures QuizScore(summary, answers) == 6
  {
  }

  /** `feature_quiz_mode` on Submit: the earned points are added to the score,
      then the level rises by one when the new score reaches ten times the level. */
  method SubmitQuizAnswers(s: SessionState, analyzer: RationalAnalyzer, answers: QuizAnswers)
    returns (earned: int)
    requires {Score, Level} <= s.present
    modifies s`score, s`level
    ensures earned == QuizScore(analyzer.SummaryOf(), answers) && 0 <= earned <= 6
    ensures s.score == old(s.score) + earned
    ensures s.level == (if s.score >= old(s.level) * 10 then old(s.level) + 1 else old(s.level))
  {
    earned := GradeQuizAnswers(analyzer, answers);
    s.score := s.score + earned;
    if s.score >= s.level * 10 {
      s.level := s.level + 1;
    }
  }

  // ---------------------------------------------------------------------------
  // Function generation

  /** `min(level, 4)`. */
  function ClampLevel(level: int): (l: int)
    ensures l <= 4 && l <= level && (l == level || l == 4)
  {
    if level < 4 then level else 4
  }

  /** How many random integers `generate_quiz_function` draws at a clamped level. */
  function QuizDrawCount(level: int): nat {
    if level == 1 || level == 2 then 4 else 6
  }

  /** `linearText(a, b)` is `f"{a}*x + {b}"`. */
  function LinearText(a: int, b: int): string {
    IntToString(a) + "*x + " + IntToString(b)
  }

  /** The numerator text `generate_quiz_function` writes for a clamped level. */
  function QuizNumerator(level: int, draws: seq<int>): string
    requires |draws| == QuizDrawCount(level)
  {
    if level == 1 || level == 2 then LinearText(draws[0], draws[1])
    else IntToString(draws[0]) + "*x**2 + " + LinearText(draws[1], draws[2])
  }

  /** The denominator text; at level 1 the drawn `c` is replaced by 1 when it
      is 0 (`d` is adjusted the same way but never used). */
  function QuizDenominator(level: int, draws: seq<int>): string
    requires |draws| == QuizDrawCount(level)
  {
    if level == 1 then "x + " + IntToString(if draws[2] == 0 then 1 else draws[2])
    else if level == 2 then "x**2 + " + IntToString(draws[2]) + "*x + " + IntToString(draws[3])
    else IntToString(draws[3]) + "*x**2 + " + LinearText(draws[4], draws[5])
  }

  /** The function `generate_quiz_function` stores for a clamped level and its draws. */
  function QuizCard(level: int, draws: seq<int>): (card: FunctionCard)
    requires |draws| == QuizDrawCount(level)
    ensures card.numerator == QuizNumerator(level, draws)
    ensures card.denominator == QuizDenominator(level, draws)
    ensures card.numeratorLatex == Without(card.numerator, '*')
    ensures card.denominatorLatex == Without(card.denominator, '*')
  {
    var numerator := QuizNumerator(level, draws);
    var denominator := QuizDenominator(level, draws);
    FunctionCard(numerator, denominator, LatexOf(numerator), LatexOf(denominator))
  }

  /** The level-1 denominator never has a zero constant term, so `x + c`
      always has its pole away from the origin. */
  lemma LevelOneDenominatorNeverXPlusZero(draws: seq<int>)
    requires |draws| == 4
    ensures QuizDenominator(1, draws) != "x + 0"
  {
    var c := if draws[2] == 0 then 1 else draws[2];
    var t := IntToString(c);
    assert ("x + " + t)[4..] == t;
  }

  /** Every level from 3 up produces the same general quadratic shape. */
  lemma QuizLevelsFromThreeAgree(level: int, draws: seq<int>)
    requires level >= 3 && |draws| == 6
    ensures QuizDrawCount(ClampLevel(level)) == 6
    ensures QuizCard(ClampLevel(level), draws) == QuizCard(3, draws)
  {
  }

  /** `generate_quiz_function`: stores the card for `min(level, 4)`. */
  method GenerateQuizFunction(s: SessionState, draws: seq<int>)
    requires Level in s.present
    requires |draws| == QuizDrawCount(ClampLevel(s.level))
    modifies s`quizFunction, s`present
    ensures s.quizFunction == QuizCard(ClampLevel(s.level), draws)
    ensures s.present == old(s.present) + {QuizFunction}
  {
    var level := ClampLevel(s.level);
    s.quizFunction := QuizCard(level, draws);
    s.present := s.present + {QuizFunction};
  }

  /** The four coefficients one race function draws (each from 1..3 in the game). */
  datatype RaceDraw = RaceDraw(a: int, b: int, c: int, d: int)

  /** One race function: `(a*x + b) / (c*x + d)`, with its LaTeX text. */
  function RaceCard(draw: RaceDraw): (card: FunctionCard)
    ensures card.numerator == LinearText(draw.a, draw.b)
    ensures card.denominator == LinearText(draw.c, draw.d)
    ensures card.numeratorLatex == Without(card.numerator, '*')
    ensures card.denominatorLatex == Without(card.denominator, '*')
  {
    var numerator := LinearText(draw.a, draw.b);
    var denominator := LinearText(draw.c, draw.d);
    FunctionCard(numerator, denominator, DeleteStars(numerator), DeleteStars(denominator))
  }

  /** One card per draw, in draw order. Defined on the last draw so that it
      follows the generating loop. */
  function RaceCards(draws: seq<RaceDraw>): (cards: seq<FunctionCard>)
    ensures |cards| == |draws|
    decreases |draws|
  {
    if |draws| == 0 then [] else RaceCards(draws[..|draws| - 1]) + [RaceCard(draws[|draws| - 1])]
  }

  /** Card k of the list is the card of draw k. */
  lemma {:induction false} RaceCardsElementwise(draws: seq<RaceDraw>, k: nat)
    requires k < |draws|
    ensures RaceCards(draws)[k] == RaceCard(draws[k])
    decreases |draws|
  {
    if k < |draws| - 1 {
      RaceCardsElementwise(draws[..|draws| - 1], k);
    }
  }

  /** `generate_race_functions`: one function per draw, in draw order. */
  method GenerateRaceFunctions(draws: seq<RaceDraw>) returns (functions: seq<FunctionCard>)
    ensures functions == RaceCards(draws)
  {
    functions := [];
    var i := 0;
    while i < |draws|
      invariant 0 <= i <= |draws|
      invariant functions == RaceCards(draws[..i])
    {
      assert draws[..i + 1][..i] == draws[..i];
      functions := functions + [RaceCard(draws[i])];
      i := i + 1;
    }
    assert draws[..i] == draws;
  }

  // ---------------------------------------------------------------------------
  // End-behaviour race

  datatype EndChoice = TowardsPlusInfinity | TowardsMinusInfinity | TowardsFiniteValue

  /** `check_end_behavior`: the answers are not compared; every answer counts as correct. */
  function CheckEndBehavior(card: FunctionCard, negAnswer: EndChoice, posAnswer: EndChoice): (correct: bool)
    ensures correct
  {
    true
  }

  /** The race's share of the session. */
  datatype RaceView = RaceView(active: bool, functions: seq<FunctionCard>, raceScore: int, score: int)

  /** What the visitor does during one run of the race page. */
  datatype RaceEvent = PressStart(draws: seq<RaceDraw>) | PressSubmit(neg: EndChoice, pos: EndChoice) | NoPress

  /** One run of the race page: start, answer the first function, or, once the
      functions are used up, bank twice the race score and stop. */
  function RaceStep(v: RaceView, e: RaceEvent): (w: RaceView)
    ensures w.score != v.score ==>
            v.active && |v.functions| == 0 && !w.active && w.score == v.score + 2 * v.raceScore
    ensures |w.functions| > |v.functions| ==> !v.active && e.PressStart? && w.active && w.raceScore == 0
  {
    if !v.active then
      if e.PressStart? then RaceView(true, RaceCards(e.draws), 0, v.score) else v
    else if |v.functions| > 0 then
      if e.PressSubmit? then
        var correct := CheckEndBehavior(v.functions[0], e.neg, e.pos);
        RaceView(true, v.functions[1..], v.raceScore + (if correct then 1 else 0), v.score)
      else v
    else RaceView(false, v.functions, v.raceScore, v.score + 2 * v.raceScore)
  }

  function RunRace(v: RaceView, events: seq<RaceEvent>): RaceView
    decreases |events|
  {
    if |events| == 0 then v else RunRace(RaceStep(v, events[0]), events[1..])
  }

  predicate AllSubmits(events: seq<RaceEvent>) {
    forall k :: 0 <= k < |events| ==> events[k].PressSubmit?
  }

  /** During a race each submit drops exactly the first function and adds one point. */
  lemma {:induction false} SubmitsCount(v: RaceView, events: seq<RaceEvent>)
    requires v.active && AllSubmits(events) && |events| <= |v.functions|
    ensures RunRace(v, events) ==
            RaceView(true, v.functions[|events|..], v.raceScore + |events|, v.score)
    decreases |events|
  {
    if |events| > 0 {
      var next := RaceStep(v, events[0]);
      assert next == RaceView(true, v.functions[1..], v.raceScore + 1, v.score);
      assert AllSubmits(events[1..]) by {
        forall k | 0 <= k < |events[1..]| ensures events[1..][k].PressSubmit? {
          assert events[1..][k] == events[k + 1];
        }
      }
      SubmitsCount(next, events[1..]);
      assert v.functions[1..][|events| - 1..] == v.functions[|events|..];
    }
  }

  /** Answering every remaining function and reloading once banks twice the
      race score and ends the race. */
  lemma FinishRace(v: RaceView, answers: seq<RaceEvent>, last: RaceEvent)
    requires v.active && AllSubmits(answers) && |answers| == |v.functions|
    ensures RunRace(v, answers + [last]) ==
            RaceView(false, [], v.raceScore + |answers|, v.score + 2 * (v.raceScore + |answers|))
  {
    RunRaceAppend(v, answers, [last]);
    SubmitsCount(v, answers);
    var done := RunRace(v, answers);
    assert done.functions == [];
    assert RunRace(done, [last]) == RaceStep(done, last);
  }

  /** A whole race: start with five functions, submit five answers, and the
      next run of the page adds 10 to the score and ends the race. */
  lemma FullRaceAddsTen(v: RaceView, draws: seq<RaceDraw>, answers: seq<RaceEvent>, last: RaceEvent)
    requires !v.active && |draws| == 5
    requires |answers| == 5 && AllSubmits(answers)
    ensures RunRace(v, [PressStart(draws)] + answers + [last]) ==
            RaceView(false, [], 5, v.score + 10)
  {
    var started := RaceView(true, RaceCards(draws), 0, v.score);
    assert RaceStep(v, PressStart(draws)) == started;
    var tail := answers + [last];
    assert [PressStart(draws)] + answers + [last] == [PressStart(draws)] + tail;
    RunRaceCons(v, PressStart(draws), tail);
    FinishRace(started, answers, last);
  }

  lemma RunRaceCons(v: RaceView, e: RaceEvent, rest: seq<RaceEvent>)
    ensures RunRace(v, [e] + rest) == RunRace(RaceStep(v, e), rest)
  {
    assert ([e] + rest)[1..] == rest;
  }

  lemma {:induction false} RunRaceAppend(v: RaceView, first: seq<RaceEvent>, rest: seq<RaceEvent>)
    ensures RunRace(v, first + rest) == RunRace(RunRace(v, first), rest)
    decreases |first|
  {
    if |first| > 0 {
      assert (first + rest)[0] == first[0];
      assert (first + rest)[1..] == first[1..] + rest;
      RunRaceAppend(RaceStep(v, first[0]), first[1..], rest);
    } else {
      assert first + rest == rest;
    }
  }

  const RaceKeys: set<Key> := {RaceActive, RaceFunctions, RaceScore}

  /** The race view once the missing race keys have their defaults. */
  function RaceViewWithDefaults(s: SessionState): RaceView
    reads s
  {
    RaceView(
      if RaceActive in s.present then s.raceActive else false,
      if RaceFunctions in s.present then s.raceFunctions else [],
      if RaceScore in s.present then s.raceScore else 0,
      s.score)
  }

  function RaceViewOf(s: SessionState): RaceView
    reads s
  {
    RaceView(s.raceActive, s.raceFunctions, s.raceScore, s.score)
  }

  /** `end_behavior_race_mode`, one run of the page: fill in the missing race
      keys, then take the race one step. */
  method EndBehaviorRaceMode(s: SessionState, event: RaceEvent)
    requires Score in s.present
    requires event.PressStart? ==> |event.draws| == 5
    modifies s`present, s`raceActive, s`raceFunctions, s`raceScore, s`raceStartTime, s`score
    ensures RaceViewOf(s) == RaceStep(old(RaceViewWithDefaults(s)), event)
    ensures s.present == old(s.present) + RaceKeys +
            (if !old(RaceViewWithDefaults(s)).active && event.PressStart? then {RaceStartTime} else {})
    ensures s.raceStartTime ==
            (if RaceStartTime !in old(s.present) && !old(RaceViewWithDefaults(s)).active && event.PressStart?
             then 0 else old(s.raceStartTime))
  {
    FillRaceDefaults(s);
    TakeRaceStep(s, event);
  }

  /** The three `if ... not in st.session_state` defaults of the race page. */
  method FillRaceDefaults(s: SessionState)
    modifies s`present, s`raceActive, s`raceFunctions, s`raceScore
    ensures RaceViewOf(s) == old(RaceViewWithDefaults(s))
    ensures s.present == old(s.present) + RaceKeys
  {
    if RaceActive !in s.present {
      s.raceActive := false;
      s.present := s.present + {RaceActive};
    }
    if RaceFunctions !in s.present {
      s.raceFunctions := [];
      s.present := s.present + {RaceFunctions};
    }
    if RaceScore !in s.present {
      s.raceScore := 0;
      s.present := s.present + {RaceScore};
    }
  }

  /** The race page once its keys exist: start, answer, or finish. */
  method TakeRaceStep(s: SessionState, event: RaceEvent)
    requires Score in s.present
    requires event.PressStart? ==> |event.draws| == 5
    modifies s`present, s`raceActive, s`raceFunctions, s`raceScore, s`raceStartTime, s`score
    ensures RaceViewOf(s) == RaceStep(old(RaceViewOf(s)), event)
    ensures s.present == old(s.present) +
            (if !old(s.raceActive) && event.PressStart? then {RaceStartTime} else {})
    ensures s.raceStartTime ==
            (if RaceStartTime !in old(s.present) && !old(s.raceActive) && event.PressStart?
             then 0 else old(s.raceStartTime))
  {
    ghost var before := RaceViewOf(s);
    if !s.raceActive {
      if event.PressStart? {
        s.raceActive := true;
        s.raceFunctions := GenerateRaceFunctions(event.draws);
        s.raceScore := 0;
        // race_start_time keeps its value, or becomes 0 when absent
        if RaceStartTime !in s.present {
          s.raceStartTime := 0;
        }
        s.present := s.present + {RaceStartTime};
        assert RaceViewOf(s) == RaceView(true, RaceCards(event.draws), 0, before.score);
      }
    } else if |s.raceFunctions| > 0 {
      if event.PressSubmit? {
        var correct := CheckEndBehavior(s.raceFunctions[0], event.neg, event.pos);
        if correct {
          s.raceScore := s.raceScore + 1;
        }
        s.raceFunctions := s.raceFunctions[1..];
        assert RaceViewOf(s) == RaceView(true, before.functions[1..], before.raceScore + 1, before.score);
      }
    } else {
      s.score := s.score + s.raceScore * 2;
      s.raceActive := false;
    }
  }

  // ---------------------------------------------------------------------------
  // Graph builder: the holes step

  /** What the holes step shows after Check Holes. */
  datatype HolesFeedback = NoFeedback | ConfirmedNoHoles | ShowedHoles(holes: seq<Hole>) | MovedOn

  /** `build_holes`: pressing the button always advances to the next step,
      whatever was typed; only the message differs. */
  method BuildHoles(s: SessionState, analyzer: RationalAnalyzer, saysNone: bool, pressed: bool)
    returns (feedback: HolesFeedback)
    requires CurrentStep in s.present
    modifies s`currentStep
    ensures s.currentStep == old(s.currentStep) + (if pressed then 1 else 0)
    ensures feedback == NoFeedback <==> !pressed
    ensures pressed && analyzer.HolesOf() != [] ==> feedback == ShowedHoles(analyzer.HolesOf())
    ensures pressed && analyzer.HolesOf() == [] ==> feedback == (if saysNone then ConfirmedNoHoles else MovedOn)
  {
    feedback := NoFeedback;
    if pressed {
      var correctHoles := analyzer.FindHoles();
      if saysNone && correctHoles == [] {
        feedback := ConfirmedNoHoles;
        s.currentStep := s.currentStep + 1;
      } else if correctHoles != [] {
        feedback := ShowedHoles(correctHoles);
        s.currentStep := s.currentStep + 1;
      } else {
        feedback := MovedOn;
        s.currentStep := s.currentStep + 1;
      }
    }
  }
}
