/** The part of the web framework's per-user session dictionary that the game uses. */
module Session {
  import opened Wrappers

  /** A generated function: the text handed to the analyser and its LaTeX display form. */
  datatype FunctionCard = FunctionCard(
    numerator: string,
    denominator: string,
    numeratorLatex: string,
    denominatorLatex: string)

  /** The session keys the game reads or writes. */
  datatype Key =
    | Score | Level | GameMode | CurrentFunction | Achievements
    | QuizFunction | CurrentStep
    | RaceActive | RaceFunctions | RaceScore | RaceStartTime

  /** `st.session_state`. A key can be missing; `present` says which keys exist,
      and a field's value means something only while its key is present. */
  class SessionState {
    var present: set<Key>
    var score: int
    var level: int
    var gameMode: string
    var currentFunction: Option<FunctionCard>
    var achievements: seq<string>
    var quizFunction: FunctionCard
    var currentStep: int
    var raceActive: bool
    var raceFunctions: seq<FunctionCard>
    var raceScore: int
    var raceStartTime: int

    /** A new visitor's session: no key is present yet. */
    constructor ()
      ensures present == {}
    {
      present := {};
      score, level, gameMode, currentFunction, achievements := 0, 0, "", None, [];
      quizFunction := FunctionCard("", "", "", "");
      currentStep := 0;
      raceActive, raceFunctions, raceScore, raceStartTime := false, [], 0, 0;
    }
  }
}
