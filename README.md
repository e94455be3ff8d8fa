# Rational Function Graph Game — a verified model

The game teaches the graphing of rational functions f(x) = N(x) / D(x). Its core
is the feature analyser, `RationalAnalyzer`. For one numerator and denominator it
reports six features:

- the vertical asymptotes: real roots of D that are not holes, sorted;
- the horizontal asymptote: decided by comparing degrees;
- the holes: real roots of gcd(N, D), each paired with the reduced ratio's value;
- the x-intercepts;
- the y-intercept;
- the end behaviour: the limits at −∞ and +∞.

Around the analyser sit two more pieces:

- The game modes. These grade quiz answers and level the player up. They also run the end-behaviour race, steer the holes step of the graph builder, and generate the quiz and race functions.
- The page script. It initialises the session, resets it, and unlocks achievements.

The project is split into modules:

- `Polynomials` (`polynomials.dfy`). Polynomials are coefficient sequences over exact reals, in ascending powers. The zero polynomial has degree −1, below every other degree. The module defines degree, leading coefficient and evaluation. The statement that a divisor g leaves a quotient h of p is made on values: p(x) = g(x) · h(x) at every real x.
- `Sorting` (`sorting.dfy`). Ascending insertion sort, proved to give a sorted permutation.
- `Text` (`text.dfy`). Python's `str.replace` and the decimal rendering of integers in f-strings.
- `RationalAnalysis` (`rational_analyzer.dfy`, modelling `rational_analyzer.py`). The analyser is a class whose fields are set once by the constructor. Three methods rebuild their result lists with loops:
  - `FindVerticalAsymptotes`, `FindHoles` and `FindXIntercepts` are each proved equal to a specification function.
  - The lemmas then prove what the analyser promises about those functions.

  The computer-algebra library is represented by a `Cas` record, which holds its answers for one (N, D) pair:
  - the root lists;
  - the gcd and the two reduced quotients;
  - the two limits.

  A `None` in it stands for a library call that raised. The predicate `RationalAnalysis.Faithful` states what these answers satisfy.
- `Session` and `App` (`session.dfy` and `app.dfy`, modelling `app.py`). The session dictionary is a class; a set of present keys lets "fill in only the missing keys" be stated.
- `GameModes` (`game_modes.dfy`, modelling `game_modes.py`). The mode logic, with button presses, parsed answers and random draws as parameters.

Two behaviours of the source are worth knowing:
- When N and D are both the zero polynomial, the degrees are equal and the leading-coefficient ratio is 0/0. `find_horizontal_asymptote` then returns the float nan. The model's `Horizontal` type therefore has a `NaN` case, and a nan asymptote never earns quiz points.
- The LaTeX rewrite `replace('*', '').replace('**', '^')` removes every `*` before it looks for `**`. So `x**2` is shown as `x2`, never `x^2`. `Text.LatexOf` proves the rewrite equals deleting the stars.

## Model

| member | source | states |
|---|---|---|
| RationalAnalysis.RationalAnalyzer.constructor | rational_analyzer.py:11-21 | valid iff both strings parse; a failure records "Invalid function: " followed by the numerator's error if it failed, else the denominator's; a valid analyser keeps the parsed polynomials |
| RationalAnalysis.RationalAnalyzer.FindVerticalAsymptotes | rational_analyzer.py:23-42 | equals the vertical-asymptote specification; the result is sorted ascending; x is listed iff it is a real solver root of D and not a hole; [] when invalid or when the solver raises |
| RationalAnalysis.RationalAnalyzer.FindHorizontalAsymptote | rational_analyzer.py:44-47 | None when construction failed |
| RationalAnalysis.RationalAnalyzer.FindHoles | rational_analyzer.py:67-97 | equals the hole specification; [] when invalid or when the gcd is 1; every hole lies off the reduced denominator's roots and has y = reduced N(x) / reduced D(x) |
| RationalAnalysis.RationalAnalyzer.IsHole | rational_analyzer.py:99-102 | every hole's own x is a hole; nothing is a hole after a failed construction, a gcd of 1, a solver failure or a raised hole loop |
| RationalAnalysis.RationalAnalyzer.IsHoleIffNearCommonRoot | rational_analyzer.py:67-102 | when the hole loop succeeds, x is a hole iff some real root of the gcd lies strictly within 1e-10 of x |
| RationalAnalysis.RationalAnalyzer.FindXIntercepts | rational_analyzer.py:104-121 | sorted ascending; x is listed iff it is a real solver root of N and not a hole; [] when invalid or when the solver raises |
| RationalAnalysis.RationalAnalyzer.FindYIntercept | rational_analyzer.py:123-134 | None iff D(0) = 0 (or construction failed); otherwise N(0) / D(0) |
| RationalAnalysis.RationalAnalyzer.AnalyzeEndBehavior | rational_analyzer.py:136-158 | both ends are present or both absent; (None, None) when construction failed |
| RationalAnalysis.RationalAnalyzer.GetAnalysisSummary | rational_analyzer.py:229-241 | exactly the error when invalid; otherwise the six features, each equal to its query |
| RationalAnalysis.RationalAnalyzer.InvalidGivesEmptyAnswers | rational_analyzer.py:19-26 | after a failed construction every query gives its empty form and the summary is just the recorded message |
| RationalAnalysis.RationalAnalyzer.HolesAreCommonRoots | rational_analyzer.py:78-93 | every hole is a real common root of N and D, the reduced denominator is nonzero there, and y is the reduced ratio |
| RationalAnalysis.RationalAnalyzer.FailedHoleIsVerticalAsymptote | rational_analyzer.py:87-97 | if one gcd root leaves the reduced denominator at 0, the hole list is empty and that root is listed as a vertical asymptote |
| RationalAnalysis.RationalAnalyzer.HolesExcluded | rational_analyzer.py:34-38 | no hole's x is a vertical asymptote or an x-intercept |
| RationalAnalysis.RationalAnalyzer.VerticalAsymptotesExact | rational_analyzer.py:30-40 | no value is repeated; for a nonzero D, x is a vertical asymptote iff D(x) = 0 and x is not a hole |
| RationalAnalysis.RationalAnalyzer.XInterceptsExact | rational_analyzer.py:110-119 | no value is repeated; for a nonzero N, x is an intercept iff N(x) = 0 and x is not a hole |
| RationalAnalysis.RationalAnalyzer.HorizontalDegreeLaw | rational_analyzer.py:51-63 | unless N and D are both zero: deg N < deg D gives 0; equal degrees give LC(N) / LC(D); deg N > deg D gives None |
| RationalAnalysis.RationalAnalyzer.HorizontalAsymptoteIsCommonLimit | rational_analyzer.py:44-65 | for a nonzero D: the asymptote is y iff both end limits equal y; there is none iff both ends are infinite |
| RationalAnalysis.RationalAnalyzer.EndBehaviorParity | rational_analyzer.py:142-156 | when deg N > deg D: the ends agree iff the degree gap is even; the +∞ end is "oo" iff LC(N) / LC(D) > 0 |
| RationalAnalysis.RootsOutside | rational_analyzer.py:34-38 | x is kept iff it comes from a real root and lies away from every hole |
| RationalAnalysis.RootsOutsideDistinct | rational_analyzer.py:30-40 | filtering a list of distinct roots keeps the values distinct |
| RationalAnalysis.ScanFailureSticks | rational_analyzer.py:87-97 | once the hole loop raises, the remaining roots cannot undo it |
| RationalAnalysis.ScanFailsIff | rational_analyzer.py:87-97 | the hole loop raises iff some real root is a root of the reduced denominator |
| RationalAnalysis.ScanHoles | rational_analyzer.py:87-97 | the hole loop as a function of the roots scanned so far; a scan that does not raise finds at most one hole per root |
| RationalAnalysis.ScanHolesSound | rational_analyzer.py:87-93 | each hole comes from a real root and carries the reduced ratio's value; each real root yields a hole |
| Polynomials.Degree | rational_analyzer.py:51-52 | −1 exactly for the zero polynomial; otherwise the index of the last nonzero coefficient |
| Polynomials.LeadingCoefficient | rational_analyzer.py:58-59 | zero exactly for the zero polynomial |
| Polynomials.EvalAtZero | rational_analyzer.py:129-130 | a polynomial evaluated at 0 is its constant term |
| Polynomials.RootOfFactor | rational_analyzer.py:78-91 | a root of the gcd is a root of every multiple of it |
| Sorting.SortAscending | rational_analyzer.py:40 | the result is sorted and is a permutation of the input |
| Sorting.SortKeepsMembers | rational_analyzer.py:40 | sorting keeps exactly the same members |
| Sorting.SortKeepsDistinct | rational_analyzer.py:40 | sorting a duplicate-free list keeps it duplicate-free |
| Text.ReplaceByNothingDeletes | game_modes.py:278 | replacing a single character by "" deletes every occurrence of it |
| Text.ReplaceAbsentIsIdentity | game_modes.py:278-279 | a pattern that cannot occur leaves the text unchanged |
| Text.LatexOf | game_modes.py:278-279 | the two-step rewrite equals deleting every `*`, so the `**` → `^` step never applies |
| Text.DeleteStars | game_modes.py:473-474 | the one-step rewrite deletes every `*` |
| Text.IntToString | game_modes.py:256 | renders the integer with no `*`; a leading minus sign iff it is negative; "0" exactly for zero |
| Text.NatToStringDenotes | game_modes.py:256 | the decimal digits rendered for a natural number n denote n |
| Text.IntToStringDenotes | game_modes.py:256 | the rendering of i denotes i: its digits give i when i ≥ 0, and give −i after the minus sign when i < 0 |
| App.InitialiseSession | app.py:16-25 | each of the five keys keeps its value when present and gets its default (0, 1, "Function Input", None, []) only when missing |
| App.ResetGame | app.py:68-72 | score 0, level 1, no current function, no achievements |
| App.NewAchievements | app.py:90-102 | the `new_achievements` list built by the four checks; at most one entry per badge, and nothing below every threshold (score under 10 and level under 5) |
| App.NewAchievementsInBadgeOrder | app.py:90-102 | the new badges are those that qualify and are not held, in the fixed order First Steps, Asymptote Ace, Level Master, Function Expert; none repeats and none is already held |
| App.NewAchievementsAreUnlockable | app.py:90-102 | the four checks build exactly the list of badges, in order, that qualify and are not held |
| App.UnlockableFresh | app.py:92-102 | every badge the check adds comes from the badge list, meets its threshold and was not held |
| App.UnlockableNoDuplicates | app.py:92-102 | a badge list without repeats unlocks each badge at most once |
| App.CheckKeepsNoDuplicates | app.py:92-106 | the check never introduces a duplicate |
| App.CheckGrantsExactlyQualified | app.py:92-102 | afterwards a badge is held iff it was held before or its threshold (score 10, score 50, level 5, score 100) is met |
| App.CheckIsIdempotent | app.py:88-106 | checking twice with the same score and level gives the same list as checking once |
| App.CheckAchievements | app.py:88-107 | the old list is kept in order and the new badges are appended after it; the announced list is the new badges |
| App.AppendMissing | app.py:104-107 | every new, distinct entry is appended in order |
| GameModes.QuizScore | game_modes.py:282-323 | the quiz score as a function of the summary and the answers; never more than 6 |
| GameModes.GradeQuizAnswers | game_modes.py:282-323 | the score is the sum of the four credits (2 + 2 + 1 + 1), so it lies in 0..6; an error summary earns nothing |
| GameModes.ListCreditIgnoresOrder | game_modes.py:289-292 | list credit depends only on the set of values; an empty answer scores iff nothing is expected |
| GameModes.NoneAnswerCreditIffDegreeAbove | game_modes.py:298-302 | answering "none" earns the horizontal points iff deg N > deg D |
| GameModes.NoYCreditWhenUndefinedAtZero | game_modes.py:317-319 | when D(0) = 0, no y-intercept answer scores |
| GameModes.CorrectAnswersEarnSix | game_modes.py:282-323 | answers that repeat the correct features earn all six points |
| GameModes.SubmitQuizAnswers | game_modes.py:113-132 | the earned points are added to the score; the level then rises by exactly one iff the new score is at least ten times the old level |
| GameModes.ClampLevel | game_modes.py:245 | the clamped level is min(level, 4): it exceeds neither 4 nor the level, and is one of them |
| GameModes.QuizCard | game_modes.py:243-280 | the stored card holds the generated numerator and denominator, and each LaTeX form is its text with the stars removed |
| GameModes.LevelOneDenominatorNeverXPlusZero | game_modes.py:252-257 | a level-1 denominator is never "x + 0", because a drawn 0 becomes 1 |
| GameModes.QuizLevelsFromThreeAgree | game_modes.py:245-273 | every level from 3 up produces the same card as level 3 |
| GameModes.GenerateQuizFunction | game_modes.py:243-280 | the stored card is the one for min(level, 4) |
| GameModes.RaceCard | game_modes.py:465-475 | the card is (a·x + b) / (c·x + d) with stars removed in its LaTeX form |
| GameModes.GenerateRaceFunctions | game_modes.py:460-477 | the result is the list of cards for the draws, in draw order |
| GameModes.RaceCardsElementwise | game_modes.py:463-475 | card k of the list is the card built from draw k |
| GameModes.CheckEndBehavior | game_modes.py:479-485 | every answer counts as correct |
| GameModes.RaceStep | game_modes.py:193-230 | one run of the race page; the score changes only when an active race has used up its functions, and then by twice the race score as the race ends; the function list grows only when Start is pressed outside a race, which resets the race score |
| GameModes.SubmitsCount | game_modes.py:217-226 | during a race, k submits drop exactly the first k functions and add k to the race score |
| GameModes.FinishRace | game_modes.py:217-230 | answering every remaining function and then reloading banks twice the race score and ends the race |
| GameModes.FullRaceAddsTen | game_modes.py:193-230 | starting a race with five functions, answering five times and reloading once adds 10 to the score and ends the race |
| GameModes.EndBehaviorRaceMode | game_modes.py:179-230 | fills the missing race keys, then takes exactly one race step; race_start_time keeps its value or becomes 0 |
| GameModes.FillRaceDefaults | game_modes.py:184-191 | race_active, race_functions and race_score get their defaults only when missing |
| GameModes.TakeRaceStep | game_modes.py:193-230 | start sets five functions, race score 0 and active; a submit removes the head and adds 1; an empty list adds twice the race score and ends the race |
| GameModes.BuildHoles | game_modes.py:390-411 | pressing the button advances current_step by exactly one whatever was typed; otherwise nothing changes; the feedback shows the holes when there are any |

## Left out

- The computer-algebra library is not modelled. `sympify`, `solve`, `gcd`, `simplify` and `limit` are oracles whose answers arrive in a `Cas` record described by `Faithful`. Arbitrary expressions that parse but are not polynomials in x are outside the model.
- `sp.factor` (rational_analyzer.py:74-75) is not modelled: its results are never used.
- `sp.limit` is specified by the leading-term rule: degree comparison, leading-coefficient signs and degree-gap parity. This is an abstraction of the library call. When D is the zero polynomial the limits are left unconstrained.
- Polynomial division by the gcd is stated on values, not on coefficients: N(x) = gcd(x) · (N / gcd)(x) at every real x. For polynomials the two are equivalent.
- A zero denominator is accepted at construction, as in the source. The exactness lemmas state their membership iff only for a nonzero polynomial, because only then is the solver's root list complete.
- Roots whose realness the library cannot decide (`is_real` being None) are not modelled. Every root is either real or has a nonzero imaginary part.
- `plot_function` is not modelled: it is matplotlib rendering and float sampling.
- Floats are modelled as exact reals. Python's float parsing of typed answers is not modelled; answers arrive already parsed. A typed `nan` or `inf` is not modelled.
- Streamlit widgets, layout, messages, `st.rerun` and balloons are not modelled. Button presses and radio choices are parameters.
- `random.randint` is not modelled: draws are parameters. The ranges they come from are not enforced.
- The graph builder steps other than holes are not modelled: `build_vertical_asymptotes`, `build_horizontal_asymptote`, `build_intercepts`, `build_graph_shape` and `generate_builder_function`. Neither is the step dispatch in `graph_builder_mode`.
- `function_input_mode` and `analyze_and_display_function` are not modelled: they only display results.
- `difficulty_levels` is not modelled: it is never read.
- GameModes.SubmitQuizAnswers: takes the analyser as a parameter. It does not model the rebuilding of the analyser from the stored strings or the "generate when absent" branch of `feature_quiz_mode`.
- GameModes.CheckEndBehavior: the analyser call it makes has no effect on the result, so it is left out.
- RationalAnalysis.RationalAnalyzer.IsHole: the 1e-10 tolerance is applied to exact reals rather than floats.
