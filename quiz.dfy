/**
 The fire-safety assessment quiz: eight fixed single-choice questions walked
 through with Next and Previous buttons, ending in a results view built by
 the recommendation engine.

 The pure part (`QuizState` and the transitions `Select`, `Next`, `Prev`)
 is the specification; the class `Controller` keeps the same state in fields
 that its event handlers update in place.
 */
module Quiz {
  import opened Recommendations
  import opened Sequences

  datatype Question = Question(prompt: string, options: seq<string>)

  const Questions: seq<Question> := [
    Question("What type of building do you need fire safety for?",
      ["Commercial Office", "Industrial Facility", "Residential Building", "Retail Store", "Restaurant", "Warehouse"]),
    Question("What is the approximate size of your facility?",
      ["Under 5,000 sq ft", "5,000-15,000 sq ft", "15,000-50,000 sq ft", "Over 50,000 sq ft"]),
    Question("How many employees/occupants are typically in the building?",
      ["1-10 people", "11-50 people", "51-200 people", "201-500 people", "Over 500 people"]),
    Question("What type of fire safety equipment do you currently have?",
      ["None", "Basic extinguishers only", "Extinguishers and alarms", "Full system installed", "Unsure"]),
    Question("What are your primary fire safety concerns?",
      ["Electrical equipment", "Cooking/kitchen areas", "Flammable materials", "Server rooms/IT equipment", "General safety compliance"]),
    Question("When was your last fire safety inspection?",
      ["Within the last year", "1-3 years ago", "Over 3 years ago", "Never", "Unsure"]),
    Question("Do you need emergency response planning?",
      ["Yes, comprehensive plan needed", "Yes, basic evacuation plan", "Update existing plan", "No current need"]),
    Question("What is your timeline for implementation?",
      ["Immediate (emergency)", "Within 1 month", "1-3 months", "3-6 months", "Planning phase"])
  ]

  /** What the quiz container shows: a question, or the results with their recommendations. */
  datatype Phase = Asking | Results(recommendations: seq<Recommendation>)

  /**
   `current` is `currentQuestion`, `answers` the `answers` object, and
   `nextEnabled` is the state of the Next button of the current rendering.
   */
  datatype QuizState = QuizState(current: int, answers: Answers, nextEnabled: bool, phase: Phase)

  /**
   The invariant of every reachable state: the cursor is a question index,
   answers are options offered by their own question, every question before
   the cursor is answered, Next is enabled only on an answered question, and
   the results were computed from a complete answer map.
   */
  ghost predicate WellFormed(s: QuizState)
  {
    && 0 <= s.current < |Questions|
    && AnswersOffered(s.answers)
    && (forall k :: 0 <= k < s.current ==> k in s.answers)
    && (s.nextEnabled ==> s.current in s.answers)
    && (s.phase.Results? ==>
          && s.current == |Questions| - 1
          && s.current in s.answers
          && s.phase.recommendations == GenerateRecommendations(s.answers))
  }

  /** Every recorded answer is an option offered by its own question. */
  ghost predicate AnswersOffered(answers: Answers)
  {
    forall k :: k in answers ==> 0 <= k < |Questions| && answers[k] in Questions[k].options
  }

  /** Every question has been answered. */
  ghost predicate Complete(answers: Answers)
  {
    forall k :: 0 <= k < |Questions| ==> k in answers
  }

  /** The first `renderQuestion()`: question 0, no answers, Next disabled. */
  function Start(): (s: QuizState)
    ensures WellFormed(s)
    ensures s.answers == map[] && !s.nextEnabled && s.phase == Asking
  {
    QuizState(0, map[], false, Asking)
  }

  /**
   A click on option `k` of the shown question: it records that option
   under the current index and enables Next.
   */
  function Select(s: QuizState, k: nat): (t: QuizState)
    requires WellFormed(s) && s.phase == Asking && k < |Questions[s.current].options|
    ensures WellFormed(t)
    ensures t.current == s.current && t.phase == s.phase && t.nextEnabled
    ensures t.current in t.answers && t.answers[t.current] == Questions[s.current].options[k]
    ensures forall j :: j != s.current ==> (j in t.answers <==> j in s.answers)
    ensures forall j :: j != s.current && j in s.answers ==> t.answers[j] == s.answers[j]
  {
    s.(answers := s.answers[s.current := Questions[s.current].options[k]], nextEnabled := true)
  }

  /**
   A click on Next. A disabled button, or one no longer displayed, ignores
   it. Before the last question it moves on and renders a fresh question with
   Next disabled; on the last question it shows the results.
   */
  function Next(s: QuizState): (t: QuizState)
    requires WellFormed(s)
    ensures WellFormed(t)
    ensures t.answers == s.answers
    ensures s.phase.Results? || !s.nextEnabled ==> t == s
    ensures t.phase.Results? ==> Complete(t.answers)
    ensures t.current != s.current ==> t.current == s.current + 1 && !t.nextEnabled
    ensures s.phase == Asking && s.nextEnabled && s.current < |Questions| - 1
            ==> t.current == s.current + 1 && t.phase == Asking
    ensures s.phase == Asking && s.nextEnabled && s.current == |Questions| - 1
            ==> t.current == s.current && t.phase == Results(GenerateRecommendations(s.answers))
  {
    if s.phase.Results? || !s.nextEnabled then s
    else if s.current < |Questions| - 1 then
      AdvanceKeepsWellFormed(s);
      s.(current := s.current + 1, nextEnabled := false)
    else
      FinishKeepsWellFormed(s);
      s.(phase := Results(GenerateRecommendations(s.answers)))
  }

  /** Moving past an answered question keeps the invariant. */
  lemma AdvanceKeepsWellFormed(s: QuizState)
    requires WellFormed(s) && s.phase == Asking && s.nextEnabled && s.current < |Questions| - 1
    ensures WellFormed(s.(current := s.current + 1, nextEnabled := false))
  {
  }

  /** Showing the results after the last question is answered keeps the invariant; every question is then answered. */
  lemma FinishKeepsWellFormed(s: QuizState)
    requires WellFormed(s) && s.phase == Asking && s.nextEnabled && s.current == |Questions| - 1
    ensures Complete(s.answers)
    ensures WellFormed(s.(phase := Results(GenerateRecommendations(s.answers))))
  {
  }

  /**
   A click on Previous. The button is rendered only past the first question
   and its handler guards the decrement again; a re-render disables Next.
   */
  function Prev(s: QuizState): (t: QuizState)
    requires WellFormed(s)
    ensures WellFormed(t)
    ensures t.answers == s.answers && t.phase == s.phase
    ensures t.current == (if s.phase == Asking && s.current > 0 then s.current - 1 else s.current)
    ensures t.current != s.current ==> !t.nextEnabled
    ensures t.current == s.current ==> t == s
  {
    if s.phase.Results? || s.current == 0 then s
    else s.(current := s.current - 1, nextEnabled := false)
  }

  // ---------------------------------------------------------------------------
  // Sequences of user events
  // ---------------------------------------------------------------------------

  datatype Event = OptionClick(index: nat) | NextClick | PrevClick

  /** One event; a click on an option that is not displayed cannot happen and changes nothing. */
  function Apply(s: QuizState, e: Event): (t: QuizState)
    requires WellFormed(s)
    ensures WellFormed(t)
  {
    match e
    case OptionClick(k) =>
      if s.phase == Asking && k < |Questions[s.current].options| then Select(s, k) else s
    case NextClick => Next(s)
    case PrevClick => Prev(s)
  }

  /** Any sequence of events keeps the quiz well formed. */
  function Run(s: QuizState, events: seq<Event>): (t: QuizState)
    requires WellFormed(s)
    ensures WellFormed(t)
    ensures s.phase.Results? ==> t == s
    decreases |events|
  {
    if events == [] then s else Run(Apply(s, events[0]), events[1..])
  }

  /** An event writes an answer only at the current index and never removes one. */
  lemma AnswersWrittenOnlyAtCursor(s: QuizState, e: Event)
    requires WellFormed(s)
    ensures forall j :: j in s.answers ==> j in Apply(s, e).answers
    ensures forall j :: j != s.current && j in s.answers ==> Apply(s, e).answers[j] == s.answers[j]
    ensures forall j :: j != s.current ==> (j in Apply(s, e).answers ==> j in s.answers)
  {
  }

  /** Answers are never removed, whatever the user clicks. */
  lemma {:induction false} AnswersNeverRemoved(s: QuizState, events: seq<Event>)
    requires WellFormed(s)
    ensures s.answers.Keys <= Run(s, events).answers.Keys
    decreases |events|
  {
    if events != [] {
      AnswersWrittenOnlyAtCursor(s, events[0]);
      AnswersNeverRemoved(Apply(s, events[0]), events[1..]);
    }
  }

  /** While Next is disabled, any number of clicks on it leaves the state as it is. */
  lemma {:induction false} RefusedNextIsIdempotent(s: QuizState, n: nat)
    requires WellFormed(s) && !s.nextEnabled
    ensures Run(s, Repeat(NextClick, n)) == s
  {
    if n > 0 {
      assert Repeat(NextClick, n)[1..] == Repeat(NextClick, n - 1);
      RefusedNextIsIdempotent(s, n - 1);
    }
  }

  /** At the start nothing is answered and Next refuses to move. */
  lemma NextRefusedAtStart()
    ensures Next(Start()) == Start()
  {
  }

  /**
   Going back to an answered question shows it with Next disabled: although
   its answer is still recorded, the user must select again before advancing.
   */
  lemma ReturningNeedsFreshSelection(s: QuizState)
    requires WellFormed(s) && s.phase == Asking && s.current > 0
    ensures Prev(s).current == s.current - 1
    ensures Prev(s).current in Prev(s).answers
    ensures !Prev(s).nextEnabled && Next(Prev(s)) == Prev(s)
  {
  }

  /** The position of `x` in `xs`. */
  function IndexOf(xs: seq<string>, x: string): (k: nat)
    requires x in xs
    ensures k < |xs| && xs[k] == x
  {
    if xs[0] == x then 0 else 1 + IndexOf(xs[1..], x)
  }

  /**
   Previous, then selecting the answer already recorded there, then Next,
   brings the quiz back to the same question with the same answers.
   */
  lemma PrevReselectNextRoundTrip(s: QuizState)
    requires WellFormed(s) && s.phase == Asking && s.current > 0
    ensures var p := Prev(s);
            var t := Next(Select(p, IndexOf(Questions[p.current].options, p.answers[p.current])));
            t.current == s.current && t.answers == s.answers && t.phase == Asking
  {
    var p := Prev(s);
    var j := p.current;
    var k := IndexOf(Questions[j].options, p.answers[j]);
    assert Select(p, k).answers == s.answers[j := s.answers[j]];
    assert s.answers[j := s.answers[j]] == s.answers;
  }

  // ---------------------------------------------------------------------------
  // Completing the quiz
  // ---------------------------------------------------------------------------

  /** One option index per question, each within its question's options. */
  predicate ValidChoices(choices: seq<nat>)
  {
    |choices| == |Questions| && forall q :: 0 <= q < |choices| ==> choices[q] < |Questions[q].options|
  }

  /** The answers recorded after choosing `choices[q]` for each question `q < n`. */
  function ChosenAnswers(choices: seq<nat>, n: nat): Answers
    requires ValidChoices(choices) && n <= |Questions|
  {
    map q | 0 <= q < n :: Questions[q].options[choices[q]]
  }

  /** For each question in turn: click the chosen option, then click Next. */
  function Script(choices: seq<nat>): (events: seq<Event>)
    ensures |events| == 2 * |choices|
  {
    if choices == [] then [] else [OptionClick(choices[0]), NextClick] + Script(choices[1..])
  }

  /** The state reached when questions `0 .. n-1` have been answered and `n` is shown. */
  function Before(choices: seq<nat>, n: nat): QuizState
    requires ValidChoices(choices) && n <= |Questions|
  {
    QuizState(n, ChosenAnswers(choices, n), false, Asking)
  }

  /** The first two events of the script from question `n`: select its choice, then Next. */
  lemma ScriptStep(choices: seq<nat>, n: nat)
    requires ValidChoices(choices) && n < |Questions|
    ensures WellFormed(Before(choices, n))
    ensures Select(Before(choices, n), choices[n]).answers == ChosenAnswers(choices, n + 1)
    ensures Run(Before(choices, n), Script(choices[n..]))
         == Run(Next(Select(Before(choices, n), choices[n])), Script(choices[n + 1..]))
  {
    var s := Before(choices, n);
    assert WellFormed(s);
    var events := Script(choices[n..]);
    assert events == [OptionClick(choices[n]), NextClick] + Script(choices[n + 1..]) by {
      assert choices[n..][0] == choices[n] && choices[n..][1..] == choices[n + 1..];
    }
    var a := Select(s, choices[n]);
    assert a.answers == ChosenAnswers(choices, n + 1);
    assert Apply(s, events[0]) == a;
    assert events[1..][1..] == Script(choices[n + 1..]);
  }

  /** The Next click of the script from question `n`: it shows question `n + 1`, or the results after the last one. */
  lemma ScriptNext(choices: seq<nat>, n: nat)
    requires ValidChoices(choices) && n < |Questions|
    requires WellFormed(Before(choices, n))
    requires Select(Before(choices, n), choices[n]).answers == ChosenAnswers(choices, n + 1)
    ensures n < |Questions| - 1 ==> Next(Select(Before(choices, n), choices[n])) == Before(choices, n + 1)
    ensures n == |Questions| - 1 ==>
              && choices[n + 1..] == []
              && Next(Select(Before(choices, n), choices[n])).phase
                 == Results(GenerateRecommendations(ChosenAnswers(choices, |Questions|)))
  {
    if n == |Questions| - 1 {
      assert ChosenAnswers(choices, n + 1) == ChosenAnswers(choices, |Questions|);
    }
  }

  lemma {:induction false} ScriptFrom(choices: seq<nat>, n: nat)
    requires ValidChoices(choices) && n < |Questions|
    ensures WellFormed(Before(choices, n))
    ensures Run(Before(choices, n), Script(choices[n..])).phase
         == Results(GenerateRecommendations(ChosenAnswers(choices, |Questions|)))
    decreases |Questions| - n
  {
    ScriptStep(choices, n);
    ScriptNext(choices, n);
    if n < |Questions| - 1 {
      ScriptFrom(choices, n + 1);
    }
  }

  /**
   Answering every question and clicking Next after each (eight clicks in
   all) ends in the results computed from exactly those answers.
   */
  lemma CompletingTheQuiz(choices: seq<nat>)
    requires ValidChoices(choices)
    ensures Run(Start(), Script(choices)).phase
         == Results(GenerateRecommendations(ChosenAnswers(choices, |Questions|)))
  {
    assert Before(choices, 0) == Start();
    assert choices[0..] == choices;
    ScriptFrom(choices, 0);
  }

  /** The answers of the office scenario trigger the commercial rule and no other. */
  lemma OfficeAnswersRecommendCommercialOnly(choices: seq<nat>)
    requires choices == [0, 0, 0, 1, 0, 0, 0, 0]
    ensures ValidChoices(choices)
    ensures GenerateRecommendations(ChosenAnswers(choices, |Questions|)) == [CommercialPackage]
  {
    var m := ChosenAnswers(choices, |Questions|);
    assert m[0] == "Commercial Office" && m[3] == "Basic extinguishers only";
    assert m[4] == "Electrical equipment" && m[5] == "Within the last year";
  }

  /**
   An office building with no other triggering answer: eight Next clicks
   lead to results holding exactly the commercial package.
   */
  lemma CommercialOfficeScenario(choices: seq<nat>)
    requires choices == [0, 0, 0, 1, 0, 0, 0, 0]
    ensures Run(Start(), Script(choices)).phase == Results([CommercialPackage])
  {
    OfficeAnswersRecommendCommercialOnly(choices);
    CompletingTheQuiz(choices);
  }

  // ---------------------------------------------------------------------------
  // The controller: closure variables updated by event handlers
  // ---------------------------------------------------------------------------

  class Controller {
    var currentQuestion: int
    var answers: Answers
    var nextEnabled: bool
    var showingResults: bool
    var recommendations: seq<Recommendation>

    function State(): QuizState
      reads this
    {
      QuizState(currentQuestion, answers, nextEnabled,
                if showingResults then Results(recommendations) else Asking)
    }

    ghost predicate Valid()
      reads this
    {
      WellFormed(State())
    }

    /** `initializeFireAssessmentQuiz` followed by the first `renderQuestion()`. */
    constructor ()
      ensures Valid() && State() == Start()
    {
      currentQuestion := 0;
      answers := map[];
      nextEnabled := false;
      showingResults := false;
      recommendations := [];
    }

    /** The option click handler. */
    method ChooseOption(k: nat)
      requires Valid() && !showingResults && k < |Questions[currentQuestion].options|
      modifies this
      ensures Valid() && State() == Select(old(State()), k)
    {
      answers := answers[currentQuestion := Questions[currentQuestion].options[k]];
      nextEnabled := true;
    }

    /** The Next click handler, behind the button's `disabled` flag. */
    method ClickNext()
      requires Valid()
      modifies this
      ensures Valid() && State() == Next(old(State()))
    {
      if showingResults || !nextEnabled {
        return;
      }
      if currentQuestion < |Questions| - 1 {
        currentQuestion := currentQuestion + 1;
        nextEnabled := false;
      } else {
        recommendations := GenerateRecommendations(answers);
        showingResults := true;
      }
    }

    /** The Previous click handler; the button exists only past question 0. */
    method ClickPrevious()
      requires Valid()
      modifies this
      ensures Valid() && State() == Prev(old(State()))
    {
      if showingResults || currentQuestion == 0 {
        return;
      }
      currentQuestion := currentQuestion - 1;
      nextEnabled := false;
    }
  }
}
