/**
 The recommendation engine of the fire-safety assessment quiz: a pure function
 from the recorded answers (question index to chosen option) to the ordered
 list of recommended packages.
 */
module Recommendations {

  datatype Recommendation = Recommendation(title: string, description: string, products: seq<string>)

  /** The quiz's answer map: question index to the option text chosen there. */
  type Answers = map<int, string>

  const CommercialPackage := Recommendation(
    "Commercial Fire Safety Package",
    "Comprehensive fire safety solution for office environments including ABC fire extinguishers, smoke detection systems, and emergency lighting.",
    ["ABC Fire Extinguishers", "Smoke Detectors", "Emergency Lighting", "Fire Alarm Panel"])

  const AssessmentPackage := Recommendation(
    "Fire Safety Assessment & Installation",
    "Complete fire safety evaluation and equipment installation to meet local fire codes and regulations.",
    ["Fire Extinguishers", "Fire Alarm System", "Emergency Exits", "Safety Signage"])

  const CleanAgentPackage := Recommendation(
    "Clean Agent Fire Suppression",
    "Specialized fire suppression system for protecting sensitive electronic equipment without water damage.",
    ["FM-200 System", "CO2 Extinguishers", "Early Warning Detection"])

  const InspectionPackage := Recommendation(
    "Fire Safety Inspection & Maintenance",
    "Comprehensive inspection of existing systems and ongoing maintenance program to ensure compliance.",
    ["Annual Inspection", "Maintenance Contract", "Compliance Audit"])

  /** `answers[key] === value`; a missing key compares as `undefined`, equal to no string. */
  predicate AnswerIs(answers: Answers, key: int, value: string)
  {
    key in answers && answers[key] == value
  }

  /**
   `generateRecommendations`: four independent tests, each appending at most
   one package. The result is the package of every firing rule, in the order
   the rules are declared, so it holds between zero and four packages.
   */
  function GenerateRecommendations(answers: Answers): (r: seq<Recommendation>)
    ensures r == Evaluate(Rules, answers)
    ensures |r| == FiredCount(Rules, answers) <= 4
  {
    assert Rules[1..][1..][1..][1..] == [];
    assert Evaluate(Rules[1..][1..][1..], answers)
        == (if Fires(Rules[3], answers) then [InspectionPackage] else []);
    assert Evaluate(Rules[1..][1..], answers)
        == (if Fires(Rules[2], answers) then [CleanAgentPackage] else [])
           + Evaluate(Rules[1..][1..][1..], answers);
    assert Evaluate(Rules[1..], answers)
        == (if Fires(Rules[1], answers) then [AssessmentPackage] else [])
           + Evaluate(Rules[1..][1..], answers);
    EvaluateLength(Rules, answers);
    (if AnswerIs(answers, 0, "Commercial Office") then [CommercialPackage] else [])
    + (if AnswerIs(answers, 3, "None") || AnswerIs(answers, 3, "Unsure") then [AssessmentPackage] else [])
    + (if AnswerIs(answers, 4, "Server rooms/IT equipment") then [CleanAgentPackage] else [])
    + (if AnswerIs(answers, 5, "Over 3 years ago") || AnswerIs(answers, 5, "Never") then [InspectionPackage] else [])
  }

  // ---------------------------------------------------------------------------
  // Reference definition: the same engine as a list of rules evaluated in order
  // ---------------------------------------------------------------------------

  /** One rule: it fires when the answer at `key` is one of `triggers`. */
  datatype Rule = Rule(key: int, triggers: seq<string>, recommendation: Recommendation)

  /** The rules in declaration order. */
  const Rules: seq<Rule> := [
    Rule(0, ["Commercial Office"], CommercialPackage),
    Rule(3, ["None", "Unsure"], AssessmentPackage),
    Rule(4, ["Server rooms/IT equipment"], CleanAgentPackage),
    Rule(5, ["Over 3 years ago", "Never"], InspectionPackage)
  ]

  predicate Fires(rule: Rule, answers: Answers)
  {
    rule.key in answers && answers[rule.key] in rule.triggers
  }

  /** The recommendations of the rules that fire, in the order the rules are listed. */
  function Evaluate(rules: seq<Rule>, answers: Answers): seq<Recommendation>
  {
    if rules == [] then []
    else (if Fires(rules[0], answers) then [rules[0].recommendation] else []) + Evaluate(rules[1..], answers)
  }

  /** How many of `rules` fire. */
  function FiredCount(rules: seq<Rule>, answers: Answers): nat
  {
    if rules == [] then 0
    else (if Fires(rules[0], answers) then 1 else 0) + FiredCount(rules[1..], answers)
  }

  lemma {:induction false} EvaluateLength(rules: seq<Rule>, answers: Answers)
    ensures |Evaluate(rules, answers)| == FiredCount(rules, answers) <= |rules|
    decreases |rules|
  {
    if rules != [] {
      EvaluateLength(rules[1..], answers);
    }
  }

  /** Rule `i`'s package is in the output exactly when rule `i` fires. */
  lemma PackagePresentIff(answers: Answers, i: int)
    requires 0 <= i < |Rules|
    ensures Rules[i].recommendation in GenerateRecommendations(answers) <==> Fires(Rules[i], answers)
  {
  }

  /** Whether a rule fires depends on the answer at its own key alone. */
  lemma RuleIgnoresOtherKeys(answers: Answers, i: int, key: int, value: string)
    requires 0 <= i < |Rules| && key != Rules[i].key
    ensures Fires(Rules[i], answers[key := value]) == Fires(Rules[i], answers)
  {
  }

  /** Answers to questions that no rule inspects (1, 2, 6, 7, ...) never change the output. */
  lemma UninspectedAnswersIrrelevant(answers: Answers, key: int, value: string)
    requires key !in {0, 3, 4, 5}
    ensures GenerateRecommendations(answers[key := value]) == GenerateRecommendations(answers)
  {
  }

  /** Two answer maps that agree on the four inspected questions get the same output. */
  lemma OnlyInspectedKeysMatter(a: Answers, b: Answers)
    requires forall k :: k in {0, 3, 4, 5} ==> (k in a <==> k in b) && (k in a ==> a[k] == b[k])
    ensures GenerateRecommendations(a) == GenerateRecommendations(b)
  {
    assert 0 in {0, 3, 4, 5} && 3 in {0, 3, 4, 5} && 4 in {0, 3, 4, 5} && 5 in {0, 3, 4, 5};
  }

  /** Three rules fire on an equipment, concern and inspection answer, in declaration order. */
  lemma ThreeRulesInOrder()
    ensures GenerateRecommendations(map[3 := "None", 4 := "Server rooms/IT equipment", 5 := "Never"])
         == [AssessmentPackage, CleanAgentPackage, InspectionPackage]
  {
  }
}
