/**
 The multi-step service-request form: a cursor `currentStep` over the form's
 steps, the `active` mark of each step, and the required inputs of each step
 with their values and `error` marks.

 The pure part (`FormState` and the transitions `Next`, `Prev`, `Submit`,
 `Fill`) is the specification; the class `RequestForm` keeps the same state
 in fields that its handlers update in place, with the loops of `showStep`
 and `validateStep`.
 */
module ServiceForm {
  import opened Text
  import opened Sequences

  /** One required input: its current value and whether it carries the `error` class. */
  datatype Field = Field(value: string, error: bool)

  /**
   `current` is `currentStep`; `active[i]` is whether step `i` carries the
   `active` class; `fields[i]` are the required inputs of step `i`; and
   `defaults[i][j]` is the value `form.reset()` restores to input `j` of step `i`.
   */
  datatype FormState = FormState(
    current: int,
    active: seq<bool>,
    fields: seq<seq<Field>>,
    defaults: seq<seq<string>>)

  /** The indices of the steps marked active. */
  function ActiveSteps(active: seq<bool>): set<int>
  {
    set j | 0 <= j < |active| && active[j]
  }

  /** Every step has its inputs and their reset values. */
  ghost predicate Shaped(s: FormState)
  {
    && |s.active| == |s.fields| == |s.defaults|
    && forall i :: 0 <= i < |s.fields| ==> |s.fields[i]| == |s.defaults[i]|
  }

  /**
   The invariant of every reachable state: the cursor never exceeds the step
   count (it has no lower bound), and exactly one step is displayed.
   */
  ghost predicate WellFormed(s: FormState)
  {
    && Shaped(s)
    && s.current <= |s.fields|
    && (|s.fields| > 0 ==> |ActiveSteps(s.active)| == 1)
  }

  /** `showStep(i)`: the `active` class is toggled on for index `i` and off for all others. */
  function Shown(n: nat, i: int): (r: seq<bool>)
    ensures |r| == n
    ensures 0 <= i < n ==> ActiveSteps(r) == {i}
    ensures !(0 <= i < n) ==> ActiveSteps(r) == {}
  {
    seq(n, j => j == i)
  }

  /** `validateStep` succeeds: no required input of the step is blank after trimming. */
  predicate StepComplete(step: seq<Field>)
  {
    forall j :: 0 <= j < |step| ==> !IsBlank(step[j].value)
  }

  /** The step after `validateStep`: exactly the inputs holding only white space are marked. */
  function Marked(step: seq<Field>): (r: seq<Field>)
    ensures |r| == |step|
    ensures forall j :: 0 <= j < |step| ==> r[j].value == step[j].value
    ensures forall j :: 0 <= j < |step| ==> (r[j].error <==> AllSpace(step[j].value))
  {
    seq(|step|, j requires 0 <= j < |step| => step[j].(error := IsBlank(step[j].value)))
  }

  /** The page load: every input holds its reset value, no error marks, step 0 shown. */
  function Start(defaults: seq<seq<string>>): (s: FormState)
    ensures WellFormed(s) && Synced(s)
    ensures s.current == 0 && s.defaults == defaults
    ensures |s.fields| == |defaults| && forall i :: 0 <= i < |defaults| ==> |s.fields[i]| == |defaults[i]|
    ensures forall i, j :: 0 <= i < |defaults| && 0 <= j < |defaults[i]| ==> s.fields[i][j] == Field(defaults[i][j], false)
  {
    FormState(0, Shown(|defaults|, 0),
              seq(|defaults|, i requires 0 <= i < |defaults| =>
                seq(|defaults[i]|, j requires 0 <= j < |defaults[i]| => Field(defaults[i][j], false))),
              defaults)
  }

  /**
   A click on a Next button. `validateStep(currentStep)` throws when the
   cursor is outside the steps (`steps[currentStep]` is undefined), leaving
   everything as it was. Otherwise it marks the step's inputs; if none is
   blank the cursor moves on, and the display follows only while the cursor
   is still a step index.
   */
  function Next(s: FormState): (t: FormState)
    requires WellFormed(s)
    ensures WellFormed(t)
    ensures t.defaults == s.defaults
    ensures t.current == s.current || t.current == s.current + 1
    ensures t.active == (if t.current != s.current && t.current < |s.active| then Shown(|s.active|, t.current) else s.active)
  {
    if !(0 <= s.current < |s.fields|) then s
    else
      var step := s.fields[s.current];
      var fields := s.fields[s.current := Marked(step)];
      if !StepComplete(step) then s.(fields := fields)
      else if s.current + 1 < |s.active| then
        s.(current := s.current + 1, active := Shown(|s.active|, s.current + 1), fields := fields)
      else s.(current := s.current + 1, fields := fields)
  }

  /** A click on a Previous button: an unguarded decrement; the display follows only while the cursor is not negative. */
  function Prev(s: FormState): (t: FormState)
    requires WellFormed(s)
    ensures WellFormed(t)
    ensures t.current == s.current - 1
    ensures t.fields == s.fields && t.defaults == s.defaults
    ensures t.active == (if t.current >= 0 then Shown(|s.active|, t.current) else s.active)
  {
    if s.current - 1 >= 0 then s.(current := s.current - 1, active := Shown(|s.active|, s.current - 1))
    else s.(current := s.current - 1)
  }

  /** `form.reset()`: every input gets its reset value back; the error marks stay. */
  function Reset(fields: seq<seq<Field>>, defaults: seq<seq<string>>): (r: seq<seq<Field>>)
    requires |fields| == |defaults| && forall i :: 0 <= i < |fields| ==> |fields[i]| == |defaults[i]|
    ensures |r| == |fields|
    ensures forall i :: 0 <= i < |r| ==> |r[i]| == |fields[i]|
    ensures forall i, j :: 0 <= i < |r| && 0 <= j < |r[i]| ==> r[i][j] == Field(defaults[i][j], fields[i][j].error)
  {
    seq(|fields|, i requires 0 <= i < |fields| =>
      seq(|fields[i]|, j requires 0 <= j < |fields[i]| => fields[i][j].(value := defaults[i][j])))
  }

  /**
   The submit handler: the form is reset and step 0 is shown again, but
   `currentStep` keeps its value.
   */
  function Submit(s: FormState): (t: FormState)
    requires WellFormed(s)
    ensures WellFormed(t)
    ensures t.current == s.current
    ensures |t.active| > 0 ==> ActiveSteps(t.active) == {0}
    ensures t.fields == Reset(s.fields, s.defaults) && t.defaults == s.defaults
  {
    s.(active := Shown(|s.active|, 0), fields := Reset(s.fields, s.defaults))
  }

  /** The user types `v` into required input `j` of step `i`. */
  function Fill(s: FormState, i: int, j: int, v: string): (t: FormState)
    requires WellFormed(s) && 0 <= i < |s.fields| && 0 <= j < |s.fields[i]|
    ensures WellFormed(t)
    ensures t.current == s.current && t.active == s.active
    ensures |t.fields| == |s.fields| && |t.fields[i]| == |s.fields[i]|
    ensures t.fields[i][j] == s.fields[i][j].(value := v) && t.defaults == s.defaults
    ensures forall k, l :: 0 <= k < |s.fields| && 0 <= l < |s.fields[k]| && (k, l) != (i, j)
              ==> t.fields[k][l] == s.fields[k][l]
  {
    s.(fields := s.fields[i := s.fields[i][j := s.fields[i][j].(value := v)]])
  }

  // ---------------------------------------------------------------------------
  // Facts about single transitions
  // ---------------------------------------------------------------------------

  /**
   On a step index, Next advances exactly when the step is complete, and
   afterwards an input of that step is marked exactly when it holds only
   white space; no other step and no value changes.
   */
  lemma NextAdvancesIffStepComplete(s: FormState)
    requires WellFormed(s) && 0 <= s.current < |s.fields|
    ensures Next(s).current == s.current + 1 <==> StepComplete(s.fields[s.current])
    ensures |Next(s).fields| == |s.fields|
    ensures forall j :: 0 <= j < |s.fields[s.current]| ==>
              Next(s).fields[s.current][j].value == s.fields[s.current][j].value
              && (Next(s).fields[s.current][j].error <==> AllSpace(s.fields[s.current][j].value))
    ensures forall i :: 0 <= i < |s.fields| && i != s.current ==> Next(s).fields[i] == s.fields[i]
  {
  }

  /** Outside the steps, Next throws before changing anything. */
  lemma NextOutsideStepsChangesNothing(s: FormState)
    requires WellFormed(s) && !(0 <= s.current < |s.fields|)
    ensures Next(s) == s
  {
  }

  /**
   Next on a complete last step pushes the cursor to the step count while the
   last step stays displayed; a further Next then throws.
   */
  lemma NextPastLastStep(s: FormState)
    requires WellFormed(s) && |s.fields| > 0 && s.current == |s.fields| - 1
    requires StepComplete(s.fields[s.current])
    ensures Next(s).current == |s.fields|
    ensures Next(s).active == s.active
    ensures Next(Next(s)) == Next(s)
  {
  }

  /** Previous on the first step moves the cursor to -1 and leaves step 0 displayed. */
  lemma PrevFromFirstStep(s: FormState)
    requires WellFormed(s) && s.current == 0
    ensures Prev(s).current == -1 && Prev(s).active == s.active
  {
  }

  // ---------------------------------------------------------------------------
  // Sequences of events
  // ---------------------------------------------------------------------------

  datatype Event = NextClick | PrevClick | Input(step: int, field: int, value: string) | SubmitForm

  /** One event; typing into an input that does not exist cannot happen and changes nothing. */
  function Apply(s: FormState, e: Event): (t: FormState)
    requires WellFormed(s)
    ensures WellFormed(t)
  {
    match e
    case NextClick => Next(s)
    case PrevClick => Prev(s)
    case Input(i, j, v) =>
      if 0 <= i < |s.fields| && 0 <= j < |s.fields[i]| then Fill(s, i, j, v) else s
    case SubmitForm => Submit(s)
  }

  function Run(s: FormState, events: seq<Event>): (t: FormState)
    requires WellFormed(s)
    ensures WellFormed(t)
    decreases |events|
  {
    if events == [] then s else Run(Apply(s, events[0]), events[1..])
  }

  /** `k` Previous clicks on the first step drive the cursor to `-k` while step 0 stays displayed. */
  lemma {:induction false} PrevClicksFromFirstStep(s: FormState, k: nat)
    requires WellFormed(s) && s.current <= 0
    ensures Run(s, Repeat(PrevClick, k)).current == s.current - k
    ensures Run(s, Repeat(PrevClick, k)).active == s.active
    decreases k
  {
    if k > 0 {
      assert Repeat(PrevClick, k)[1..] == Repeat(PrevClick, k - 1);
      PrevClicksFromFirstStep(Prev(s), k - 1);
    }
  }

  /**
   Once the cursor is negative no event brings it back: Next throws, Previous
   decrements further, and submission and typing leave it alone.
   */
  lemma {:induction false} NegativeCursorNeverRecovers(s: FormState, events: seq<Event>)
    requires WellFormed(s) && s.current < 0
    ensures Run(s, events).current < 0
    decreases |events|
  {
    if events != [] {
      NegativeCursorNeverRecovers(Apply(s, events[0]), events[1..]);
    }
  }

  // ---------------------------------------------------------------------------
  // The cursor and the display
  // ---------------------------------------------------------------------------

  /** The step index nearest to `c`. */
  function Clamp(c: int, n: nat): int
    requires n > 0
  {
    if c < 0 then 0 else if c >= n then n - 1 else c
  }

  /** The displayed step is the cursor, clamped to the step indices. */
  ghost predicate Synced(s: FormState)
  {
    |s.active| > 0 ==> ActiveSteps(s.active) == {Clamp(s.current, |s.active|)}
  }

  /** Next, Previous and typing keep the display in step with the cursor. */
  lemma NavigationKeepsSync(s: FormState, e: Event)
    requires WellFormed(s) && Synced(s) && e != SubmitForm
    ensures Synced(Apply(s, e))
  {
  }

  /** Without a submission, the display always shows the clamped cursor. */
  lemma {:induction false} SyncedWithoutSubmit(s: FormState, events: seq<Event>)
    requires WellFormed(s) && Synced(s)
    requires forall k :: 0 <= k < |events| ==> events[k] != SubmitForm
    ensures Synced(Run(s, events))
    decreases |events|
  {
    if events != [] {
      NavigationKeepsSync(s, events[0]);
      SyncedWithoutSubmit(Apply(s, events[0]), events[1..]);
    }
  }

  /**
   After a submission on a later step, step 0 is displayed but the cursor
   still names the later step, so the next Next validates (and marks) the
   inputs of that hidden step and leaves step 0's inputs untouched.
   */
  lemma SubmitLeavesCursorBehind(s: FormState)
    requires WellFormed(s) && 0 < s.current < |s.fields|
    ensures ActiveSteps(Submit(s).active) == {0}
    ensures !Synced(Submit(s))
    ensures Next(Submit(s)).fields[0] == Submit(s).fields[0]
    ensures Next(Submit(s)).fields[s.current] == Marked(Submit(s).fields[s.current])
  {
    assert s.current in {Clamp(s.current, |s.active|)};
  }

  /** A submission discards whatever was typed before it: only the error marks survive `form.reset()`. */
  lemma SubmitDiscardsTyping(s: FormState, i: int, j: int, v: string)
    requires WellFormed(s) && 0 <= i < |s.fields| && 0 <= j < |s.fields[i]|
    ensures Submit(Fill(s, i, j, v)) == Submit(s)
  {
    var a, b := Submit(Fill(s, i, j, v)).fields, Submit(s).fields;
    assert |a| == |b|;
    forall k | 0 <= k < |a|
      ensures a[k] == b[k]
    {
      assert |a[k]| == |b[k]|;
      forall l | 0 <= l < |a[k]|
        ensures a[k][l] == b[k][l]
      {
        if (k, l) != (i, j) {
          assert Fill(s, i, j, v).fields[k][l] == s.fields[k][l];
        }
      }
    }
  }

  /** Resetting twice is resetting once. */
  lemma ResetIdempotent(fields: seq<seq<Field>>, defaults: seq<seq<string>>)
    requires |fields| == |defaults| && forall i :: 0 <= i < |fields| ==> |fields[i]| == |defaults[i]|
    ensures Reset(Reset(fields, defaults), defaults) == Reset(fields, defaults)
  {
    var r := Reset(fields, defaults);
    forall i | 0 <= i < |r|
      ensures Reset(r, defaults)[i] == r[i]
    {
      assert |Reset(r, defaults)[i]| == |r[i]|;
    }
  }

  // ---------------------------------------------------------------------------
  // The form: closure variables and DOM state updated in place
  // ---------------------------------------------------------------------------

  class RequestForm {
    var currentStep: int
    var active: seq<bool>
    var fields: seq<seq<Field>>
    const defaults: seq<seq<string>>

    function State(): FormState
      reads this
    {
      FormState(currentStep, active, fields, defaults)
    }

    ghost predicate Valid()
      reads this
    {
      WellFormed(State())
    }

    /**
     `initializeServiceRequestForm`: the cursor starts at 0 and `showStep(0)`
     runs over the steps as the markup left them.
     */
    constructor (defaults: seq<seq<string>>, markupActive: seq<bool>)
      requires |markupActive| == |defaults|
      ensures Valid() && State() == Start(defaults)
    {
      this.defaults := defaults;
      currentStep := 0;
      active := markupActive;
      fields := seq(|defaults|, i requires 0 <= i < |defaults| =>
                  seq(|defaults[i]|, j requires 0 <= j < |defaults[i]| => Field(defaults[i][j], false)));
      new;
      ShowStep(0);
    }

    /** `showStep(stepIndex)`: toggle every step's `active` class to `index === stepIndex`. */
    method ShowStep(stepIndex: int)
      modifies `active
      ensures active == Shown(|old(active)|, stepIndex)
    {
      var k := 0;
      while k < |active|
        invariant 0 <= k <= |active| == |old(active)|
        invariant forall j :: 0 <= j < k ==> active[j] == (j == stepIndex)
        invariant forall j :: k <= j < |active| ==> active[j] == old(active[j])
      {
        active := active[k := k == stepIndex];
        k := k + 1;
      }
    }

    /**
     `validateStep(stepIndex)`: visit every required input of the step, mark
     the blank ones with `error` and clear the mark on the others.
     */
    method ValidateStep(stepIndex: int) returns (isValid: bool)
      requires 0 <= stepIndex < |fields|
      modifies `fields
      ensures isValid == StepComplete(old(fields[stepIndex]))
      ensures fields == old(fields)[stepIndex := Marked(old(fields[stepIndex]))]
    {
      ghost var before := fields[stepIndex];
      var step := fields[stepIndex];
      isValid := true;
      var j := 0;
      while j < |step|
        invariant fields == old(fields)[stepIndex := step]
        invariant |step| == |before| && 0 <= j <= |before|
        invariant forall k :: 0 <= k < j ==> step[k] == before[k].(error := IsBlank(before[k].value))
        invariant forall k :: j <= k < |before| ==> step[k] == before[k]
        invariant isValid == forall k :: 0 <= k < j ==> !IsBlank(before[k].value)
      {
        var field := step[j];
        if IsBlank(field.value) {
          step := step[j := field.(error := true)];
          isValid := false;
        } else {
          step := step[j := field.(error := false)];
        }
        fields := fields[stepIndex := step];
        j := j + 1;
      }
      assert step == Marked(before);
    }

    /** A Next button's click handler; `threw` is whether `validateStep` threw. */
    method ClickNext() returns (threw: bool)
      requires Valid()
      modifies this
      ensures Valid() && State() == Next(old(State()))
      ensures threw == !(0 <= old(currentStep) < |old(fields)|)
    {
      if !(0 <= currentStep < |fields|) {
        threw := true;
        return;
      }
      threw := false;
      var ok := ValidateStep(currentStep);
      if ok {
        currentStep := currentStep + 1;
        if currentStep < |active| {
          ShowStep(currentStep);
        }
      }
    }

    /** A Previous button's click handler. */
    method ClickPrevious()
      requires Valid()
      modifies this
      ensures Valid() && State() == Prev(old(State()))
    {
      currentStep := currentStep - 1;
      if currentStep >= 0 {
        ShowStep(currentStep);
      }
    }

    /** The submit handler: `form.reset()`, then step 0 shown again; `currentStep` is not touched. */
    method HandleSubmit()
      requires Valid()
      modifies this
      ensures Valid() && State() == Submit(old(State()))
    {
      fields := Reset(fields, defaults);
      ShowStep(0);
    }

    /** The user types into required input `j` of step `i`. */
    method FillField(i: int, j: int, v: string)
      requires Valid() && 0 <= i < |fields| && 0 <= j < |fields[i]|
      modifies this
      ensures Valid() && State() == Fill(old(State()), i, j, v)
    {
      fields := fields[i := fields[i][j := fields[i][j].(value := v)]];
    }
  }
}
