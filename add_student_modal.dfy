/** The step counter of the three-step add-student dialog
    (client/components/AddStudentModal.jsx). */
module AddStudentModal {
  /** Personal information, academic background, preferences. */
  const STEP_COUNT := 3

  /** What the dialog's buttons do: Next (with the outcome of validating the
      current step's fields), Previous, Cancel. */
  datatype Event = Next(valid: bool) | Previous | Cancel

  /** Which buttons the dialog offers on a step: Previous past the first
      step, Next before the last one (where "Add Student" replaces it), and
      Cancel always. */
  predicate Offered(step: int, e: Event)
  {
    match e
    case Next(_) => step < STEP_COUNT - 1
    case Previous => step > 0
    case Cancel => true
  }

  /** The step after an event. */
  function Transition(step: int, e: Event): (next: int)
    ensures e.Next? && e.valid ==> next == step + 1
    ensures e.Next? && !e.valid ==> next == step
    ensures e.Previous? ==> next == step - 1
    ensures e.Cancel? ==> next == 0
  {
    match e
    case Next(valid) => if valid then step + 1 else step
    case Previous => step - 1
    case Cancel => 0
  }

  /** The step after a run of events. */
  function Run(step: int, events: seq<Event>): int
    decreases |events|
  {
    if events == [] then step else Run(Transition(step, events[0]), events[1..])
  }

  /** Each event runs only while offered on the step it starts from. */
  predicate OfferedRun(step: int, events: seq<Event>)
    decreases |events|
  {
    events == [] || (Offered(step, events[0]) && OfferedRun(Transition(step, events[0]), events[1..]))
  }

  /** An offered event keeps the step among the three. */
  lemma TransitionInRange(step: int, e: Event)
    requires 0 <= step < STEP_COUNT && Offered(step, e)
    ensures 0 <= Transition(step, e) < STEP_COUNT
  {
  }

  /** Pressing only offered buttons, from any step among the three, never
      leaves the three steps. */
  lemma {:induction false} RunInRange(step: int, events: seq<Event>)
    requires 0 <= step < STEP_COUNT && OfferedRun(step, events)
    ensures 0 <= Run(step, events) < STEP_COUNT
    decreases |events|
  {
    if events != [] {
      TransitionInRange(step, events[0]);
      RunInRange(Transition(step, events[0]), events[1..]);
    }
  }

  /** The dialog's state: the current step and how often `onCancel` was
      called. */
  class Wizard {
    var currentStep: int
    var cancelCalls: nat

    predicate Valid()
      reads this
    {
      0 <= currentStep < STEP_COUNT
    }

    constructor()
      ensures Valid() && currentStep == 0 && cancelCalls == 0
    {
      currentStep := 0;
      cancelCalls := 0;
    }

    /** `handleNext`: advance when the fields validate, stay otherwise. */
    method HandleNext(valid: bool)
      requires Valid() && Offered(currentStep, Next(valid))
      modifies this
      ensures Valid()
      ensures currentStep == Transition(old(currentStep), Next(valid))
      ensures cancelCalls == old(cancelCalls)
    {
      if valid {
        currentStep := currentStep + 1;
      }
    }

    /** `handlePrevious`. */
    method HandlePrevious()
      requires Valid() && Offered(currentStep, Previous)
      modifies this
      ensures Valid()
      ensures currentStep == Transition(old(currentStep), Previous)
      ensures cancelCalls == old(cancelCalls)
    {
      currentStep := currentStep - 1;
    }

    /** `handleCancel`: back to the first step, and the parent is told. */
    method HandleCancel()
      modifies this
      ensures Valid()
      ensures currentStep == Transition(old(currentStep), Cancel)
      ensures cancelCalls == old(cancelCalls) + 1
    {
      currentStep := 0;
      cancelCalls := cancelCalls + 1;
    }
  }
}
