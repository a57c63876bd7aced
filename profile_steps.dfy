/**
 * The step machine of the profile-onboarding wizard: which of the Prev, Next
 * and Submit buttons are offered, where Prev and Next lead, when Submit is
 * disabled and when the red warning shows.
 *
 * The `step` prop is a string that may be undefined; `None` stands for
 * undefined and for any string outside the four steps.
 */
module ProfileSteps {
  import opened Wrappers
  import opened JsText
  import opened ProfileState

  datatype Step = Role | Bio | Socials | Exp

  /** Position of a step in the wizard's fixed order ROLE, BIO, SOCIALS, EXP. */
  function Index(s: Step): (i: nat)
    ensures i < 4
  {
    match s
    case Role => 0
    case Bio => 1
    case Socials => 2
    case Exp => 3
  }

  lemma IndexInjective(s: Step, t: Step)
    ensures Index(s) == Index(t) ==> s == t
  {
  }

  /** The Prev button is rendered whenever the step is not ROLE. */
  predicate PrevOffered(step: Option<Step>) {
    step != Some(Role)
  }

  /** The Next button is rendered whenever the step is not EXP. */
  predicate NextOffered(step: Option<Step>) {
    step != Some(Exp)
  }

  /** The Submit button is rendered only at EXP. */
  predicate SubmitOffered(step: Option<Step>) {
    step == Some(Exp)
  }

  /** On a known step the buttons follow the order: Prev everywhere but first, Next everywhere but last, Submit only last; Next and Submit never show together and one of them always does. */
  lemma ButtonsFollowOrder(step: Option<Step>)
    ensures step.Some? ==> (PrevOffered(step) <==> Index(step.value) > 0)
    ensures step.Some? ==> (NextOffered(step) <==> Index(step.value) < 3)
    ensures step.Some? ==> (SubmitOffered(step) <==> Index(step.value) == 3)
    ensures NextOffered(step) != SubmitOffered(step)
  {
  }

  /** The step after a click on Next: each known step but the last moves one place forward; anything else is left as it is. */
  function AfterNext(step: Option<Step>): (r: Option<Step>)
    ensures step.Some? && step.value != Exp ==> r.Some? && Index(r.value) == Index(step.value) + 1
    ensures step.None? || step.value == Exp ==> r == step
  {
    if step == Some(Role) then Some(Bio)
    else if step == Some(Bio) then Some(Socials)
    else if step == Some(Socials) then Some(Exp)
    else step
  }

  /** The step after a click on Prev: each known step but the first moves one place back; anything else is left as it is. */
  function AfterPrev(step: Option<Step>): (r: Option<Step>)
    ensures step.Some? && step.value != Role ==> r.Some? && Index(r.value) + 1 == Index(step.value)
    ensures step.None? || step.value == Role ==> r == step
  {
    if step == Some(Bio) then Some(Role)
    else if step == Some(Socials) then Some(Bio)
    else if step == Some(Exp) then Some(Socials)
    else step
  }

  /** Prev undoes Next wherever Next is offered. */
  lemma PrevUndoesNext(step: Option<Step>)
    requires NextOffered(step)
    ensures AfterPrev(AfterNext(step)) == step
  {
    if step.Some? {
      IndexInjective(AfterPrev(AfterNext(step)).value, step.value);
    }
  }

  /** Next undoes Prev wherever Prev is offered. */
  lemma NextUndoesPrev(step: Option<Step>)
    requires PrevOffered(step)
    ensures AfterNext(AfterPrev(step)) == step
  {
    if step.Some? {
      IndexInjective(AfterNext(AfterPrev(step)).value, step.value);
    }
  }

  /** Three clicks on Next lead from ROLE to EXP, passing through every step once. */
  lemma NextWalksAllSteps()
    ensures AfterNext(Some(Role)) == Some(Bio)
    ensures AfterNext(AfterNext(Some(Role))) == Some(Socials)
    ensures AfterNext(AfterNext(AfterNext(Some(Role)))) == Some(Exp)
  {
  }

  /** `bg => !!bg.title`: the entry has a non-empty title. */
  predicate HasTitle(e: Experience) {
    IsTruthy(e.title)
  }

  /** `background.some(bg => !!bg.title)`. */
  function AnyTitled(background: seq<Experience>): (r: bool)
    ensures r <==> exists i :: 0 <= i < |background| && HasTitle(background[i])
  {
    if background == [] then false
    else HasTitle(background[0]) || AnyTitled(background[1..])
  }

  /** The Submit button's `disabled` attribute: a percentage below 50 AND no titled background entry. */
  function SubmitDisabled(percentage: int, background: seq<Experience>): (r: bool)
    ensures r <==> percentage < 50 && forall i :: 0 <= i < |background| ==> !HasTitle(background[i])
    ensures !r <==> percentage >= 50 || exists i :: 0 <= i < |background| && HasTitle(background[i])
  {
    percentage < 50 && !AnyTitled(background)
  }

  /** The red "fill minimum 50% and 1 background" warning, written separately in the source. */
  predicate WarningShown(step: Option<Step>, percentage: int, background: seq<Experience>) {
    step == Some(Exp) && percentage < 50 && !AnyTitled(background)
  }

  /** The warning shows exactly when Submit is offered but disabled. */
  lemma WarningIffSubmitBlocked(step: Option<Step>, percentage: int, background: seq<Experience>)
    ensures WarningShown(step, percentage, background) <==> SubmitOffered(step) && SubmitDisabled(percentage, background)
  {
  }

  /** Either condition alone enables Submit; an entry whose title is empty does not count. */
  lemma SubmitGateExamples()
    ensures !SubmitDisabled(49, [Experience(Some("x"), None, None, None)])
    ensures !SubmitDisabled(50, [])
    ensures !SubmitDisabled(50, [Experience(Some("x"), None, None, None)])
    ensures SubmitDisabled(49, [])
    ensures SubmitDisabled(0, [Experience(Some(""), None, None, None), Experience(None, Some("b"), None, None)])
  {
    var titled := [Experience(Some("x"), None, None, None)];
    assert HasTitle(titled[0]);
  }
}
