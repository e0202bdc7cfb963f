/** The step indicator of the order-status screen
    (src/components/OrderStepper.tsx): each step is completed, active or
    pending relative to the current step, and that decides its icon and
    whether its label is highlighted. */
module OrderStepper {

  datatype Icon = CheckIcon | ClockIcon | CogIcon | PackageIcon

  datatype Step = Step(id: int, caption: string, icon: Icon)

  /** The four steps the order-status screen passes in. */
  const OrderSteps: seq<Step> := [
    Step(1, "Payment Confirmed", CheckIcon),
    Step(2, "Preparing", ClockIcon),
    Step(3, "Dispensing", CogIcon),
    Step(4, "Ready", PackageIcon)
  ]

  // The three flags, computed independently as in the source.
  predicate IsCompleted(step: Step, currentStep: int) { step.id < currentStep }
  predicate IsActive(step: Step, currentStep: int) { step.id == currentStep }
  predicate IsPending(step: Step, currentStep: int) { step.id > currentStep }

  datatype Phase = Completed | Active | Pending

  /** The step's phase; exactly one of the three flags holds, so this is well
      defined. */
  function PhaseOf(step: Step, currentStep: int): (r: Phase)
    ensures r == Completed <==> IsCompleted(step, currentStep)
    ensures r == Active <==> IsActive(step, currentStep)
    ensures r == Pending <==> IsPending(step, currentStep)
  {
    if IsCompleted(step, currentStep) then Completed
    else if IsActive(step, currentStep) then Active
    else Pending
  }

  /** The icon inside the step's circle: a check mark once completed,
      otherwise the step's own icon. */
  function CircleIcon(step: Step, currentStep: int): (r: Icon)
    ensures PhaseOf(step, currentStep) == Completed ==> r == CheckIcon
    ensures PhaseOf(step, currentStep) != Completed ==> r == step.icon
  {
    if IsCompleted(step, currentStep) then CheckIcon else step.icon
  }

  /** The label's colour class: highlighted only for the active step. */
  function LabelClass(step: Step, currentStep: int): (r: string)
    ensures r == "text-primary" <==> PhaseOf(step, currentStep) == Active
  {
    if IsActive(step, currentStep) then "text-primary" else "text-muted-foreground"
  }

  datatype StepView = StepView(phase: Phase, icon: Icon, labelClass: string)

  /** What `steps.map(...)` renders for each step. */
  function Render(steps: seq<Step>, currentStep: int): (r: seq<StepView>)
    ensures |r| == |steps|
    ensures forall i :: 0 <= i < |steps| ==>
      r[i] == StepView(PhaseOf(steps[i], currentStep), CircleIcon(steps[i], currentStep), LabelClass(steps[i], currentStep))
  {
    seq(|steps|, i requires 0 <= i < |steps| =>
      StepView(PhaseOf(steps[i], currentStep), CircleIcon(steps[i], currentStep), LabelClass(steps[i], currentStep)))
  }

  predicate DistinctIds(steps: seq<Step>) {
    forall i, j :: 0 <= i < j < |steps| ==> steps[i].id != steps[j].id
  }

  /** With distinct ids, at most one rendered step is active and so at most one
      label is highlighted. */
  lemma AtMostOneActive(steps: seq<Step>, currentStep: int)
    requires DistinctIds(steps)
    ensures var views := Render(steps, currentStep);
      forall i, j :: 0 <= i < j < |views| ==> !(views[i].phase == Active && views[j].phase == Active)
  {
  }

  /** At every step the simulation reaches, the four order steps split into a
      completed prefix, one active step, and a pending suffix. */
  lemma OrderStepsPhases(currentStep: int)
    requires 1 <= currentStep <= 4
    ensures forall i :: 0 <= i < 4 ==>
      Render(OrderSteps, currentStep)[i].phase ==
        (if i + 1 < currentStep then Completed else if i + 1 == currentStep then Active else Pending)
  {
  }

  /** At the ready step, steps 1 to 3 show the check mark, step 4 is active
      with its own package icon, and nothing is pending. */
  lemma ReadyView()
    ensures Render(OrderSteps, 4) == [
      StepView(Completed, CheckIcon, "text-muted-foreground"),
      StepView(Completed, CheckIcon, "text-muted-foreground"),
      StepView(Completed, CheckIcon, "text-muted-foreground"),
      StepView(Active, PackageIcon, "text-primary")
    ]
  {
  }
}
