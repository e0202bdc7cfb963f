/** The order-progress simulation of the order-status screen
    (src/pages/OrderStatus.tsx): a step counter advanced by one timer and a
    countdown advanced by another. The timers themselves are not modelled; each
    firing is one explicit tick. */
module OrderProgress {
  import opened Wrappers
  import Text

  const ReadyStep := 4
  const CountdownStart := 300

  datatype Progress = Progress(currentStep: int, countdown: int)

  /** The state when the screen mounts: step 1, five minutes on the clock. */
  const Initial := Progress(1, CountdownStart)

  /** The step timer's update: advance until the ready step, then stay. */
  function TickStep(prev: int): (r: int)
    ensures prev <= r <= prev + 1
    ensures r == prev + 1 <==> prev < ReadyStep
    ensures 1 <= prev <= ReadyStep ==> 1 <= r <= ReadyStep
  {
    if prev < 4 then prev + 1 else prev
  }

  /** The countdown timer's update: count down, floored at zero. */
  function TickCountdown(prev: int): (r: int)
    ensures r >= 0
    ensures r <= prev || prev < 0
    ensures r == prev - 1 <==> prev > 0
    ensures prev <= 0 ==> r == 0
  {
    if prev > 0 then prev - 1 else 0
  }

  /** One firing of the step timer on the whole screen state. */
  function OnStepTimer(s: Progress): (r: Progress)
    ensures r.countdown == s.countdown
    ensures r.currentStep >= s.currentStep
    ensures r.currentStep == TickStep(s.currentStep)
  {
    s.(currentStep := TickStep(s.currentStep))
  }

  /** One firing of the countdown timer on the whole screen state. */
  function OnCountdownTimer(s: Progress): (r: Progress)
    ensures r.currentStep == s.currentStep
    ensures r.countdown >= 0
    ensures r.countdown == TickCountdown(s.countdown)
  {
    s.(countdown := TickCountdown(s.countdown))
  }

  /** The two timers are independent: their firings commute. */
  lemma TimersCommute(s: Progress)
    ensures OnStepTimer(OnCountdownTimer(s)) == OnCountdownTimer(OnStepTimer(s))
  {
  }

  /** A step number capped at the ready step. */
  function ClampToReady(n: int): int { if n <= ReadyStep then n else ReadyStep }

  /** A count floored at zero. */
  function FloorAtZero(n: int): int { if n >= 0 then n else 0 }

  /** The step after `k` firings of the step timer starting at `step`. */
  function StepAfter(step: int, k: nat): int
    decreases k
  {
    if k == 0 then step else TickStep(StepAfter(step, k - 1))
  }

  /** The countdown after `n` firings of the countdown timer starting at `count`. */
  function CountdownAfter(count: int, n: nat): int
    decreases n
  {
    if n == 0 then count else TickCountdown(CountdownAfter(count, n - 1))
  }

  /** From any step up to the ready step, `k` ticks give `min(step + k, 4)`:
      the step never decreases and never passes the ready step. */
  lemma {:induction false} StepAfterClosedForm(step: int, k: nat)
    requires step <= ReadyStep
    ensures StepAfter(step, k) == ClampToReady(step + k)
    decreases k
  {
    if k > 0 {
      StepAfterClosedForm(step, k - 1);
    }
  }

  /** From the initial state the ready step is reached on exactly the third
      tick and kept thereafter; every reachable step lies in [1, 4]. */
  lemma ReadyOnThirdTick(k: nat)
    ensures 1 <= StepAfter(Initial.currentStep, k) <= ReadyStep
    ensures StepAfter(Initial.currentStep, k) == ReadyStep <==> k >= 3
    ensures StepAfter(Initial.currentStep, k) <= StepAfter(Initial.currentStep, k + 1)
  {
    StepAfterClosedForm(1, k);
    StepAfterClosedForm(1, k + 1);
  }

  /** From any non-negative count, `n` ticks give `max(count - n, 0)`. */
  lemma {:induction false} CountdownAfterClosedForm(count: int, n: nat)
    requires count >= 0
    ensures CountdownAfter(count, n) == FloorAtZero(count - n)
    decreases n
  {
    if n > 0 {
      CountdownAfterClosedForm(count, n - 1);
    }
  }

  /** From the initial state the countdown is never negative and holds at zero
      from the 300th tick on. */
  lemma CountdownFromStart(n: nat)
    ensures CountdownAfter(CountdownStart, n) >= 0
    ensures CountdownAfter(CountdownStart, n) == 0 <==> n >= CountdownStart
  {
    CountdownAfterClosedForm(CountdownStart, n);
  }

  /** The confetti effect switches confetti on when it runs with the ready
      step. */
  predicate ConfettiOn(currentStep: int) {
    currentStep == ReadyStep
  }

  /** The effect depends on `currentStep`, so it runs only when a tick changes
      the step; it fires when that change lands on the ready step. */
  predicate ConfettiFiresOnTick(prev: int) {
    TickStep(prev) != prev && ConfettiOn(TickStep(prev))
  }

  /** Over the whole run, the confetti fires on the third step tick and on no
      other. */
  lemma ConfettiFiresOnce(k: nat)
    ensures ConfettiFiresOnTick(StepAfter(Initial.currentStep, k)) <==> k == 2
  {
    StepAfterClosedForm(1, k);
  }

  /** `formatTime(seconds)` as "m:ss": whole minutes, a colon, and the
      remaining seconds padded to two digits. */
  function FormatTime(seconds: nat): (r: string)
    ensures |r| >= 4 && r[|r| - 3] == ':'
    ensures r[..|r| - 3] == Text.DecimalString(seconds / 60)
    ensures Text.AllDigits(r[|r| - 2..]) && Text.DigitsValue(r[|r| - 2..]) == seconds % 60
  {
    var mins := Text.DecimalString(seconds / 60);
    var secs := Text.PadStart2(Text.DecimalString(seconds % 60));
    Text.PadTwoDigits(seconds % 60);
    var r := mins + ":" + secs;
    assert r[..|r| - 3] == mins;
    assert r[|r| - 2..] == secs;
    r
  }

  /** Reads an "m:ss" string back into seconds. */
  function ParseTime(t: string): Option<nat> {
    if |t| >= 4 && t[|t| - 3] == ':' && Text.AllDigits(t[..|t| - 3]) && Text.AllDigits(t[|t| - 2..])
    then Some(Text.DigitsValue(t[..|t| - 3]) * 60 + Text.DigitsValue(t[|t| - 2..]))
    else None
  }

  /** The minutes and seconds shown recover the number of seconds. */
  lemma FormatTimeRoundTrip(seconds: nat)
    ensures ParseTime(FormatTime(seconds)) == Some(seconds)
  {
    Text.DecimalRoundTrip(seconds / 60);
  }

  /** The initial countdown shows as "5:00". */
  lemma FormatTimeAtStart()
    ensures FormatTime(CountdownStart) == "5:00"
  {
    assert Text.DecimalString(5) == "5";
    assert Text.DecimalString(0) == "0";
    assert Text.PadStart2("0") == "00";
  }

  /** An expired countdown shows as "0:00". */
  lemma FormatTimeAtZero()
    ensures FormatTime(0) == "0:00"
  {
    assert Text.DecimalString(0) == "0";
    assert Text.PadStart2("0") == "00";
  }

  datatype StatusMessage = StatusMessage(title: string, subtitle: string)

  /** The `statusMessages[currentStep]` lookup; `undefined` outside 1..4. */
  function StatusMessageFor(step: int): (r: Option<StatusMessage>)
    ensures r.Some? <==> 1 <= step <= ReadyStep
  {
    if step == 1 then Some(StatusMessage("Payment Successful!", "Your order is being processed"))
    else if step == 2 then Some(StatusMessage("Preparing Your Order", "Items are being selected"))
    else if step == 3 then Some(StatusMessage("Dispensing Items", "Please wait..."))
    else if step == 4 then Some(StatusMessage("Ready to Collect!", "Scan the QR code at the machine"))
    else None
  }

  /** Every step the simulation reaches has a message. */
  lemma StatusMessageDefined(k: nat)
    ensures StatusMessageFor(StepAfter(Initial.currentStep, k)).Some?
  {
    ReadyOnThirdTick(k);
  }
}
