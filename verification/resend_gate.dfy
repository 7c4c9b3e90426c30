/**
  The resend button of the two "check your inbox" pages (e-mail verification
  and password reset verification): a `canResend` flag guards the request, a
  reply starts a cooldown timer that sets the flag again, and a failed request
  sets it again at once.

  The pending request and the pending timer are made explicit next to the
  flag; the page's own polling of the verification status is left out.
 */
module ResendGate {
  datatype Gate = Gate(canResend: bool, inFlight: bool, coolingDown: bool)

  /** What can happen to the page: a click, the request's reply or failure, the timer firing. */
  datatype Event = ResendClicked | Replied | Failed | CooldownElapsed

  const INITIAL: Gate := Gate(true, false, false)

  /** The flag is set exactly when neither a request nor a cooldown is pending, and never both are. */
  predicate Consistent(g: Gate) {
    (g.canResend <==> !g.inFlight && !g.coolingDown) && !(g.inFlight && g.coolingDown)
  }

  datatype Stepped = Stepped(gate: Gate, sent: bool)

  /**
    `resendEmail` and its callbacks. A click with the flag down sends nothing; a
    click with it up clears it and sends. A reply starts the cooldown, a failure
    raises the flag, and the timer raises it when the cooldown ends.
   */
  function Step(g: Gate, e: Event): (r: Stepped)
    ensures r.sent <==> e == ResendClicked && g.canResend
    ensures r.sent ==> !r.gate.canResend && r.gate.inFlight
    ensures Consistent(g) ==> Consistent(r.gate)
    ensures Consistent(g) && r.sent ==> !g.inFlight && !g.coolingDown
    ensures e == Failed && g.inFlight ==> r.gate.canResend || r.gate.coolingDown
    ensures Consistent(g) && e == Replied && g.inFlight ==> !r.gate.canResend && r.gate.coolingDown
  {
    match e
    case ResendClicked =>
      if !g.canResend then Stepped(g, false)
      else Stepped(g.(canResend := false, inFlight := true), true)
    case Replied =>
      if g.inFlight then Stepped(g.(inFlight := false, coolingDown := true), false)
      else Stepped(g, false)
    case Failed =>
      if g.inFlight then Stepped(g.(inFlight := false, canResend := true), false)
      else Stepped(g, false)
    case CooldownElapsed =>
      if g.coolingDown then Stepped(g.(coolingDown := false, canResend := true), false)
      else Stepped(g, false)
  }

  /** The gate after a run of events, and how many requests went out. */
  datatype Run = Run(gate: Gate, sends: nat)

  function RunEvents(g: Gate, es: seq<Event>): (r: Run)
    ensures Consistent(g) ==> Consistent(r.gate)
    decreases |es|
  {
    if |es| == 0 then Run(g, 0)
    else
      var s := Step(g, es[0]);
      var rest := RunEvents(s.gate, es[1..]);
      Run(rest.gate, rest.sends + (if s.sent then 1 else 0))
  }

  /** Once a reply has started the cooldown, no click sends anything until the timer fires. */
  lemma {:induction false} NoResendDuringCooldown(g: Gate, es: seq<Event>)
    requires Consistent(g) && g.coolingDown
    requires forall k :: 0 <= k < |es| ==> es[k] != CooldownElapsed
    ensures RunEvents(g, es).sends == 0 && RunEvents(g, es).gate.coolingDown
    decreases |es|
  {
    if |es| > 0 {
      NoResendDuringCooldown(Step(g, es[0]).gate, es[1..]);
    }
  }

  /** While a request is pending, clicks send nothing more: at most one request is ever outstanding. */
  lemma {:induction false} NoResendWhileInFlight(g: Gate, es: seq<Event>)
    requires Consistent(g) && g.inFlight
    requires forall k :: 0 <= k < |es| ==> es[k] == ResendClicked
    ensures RunEvents(g, es).sends == 0 && RunEvents(g, es).gate == g
    decreases |es|
  {
    if |es| > 0 {
      NoResendWhileInFlight(g, es[1..]);
    }
  }

  /** A failed request lets the very next click send again. */
  lemma FailureReenables(g: Gate)
    requires Consistent(g) && g.inFlight
    ensures Step(Step(g, Failed).gate, ResendClicked).sent
  {
  }
}
