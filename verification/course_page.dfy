/**
  The course page script: the section accordion, where at most one section
  body is shown at a time, and the scheduling modal, whose date input may not
  be set earlier than thirty minutes from now.

  The page is data. A section records whether it has a title and a body. The
  accordion state is the active section plus the visibility of each body.
  Dates are counted in whole minutes of local wall-clock time.
 */
module CoursePage {
  import opened Wrappers

  datatype Section = Section(hasTitle: bool, hasBody: bool)

  /** `currentActiveSection` and the display state of every section body. */
  datatype Accordion = Accordion(active: Option<nat>, shown: seq<bool>)

  /** Only a body that exists is shown, and a shown body belongs to the active section. */
  predicate Inv(sections: seq<Section>, a: Accordion) {
    && |a.shown| == |sections|
    && (a.active.Some? ==> a.active.value < |sections|)
    && forall j :: 0 <= j < |a.shown| && a.shown[j] ==> sections[j].hasBody && a.active == Some(j)
  }

  /**
    Page load: a page without sections gets no accordion. Otherwise the first
    section is active and every body but the first is hidden.
   */
  function Init(sections: seq<Section>): (r: Option<Accordion>)
    ensures r.None? <==> |sections| == 0
    ensures r.Some? ==> r.value.active == Some(0) && |r.value.shown| == |sections|
    ensures r.Some? ==> forall j :: 0 <= j < |sections| ==>
              (r.value.shown[j] <==> j == 0 && sections[0].hasBody)
  {
    if |sections| == 0 then None
    else Some(Accordion(Some(0), seq(|sections|, j requires 0 <= j < |sections| => j == 0 && sections[0].hasBody)))
  }

  /**
    A click on section `i`'s title. A section without a title or a body has no
    handler. Clicking the active section hides it and leaves none active.
    Clicking another one hides the active body, shows this one and makes it
    active.
   */
  function Click(sections: seq<Section>, a: Accordion, i: nat): (r: Accordion)
    requires Inv(sections, a) && i < |sections|
    ensures |r.shown| == |a.shown|
    ensures !sections[i].hasTitle || !sections[i].hasBody ==> r == a
    ensures sections[i].hasTitle && sections[i].hasBody && a.active == Some(i) ==>
              r.active.None? && !r.shown[i]
    ensures sections[i].hasTitle && sections[i].hasBody && a.active != Some(i) ==>
              r.active == Some(i) && r.shown[i]
              && (a.active.Some? ==> !r.shown[a.active.value])
    ensures forall j :: 0 <= j < |a.shown| && j != i && a.active != Some(j) ==> r.shown[j] == a.shown[j]
    ensures Inv(sections, r)
  {
    if !sections[i].hasTitle || !sections[i].hasBody then a
    else if a.active == Some(i) then Accordion(None, a.shown[i := false])
    else
      var hidden := if a.active.Some? then a.shown[a.active.value := false] else a.shown;
      Accordion(Some(i), hidden[i := true])
  }

  /** Under the invariant at most one body is shown. */
  lemma AtMostOneShown(sections: seq<Section>, a: Accordion, j: nat, k: nat)
    requires Inv(sections, a) && j < |a.shown| && k < |a.shown|
    requires a.shown[j] && a.shown[k]
    ensures j == k
  {
    assert a.active == Some(j) && a.active == Some(k);
  }

  /** The accordion after a run of title clicks. */
  function Clicks(sections: seq<Section>, a: Accordion, clicks: seq<nat>): (r: Accordion)
    requires Inv(sections, a)
    requires forall k :: 0 <= k < |clicks| ==> clicks[k] < |sections|
    ensures |r.shown| == |a.shown|
    decreases |clicks|
  {
    if |clicks| == 0 then a else Clicks(sections, Click(sections, a, clicks[0]), clicks[1..])
  }

  /** Starting from page load, every run of clicks keeps the invariant. */
  lemma {:induction false} ClicksKeepInv(sections: seq<Section>, a: Accordion, clicks: seq<nat>)
    requires Inv(sections, a)
    requires forall k :: 0 <= k < |clicks| ==> clicks[k] < |sections|
    ensures Inv(sections, Clicks(sections, a, clicks))
    decreases |clicks|
  {
    if |clicks| > 0 {
      ClicksKeepInv(sections, Click(sections, a, clicks[0]), clicks[1..]);
    }
  }

  lemma InitEstablishesInv(sections: seq<Section>)
    requires |sections| > 0
    ensures Inv(sections, Init(sections).value)
  {
  }

  /** Clicking the same reacting title twice puts the shown bodies back as they were. */
  lemma ClickTwiceRestoresShown(sections: seq<Section>, a: Accordion, i: nat)
    requires Inv(sections, a) && i < |sections| && a.active.None?
    ensures Click(sections, Click(sections, a, i), i) == a
  {
    if sections[i].hasTitle && sections[i].hasBody {
      assert !a.shown[i];
      assert a.shown[i := true][i := false] == a.shown;
    }
  }

  const MINUTE_MS: int := 60_000
  const LEAD_MS: int := 30 * MINUTE_MS

  /**
    `setMinDateTime`'s minimum, as a minute count in local time: thirty minutes
    are added to now (milliseconds since the epoch), seconds and milliseconds
    are dropped, and the time-zone offset (UTC minus local, in minutes) is
    taken off to get wall-clock time.
   */
  function MinMinute(nowMs: int, offsetMinutes: int): int {
    (nowMs + LEAD_MS) / MINUTE_MS - offsetMinutes
  }

  /** The instant, in milliseconds since the epoch, at which a local minute count begins. */
  function Instant(minute: int, offsetMinutes: int): int {
    (minute + offsetMinutes) * MINUTE_MS
  }

  /** The minimum begins more than 29 and at most 30 minutes after now. */
  lemma MinMinuteLead(nowMs: int, offsetMinutes: int)
    ensures nowMs + LEAD_MS - MINUTE_MS < Instant(MinMinute(nowMs, offsetMinutes), offsetMinutes) <= nowMs + LEAD_MS
  {
  }

  /** The date input: its minimum, its value and whether a custom validity message is set. */
  datatype DateInput = DateInput(min: int, value: int, invalid: bool)

  /** `setMinDateTime`: minimum and value are both set to the computed minimum, the message cleared. */
  function SetMin(nowMs: int, offsetMinutes: int): (r: DateInput)
    ensures r.value == r.min && !r.invalid
    ensures nowMs + LEAD_MS - MINUTE_MS < Instant(r.min, offsetMinutes) <= nowMs + LEAD_MS
  {
    MinMinuteLead(nowMs, offsetMinutes);
    var m := MinMinute(nowMs, offsetMinutes);
    DateInput(m, m, false)
  }

  /** The `input` listener: a value before the minimum gets the message, any other value clears it. */
  function Type(d: DateInput, v: int): (r: DateInput)
    ensures r.min == d.min && r.value == v
    ensures r.invalid <==> v < d.min
  {
    d.(value := v, invalid := v < d.min)
  }

  /** A value the input accepts begins more than 29 minutes after the moment the minimum was set. */
  lemma AcceptedIsAtLeastLead(nowMs: int, offsetMinutes: int, v: int)
    requires !Type(SetMin(nowMs, offsetMinutes), v).invalid
    ensures Instant(v, offsetMinutes) > nowMs + LEAD_MS - MINUTE_MS
  {
    MinMinuteLead(nowMs, offsetMinutes);
  }

  /** A value the input rejects begins at most 30 minutes after that moment. */
  lemma RejectedIsBeforeLead(nowMs: int, offsetMinutes: int, v: int)
    requires Type(SetMin(nowMs, offsetMinutes), v).invalid
    ensures Instant(v, offsetMinutes) < nowMs + LEAD_MS
  {
    MinMinuteLead(nowMs, offsetMinutes);
  }

  /**
    The scheduling modal. An element missing from the page is `None`: the
    reschedule form and confirm button by their hidden flag, the action input
    by its value, the date input by its state.
   */
  datatype Modal = Modal(
    formHidden: Option<bool>,
    confirmHidden: Option<bool>,
    action: Option<string>,
    input: Option<DateInput>)

  const VIEW: string := "view"
  const RESCHEDULE: string := "reschedule"

  /** Presence is fixed: an element present before is present after. */
  predicate SameElements(m: Modal, r: Modal) {
    && m.formHidden.Some? == r.formHidden.Some?
    && m.confirmHidden.Some? == r.confirmHidden.Some?
    && m.action.Some? == r.action.Some?
    && m.input.Some? == r.input.Some?
  }

  /**
    Showing the modal: the date input gets a fresh minimum, the reschedule form
    and confirm button are hidden and the action is reset to "view".
   */
  function Show(m: Modal, nowMs: int, offsetMinutes: int): (r: Modal)
    ensures SameElements(m, r)
    ensures r.action.Some? ==> r.action.value == VIEW
    ensures r.formHidden.Some? ==> r.formHidden.value
    ensures r.confirmHidden.Some? ==> r.confirmHidden.value
    ensures r.input.Some? ==> r.input.value == SetMin(nowMs, offsetMinutes)
  {
    Modal(
      if m.formHidden.Some? then Some(true) else None,
      if m.confirmHidden.Some? then Some(true) else None,
      if m.action.Some? then Some(VIEW) else None,
      if m.input.Some? then Some(SetMin(nowMs, offsetMinutes)) else None)
  }

  /**
    A click on Reschedule. Only when the form, the confirm button and the action
    input all exist: form and button are shown, the action becomes "reschedule"
    and the date input inside the form, when `inputInForm`, gets a fresh minimum.
   */
  function Reschedule(m: Modal, inputInForm: bool, nowMs: int, offsetMinutes: int): (r: Modal)
    ensures SameElements(m, r)
    ensures m.formHidden.None? || m.confirmHidden.None? || m.action.None? ==> r == m
    ensures m.formHidden.Some? && m.confirmHidden.Some? && m.action.Some? ==>
              r.formHidden == Some(false) && r.confirmHidden == Some(false) && r.action == Some(RESCHEDULE)
              && (inputInForm && m.input.Some? ==> r.input == Some(SetMin(nowMs, offsetMinutes)))
              && (!inputInForm ==> r.input == m.input)
  {
    if m.formHidden.None? || m.confirmHidden.None? || m.action.None? then m
    else
      Modal(Some(false), Some(false), Some(RESCHEDULE),
            if inputInForm && m.input.Some? then Some(SetMin(nowMs, offsetMinutes)) else m.input)
  }

  /** Reopening the modal after choosing to reschedule goes back to viewing. */
  lemma ShowUndoesReschedule(m: Modal, inputInForm: bool, t1: int, t2: int, offsetMinutes: int)
    requires m.formHidden.Some? && m.confirmHidden.Some? && m.action.Some?
    ensures var r := Show(Reschedule(m, inputInForm, t1, offsetMinutes), t2, offsetMinutes);
            r.action == Some(VIEW) && r.formHidden == Some(true) && r.confirmHidden == Some(true)
  {
  }
}
