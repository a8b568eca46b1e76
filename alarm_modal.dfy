/** The alarm modal: shown while an alarm rings, it offers "Mark as Taken", three
    snooze buttons and "Dismiss", and turns each press into calls on the alarm and
    medication contexts. */
module AlarmModal {
  import opened Options
  import MC = MedicationContext

  /** What the modal displays about the ringing medication. */
  datatype View = View(name: string, dosage: string, time: string)

  /** The render guard: nothing is shown unless an alarm rings and there is a current
      alarm; otherwise the current medication's name, dosage and time are shown. */
  function Render(isRinging: bool, currentAlarm: Option<MC.Medication>): (v: Option<View>)
    ensures v.Some? <==> isRinging && currentAlarm.Some?
    ensures v.Some? ==>
      v.value.name == currentAlarm.value.name && v.value.dosage == currentAlarm.value.dosage && v.value.time == currentAlarm.value.time
  {
    if !isRinging || currentAlarm.None? then None
    else Some(View(currentAlarm.value.name, currentAlarm.value.dosage, currentAlarm.value.time))
  }

  datatype Button = TakenButton | SnoozeButton(minutes: nat) | DismissButton

  /** The buttons in the order the modal lays them out. */
  const Buttons: seq<Button> := [TakenButton, SnoozeButton(5), SnoozeButton(10), SnoozeButton(15), DismissButton]

  /** A call the modal makes on a context. */
  datatype Call = MarkAsTaken(id: string) | StopAlarm | SnoozeAlarm(minutes: nat)

  /** The id of the built-in test alarm; it is never recorded as taken. */
  const TestId := "test"

  /** handleTaken, handleSnooze and handleDismiss for the current alarm. */
  function Press(current: MC.Medication, b: Button): (calls: seq<Call>)
    ensures calls != []
    ensures MarkAsTaken(current.id) in calls <==> b == TakenButton && current.id != TestId
    ensures forall k :: 0 <= k < |calls| && calls[k].MarkAsTaken? ==> calls[k].id == current.id && k < |calls| - 1
    ensures b == TakenButton ==> calls[|calls| - 1] == StopAlarm
    ensures b == TakenButton ==> calls == (if current.id != TestId then [MarkAsTaken(current.id)] else []) + [StopAlarm]
    ensures b.SnoozeButton? ==> calls == [SnoozeAlarm(b.minutes)]
    ensures b == DismissButton ==> calls == [StopAlarm]
  {
    match b
    case TakenButton => if current.id != TestId then [MarkAsTaken(current.id), StopAlarm] else [StopAlarm]
    case SnoozeButton(m) => [SnoozeAlarm(m)]
    case DismissButton => [StopAlarm]
  }

  /** The taken-today map after the calls have been made. */
  function TakenAfter(taken: map<string, bool>, calls: seq<Call>): map<string, bool>
    decreases |calls|
  {
    if calls == [] then taken
    else
      var t := if calls[0].MarkAsTaken? then MC.MarkedTaken(taken, calls[0].id) else taken;
      TakenAfter(t, calls[1..])
  }

  /** Whether the alarm still rings after the calls: stopping and snoozing both end it. */
  function RingingAfter(ringing: bool, calls: seq<Call>): bool
    decreases |calls|
  {
    if calls == [] then ringing
    else RingingAfter(if calls[0].MarkAsTaken? then ringing else false, calls[1..])
  }

  /** Only "Mark as Taken" on a real medication changes the taken-today map, and then
      exactly as markAsTaken does; every button leaves the alarm silent. */
  lemma {:induction false} PressOutcome(current: MC.Medication, b: Button, taken: map<string, bool>)
    ensures TakenAfter(taken, Press(current, b)) ==
      if b == TakenButton && current.id != TestId then MC.MarkedTaken(taken, current.id) else taken
    ensures !RingingAfter(true, Press(current, b))
  {
    var calls := Press(current, b);
    if b == TakenButton && current.id != TestId {
      var marked := MC.MarkedTaken(taken, current.id);
      assert calls[1..] == [StopAlarm] && calls[1..][1..] == [];
      assert TakenAfter(taken, calls) == TakenAfter(marked, [StopAlarm]) == TakenAfter(marked, []);
      assert RingingAfter(true, calls) == RingingAfter(true, [StopAlarm]) == RingingAfter(false, []);
    } else {
      assert calls[1..] == [];
    }
  }
}
