/** The add/edit medication form: the conversion between the stored 24-hour "HH:MM"
    and the form's hour, minute and AM/PM pickers, the blank-field validation, the
    record the form submits, and loading a stored record into the form for editing. */
module AddMedication {
  import opened Options
  import opened Text
  import opened Clock
  import MC = MedicationContext

  datatype Period = AM | PM

  /** The three pickers: hour "1".."12", minute, period. */
  datatype TimeParts = TimeParts(hour: string, minute: string, period: Period)

  /** The whole form. */
  datatype FormState = FormState(name: string, time: TimeParts, dosage: string)

  /** What the form shows before anything is entered or loaded. */
  const InitialForm := FormState("", TimeParts("12", "00", AM), "")

  /** `String(n)` for a number that may be NaN (None). */
  function NumberText(n: Option<nat>): string {
    if n.Some? then NatToString(n.value) else "NaN"
  }

  /** parse24hTime: split at ':' and read both parts with Number; the period is PM from
      12 on, the hour `h % 12 || 12` (NaN counts as falsy, so it gives 12) and the minute
      padded to two characters. With no ':' the minute is undefined and reading it
      throws (None). */
  function Parse24hTime(time24: string): (r: Option<TimeParts>)
    ensures r.Some? ==> r.value.hour != "" && r.value.minute != ""
  {
    var parts := Split(time24, ':');
    if |parts| < 2 then None
    else
      var h := NumberOf(parts[0]);
      var m := NumberOf(parts[1]);
      var period := if h.Some? && h.value >= 12 then PM else AM;
      var hour12 := if h.Some? && h.value % 12 != 0 then NatToString(h.value % 12) else "12";
      Some(TimeParts(hour12, PadStart2(NumberText(m)), period))
  }

  /** The 24-hour value to24hTime computes from the hour picker: parseInt, then 12 is
      added in the afternoon (except to 12) and 12 in the morning becomes 0. NaN stays
      NaN. */
  function Hour24(t: TimeParts): (h: Option<nat>)
    ensures h.Some? <==> ParseInt(t.hour).Some?
    ensures h.Some? && 1 <= ParseInt(t.hour).value <= 12 ==>
      h.value < 24 && (h.value >= 12 <==> t.period == PM) && Hour12(h.value) == ParseInt(t.hour).value
  {
    match ParseInt(t.hour)
    case None => None
    case Some(v) =>
      var h := match t.period
        case PM => if v != 12 then v + 12 else v
        case AM => if v == 12 then 0 else v;
      if 1 <= v <= 12 then HourCycle(v, t.period, h); Some(h) else Some(h)
  }

  /** to24hTime: the hour padded to two characters, ':', the minute as picked. */
  function To24hTime(t: TimeParts): string {
    PadStart2(NumberText(Hour24(t))) + ":" + t.minute
  }

  /** parse24hTime on a well-formed time: PM exactly from 12:00 on, the 12-hour clock
      hour, and the minute digits as stored. */
  lemma Parse24hTimeOfClockTime(t: string)
    requires IsClockTime(t)
    ensures var h := DigitsValue(t[..2]);
      Parse24hTime(t) == Some(TimeParts(if h % 12 == 0 then "12" else NatToString(h % 12), t[3..], if h >= 12 then PM else AM))
  {
    SplitClockTime(t);
    TwoDigitsOfValue(t[3..]);
  }

  lemma ParseIntOfNatToString(n: nat)
    ensures ParseInt(NatToString(n)) == Some(n)
  {
    DigitsValueOfNatToString(n);
  }

  lemma NatToStringTwelve()
    ensures NatToString(12) == "12"
  {
  }

  /** The 12-hour clock hour `h % 12 || 12`. */
  function Hour12(h: nat): (g: nat)
    ensures 1 <= g <= 12
  {
    if h % 12 == 0 then 12 else h % 12
  }

  /** From the pickers to 24 hours and back to the 12-hour clock: the hour and the
      period are recovered. */
  lemma HourCycle(hour: nat, period: Period, h24: nat)
    requires 1 <= hour <= 12
    requires h24 == if period == PM then (if hour == 12 then 12 else hour + 12) else (if hour == 12 then 0 else hour)
    ensures h24 < 24 && (h24 >= 12 <==> period == PM) && Hour12(h24) == hour
  {
  }

  /** From 24 hours to the 12-hour clock and back: the hour is recovered. */
  lemma HourCycleBack(h: nat)
    requires h < 24
    ensures h >= 12 ==> (if Hour12(h) == 12 then 12 else Hour12(h) + 12) == h
    ensures h < 12 ==> (if Hour12(h) == 12 then 0 else Hour12(h)) == h
  {
  }

  /** The 24-hour text of a valid hour is a well-formed time with that hour and the
      picked minute. */
  lemma To24hTimeShape(tp: TimeParts, h: nat)
    requires Hour24(tp) == Some(h) && h < 24
    requires |tp.minute| == 2 && AllDigits(tp.minute) && DigitsValue(tp.minute) < 60
    ensures var t := To24hTime(tp);
      IsClockTime(t) && DigitsValue(t[..2]) == h && t[3..] == tp.minute
  {
    TwoDigitsShape(h);
    TwoDigitsOfValue(tp.minute);
    var t := To24hTime(tp);
    assert t == TwoDigits(h) + ":" + tp.minute;
    assert t[..2] == TwoDigits(h) && t[3..] == tp.minute;
  }

  /** Every choice of the pickers (an hour from 1 to 12, a two-digit minute below 60
      and a period) survives conversion to 24-hour form and back. */
  lemma To24hThenParse(hour: nat, minute: string, period: Period)
    requires 1 <= hour <= 12 && |minute| == 2 && AllDigits(minute) && DigitsValue(minute) < 60
    ensures Parse24hTime(To24hTime(TimeParts(NatToString(hour), minute, period))) ==
      Some(TimeParts(NatToString(hour), minute, period))
  {
    var tp := TimeParts(NatToString(hour), minute, period);
    ParseIntOfNatToString(hour);
    var h24 := if period == PM then (if hour == 12 then 12 else hour + 12) else (if hour == 12 then 0 else hour);
    assert Hour24(tp) == Some(h24);
    To24hTimeShape(tp, h24);
    var t := To24hTime(tp);
    Parse24hTimeOfClockTime(t);
    HourCycle(hour, period, h24);
    NatToStringTwelve();
    assert (if h24 % 12 == 0 then "12" else NatToString(h24 % 12)) == NatToString(Hour12(h24));
  }

  /** Reading a well-formed time into the pickers keeps its hour, as to24hTime
      computes it back, and its minute digits. */
  lemma ParsedHour(t: string)
    requires IsClockTime(t)
    ensures Parse24hTime(t).Some?
    ensures Hour24(Parse24hTime(t).value) == Some(DigitsValue(t[..2])) && Parse24hTime(t).value.minute == t[3..]
  {
    Parse24hTimeOfClockTime(t);
    var h := DigitsValue(t[..2]);
    var g := Hour12(h);
    NatToStringTwelve();
    assert Parse24hTime(t).value.hour == NatToString(g);
    ParseIntOfNatToString(g);
    HourCycleBack(h);
  }

  /** Every well-formed stored time survives conversion to the pickers and back. */
  lemma ParseThenTo24h(t: string)
    requires IsClockTime(t)
    ensures Parse24hTime(t).Some? && To24hTime(Parse24hTime(t).value) == t
  {
    ParsedHour(t);
    var tp := Parse24hTime(t).value;
    TwoDigitsOfValue(t[3..]);
    To24hTimeShape(tp, DigitsValue(t[..2]));
    ClockTimeDigits(t, To24hTime(tp));
  }

  /** The per-field errors; no entry means the field is fine. */
  datatype FormErrors = FormErrors(name: Option<string>, dosage: Option<string>)

  /** validate: a name error exactly when the name is blank, a dosage error exactly
      when the dosage is blank. */
  function Validate(name: string, dosage: string): (e: FormErrors)
    ensures e.name.Some? <==> AllWhiteSpace(name)
    ensures e.dosage.Some? <==> AllWhiteSpace(dosage)
    ensures e.name.Some? ==> e.name.value == "Medication name is required"
    ensures e.dosage.Some? ==> e.dosage.value == "Dosage is required"
  {
    TrimEmptyIffWhiteSpace(name);
    TrimEmptyIffWhiteSpace(dosage);
    FormErrors(if Trim(name) == "" then Some("Medication name is required") else None,
               if Trim(dosage) == "" then Some("Dosage is required") else None)
  }

  /** validate's verdict: the error object has no keys. */
  predicate IsValid(e: FormErrors) {
    e.name.None? && e.dosage.None?
  }

  /** What submitting hands to the record store. */
  datatype SubmitAction = AddRecord(data: MC.MedicationData) | UpdateRecord(id: string, data: MC.MedicationData)

  /** `Boolean(id)` for the route's id. */
  predicate IsEditing(routeId: Option<string>) {
    routeId.Some? && routeId.value != ""
  }

  /** handleSubmit: nothing when validation fails; otherwise the trimmed name and
      dosage with the converted time, as an update of the edited id or as a new
      record. */
  function Submit(routeId: Option<string>, form: FormState): (r: Option<SubmitAction>)
    ensures r.None? <==> AllWhiteSpace(form.name) || AllWhiteSpace(form.dosage)
    ensures r.Some? ==> r.value.data == MC.MedicationData(Trim(form.name), To24hTime(form.time), Trim(form.dosage))
    ensures r.Some? ==> (r.value.UpdateRecord? <==> IsEditing(routeId))
    ensures r.Some? && r.value.UpdateRecord? ==> r.value.id == routeId.value
  {
    if !IsValid(Validate(form.name, form.dosage)) then None
    else
      var data := MC.MedicationData(Trim(form.name), To24hTime(form.time), Trim(form.dosage));
      if IsEditing(routeId) then Some(UpdateRecord(routeId.value, data)) else Some(AddRecord(data))
  }

  /** The store's list after the submitted action (the new id is a parameter). */
  function ApplySubmit(meds: seq<MC.Medication>, a: SubmitAction, newId: string): seq<MC.Medication> {
    match a
    case AddRecord(d) => MC.Appended(meds, d, newId)
    case UpdateRecord(id, d) => MC.Updated(meds, id, MC.Updates(None, Some(d.name), Some(d.time), Some(d.dosage)))
  }

  /** Loading a record for editing: back to the dashboard when the id is unknown, the
      record's fields otherwise; a stored time without ':' makes parsing throw. */
  datatype EditLoad = Redirect | LoadThrows | Loaded(form: FormState)

  function LoadForEdit(meds: seq<MC.Medication>, id: string): (r: EditLoad)
    ensures r.Redirect? <==> MC.GetMedication(meds, id).None?
    ensures r.Loaded? ==> r.form.name == MC.GetMedication(meds, id).value.name &&
                          r.form.dosage == MC.GetMedication(meds, id).value.dosage
  {
    match MC.GetMedication(meds, id)
    case None => Redirect
    case Some(m) =>
      match Parse24hTime(m.time)
      case None => LoadThrows
      case Some(tp) => Loaded(FormState(m.name, tp, m.dosage))
  }

  /** A stored record with a well-formed time loads into the form. */
  lemma LoadStored(meds: seq<MC.Medication>, id: string, m: MC.Medication)
    requires MC.GetMedication(meds, id) == Some(m) && IsClockTime(m.time)
    ensures Parse24hTime(m.time).Some?
    ensures LoadForEdit(meds, id) == Loaded(FormState(m.name, Parse24hTime(m.time).value, m.dosage))
  {
    ParseThenTo24h(m.time);
  }

  /** Saving a loaded record unchanged submits its own fields. */
  lemma SubmitLoaded(id: string, m: MC.Medication)
    requires id != "" && IsClockTime(m.time)
    requires Trim(m.name) == m.name && Trim(m.dosage) == m.dosage && !AllWhiteSpace(m.name) && !AllWhiteSpace(m.dosage)
    ensures Parse24hTime(m.time).Some?
    ensures Submit(Some(id), FormState(m.name, Parse24hTime(m.time).value, m.dosage)) ==
      Some(UpdateRecord(id, MC.MedicationData(m.name, m.time, m.dosage)))
  {
    ParseThenTo24h(m.time);
  }

  /** An update action sets the three form fields of the matching records. */
  lemma ApplyUpdate(meds: seq<MC.Medication>, id: string, d: MC.MedicationData, newId: string)
    ensures ApplySubmit(meds, UpdateRecord(id, d), newId) == MC.Updated(meds, id, MC.Updates(None, Some(d.name), Some(d.time), Some(d.dosage)))
  {
  }

  /** Updating a record with its own name, time and dosage leaves it as it was. */
  lemma UpdateSameFieldsKeepsRecord(meds: seq<MC.Medication>, id: string, m: MC.Medication, newId: string)
    requires MC.GetMedication(meds, id) == Some(m)
    ensures MC.GetMedication(ApplySubmit(meds, UpdateRecord(id, MC.MedicationData(m.name, m.time, m.dosage)), newId), id) == Some(m)
  {
    var u := MC.Updates(None, Some(m.name), Some(m.time), Some(m.dosage));
    MC.GetUpdated(meds, id, u);
    assert MC.Merge(m, u) == m;
    ApplyUpdate(meds, id, MC.MedicationData(m.name, m.time, m.dosage), newId);
  }

  /** Opening a stored record for editing and saving it unchanged leaves the record
      as it was, when its time is well formed and its name and dosage are non-blank
      and carry no surrounding white space. */
  lemma EditUnchangedKeepsRecord(meds: seq<MC.Medication>, id: string, m: MC.Medication, newId: string)
    requires id != "" && MC.GetMedication(meds, id) == Some(m)
    requires IsClockTime(m.time) && Trim(m.name) == m.name && Trim(m.dosage) == m.dosage
    requires !AllWhiteSpace(m.name) && !AllWhiteSpace(m.dosage)
    ensures LoadForEdit(meds, id).Loaded?
    ensures Submit(Some(id), LoadForEdit(meds, id).form) == Some(UpdateRecord(id, MC.MedicationData(m.name, m.time, m.dosage)))
    ensures MC.GetMedication(ApplySubmit(meds, UpdateRecord(id, MC.MedicationData(m.name, m.time, m.dosage)), newId), id) == Some(m)
  {
    LoadStored(meds, id, m);
    SubmitLoaded(id, m);
    UpdateSameFieldsKeepsRecord(meds, id, m, newId);
  }
}
