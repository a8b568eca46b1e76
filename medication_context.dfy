/** The medication record store: the user's list of medication records and the
    "taken today" map, the list and map transformers that add, update and delete
    records and mark doses, the lookup by id, and the choice of the next reminder. */
module MedicationContext {
  import opened Options
  import opened Text
  import opened Sequences
  import opened Sorting
  import Clock

  /** A medication record; `time` is "HH:MM" on the 24-hour clock. */
  datatype Medication = Medication(id: string, name: string, time: string, dosage: string)

  /** What the form hands over: the record without its id. */
  datatype MedicationData = MedicationData(name: string, time: string, dosage: string)

  /** An update object: the fields it sets (a missing field keeps its old value). */
  datatype Updates = Updates(id: Option<string>, name: Option<string>, time: Option<string>, dosage: Option<string>)

  /** `takenToday[id]` is truthy. */
  predicate IsTaken(taken: map<string, bool>, id: string) {
    id in taken && taken[id]
  }

  /** The list after addMedication: the record with a fresh id appended. */
  function Appended(meds: seq<Medication>, data: MedicationData, newId: string): (r: seq<Medication>)
    ensures |r| == |meds| + 1 && r[..|meds|] == meds
    ensures r[|meds|] == Medication(newId, data.name, data.time, data.dosage)
  {
    meds + [Medication(newId, data.name, data.time, data.dosage)]
  }

  function Or<T>(o: Option<T>, fallback: T): T {
    if o.Some? then o.value else fallback
  }

  /** `{ ...med, ...updates }`. */
  function Merge(med: Medication, u: Updates): (r: Medication)
    ensures u.id.None? ==> r.id == med.id
    ensures u.id.Some? ==> r.id == u.id.value
    ensures u.name.Some? ==> r.name == u.name.value
    ensures u.name.None? ==> r.name == med.name
    ensures u.time.Some? ==> r.time == u.time.value
    ensures u.time.None? ==> r.time == med.time
    ensures u.dosage.Some? ==> r.dosage == u.dosage.value
    ensures u.dosage.None? ==> r.dosage == med.dosage
  {
    Medication(Or(u.id, med.id), Or(u.name, med.name), Or(u.time, med.time), Or(u.dosage, med.dosage))
  }

  /** The list after updateMedication: matching records merged, all others untouched. */
  function Updated(meds: seq<Medication>, id: string, u: Updates): (r: seq<Medication>)
    ensures |r| == |meds|
    ensures forall i :: 0 <= i < |meds| && meds[i].id == id ==> r[i] == Merge(meds[i], u)
    ensures forall i :: 0 <= i < |meds| && meds[i].id != id ==> r[i] == meds[i]
  {
    seq(|meds|, i requires 0 <= i < |meds| => if meds[i].id == id then Merge(meds[i], u) else meds[i])
  }

  function OtherId(id: string): Medication -> bool {
    (m: Medication) => m.id != id
  }

  /** The list after deleteMedication. */
  function Deleted(meds: seq<Medication>, id: string): (r: seq<Medication>)
    ensures forall k :: 0 <= k < |r| ==> r[k].id != id
  {
    Filter(meds, OtherId(id))
  }

  /** deleteMedication keeps every record with another id, as often as it occurs and in
      the original relative order, and nothing else. */
  lemma DeletedKeepsOthers(meds: seq<Medication>, id: string)
    ensures IsSubsequence(Deleted(meds, id), meds)
    ensures forall m :: multiset(Deleted(meds, id))[m] == if m.id != id then multiset(meds)[m] else 0
  {
    FilterIsSubsequence(meds, OtherId(id));
    FilterCounts(meds, OtherId(id));
  }

  /** The map after markAsTaken. */
  function MarkedTaken(taken: map<string, bool>, id: string): (r: map<string, bool>)
    ensures r.Keys == taken.Keys + {id} && IsTaken(r, id)
    ensures forall k :: k in taken && k != id ==> r[k] == taken[k]
  {
    taken[id := true]
  }

  /** The map after markAsNotTaken: a copy without the key. */
  function MarkedNotTaken(taken: map<string, bool>, id: string): (r: map<string, bool>)
    ensures r.Keys == taken.Keys - {id} && !IsTaken(r, id)
    ensures forall k :: k in r ==> r[k] == taken[k]
  {
    taken - {id}
  }

  /** Marking an id that was not in the map and unmarking it again restores the map. */
  lemma MarkThenUnmarkRestores(taken: map<string, bool>, id: string)
    requires id !in taken
    ensures MarkedNotTaken(MarkedTaken(taken, id), id) == taken
  {
    var r := MarkedNotTaken(MarkedTaken(taken, id), id);
    assert r.Keys == taken.Keys;
  }

  function HasId(id: string): Medication -> bool {
    (m: Medication) => m.id == id
  }

  /** getMedication: the first record with that id, or nothing. */
  function GetMedication(meds: seq<Medication>, id: string): (r: Option<Medication>)
    ensures r.None? <==> forall j :: 0 <= j < |meds| ==> meds[j].id != id
    ensures r.Some? ==> exists i :: 0 <= i < |meds| && meds[i] == r.value && r.value.id == id &&
                                    forall j :: 0 <= j < i ==> meds[j].id != id
  {
    Find(meds, HasId(id))
  }

  /** A record added under an id no record has is what looking that id up yields. */
  lemma GetAppended(meds: seq<Medication>, data: MedicationData, newId: string)
    requires forall j :: 0 <= j < |meds| ==> meds[j].id != newId
    ensures GetMedication(Appended(meds, data, newId), newId) == Some(Medication(newId, data.name, data.time, data.dosage))
  {
    var r := Appended(meds, data, newId);
    var g := GetMedication(r, newId);
    var i :| 0 <= i < |r| && r[i] == g.value && g.value.id == newId && forall j :: 0 <= j < i ==> r[j].id != newId;
    assert i == |meds|;
  }

  /** After deleting an id, looking it up finds nothing. */
  lemma GetDeleted(meds: seq<Medication>, id: string)
    ensures GetMedication(Deleted(meds, id), id) == None
  {
  }

  /** Updating an id without changing ids leaves the first record with it merged. */
  lemma GetUpdated(meds: seq<Medication>, id: string, u: Updates)
    requires u.id.None?
    ensures GetMedication(Updated(meds, id, u), id) ==
      match GetMedication(meds, id) { case None => None case Some(m) => Some(Merge(m, u)) }
  {
    var r := Updated(meds, id, u);
    match GetMedication(meds, id) {
      case None =>
      case Some(m) =>
        var i :| 0 <= i < |meds| && meds[i] == m && m.id == id && forall j :: 0 <= j < i ==> meds[j].id != id;
        var g := GetMedication(r, id);
        var i' :| 0 <= i' < |r| && r[i'] == g.value && g.value.id == id && forall j :: 0 <= j < i' ==> r[j].id != id;
        assert i' == i;
    }
  }

  /** An entry of the upcoming list: the record and its time in minutes after midnight,
      None standing for NaN (a time string Number cannot read). */
  datatype Reminder = Reminder(med: Medication, timeInMinutes: Option<nat>)

  /** `med.time.split(':').map(Number)` followed by `hours * 60 + minutes`. */
  function TimeInMinutes(time: string): Option<nat> {
    var parts := Split(time, ':');
    var hours := NumberOf(parts[0]);
    var minutes := if |parts| >= 2 then NumberOf(parts[1]) else None;
    if hours.Some? && minutes.Some? then Some(hours.value * 60 + minutes.value) else None
  }

  /** A well-formed "HH:MM" reads as its minutes after midnight. */
  lemma TimeInMinutesOfClockTime(t: string)
    requires Clock.IsClockTime(t)
    ensures TimeInMinutes(t) == Some(Clock.ClockMinutes(t))
  {
    Clock.SplitClockTime(t);
  }

  /** Survives both filters of getNextReminder: not taken and not earlier than now. */
  predicate Upcoming(taken: map<string, bool>, nowMinute: nat, m: Medication) {
    !IsTaken(taken, m.id) && TimeInMinutes(m.time).Some? && TimeInMinutes(m.time).value >= nowMinute
  }

  function UpcomingTest(taken: map<string, bool>, nowMinute: nat): Medication -> bool {
    (m: Medication) => Upcoming(taken, nowMinute, m)
  }

  function ToReminder(m: Medication): Reminder {
    Reminder(m, TimeInMinutes(m.time))
  }

  function MinutesKey(r: Reminder): nat {
    if r.timeInMinutes.Some? then r.timeInMinutes.value else 0
  }

  /** The minutes a record is sorted by (only read for records whose time reads as a
      number). */
  function ScheduledMinutes(m: Medication): nat {
    MinutesKey(ToReminder(m))
  }

  /** The comparison `(a, b) => a.timeInMinutes - b.timeInMinutes`, as "at most 0". */
  function ByMinutes(): (Reminder, Reminder) -> bool {
    (a: Reminder, b: Reminder) => MinutesKey(a) <= MinutesKey(b)
  }

  /** The upcoming list before sorting; filter and map act element by element, so the
      filter-map-filter chain keeps what passes both filters, mapped. */
  function UpcomingList(meds: seq<Medication>, taken: map<string, bool>, nowMinute: nat): seq<Reminder> {
    var kept := Filter(meds, UpcomingTest(taken, nowMinute));
    seq(|kept|, i requires 0 <= i < |kept| => ToReminder(kept[i]))
  }

  /** getNextReminder: the head of the upcoming list sorted by minutes, or null. */
  function NextReminder(meds: seq<Medication>, taken: map<string, bool>, nowMinute: nat): Option<Reminder> {
    var sorted := Sort(UpcomingList(meds, taken, nowMinute), ByMinutes());
    if sorted == [] then None else Some(sorted[0])
  }

  /** meds[i] is upcoming, no upcoming record is earlier, and every upcoming record
      before it in the list is strictly later. */
  predicate EarliestUpcoming(meds: seq<Medication>, taken: map<string, bool>, nowMinute: nat, i: int) {
    0 <= i < |meds| && Upcoming(taken, nowMinute, meds[i]) &&
    (forall j :: 0 <= j < |meds| && Upcoming(taken, nowMinute, meds[j]) ==>
       ScheduledMinutes(meds[i]) <= ScheduledMinutes(meds[j])) &&
    (forall j :: 0 <= j < i && Upcoming(taken, nowMinute, meds[j]) ==>
       ScheduledMinutes(meds[i]) < ScheduledMinutes(meds[j]))
  }

  /** getNextReminder returns nothing exactly when no record is upcoming. */
  lemma NextReminderNoneIff(meds: seq<Medication>, taken: map<string, bool>, nowMinute: nat)
    ensures NextReminder(meds, taken, nowMinute).None? <==>
      forall j :: 0 <= j < |meds| ==> !Upcoming(taken, nowMinute, meds[j])
  {
    var p := UpcomingTest(taken, nowMinute);
    if Filter(meds, p) == [] {
      forall j | 0 <= j < |meds| ensures !Upcoming(taken, nowMinute, meds[j]) {
        if p(meds[j]) { FilterKeeps(meds, p, j); }
      }
    } else {
      var i := FilterOrigin(meds, p, 0);
      assert Upcoming(taken, nowMinute, meds[i]);
    }
  }

  function ReminderKey(): Medication -> nat {
    (m: Medication) => ScheduledMinutes(m)
  }

  /** The upcoming list is the kept records mapped entry by entry, so a first least
      entry of it is a first least kept record by minutes. */
  lemma FirstLeastKept(meds: seq<Medication>, taken: map<string, bool>, nowMinute: nat, k: nat)
    requires IsFirstLeast(UpcomingList(meds, taken, nowMinute), ByMinutes(), k)
    ensures k < |Filter(meds, UpcomingTest(taken, nowMinute))|
    ensures UpcomingList(meds, taken, nowMinute)[k] == ToReminder(Filter(meds, UpcomingTest(taken, nowMinute))[k])
    ensures var kept := Filter(meds, UpcomingTest(taken, nowMinute));
      forall a :: 0 <= a < |kept| ==> ReminderKey()(kept[k]) <= ReminderKey()(kept[a])
    ensures var kept := Filter(meds, UpcomingTest(taken, nowMinute));
      forall a :: 0 <= a < k ==> ReminderKey()(kept[a]) > ReminderKey()(kept[k])
  {
    var kept := Filter(meds, UpcomingTest(taken, nowMinute));
    var up := UpcomingList(meds, taken, nowMinute);
    forall a | 0 <= a < |kept| ensures ReminderKey()(kept[k]) <= ReminderKey()(kept[a]) {
      assert ByMinutes()(up[k], up[a]);
    }
    forall a | 0 <= a < k ensures ReminderKey()(kept[a]) > ReminderKey()(kept[k]) {
      assert !ByMinutes()(up[a], up[k]);
    }
  }

  /** Otherwise it returns the earliest upcoming record, the first such in the list
      (the sort is stable), with its minutes. */
  lemma NextReminderIsEarliestUpcoming(meds: seq<Medication>, taken: map<string, bool>, nowMinute: nat) returns (i: nat)
    requires NextReminder(meds, taken, nowMinute).Some?
    ensures EarliestUpcoming(meds, taken, nowMinute, i)
    ensures NextReminder(meds, taken, nowMinute) == Some(Reminder(meds[i], TimeInMinutes(meds[i].time)))
  {
    var p := UpcomingTest(taken, nowMinute);
    var up := UpcomingList(meds, taken, nowMinute);
    assert TotalPreorder(ByMinutes());
    var k := SortHeadIsFirstLeast(up, ByMinutes());
    FirstLeastKept(meds, taken, nowMinute, k);
    i := FilterOrigin(meds, p, k);
    assert Sort(up, ByMinutes())[0] == ToReminder(meds[i]);
    FirstLeastOfFiltered(meds, p, ReminderKey(), k, i);
    forall j | 0 <= j < |meds| && Upcoming(taken, nowMinute, meds[j])
      ensures ScheduledMinutes(meds[i]) <= ScheduledMinutes(meds[j])
    {
      assert p(meds[j]);
    }
    forall j | 0 <= j < i && Upcoming(taken, nowMinute, meds[j])
      ensures ScheduledMinutes(meds[i]) < ScheduledMinutes(meds[j])
    {
      assert p(meds[j]);
    }
  }

  /** The record store: the held list and map, replaced wholesale by each operation. */
  class MedicationProvider {
    var medications: seq<Medication>
    var takenToday: map<string, bool>

    constructor ()
      ensures medications == [] && takenToday == map[]
    {
      medications := [];
      takenToday := map[];
    }

    /** addMedication; the id (Date.now() in the application) is a parameter. */
    method AddMedication(data: MedicationData, newId: string)
      modifies this
      ensures medications == Appended(old(medications), data, newId)
      ensures takenToday == old(takenToday)
    {
      medications := Appended(medications, data, newId);
    }

    method UpdateMedication(id: string, u: Updates)
      modifies this
      ensures medications == Updated(old(medications), id, u)
      ensures takenToday == old(takenToday)
    {
      medications := Updated(medications, id, u);
    }

    method DeleteMedication(id: string)
      modifies this
      ensures medications == Deleted(old(medications), id)
      ensures takenToday == old(takenToday)
    {
      medications := Deleted(medications, id);
    }

    method MarkAsTaken(id: string)
      modifies this
      ensures takenToday == MarkedTaken(old(takenToday), id)
      ensures medications == old(medications)
    {
      takenToday := MarkedTaken(takenToday, id);
    }

    method MarkAsNotTaken(id: string)
      modifies this
      ensures takenToday == MarkedNotTaken(old(takenToday), id)
      ensures medications == old(medications)
    {
      takenToday := MarkedNotTaken(takenToday, id);
    }
  }
}
