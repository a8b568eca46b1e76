/** The dashboard's display helpers: the 12-hour rendering of a stored time, the
    take/untake toggle, the copy of the list sorted by time, the taken count and the
    adherence percentage. */
module Dashboard {
  import opened Options
  import opened Text
  import opened Clock
  import opened Sorting
  import MC = MedicationContext
  import AM = AddMedication

  /** formatTime: split at ':', parseInt the hour (NaN is neither >= 12 nor truthy
      after `% 12`, so it shows as 12 AM), `h % 12 || 12` for the hour and the minute
      part as it is; a time without ':' shows the minute as "undefined". */
  function FormatTime(time24: string): string {
    var parts := Split(time24, ':');
    var minutes := if |parts| >= 2 then parts[1] else "undefined";
    var h := ParseInt(parts[0]);
    var ampm := if h.Some? && h.value >= 12 then "PM" else "AM";
    var h12 := if h.Some? && h.value % 12 != 0 then h.value % 12 else 12;
    NatToString(h12) + ":" + minutes + " " + ampm
  }

  /** On a well-formed time the display is the 12-hour clock hour, the stored minute
      digits and the period: midnight hour is 12 AM, noon hour 12 PM, 13-23 are h-12 PM
      and 1-11 are h AM. */
  lemma FormatTimeOfClockTime(t: string)
    requires IsClockTime(t)
    ensures var h := DigitsValue(t[..2]);
      FormatTime(t) == NatToString(AM.Hour12(h)) + ":" + t[3..] + " " + (if h >= 12 then "PM" else "AM")
  {
    SplitClockTime(t);
  }

  /** The displayed hour: 0 and 12 show as 12, 13-23 as h - 12, 1-11 as they are. */
  lemma DisplayedHour(h: nat)
    requires h < 24
    ensures AM.Hour12(h) == if h == 0 || h == 12 then 12 else if h > 12 then h - 12 else h
  {
  }

  function PeriodText(p: AM.Period): string {
    match p
    case AM => "AM"
    case PM => "PM"
  }

  /** The dashboard shows a stored time exactly as the form's hour, minute and AM/PM
      pickers read it. */
  lemma FormatTimeAgreesWithPickers(t: string)
    requires IsClockTime(t)
    ensures AM.Parse24hTime(t).Some?
    ensures var p := AM.Parse24hTime(t).value; FormatTime(t) == p.hour + ":" + p.minute + " " + PeriodText(p.period)
  {
    FormatTimeOfClockTime(t);
    AM.Parse24hTimeOfClockTime(t);
    AM.NatToStringTwelve();
  }

  /** handleTake: a taken medication is unmarked, any other one is marked taken. */
  function Toggled(taken: map<string, bool>, id: string): (r: map<string, bool>)
    ensures MC.IsTaken(r, id) <==> !MC.IsTaken(taken, id)
    ensures forall k :: k != id ==> (k in r <==> k in taken) && (k in r ==> r[k] == taken[k])
  {
    if MC.IsTaken(taken, id) then MC.MarkedNotTaken(taken, id) else MC.MarkedTaken(taken, id)
  }

  /** Pressing the button twice restores the map, unless the id was stored as
      explicitly not taken (a state the provider itself never produces). */
  lemma ToggleTwiceRestores(taken: map<string, bool>, id: string)
    requires id !in taken || taken[id]
    ensures Toggled(Toggled(taken, id), id) == taken
  {
    if id !in taken {
      MC.MarkThenUnmarkRestores(taken, id);
    } else {
      var r := Toggled(Toggled(taken, id), id);
      assert r.Keys == taken.Keys;
    }
  }

  /** a.localeCompare(b) <= 0, taken as ordinal order on characters. */
  predicate LexLe(a: string, b: string)
    decreases |a|
  {
    if a == [] then true
    else if b == [] then false
    else if a[0] != b[0] then a[0] < b[0]
    else LexLe(a[1..], b[1..])
  }

  lemma {:induction false} LexLeTotal(a: string, b: string)
    ensures LexLe(a, b) || LexLe(b, a)
    decreases |a|
  {
    if a != [] && b != [] && a[0] == b[0] {
      LexLeTotal(a[1..], b[1..]);
    }
  }

  lemma {:induction false} LexLeTransitive(a: string, b: string, c: string)
    requires LexLe(a, b) && LexLe(b, c)
    ensures LexLe(a, c)
    decreases |a|
  {
    if a != [] && b != [] && c != [] && a[0] == b[0] && b[0] == c[0] {
      LexLeTransitive(a[1..], b[1..], c[1..]);
    }
  }

  /** Comparing two strings that start with prefixes of equal length: equal prefixes
      defer to the rest, different ones decide. */
  lemma {:induction false} LexLeAfterPrefix(x: string, y: string, x2: string, y2: string)
    requires |x| == |x2|
    ensures LexLe(x + y, x2 + y2) == if x == x2 then LexLe(y, y2) else LexLe(x, x2)
    decreases |x|
  {
    if x != [] {
      assert (x + y)[1..] == x[1..] + y && (x2 + y2)[1..] == x2[1..] + y2;
      if x[0] == x2[0] {
        LexLeAfterPrefix(x[1..], y, x2[1..], y2);
        assert x == x2 <==> x[1..] == x2[1..] by {
          assert x == [x[0]] + x[1..] && x2 == [x2[0]] + x2[1..];
        }
      }
    } else {
      assert x + y == y && x2 + y2 == y2;
    }
  }

  /** On two-digit strings the text order is the numeric order. */
  lemma LexLeTwoDigits(s: string, t: string)
    requires |s| == 2 && AllDigits(s) && |t| == 2 && AllDigits(t)
    ensures LexLe(s, t) <==> DigitsValue(s) <= DigitsValue(t)
  {
    TwoDigitValue(s);
    TwoDigitValue(t);
    assert s[1..][1..] == [] && t[1..][1..] == [];
    assert LexLe(s[1..], t[1..]) <==> s[1] <= t[1];
  }

  /** A two-digit string's value from its two digits. */
  lemma TwoDigitValue(s: string)
    requires |s| == 2 && AllDigits(s)
    ensures DigitsValue(s) == 10 * DigitValue(s[0]) + DigitValue(s[1])
  {
    assert s[..1][..0] == [] && s[..1][0] == s[0];
    assert DigitsValue(s[..1]) == DigitValue(s[0]);
    assert DigitsValue(s) == DigitsValue(s[..1]) * 10 + DigitValue(s[1]);
  }

  /** On well-formed times the text order is the order of the times of day. */
  lemma LexLeClockTimes(a: string, b: string)
    requires IsClockTime(a) && IsClockTime(b)
    ensures LexLe(a, b) <==> ClockMinutes(a) <= ClockMinutes(b)
  {
    assert a == a[..2] + ([':'] + a[3..]) && b == b[..2] + ([':'] + b[3..]);
    LexLeAfterPrefix(a[..2], [':'] + a[3..], b[..2], [':'] + b[3..]);
    assert LexLe([':'] + a[3..], [':'] + b[3..]) == LexLe(a[3..], b[3..]) by {
      assert ([':'] + a[3..])[1..] == a[3..] && ([':'] + b[3..])[1..] == b[3..];
    }
    LexLeTwoDigits(a[..2], b[..2]);
    LexLeTwoDigits(a[3..], b[3..]);
    TwoDigitsOfValue(a[..2]);
    TwoDigitsOfValue(b[..2]);
  }

  function ByTime(): (MC.Medication, MC.Medication) -> bool {
    (p: MC.Medication, q: MC.Medication) => LexLe(p.time, q.time)
  }

  lemma ByTimeIsTotalPreorder()
    ensures TotalPreorder(ByTime())
  {
    forall p: MC.Medication, q: MC.Medication ensures ByTime()(p, q) || ByTime()(q, p) {
      LexLeTotal(p.time, q.time);
    }
    forall p: MC.Medication, q: MC.Medication, r: MC.Medication | ByTime()(p, q) && ByTime()(q, r)
      ensures ByTime()(p, r)
    {
      LexLeTransitive(p.time, q.time, r.time);
    }
  }

  /** sortedMedications: a sorted copy of the list; the list itself is a value and
      stays as it was. */
  function SortedMedications(meds: seq<MC.Medication>): seq<MC.Medication> {
    Sort(meds, ByTime())
  }

  /** The sorted copy holds exactly the records of the list, each as often, ordered by
      time text. When every stored time is well formed that is the order of the times
      of day. */
  lemma SortedMedicationsOrdered(meds: seq<MC.Medication>)
    ensures var r := SortedMedications(meds);
      multiset(r) == multiset(meds) && SortedBy(r, ByTime())
    ensures (forall k :: 0 <= k < |meds| ==> IsClockTime(meds[k].time)) ==>
      var r := SortedMedications(meds);
      forall i, j :: 0 <= i < j < |r| ==> IsClockTime(r[i].time) && IsClockTime(r[j].time) && ClockMinutes(r[i].time) <= ClockMinutes(r[j].time)
  {
    ByTimeIsTotalPreorder();
    SortIsSortedPermutation(meds, ByTime());
    var r := SortedMedications(meds);
    if forall k :: 0 <= k < |meds| ==> IsClockTime(meds[k].time) {
      forall k | 0 <= k < |r| ensures IsClockTime(r[k].time) {
        assert r[k] in multiset(meds);
        var m :| 0 <= m < |meds| && meds[m] == r[k];
      }
      forall i, j | 0 <= i < j < |r| ensures ClockMinutes(r[i].time) <= ClockMinutes(r[j].time) {
        assert ByTime()(r[i], r[j]);
        LexLeClockTimes(r[i].time, r[j].time);
      }
    }
  }

  /** takenCount: every key of the map counts, including ids of records deleted since. */
  function TakenCount(taken: map<string, bool>): nat {
    |taken.Keys|
  }

  /** The toggle moves the count by one: down when unmarking, up when marking an id
      the map did not hold. */
  lemma TakenCountAfterToggle(taken: map<string, bool>, id: string)
    ensures TakenCount(Toggled(taken, id)) ==
      if MC.IsTaken(taken, id) then TakenCount(taken) - 1
      else if id in taken then TakenCount(taken)
      else TakenCount(taken) + 1
  {
    var r := Toggled(taken, id);
    if MC.IsTaken(taken, id) {
      assert r.Keys == taken.Keys - {id};
    } else {
      assert r.Keys == taken.Keys + {id};
    }
  }

  /** adherencePercent: 0 without medications, otherwise 100 * taken / total rounded
      half up, in whole numbers. */
  function AdherencePercent(takenCount: nat, totalCount: nat): (p: nat)
    ensures totalCount == 0 ==> p == 0
    ensures totalCount > 0 ==> 2 * totalCount * p <= 200 * takenCount + totalCount < 2 * totalCount * (p + 1)
  {
    if totalCount > 0 then (200 * takenCount + totalCount) / (2 * totalCount) else 0
  }

  lemma MulCancel(c: nat, a: nat, b: nat)
    requires c > 0 && c * a < c * b
    ensures a < b
  {
  }

  /** The percentage stays within 0-100 when no more are counted taken than there are
      medications, and is 100 when all are. */
  lemma AdherenceBounds(takenCount: nat, totalCount: nat)
    requires takenCount <= totalCount
    ensures AdherencePercent(takenCount, totalCount) <= 100
    ensures totalCount > 0 && takenCount == totalCount ==> AdherencePercent(takenCount, totalCount) == 100
  {
    var p := AdherencePercent(takenCount, totalCount);
    var n := totalCount;
    if n > 0 {
      assert 2 * n * p < 2 * n * 101;
      MulCancel(2 * n, p, 101);
      if takenCount == n {
        assert 2 * n * 100 < 2 * n * (p + 1);
        MulCancel(2 * n, 100, p + 1);
      }
    }
  }
}
