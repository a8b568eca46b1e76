/** The alarm engine of the application: the periodic scan that runs every few seconds over
    the medication list and decides which medication rings (not taken today, not
    snoozed, not yet rung for this minute, scheduled for exactly this minute), the
    single ringing alarm with its notification and its bounded beep loop, stopping
    and snoozing, the midnight reset and the test alarm. Time is a parameter: the
    local-clock millisecond count of the tick. Timers are handles in nullable fields;
    their firing is a method call. */
module AlarmContext {
  import opened Options
  import opened Text
  import opened Clock
  import opened Sequences
  import MC = MedicationContext
  import SW = ServiceWorker

  type Medication = MC.Medication

  const MaxBeeps: nat := 30
  /** C5, E5, G5, E5. */
  const Melody: seq<nat> := [523, 659, 784, 659]

  // ---------------------------------------------------------------------------
  // The dedup key

  /** `${id}-${date}-${HH:MM}`: the key under which a medication is recorded as rung
      for one minute of one day. */
  function CheckKey(id: string, now: nat): string {
    id + "-" + DateToken(now) + "-" + HHMM(now)
  }

  /** A string, a dash and a run of digits split uniquely at that dash. */
  lemma DashDigitsSplit(a1: string, d1: string, a2: string, d2: string)
    requires AllDigits(d1) && AllDigits(d2) && a1 + "-" + d1 == a2 + "-" + d2
    ensures a1 == a2 && d1 == d2
  {
    var s := a1 + "-" + d1;
    assert s == a2 + "-" + d2;
    assert forall k :: 0 <= k < |d1| ==> s[|a1| + 1 + k] == d1[k];
    assert forall k :: 0 <= k < |d2| ==> s[|a2| + 1 + k] == d2[k];
    assert s[|a1|] == '-' && s[|a2|] == '-';
    if |a1| < |a2| {
      assert false;
    } else if |a2| < |a1| {
      assert false;
    }
    assert a1 == s[..|a1|] == a2;
    assert d1 == s[|a1| + 1..] == d2;
  }

  /** Keys are equal exactly when they name the same medication id, the same day and
      the same minute of the day. */
  lemma CheckKeyInjective(id1: string, a: nat, id2: string, b: nat)
    ensures CheckKey(id1, a) == CheckKey(id2, b) <==> id1 == id2 && Day(a) == Day(b) && MinuteOfDay(a) == MinuteOfDay(b)
  {
    if CheckKey(id1, a) == CheckKey(id2, b) {
      var k := CheckKey(id1, a);
      HHMMShape(a);
      HHMMShape(b);
      var p1 := id1 + "-" + DateToken(a);
      var p2 := id2 + "-" + DateToken(b);
      assert k == p1 + "-" + HHMM(a) && k == p2 + "-" + HHMM(b);
      assert HHMM(a) == k[|k| - 5..] == HHMM(b);
      assert p1 == k[..|k| - 6] == p2;
      DashDigitsSplit(id1, DateToken(a), id2, DateToken(b));
      DateTokenSameIffSameDay(a, b);
      HHMMSameIffSameMinute(a, b);
    }
  }

  // ---------------------------------------------------------------------------
  // The periodic scan

  /** `snoozedMeds[id] && now < snoozeUntil`: a snooze that has not run out. */
  predicate SnoozeLive(snoozed: map<string, nat>, id: string, now: nat) {
    id in snoozed && now < snoozed[id]
  }

  /** The four conditions under which the periodic scan rings for a medication. */
  predicate Due(m: Medication, taken: map<string, bool>, snoozed: map<string, nat>, checked: set<string>, now: nat) {
    !MC.IsTaken(taken, m.id) && !SnoozeLive(snoozed, m.id, now) &&
    CheckKey(m.id, now) !in checked && m.time == HHMM(now)
  }

  function DueTest(taken: map<string, bool>, snoozed: map<string, nat>, checked: set<string>, now: nat): Medication -> bool {
    (m: Medication) => Due(m, taken, snoozed, checked, now)
  }

  function KeysOf(fired: seq<Medication>, now: nat): set<string> {
    set m | m in fired :: CheckKey(m.id, now)
  }

  /** What one pass of the periodic scan does: the medications it rings for, in list order,
      and the key set afterwards. */
  datatype ScanResult = ScanResult(fired: seq<Medication>, checked: set<string>)

  /** What a pass over meds starting from key set `checked` promises of its result. */
  predicate ScanOutcome(meds: seq<Medication>, taken: map<string, bool>, snoozed: map<string, nat>, checked: set<string>, now: nat, r: ScanResult) {
    // exactly the keys of the medications rung for are added
    && r.checked == checked + KeysOf(r.fired, now)
    // only due medications of the list are rung for, and only one per id
    && (forall k :: 0 <= k < |r.fired| ==> r.fired[k] in meds && Due(r.fired[k], taken, snoozed, checked, now))
    && (forall a, b :: 0 <= a < b < |r.fired| ==> r.fired[a].id != r.fired[b].id)
    // every due medication has its key recorded afterwards
    && (forall j :: 0 <= j < |meds| && Due(meds[j], taken, snoozed, checked, now) ==> CheckKey(meds[j].id, now) in r.checked)
  }

  /** One pass over the list: each medication due under the keys recorded so far has
      its key recorded and is rung for. */
  function Scan(meds: seq<Medication>, taken: map<string, bool>, snoozed: map<string, nat>, checked: set<string>, now: nat): (r: ScanResult)
    // exactly the keys of the medications rung for are added
    ensures r.checked == checked + KeysOf(r.fired, now)
    // only due medications of the list are rung for, and only one per id
    ensures forall k :: 0 <= k < |r.fired| ==> r.fired[k] in meds && Due(r.fired[k], taken, snoozed, checked, now)
    ensures forall a, b :: 0 <= a < b < |r.fired| ==> r.fired[a].id != r.fired[b].id
    // every due medication has its key recorded afterwards
    ensures forall j :: 0 <= j < |meds| && Due(meds[j], taken, snoozed, checked, now) ==> CheckKey(meds[j].id, now) in r.checked
    decreases |meds|
  {
    if meds == [] then ScanResult([], checked)
    else
      var m := meds[0];
      if Due(m, taken, snoozed, checked, now) then
        var r := Scan(meds[1..], taken, snoozed, checked + {CheckKey(m.id, now)}, now);
        ScanDueStep(meds, taken, snoozed, checked, now, r);
        ScanResult([m] + r.fired, r.checked)
      else
        var r := Scan(meds[1..], taken, snoozed, checked, now);
        ScanSkipStep(meds, taken, snoozed, checked, now, r);
        r
  }

  /** A due head is rung for and its key recorded ahead of the rest of the pass. */
  lemma ScanDueStep(meds: seq<Medication>, taken: map<string, bool>, snoozed: map<string, nat>, checked: set<string>, now: nat, r: ScanResult)
    requires meds != [] && Due(meds[0], taken, snoozed, checked, now)
    requires ScanOutcome(meds[1..], taken, snoozed, checked + {CheckKey(meds[0].id, now)}, now, r)
    ensures ScanOutcome(meds, taken, snoozed, checked, now, ScanResult([meds[0]] + r.fired, r.checked))
  {
    var f := [meds[0]] + r.fired;
    assert KeysOf(f, now) == {CheckKey(meds[0].id, now)} + KeysOf(r.fired, now);
    DueStepFired(meds, taken, snoozed, checked, now, r);
    DueStepDistinct(meds, taken, snoozed, checked, now, r);
    DueStepRecorded(meds, taken, snoozed, checked, now, r);
  }

  lemma DueStepFired(meds: seq<Medication>, taken: map<string, bool>, snoozed: map<string, nat>, checked: set<string>, now: nat, r: ScanResult)
    requires meds != [] && Due(meds[0], taken, snoozed, checked, now)
    requires forall k :: 0 <= k < |r.fired| ==> r.fired[k] in meds[1..] && Due(r.fired[k], taken, snoozed, checked + {CheckKey(meds[0].id, now)}, now)
    ensures var f := [meds[0]] + r.fired;
      forall k :: 0 <= k < |f| ==> f[k] in meds && Due(f[k], taken, snoozed, checked, now)
  {
    var f := [meds[0]] + r.fired;
    forall k | 1 <= k < |f| ensures f[k] in meds && Due(f[k], taken, snoozed, checked, now) {
      assert f[k] == r.fired[k - 1];
    }
  }

  lemma DueStepDistinct(meds: seq<Medication>, taken: map<string, bool>, snoozed: map<string, nat>, checked: set<string>, now: nat, r: ScanResult)
    requires meds != []
    requires forall k :: 0 <= k < |r.fired| ==> CheckKey(r.fired[k].id, now) !in checked + {CheckKey(meds[0].id, now)}
    requires forall a, b :: 0 <= a < b < |r.fired| ==> r.fired[a].id != r.fired[b].id
    ensures var f := [meds[0]] + r.fired;
      forall a, b :: 0 <= a < b < |f| ==> f[a].id != f[b].id
  {
    var f := [meds[0]] + r.fired;
    forall a, b | 0 <= a < b < |f| ensures f[a].id != f[b].id {
      assert f[b] == r.fired[b - 1];
      if a > 0 {
        assert f[a] == r.fired[a - 1];
      } else {
        assert CheckKey(f[b].id, now) != CheckKey(meds[0].id, now);
      }
    }
  }

  lemma DueStepRecorded(meds: seq<Medication>, taken: map<string, bool>, snoozed: map<string, nat>, checked: set<string>, now: nat, r: ScanResult)
    requires meds != []
    requires checked + {CheckKey(meds[0].id, now)} <= r.checked
    requires forall j :: 0 <= j < |meds[1..]| && Due(meds[1..][j], taken, snoozed, checked + {CheckKey(meds[0].id, now)}, now) ==>
      CheckKey(meds[1..][j].id, now) in r.checked
    ensures forall j :: 0 <= j < |meds| && Due(meds[j], taken, snoozed, checked, now) ==> CheckKey(meds[j].id, now) in r.checked
  {
    forall j | 1 <= j < |meds| && Due(meds[j], taken, snoozed, checked, now) ensures CheckKey(meds[j].id, now) in r.checked {
      assert meds[j] == meds[1..][j - 1];
    }
  }

  /** A head that is not due leaves the pass to the rest of the list. */
  lemma ScanSkipStep(meds: seq<Medication>, taken: map<string, bool>, snoozed: map<string, nat>, checked: set<string>, now: nat, r: ScanResult)
    requires meds != [] && !Due(meds[0], taken, snoozed, checked, now)
    requires ScanOutcome(meds[1..], taken, snoozed, checked, now, r)
    ensures ScanOutcome(meds, taken, snoozed, checked, now, r)
  {
    assert forall j :: 1 <= j < |meds| ==> meds[j] == meds[1..][j - 1];
  }

  /** Scan from index i takes one step on meds[i]. */
  lemma ScanStep(meds: seq<Medication>, i: nat, taken: map<string, bool>, snoozed: map<string, nat>, checked: set<string>, now: nat)
    requires i < |meds|
    ensures var m := meds[i];
      Scan(meds[i..], taken, snoozed, checked, now) ==
        if Due(m, taken, snoozed, checked, now) then
          var r := Scan(meds[i + 1..], taken, snoozed, checked + {CheckKey(m.id, now)}, now);
          ScanResult([m] + r.fired, r.checked)
        else Scan(meds[i + 1..], taken, snoozed, checked, now)
  {
    assert meds[i..][0] == meds[i] && meds[i..][1..] == meds[i + 1..];
  }

  /** One medication further into the periodic scan's pass: the medications fired so far
      and the rest of the pass still add up to the whole pass. */
  lemma TickAdvance(meds: seq<Medication>, i: nat, taken: map<string, bool>, snoozed: map<string, nat>, checked: set<string>, now: nat,
                    fired: seq<Medication>, total: ScanResult)
    requires i < |meds|
    requires var r := Scan(meds[i..], taken, snoozed, checked, now); total == ScanResult(fired + r.fired, r.checked)
    ensures Due(meds[i], taken, snoozed, checked, now) ==>
      var r := Scan(meds[i + 1..], taken, snoozed, checked + {CheckKey(meds[i].id, now)}, now);
      total == ScanResult((fired + [meds[i]]) + r.fired, r.checked)
    ensures !Due(meds[i], taken, snoozed, checked, now) ==>
      var r := Scan(meds[i + 1..], taken, snoozed, checked, now);
      total == ScanResult(fired + r.fired, r.checked)
  {
    ScanStep(meds, i, taken, snoozed, checked, now);
    if Due(meds[i], taken, snoozed, checked, now) {
      var r := Scan(meds[i + 1..], taken, snoozed, checked + {CheckKey(meds[i].id, now)}, now);
      AppendAssoc(fired, [meds[i]], r.fired);
    }
  }

  /** When the ids in the list are distinct, the periodic scan rings for exactly the due
      medications, in list order. */
  lemma {:induction false} ScanFiresExactlyDue(meds: seq<Medication>, taken: map<string, bool>, snoozed: map<string, nat>, checked: set<string>, now: nat)
    requires forall a, b :: 0 <= a < b < |meds| ==> meds[a].id != meds[b].id
    ensures Scan(meds, taken, snoozed, checked, now).fired == Filter(meds, DueTest(taken, snoozed, checked, now))
    decreases |meds|
  {
    if meds != [] {
      var m := meds[0];
      var rest := meds[1..];
      assert forall a, b :: 0 <= a < b < |rest| ==> rest[a].id != rest[b].id by {
        forall a, b | 0 <= a < b < |rest| ensures rest[a].id != rest[b].id {
          assert rest[a] == meds[a + 1] && rest[b] == meds[b + 1];
        }
      }
      if Due(m, taken, snoozed, checked, now) {
        var checked' := checked + {CheckKey(m.id, now)};
        ScanFiresExactlyDue(rest, taken, snoozed, checked', now);
        forall k | 0 <= k < |rest|
          ensures DueTest(taken, snoozed, checked', now)(rest[k]) == DueTest(taken, snoozed, checked, now)(rest[k])
        {
          assert rest[k] == meds[k + 1];
          CheckKeyInjective(rest[k].id, now, m.id, now);
        }
        FilterAgree(rest, DueTest(taken, snoozed, checked', now), DueTest(taken, snoozed, checked, now));
      } else {
        ScanFiresExactlyDue(rest, taken, snoozed, checked, now);
      }
    }
  }

  /** Any number of ticks within one minute ring at most once per medication id: once
      a pass has recorded its keys, a later pass in the same minute of the same day
      (over any list, taken map and snooze map) rings for none of the same ids. */
  lemma SameMinuteRingsOnce(meds: seq<Medication>, taken: map<string, bool>, snoozed: map<string, nat>, checked: set<string>, now: nat,
                            meds2: seq<Medication>, taken2: map<string, bool>, snoozed2: map<string, nat>, checked2: set<string>, now2: nat)
    requires Scan(meds, taken, snoozed, checked, now).checked <= checked2
    requires Day(now2) == Day(now) && MinuteOfDay(now2) == MinuteOfDay(now)
    ensures forall a, b :: 0 <= a < |Scan(meds, taken, snoozed, checked, now).fired| &&
                           0 <= b < |Scan(meds2, taken2, snoozed2, checked2, now2).fired| ==>
      Scan(meds, taken, snoozed, checked, now).fired[a].id != Scan(meds2, taken2, snoozed2, checked2, now2).fired[b].id
  {
    var f := Scan(meds, taken, snoozed, checked, now).fired;
    var g := Scan(meds2, taken2, snoozed2, checked2, now2).fired;
    forall a, b | 0 <= a < |f| && 0 <= b < |g| ensures f[a].id != g[b].id {
      FiredKeyRecorded(meds, taken, snoozed, checked, now, a);
      assert Due(g[b], taken2, snoozed2, checked2, now2);
      RecordedKeyBlocks(f[a], g[b], checked2, now, now2);
    }
  }

  /** A pass records the key of every medication it rang for. */
  lemma FiredKeyRecorded(meds: seq<Medication>, taken: map<string, bool>, snoozed: map<string, nat>, checked: set<string>, now: nat, k: nat)
    requires k < |Scan(meds, taken, snoozed, checked, now).fired|
    ensures var r := Scan(meds, taken, snoozed, checked, now); CheckKey(r.fired[k].id, now) in r.checked
  {
    var r := Scan(meds, taken, snoozed, checked, now);
    assert r.fired[k] in r.fired;
  }

  /** A key recorded for one medication keeps any medication with the same id from
      being due in the same minute of the same day. */
  lemma RecordedKeyBlocks(f: Medication, g: Medication, checked: set<string>, now: nat, now2: nat)
    requires CheckKey(f.id, now) in checked && CheckKey(g.id, now2) !in checked
    requires Day(now2) == Day(now) && MinuteOfDay(now2) == MinuteOfDay(now)
    ensures f.id != g.id
  {
    CheckKeyInjective(f.id, now, g.id, now2);
  }

  /** Exact-minute matching: a medication rung for at one moment is never due at a
      moment at least a minute later on the same day, whatever the snooze map says. So
      a snooze of a minute or more that runs out on the same day does not bring the
      alarm back. */
  lemma NotDueInLaterMinute(m: Medication, fireTime: nat, now: nat,
                            taken: map<string, bool>, snoozed: map<string, nat>, checked: set<string>)
    requires m.time == HHMM(fireTime)
    requires fireTime + MsPerMinute <= now && Day(now) == Day(fireTime)
    ensures !Due(m, taken, snoozed, checked, now)
  {
    LaterMinuteSameDay(fireTime, now);
    HHMMSameIffSameMinute(fireTime, now);
  }

  /** The snooze deadline `Date.now() + minutes * 60 * 1000`. */
  function SnoozeUntil(now: nat, minutes: nat): (until: nat)
    ensures until == now + minutes * MsPerMinute
    ensures minutes >= 1 ==> MinuteOfDay(now) != MinuteOfDay(until) || Day(now) != Day(until)
  {
    var u := now + minutes * MsPerMinute;
    assert minutes >= 1 ==> MinuteOfDay(now) != MinuteOfDay(u) || Day(now) != Day(u) by {
      if minutes >= 1 && Day(now) == Day(u) {
        LaterMinuteSameDay(now, u);
      }
    }
    u
  }

  /** The periodic scan's keys after a snooze at `now`: the key of the snooze's own minute is
      removed, so the key of a ring in an earlier minute stays recorded. */
  function SnoozedChecked(checked: set<string>, id: string, now: nat): (r: set<string>)
    ensures r <= checked && CheckKey(id, now) !in r
    ensures forall t: nat :: (Day(t) != Day(now) || MinuteOfDay(t) != MinuteOfDay(now)) && CheckKey(id, t) in checked ==>
      CheckKey(id, t) in r
  {
    var r := checked - {CheckKey(id, now)};
    assert forall t: nat :: (Day(t) != Day(now) || MinuteOfDay(t) != MinuteOfDay(now)) && CheckKey(id, t) in checked ==>
      CheckKey(id, t) in r
    by {
      forall t: nat | (Day(t) != Day(now) || MinuteOfDay(t) != MinuteOfDay(now)) && CheckKey(id, t) in checked
        ensures CheckKey(id, t) in r
      {
        CheckKeyInjective(id, t, id, now);
      }
    }
    r
  }

  /** The snooze map after snoozing `id` until `until`: only that entry changes. */
  function Snoozed(snoozed: map<string, nat>, id: string, until: nat): (r: map<string, nat>)
    ensures r.Keys == snoozed.Keys + {id} && r[id] == until
    ensures forall k :: k in snoozed && k != id ==> r[k] == snoozed[k]
  {
    snoozed[id := until]
  }

  /** The next local midnight, when the reset timer fires. */
  function NextMidnight(now: nat): (r: nat)
    ensures now < r <= now + MsPerDay && r % MsPerDay == 0 && Day(r) == Day(now) + 1
  {
    (Day(now) + 1) * MsPerDay
  }

  // ---------------------------------------------------------------------------
  // The beep loop

  /** The pitches `ticks` runs of the beep callback play, starting from count `start`
      (a run at the maximum plays nothing and clears the interval instead). */
  function Beeps(start: nat, ticks: nat): (r: seq<nat>)
    requires start <= MaxBeeps
    ensures |r| == if ticks <= MaxBeeps - start then ticks else MaxBeeps - start
    ensures forall k :: 0 <= k < |r| ==> r[k] == Melody[(start + k) % 4]
    decreases ticks
  {
    if ticks == 0 || start == MaxBeeps then [] else [Melody[start % 4]] + Beeps(start + 1, ticks - 1)
  }

  /** One more run of the loop from the start, below the maximum, appends the next
      pitch of the melody. */
  lemma BeepsExtend(n: nat)
    requires n < MaxBeeps
    ensures Beeps(0, n + 1) == Beeps(0, n) + [Melody[n % 4]]
  {
    var a, b := Beeps(0, n + 1), Beeps(0, n) + [Melody[n % 4]];
    assert |a| == |b|;
    forall k | 0 <= k < |a| ensures a[k] == b[k] {
    }
  }

  // ---------------------------------------------------------------------------
  // Notifications

  /** What the page environment offers when an alarm starts: a controlling service
      worker, notification permission, and a working audio context. */
  datatype Env = Env(hasController: bool, notificationsGranted: bool, audioAvailable: bool)

  /** A notification request: a message to the service worker, or a page notification. */
  datatype Notice = ToWorker(msg: SW.WorkerMessage) | PageNotification(title: string, body: string, tag: string)

  function AlarmNotice(med: Medication, env: Env): Option<Notice> {
    if env.hasController then
      Some(ToWorker(SW.ShowNotification(SW.AlarmTitle(med), "Dosage: " + med.dosage, Some(med))))
    else if env.notificationsGranted then
      Some(PageNotification(SW.AlarmTitle(med), "Dosage: " + med.dosage + "\nTap to dismiss", "med-" + med.id))
    else None
  }

  /** The tag of the notification a notice ends up showing. */
  function ShownTag(n: Notice): string {
    match n
    case ToWorker(msg) => if msg.OtherMessage? then "" else SW.MessageNotification(msg).value.tag
    case PageNotification(_, _, tag) => tag
  }

  /** An alarm asks for a notification when a worker controls the page or permission
      is granted, and either way the notification is titled and tagged for the
      medication. */
  lemma AlarmNoticeTagged(med: Medication, env: Env)
    ensures AlarmNotice(med, env).Some? <==> env.hasController || env.notificationsGranted
    ensures AlarmNotice(med, env).Some? ==> ShownTag(AlarmNotice(med, env).value) == "med-" + med.id
    ensures env.hasController ==> SW.MessageNotification(AlarmNotice(med, env).value.msg).value.title == SW.AlarmTitle(med)
  {
  }

  /** The record testAlarm rings for. */
  function TestMedication(now: nat): (m: Medication)
    ensures m.id == "test" && IsClockTime(m.time) && ClockMinutes(m.time) == MinuteOfDay(now)
    ensures m.name == "Test Alarm" && m.dosage == "Testing alarm sound"
  {
    HHMMShape(now);
    MC.Medication("test", "Test Alarm", HHMM(now), "Testing alarm sound")
  }

  /** The beep counter and the two timer handles of the provider. */
  datatype Audio = Audio(beepCount: nat, interval: Option<nat>, alarmTimeout: Option<nat>)

  /** The sound after an alarm has started: with working audio the first beep has
      played and both timers are set; without, no beep and no timer. */
  predicate AudioStarted(a: Audio, env: Env) {
    if env.audioAvailable then a.beepCount == 1 && a.interval.Some? && a.alarmTimeout.Some?
    else a.beepCount == 0 && a.interval.None? && a.alarmTimeout.None?
  }

  /** The notices list for a notification request that may be absent. */
  function NoticeList(n: Option<Notice>): (r: seq<Notice>)
    ensures |r| <= 1 && (r == [] <==> n.None?) && (n.Some? ==> r[0] == n.value)
  {
    if n.Some? then [n.value] else []
  }

  /** What the periodic scan's pass has done to the alarm after firing `fired`: an alarm
      that rang before still rings, sounds and notifies as it did; otherwise the first
      fired medication rings, its sound starts and its notification is asked for, once;
      and while none has fired nothing rings and the sound is untouched. */
  ghost predicate RingState(env: Env, wasRinging: bool, wasCurrent: Option<Medication>, wasAudio: Audio,
                            ringing: bool, current: Option<Medication>, audio: Audio,
                            fired: seq<Medication>, notices: seq<Notice>)
  {
    && (wasRinging ==> ringing && current == wasCurrent && audio == wasAudio && notices == [])
    && (!wasRinging && fired != [] ==>
          ringing && current == Some(fired[0]) && AudioStarted(audio, env) && notices == NoticeList(AlarmNotice(fired[0], env)))
    && (!wasRinging && fired == [] ==> !ringing && audio == wasAudio && notices == [])
  }

  /** One medication of the pass through CheckMedication keeps RingState. */
  lemma RingAdvance(env: Env, wasRinging: bool, wasCurrent: Option<Medication>, wasAudio: Audio,
                    ringing: bool, current: Option<Medication>, audio: Audio,
                    fired: seq<Medication>, notices: seq<Notice>, due: bool, m: Medication,
                    ringing': bool, current': Option<Medication>, audio': Audio, notice: Option<Notice>)
    requires RingState(env, wasRinging, wasCurrent, wasAudio, ringing, current, audio, fired, notices)
    requires !due ==> notice.None? && ringing' == ringing && current' == current && audio' == audio
    requires due && ringing ==> notice.None? && ringing' && current' == current && audio' == audio
    requires due && !ringing ==> ringing' && current' == Some(m) && notice == AlarmNotice(m, env) && AudioStarted(audio', env)
    ensures RingState(env, wasRinging, wasCurrent, wasAudio, ringing', current', audio',
                      if due then fired + [m] else fired, notices + NoticeList(notice))
  {
    assert notices + [] == notices;
  }

  // ---------------------------------------------------------------------------
  // The provider

  class AlarmProvider {
    var isRinging: bool
    var currentAlarm: Option<Medication>
    var snoozedMeds: map<string, nat>
    var checkedTimes: set<string>
    /** Timer handles; None is null. */
    var interval: Option<nat>
    var alarmTimeout: Option<nat>
    var midnightAt: Option<nat>
    var nextHandle: nat
    /** The beep counter of the current alarm's beep loop, and the pitches it played. */
    var beepCount: nat
    ghost var played: seq<nat>

    ghost predicate Valid()
      reads this
    {
      && beepCount <= MaxBeeps && played == Beeps(0, beepCount)
      && (isRinging <==> currentAlarm.Some?)
      && (!isRinging ==> interval.None? && alarmTimeout.None?)
      && (interval.Some? ==> alarmTimeout.Some?)
    }

    function AudioState(): Audio
      reads this
    {
      Audio(beepCount, interval, alarmTimeout)
    }

    /** Mounting: nothing rings, nothing is recorded, and the reset is set for the next
        midnight. */
    constructor (now: nat)
      ensures Valid()
      ensures !isRinging && currentAlarm.None? && snoozedMeds == map[] && checkedTimes == {}
      ensures interval.None? && alarmTimeout.None? && midnightAt == Some(NextMidnight(now))
    {
      isRinging := false;
      currentAlarm := None;
      snoozedMeds := map[];
      checkedTimes := {};
      interval := None;
      alarmTimeout := None;
      midnightAt := Some(NextMidnight(now));
      nextHandle := 0;
      beepCount := 0;
      played := [];
    }

    /** triggerAlarm: does nothing while an alarm rings; otherwise the medication
        becomes the current alarm, a notification is asked for, and, when audio
        works, the first beep plays and the beep interval and the auto-stop timeout
        are set. */
    method TriggerAlarm(med: Medication, env: Env) returns (notice: Option<Notice>, pitch: Option<nat>)
      requires Valid()
      modifies this
      ensures Valid()
      ensures old(isRinging) ==> notice.None? && pitch.None? && unchanged(this)
      ensures !old(isRinging) ==> isRinging && currentAlarm == Some(med) && notice == AlarmNotice(med, env)
      ensures !old(isRinging) && env.audioAvailable ==>
        pitch == Some(Melody[0]) && beepCount == 1 && interval.Some? && alarmTimeout.Some?
      ensures !old(isRinging) && !env.audioAvailable ==>
        pitch.None? && beepCount == 0 && interval.None? && alarmTimeout.None?
      ensures snoozedMeds == old(snoozedMeds) && checkedTimes == old(checkedTimes) && midnightAt == old(midnightAt)
    {
      if isRinging {
        return None, None;
      }
      currentAlarm := Some(med);
      isRinging := true;
      notice := AlarmNotice(med, env);
      if env.audioAvailable {
        beepCount := 1;
        played := [Melody[0]];
        pitch := Some(Melody[0]);
        interval := Some(nextHandle);
        alarmTimeout := Some(nextHandle + 1);
        nextHandle := nextHandle + 2;
      } else {
        beepCount := 0;
        played := [];
        pitch := None;
      }
    }

    /** One run of the beep interval: below the maximum it plays the next pitch of the
        melody and counts it; at the maximum it clears and nulls the interval. */
    method IntervalFires() returns (pitch: Option<nat>)
      requires Valid()
      modifies this
      ensures Valid()
      ensures old(interval).None? ==> pitch.None? && unchanged(this)
      ensures old(interval).Some? && old(beepCount) < MaxBeeps ==>
        pitch == Some(Melody[old(beepCount) % 4]) && beepCount == old(beepCount) + 1 && interval == old(interval)
      ensures old(interval).Some? && old(beepCount) >= MaxBeeps ==>
        pitch.None? && beepCount == old(beepCount) && interval.None?
      ensures isRinging == old(isRinging) && currentAlarm == old(currentAlarm) && alarmTimeout == old(alarmTimeout)
      ensures snoozedMeds == old(snoozedMeds) && checkedTimes == old(checkedTimes) && midnightAt == old(midnightAt)
    {
      if interval.None? {
        return None;
      }
      if beepCount >= MaxBeeps {
        interval := None;
        pitch := None;
      } else {
        pitch := Some(Melody[beepCount % 4]);
        BeepsExtend(beepCount);
        played := played + [Melody[beepCount % 4]];
        beepCount := beepCount + 1;
      }
    }

    /** stopAlarm: nothing rings and both handles are null. A second call finds that
        state and leaves it as it is. */
    method StopAlarm()
      requires Valid()
      modifies this
      ensures Valid()
      ensures !isRinging && currentAlarm.None? && interval.None? && alarmTimeout.None?
      ensures snoozedMeds == old(snoozedMeds) && checkedTimes == old(checkedTimes) && midnightAt == old(midnightAt)
      ensures beepCount == old(beepCount) && nextHandle == old(nextHandle)
    {
      isRinging := false;
      currentAlarm := None;
      interval := None;
      alarmTimeout := None;
    }

    /** The 12-second auto-stop. */
    method AlarmTimeoutFires()
      requires Valid()
      modifies this
      ensures Valid()
      ensures old(alarmTimeout).None? ==> unchanged(this)
      ensures old(alarmTimeout).Some? ==> !isRinging && currentAlarm.None? && interval.None? && alarmTimeout.None?
      ensures snoozedMeds == old(snoozedMeds) && checkedTimes == old(checkedTimes) && midnightAt == old(midnightAt)
    {
      if alarmTimeout.Some? {
        StopAlarm();
      }
    }

    /** snoozeAlarm(minutes), at moment `now`: without a current alarm nothing happens;
        otherwise its id is snoozed until `now + minutes` minutes, the key of the
        current minute is removed, and the alarm stops. */
    method SnoozeAlarm(minutes: nat, now: nat)
      requires Valid()
      modifies this
      ensures Valid()
      ensures old(currentAlarm).None? ==> unchanged(this)
      ensures old(currentAlarm).Some? ==>
        && snoozedMeds == Snoozed(old(snoozedMeds), old(currentAlarm).value.id, SnoozeUntil(now, minutes))
        && checkedTimes == SnoozedChecked(old(checkedTimes), old(currentAlarm).value.id, now)
        && !isRinging && currentAlarm.None? && interval.None? && alarmTimeout.None?
      ensures midnightAt == old(midnightAt)
    {
      if currentAlarm.None? {
        return;
      }
      var id := currentAlarm.value.id;
      var snoozed, checked := Snoozed(snoozedMeds, id, SnoozeUntil(now, minutes)), SnoozedChecked(checkedTimes, id, now);
      StopAlarm();
      snoozedMeds, checkedTimes := snoozed, checked;
    }

    /** The midnight timer: it empties the key set and the snooze map, once. */
    method MidnightFires()
      requires Valid()
      modifies this
      ensures Valid()
      ensures old(midnightAt).None? ==> unchanged(this)
      ensures old(midnightAt).Some? ==> checkedTimes == {} && snoozedMeds == map[] && midnightAt.None?
      ensures isRinging == old(isRinging) && currentAlarm == old(currentAlarm)
      ensures interval == old(interval) && alarmTimeout == old(alarmTimeout) && beepCount == old(beepCount)
    {
      if midnightAt.Some? {
        checkedTimes := {};
        snoozedMeds := map[];
        midnightAt := None;
      }
    }

    /** testAlarm: rings for the test record scheduled at the current minute. */
    method TestAlarm(now: nat, env: Env) returns (notice: Option<Notice>, pitch: Option<nat>)
      requires Valid()
      modifies this
      ensures Valid()
      ensures old(isRinging) ==> notice.None? && pitch.None? && unchanged(this)
      ensures !old(isRinging) ==>
        && isRinging && currentAlarm == Some(TestMedication(now))
        && notice == AlarmNotice(TestMedication(now), env) && AudioStarted(AudioState(), env)
      ensures snoozedMeds == old(snoozedMeds) && checkedTimes == old(checkedTimes) && midnightAt == old(midnightAt)
    {
      notice, pitch := TriggerAlarm(TestMedication(now), env);
    }

    /** The periodic scan's callback for one medication: when it is due, its key is recorded
        and the alarm is triggered for it. */
    method CheckMedication(m: Medication, taken: map<string, bool>, now: nat, env: Env) returns (notice: Option<Notice>)
      requires Valid()
      modifies this
      ensures Valid()
      ensures !Due(m, taken, old(snoozedMeds), old(checkedTimes), now) ==> notice.None? && unchanged(this)
      ensures Due(m, taken, old(snoozedMeds), old(checkedTimes), now) ==>
        && checkedTimes == old(checkedTimes) + {CheckKey(m.id, now)}
        && (old(isRinging) ==> notice.None? && isRinging && currentAlarm == old(currentAlarm) && AudioState() == old(AudioState()))
        && (!old(isRinging) ==> isRinging && currentAlarm == Some(m) && notice == AlarmNotice(m, env) && AudioStarted(AudioState(), env))
      ensures snoozedMeds == old(snoozedMeds) && midnightAt == old(midnightAt)
    {
      notice := None;
      if MC.IsTaken(taken, m.id) {
        return;
      }
      if SnoozeLive(snoozedMeds, m.id, now) {
        return;
      }
      var key := CheckKey(m.id, now);
      if key in checkedTimes {
        return;
      }
      if m.time == HHMM(now) {
        checkedTimes := checkedTimes + {key};
        var pitch;
        notice, pitch := TriggerAlarm(m, env);
      }
    }

    /** What a pass of the periodic scan has established after its first `i` medications:
        the rest of the pass still produces the pass's total, the snooze map is as it
        was, and the alarm is in the state RingState describes for `fired`. */
    ghost predicate PassInv(meds: seq<Medication>, i: int, taken: map<string, bool>, snoozed: map<string, nat>, now: nat,
                            env: Env, total: ScanResult, wasRinging: bool, wasCurrent: Option<Medication>, wasAudio: Audio,
                            fired: seq<Medication>, notices: seq<Notice>)
      reads this
    {
      && 0 <= i <= |meds| && Valid() && snoozedMeds == snoozed
      && (var r := Scan(meds[i..], taken, snoozed, checkedTimes, now);
          total == ScanResult(fired + r.fired, r.checked))
      && RingState(env, wasRinging, wasCurrent, wasAudio, isRinging, currentAlarm, AudioState(), fired, notices)
    }

    /** The periodic scan's callback on the pass's medication `i`, with the pass's ghost
        bookkeeping: the medications fired so far and the notices asked for. */
    method TickStep(meds: seq<Medication>, i: nat, taken: map<string, bool>, ghost snoozed: map<string, nat>, now: nat, env: Env,
                    ghost total: ScanResult, ghost wasRinging: bool, ghost wasCurrent: Option<Medication>, ghost wasAudio: Audio,
                    ghost fired: seq<Medication>, notices: seq<Notice>)
      returns (ghost fired': seq<Medication>, notices': seq<Notice>)
      requires i < |meds| && PassInv(meds, i, taken, snoozed, now, env, total, wasRinging, wasCurrent, wasAudio, fired, notices)
      modifies this
      ensures PassInv(meds, i + 1, taken, snoozed, now, env, total, wasRinging, wasCurrent, wasAudio, fired', notices')
      ensures midnightAt == old(midnightAt)
    {
      var m := meds[i];
      ghost var due := Due(m, taken, snoozed, checkedTimes, now);
      ghost var ringing, current, audio := isRinging, currentAlarm, AudioState();
      TickAdvance(meds, i, taken, snoozed, checkedTimes, now, fired, total);
      var notice := CheckMedication(m, taken, now, env);
      RingAdvance(env, wasRinging, wasCurrent, wasAudio, ringing, current, audio, fired, notices, due, m,
                  isRinging, currentAlarm, AudioState(), notice);
      notices' := notices + NoticeList(notice);
      fired' := if due then fired + [m] else fired;
    }

    /** One run of the periodic scan at moment `now` over the signed-in user's list: a pass
        of Scan that rings through TriggerAlarm for each medication it fires. Keys are
        recorded even when an alarm already rings and the trigger does nothing. */
    method Tick(signedIn: bool, meds: seq<Medication>, taken: map<string, bool>, now: nat, env: Env)
      returns (notices: seq<Notice>)
      requires Valid()
      modifies this
      ensures Valid()
      ensures !signedIn || meds == [] ==> notices == [] && unchanged(this)
      ensures signedIn && meds != [] ==>
        var r := Scan(meds, taken, old(snoozedMeds), old(checkedTimes), now);
        && checkedTimes == r.checked
        && (old(isRinging) ==> isRinging && currentAlarm == old(currentAlarm) && AudioState() == old(AudioState()) && notices == [])
        && (!old(isRinging) && r.fired != [] ==>
              && isRinging && currentAlarm == Some(r.fired[0]) && AudioStarted(AudioState(), env)
              && notices == NoticeList(AlarmNotice(r.fired[0], env)))
        && (!old(isRinging) && r.fired == [] ==> !isRinging && AudioState() == old(AudioState()) && notices == [])
      ensures snoozedMeds == old(snoozedMeds) && midnightAt == old(midnightAt)
    {
      notices := [];
      if !signedIn || meds == [] {
        return;
      }
      ghost var fired: seq<Medication> := [];
      ghost var wasRinging, wasCurrent, wasAudio, snoozed := isRinging, currentAlarm, AudioState(), snoozedMeds;
      ghost var total := Scan(meds, taken, snoozed, checkedTimes, now);
      assert meds[0..] == meds;
      var i := 0;
      while i < |meds|
        invariant PassInv(meds, i, taken, snoozed, now, env, total, wasRinging, wasCurrent, wasAudio, fired, notices)
        invariant midnightAt == old(midnightAt)
      {
        fired, notices := TickStep(meds, i, taken, snoozed, now, env, total, wasRinging, wasCurrent, wasAudio, fired, notices);
        i := i + 1;
      }
    }
  }
}
