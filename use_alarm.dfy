/** The standalone alarm hook: an older variant of the alarm state machine that the
    application shell does not mount. Unlike the alarm provider it has no guard
    against a second alarm: every trigger starts a fresh beep loop with its own
    counter and its own auto-stop timeout, and the earlier loop and timeout go on
    running. Timers are modelled as sets of live handles, and each firing as a method
    call. */
module UseAlarm {
  import opened Options
  import opened Clock
  import MC = MedicationContext
  import SW = ServiceWorker

  type Medication = MC.Medication

  /** The hook's beep limit per loop. */
  const MaxHookBeeps: nat := 20

  /** Beep k of a loop sounds 880 Hz on even counts and 1100 Hz on odd ones. */
  function HookPitch(k: nat): nat {
    if k % 2 == 0 then 880 else 1100
  }

  /** The pitches a loop has played after n beeps. */
  function HookBeeps(n: nat): (r: seq<nat>)
    requires n <= MaxHookBeeps
    ensures |r| == n
    ensures forall k :: 0 <= k < n ==> r[k] == (if k % 2 == 0 then 880 else 1100)
    ensures forall k :: 0 <= k && k + 1 < n ==> r[k] != r[k + 1]
  {
    if n == 0 then [] else HookBeeps(n - 1) + [HookPitch(n - 1)]
  }

  /** Notification.permission. */
  datatype Permission = Default | Granted | Denied

  /** The page notification the hook raises, with its options. */
  datatype HookNotification = HookNotification(title: string, body: string, icon: string, tag: string,
                                               requireInteraction: bool, vibrate: seq<nat>)

  function TriggerNotification(med: Medication): (n: HookNotification)
    ensures n.title == SW.AlarmTitle(med) && n.tag == "med-" + med.id && n.requireInteraction
  {
    HookNotification(SW.AlarmTitle(med), "Dosage: " + med.dosage + "\nTap to view", "/pill.svg", "med-" + med.id,
                     true, [200, 100, 200, 100, 200])
  }

  /** The value snoozeAlarm returns: the alarm that was current and the moment the
      caller should ring it again. */
  datatype SnoozeResult = SnoozeResult(medication: Option<Medication>, snoozeUntil: nat)

  /** The record testAlarm rings for. */
  function HookTestMedication(now: nat): (m: Medication)
    ensures m.id == "test" && IsClockTime(m.time) && ClockMinutes(m.time) == MinuteOfDay(now)
    ensures m.name == "Test Medication" && m.dosage == "Test dosage"
  {
    HHMMShape(now);
    MC.Medication("test", "Test Medication", HHMM(now), "Test dosage")
  }

  /** Every live loop's counter is the number of beeps it has played, every loop ever
      started holds a handle already handed out, has played at most the limit, and
      has played the alternating pitches. */
  ghost predicate LoopsConsistent(intervals: map<nat, nat>, played: map<nat, seq<nat>>, nextHandle: nat) {
    && (forall h :: h in intervals ==> h in played && intervals[h] == |played[h]|)
    && (forall h :: h in played ==> 1 <= h < nextHandle && |played[h]| <= MaxHookBeeps && played[h] == HookBeeps(|played[h]|))
  }

  ghost predicate HandlesBelow(timeouts: set<nat>, nextHandle: nat) {
    forall h :: h in timeouts ==> 1 <= h < nextHandle
  }

  lemma TimeoutsBelow(timeouts: set<nat>, nextHandle: nat)
    requires HandlesBelow(timeouts, nextHandle) && nextHandle >= 1
    ensures HandlesBelow(timeouts + {nextHandle + 1}, nextHandle + 2)
  {
  }

  lemma StartLoop(intervals: map<nat, nat>, played: map<nat, seq<nat>>, nextHandle: nat)
    requires LoopsConsistent(intervals, played, nextHandle) && nextHandle >= 1
    ensures LoopsConsistent(intervals[nextHandle := 1], played[nextHandle := [HookPitch(0)]], nextHandle + 2)
  {
    assert HookBeeps(1) == [HookPitch(0)] by {
      assert HookBeeps(0) == [];
    }
  }

  lemma BeepLoop(intervals: map<nat, nat>, played: map<nat, seq<nat>>, nextHandle: nat, h: nat)
    requires LoopsConsistent(intervals, played, nextHandle) && h in intervals && intervals[h] < MaxHookBeeps
    ensures LoopsConsistent(intervals[h := intervals[h] + 1], played[h := played[h] + [HookPitch(intervals[h])]], nextHandle)
  {
  }

  lemma DropLoop(intervals: map<nat, nat>, played: map<nat, seq<nat>>, nextHandle: nat, h: nat)
    requires LoopsConsistent(intervals, played, nextHandle)
    ensures LoopsConsistent(intervals - {h}, played, nextHandle)
  {
  }

  /** The hook's invariant on its state: the refs are set exactly while an alarm
      rings, they name live timers, and the loops are consistent. */
  ghost predicate HookInv(ringing: bool, current: Option<Medication>, intervalRef: Option<nat>, timeoutRef: Option<nat>,
                          nextHandle: nat, intervals: map<nat, nat>, timeouts: set<nat>, played: map<nat, seq<nat>>)
  {
    && nextHandle >= 1
    && (ringing <==> current.Some?)
    && (ringing <==> intervalRef.Some?)
    && (ringing <==> timeoutRef.Some?)
    && (timeoutRef.Some? ==> timeoutRef.value in timeouts)
    && (intervalRef.Some? ==> intervalRef.value in played)
    && HandlesBelow(timeouts, nextHandle)
    && LoopsConsistent(intervals, played, nextHandle)
  }

  /** A trigger keeps the invariant: a new loop and a new timeout under fresh handles. */
  lemma TriggerInv(ringing: bool, current: Option<Medication>, intervalRef: Option<nat>, timeoutRef: Option<nat>,
                   nextHandle: nat, intervals: map<nat, nat>, timeouts: set<nat>, played: map<nat, seq<nat>>, med: Medication)
    requires HookInv(ringing, current, intervalRef, timeoutRef, nextHandle, intervals, timeouts, played)
    ensures HookInv(true, Some(med), Some(nextHandle), Some(nextHandle + 1), nextHandle + 2,
                    intervals[nextHandle := 1], timeouts + {nextHandle + 1}, played[nextHandle := [HookPitch(0)]])
  {
    StartLoop(intervals, played, nextHandle);
    TimeoutsBelow(timeouts, nextHandle);
  }

  /** A beep of live loop h below the limit keeps the invariant. */
  lemma BeepInv(ringing: bool, current: Option<Medication>, intervalRef: Option<nat>, timeoutRef: Option<nat>,
                nextHandle: nat, intervals: map<nat, nat>, timeouts: set<nat>, played: map<nat, seq<nat>>, h: nat)
    requires HookInv(ringing, current, intervalRef, timeoutRef, nextHandle, intervals, timeouts, played)
    requires h in intervals && intervals[h] < MaxHookBeeps
    ensures HookInv(ringing, current, intervalRef, timeoutRef, nextHandle,
                    intervals[h := intervals[h] + 1], timeouts, played[h := played[h] + [HookPitch(intervals[h])]])
  {
    BeepLoop(intervals, played, nextHandle, h);
  }

  /** Clearing an interval keeps the invariant. */
  lemma DropInv(ringing: bool, current: Option<Medication>, intervalRef: Option<nat>, timeoutRef: Option<nat>,
                nextHandle: nat, intervals: map<nat, nat>, timeouts: set<nat>, played: map<nat, seq<nat>>, h: nat)
    requires HookInv(ringing, current, intervalRef, timeoutRef, nextHandle, intervals, timeouts, played)
    ensures HookInv(ringing, current, intervalRef, timeoutRef, nextHandle, intervals - {h}, timeouts, played)
  {
    DropLoop(intervals, played, nextHandle, h);
  }

  /** Stopping keeps the invariant: the refs' timers are cleared and the refs nulled. */
  lemma StopInv(ringing: bool, current: Option<Medication>, intervalRef: Option<nat>, timeoutRef: Option<nat>,
                nextHandle: nat, intervals: map<nat, nat>, timeouts: set<nat>, played: map<nat, seq<nat>>)
    requires HookInv(ringing, current, intervalRef, timeoutRef, nextHandle, intervals, timeouts, played)
    ensures HookInv(false, None, None, None, nextHandle,
                    if intervalRef.Some? then intervals - {intervalRef.value} else intervals,
                    if timeoutRef.Some? then timeouts - {timeoutRef.value} else timeouts, played)
  {
    if intervalRef.Some? {
      DropLoop(intervals, played, nextHandle, intervalRef.value);
    }
  }

  class AlarmHook {
    var isRinging: bool
    var currentAlarm: Option<Medication>
    var notificationPermission: Permission
    /** intervalRef and alarmTimeoutRef; None is null. */
    var intervalRef: Option<nat>
    var alarmTimeoutRef: Option<nat>
    /** Browser timer handles are positive; the next one to hand out. */
    var nextHandle: nat
    /** The live beep intervals, each with the counter of its own loop. */
    var intervals: map<nat, nat>
    /** The live auto-stop timeouts. */
    var timeouts: set<nat>
    /** What each beep loop ever started has played. */
    ghost var played: map<nat, seq<nat>>

    ghost predicate Valid()
      reads this
    {
      HookInv(isRinging, currentAlarm, intervalRef, alarmTimeoutRef, nextHandle, intervals, timeouts, played)
    }

    /** Mounting: nothing rings. Where notifications exist the permission is read, and
        when it is still 'default' the user is asked and the answer kept. */
    constructor (supported: bool, browserPermission: Permission, answer: Permission)
      ensures Valid()
      ensures !isRinging && currentAlarm.None? && intervals == map[] && timeouts == {}
      ensures notificationPermission ==
        if !supported then Default else if browserPermission == Default then answer else browserPermission
    {
      isRinging := false;
      currentAlarm := None;
      notificationPermission := if !supported then Default else if browserPermission == Default then answer else browserPermission;
      intervalRef := None;
      alarmTimeoutRef := None;
      nextHandle := 1;
      intervals := map[];
      timeouts := {};
      played := map[];
    }

    /** triggerAlarm: always makes the medication current and rings, even over a
        ringing alarm; raises a notification when permission is granted; plays the
        first beep of a new loop and sets a new interval and a new timeout. The
        previous interval and timeout are not cleared. */
    method TriggerAlarm(med: Medication, granted: bool) returns (notification: Option<HookNotification>, pitch: nat)
      requires Valid()
      modifies this
      ensures Valid()
      ensures isRinging && currentAlarm == Some(med)
      ensures notification == if granted then Some(TriggerNotification(med)) else None
      ensures pitch == HookPitch(0)
      ensures intervalRef == Some(old(nextHandle)) && alarmTimeoutRef == Some(old(nextHandle) + 1)
      ensures intervals == old(intervals)[old(nextHandle) := 1]
      ensures timeouts == old(timeouts) + {old(nextHandle) + 1}
      ensures notificationPermission == old(notificationPermission)
    {
      notification := if granted then Some(TriggerNotification(med)) else None;
      pitch := HookPitch(0);
      var h := nextHandle;
      TriggerInv(isRinging, currentAlarm, intervalRef, alarmTimeoutRef, h, intervals, timeouts, played, med);
      played := played[h := [HookPitch(0)]];
      currentAlarm, isRinging, intervals, timeouts, intervalRef, alarmTimeoutRef, nextHandle :=
        Some(med), true, intervals[h := 1], timeouts + {h + 1}, Some(h), Some(h + 1), h + 2;
    }

    /** A run of live interval h: below the limit its loop beeps at the pitch of its
        count and counts up; at the limit it clears whatever interval intervalRef
        holds now (not necessarily itself) and leaves intervalRef as it is. */
    method IntervalFires(h: nat) returns (pitch: Option<nat>)
      requires Valid() && h in intervals
      modifies this
      ensures Valid()
      ensures old(intervals[h]) < MaxHookBeeps ==>
        pitch == Some(HookPitch(old(intervals[h]))) && intervals == old(intervals)[h := old(intervals[h]) + 1]
      ensures old(intervals[h]) >= MaxHookBeeps ==>
        pitch.None? && intervals == if old(intervalRef).Some? then old(intervals) - {old(intervalRef).value} else old(intervals)
      ensures isRinging == old(isRinging) && currentAlarm == old(currentAlarm)
      ensures intervalRef == old(intervalRef) && alarmTimeoutRef == old(alarmTimeoutRef) && timeouts == old(timeouts)
      ensures notificationPermission == old(notificationPermission)
    {
      var count := intervals[h];
      if count >= MaxHookBeeps {
        pitch := None;
        if intervalRef.Some? {
          DropInv(isRinging, currentAlarm, intervalRef, alarmTimeoutRef, nextHandle, intervals, timeouts, played, intervalRef.value);
          intervals := intervals - {intervalRef.value};
        }
      } else {
        BeepInv(isRinging, currentAlarm, intervalRef, alarmTimeoutRef, nextHandle, intervals, timeouts, played, h);
        pitch := Some(HookPitch(count));
        played := played[h := played[h] + [HookPitch(count)]];
        intervals := intervals[h := count + 1];
      }
    }

    /** stopAlarm: nothing rings and both refs are cleared and null. A second call
        finds that state and leaves it as it is. */
    method StopAlarm()
      requires Valid()
      modifies this
      ensures Valid()
      ensures !isRinging && currentAlarm.None? && intervalRef.None? && alarmTimeoutRef.None?
      ensures intervals == if old(intervalRef).Some? then old(intervals) - {old(intervalRef).value} else old(intervals)
      ensures timeouts == if old(alarmTimeoutRef).Some? then old(timeouts) - {old(alarmTimeoutRef).value} else old(timeouts)
      ensures notificationPermission == old(notificationPermission) && nextHandle == old(nextHandle)
      ensures !old(isRinging) ==> intervals == old(intervals) && timeouts == old(timeouts)
    {
      StopInv(isRinging, currentAlarm, intervalRef, alarmTimeoutRef, nextHandle, intervals, timeouts, played);
      intervals := if intervalRef.Some? then intervals - {intervalRef.value} else intervals;
      timeouts := if alarmTimeoutRef.Some? then timeouts - {alarmTimeoutRef.value} else timeouts;
      isRinging, currentAlarm, intervalRef, alarmTimeoutRef := false, None, None, None;
    }

    /** A live auto-stop timeout fires: it stops whatever alarm rings now, which after
        a second trigger is the newer one. */
    method TimeoutFires(h: nat)
      requires Valid() && h in timeouts
      modifies this
      ensures Valid()
      ensures !isRinging && currentAlarm.None? && intervalRef.None? && alarmTimeoutRef.None?
      ensures intervals == if old(intervalRef).Some? then old(intervals) - {old(intervalRef).value} else old(intervals)
      ensures timeouts == (if old(alarmTimeoutRef).Some? then old(timeouts) - {old(alarmTimeoutRef).value} else old(timeouts)) - {h}
      ensures notificationPermission == old(notificationPermission) && nextHandle == old(nextHandle)
    {
      StopAlarm();
      timeouts := timeouts - {h};
    }

    /** snoozeAlarm(minutes) at moment `now`: hands back the alarm that was current and
        `now` plus the minutes, and stops the alarm; it records no snooze itself. */
    method SnoozeAlarm(minutes: nat, now: nat) returns (r: SnoozeResult)
      requires Valid()
      modifies this
      ensures Valid()
      ensures r == SnoozeResult(old(currentAlarm), now + minutes * MsPerMinute)
      ensures !isRinging && currentAlarm.None? && intervalRef.None? && alarmTimeoutRef.None?
      ensures intervals == if old(intervalRef).Some? then old(intervals) - {old(intervalRef).value} else old(intervals)
      ensures timeouts == if old(alarmTimeoutRef).Some? then old(timeouts) - {old(alarmTimeoutRef).value} else old(timeouts)
      ensures notificationPermission == old(notificationPermission) && nextHandle == old(nextHandle)
    {
      r := SnoozeResult(currentAlarm, now + minutes * MsPerMinute);
      StopAlarm();
    }

    /** requestPermission: the user is asked only when notifications exist and the
        browser's permission is 'default', and the answer is kept and returned;
        otherwise the permission the hook holds is returned unchanged. */
    method RequestPermission(supported: bool, browserPermission: Permission, answer: Permission)
      returns (prompted: bool, result: Permission)
      requires Valid()
      modifies this
      ensures Valid()
      ensures prompted <==> supported && browserPermission == Default
      ensures prompted ==> result == answer && notificationPermission == answer
      ensures !prompted ==> result == old(notificationPermission) && notificationPermission == old(notificationPermission)
      ensures isRinging == old(isRinging) && currentAlarm == old(currentAlarm)
      ensures intervals == old(intervals) && timeouts == old(timeouts)
      ensures intervalRef == old(intervalRef) && alarmTimeoutRef == old(alarmTimeoutRef) && nextHandle == old(nextHandle)
    {
      prompted := supported && browserPermission == Default;
      if prompted {
        notificationPermission := answer;
        result := answer;
      } else {
        result := notificationPermission;
      }
    }

    /** testAlarm at moment `now`: triggers the built-in test record. */
    method TestAlarm(now: nat, granted: bool) returns (notification: Option<HookNotification>, pitch: nat)
      requires Valid()
      modifies this
      ensures Valid()
      ensures isRinging && currentAlarm == Some(HookTestMedication(now))
      ensures notification == if granted then Some(TriggerNotification(HookTestMedication(now))) else None
      ensures pitch == HookPitch(0)
      ensures intervalRef == Some(old(nextHandle)) && alarmTimeoutRef == Some(old(nextHandle) + 1)
      ensures intervals == old(intervals)[old(nextHandle) := 1]
      ensures timeouts == old(timeouts) + {old(nextHandle) + 1}
      ensures notificationPermission == old(notificationPermission)
    {
      notification, pitch := TriggerAlarm(HookTestMedication(now), granted);
    }
  }

  /** Two triggers, then the first trigger's auto-stop: the alarm stops, but the beep
      loop the first trigger started is still live. */
  method AutoStopLeavesFirstLoop(hk: AlarmHook, a: Medication, b: Medication)
    requires hk.Valid()
    modifies hk
    ensures hk.Valid() && !hk.isRinging
    ensures old(hk.nextHandle) in hk.intervals && hk.intervals[old(hk.nextHandle)] == 1
  {
    var first := hk.nextHandle;
    var n1, p1 := hk.TriggerAlarm(a, false);
    var n2, p2 := hk.TriggerAlarm(b, false);
    hk.TimeoutFires(first + 1);
  }
}
