/** The service worker's dispatch rules: what a click on a notification does to the
    open windows (post a message, focus one, open a new one), which notification a
    push event shows, and which notification a message from the page asks for. The
    window clients are a sequence and the worker's effects an output list. */
module ServiceWorker {
  import opened Options
  import opened Text
  import opened Sequences
  import MedicationContext

  type Medication = MedicationContext.Medication

  /** The `data` object a notification carries, by where the notification came from. */
  datatype NotificationData =
    | MedicationObject(med: Medication)                                  // SHOW_NOTIFICATION with a medication
    | EmptyObject                                                        // SHOW_NOTIFICATION without one: `{}`
    | AlarmData(medicationId: string, medicationName: string, dosage: string)  // SCHEDULE_ALARM
    | PushData(payload: PushPayload)                                     // a push event's object

  /** The string fields of a push event's object; None is a missing field. */
  datatype PushPayload = PushPayload(title: Option<string>, body: Option<string>, icon: Option<string>,
                                     badge: Option<string>, tag: Option<string>, medicationId: Option<string>)

  /** An open window: its address, and whether it can be focused (`'focus' in client`). */
  datatype Client = Client(url: string, focusable: bool)

  /** Messages the worker posts to a window. */
  datatype ClientMessage = MarkTaken(medicationId: Option<string>) | Snooze(medicationId: Option<string>, minutes: nat)

  /** What a click handler does, in order; clients are named by their index. */
  datatype Effect = CloseNotification | Post(client: nat, msg: ClientMessage) | Focus(client: nat) | OpenWindow(url: string)

  datatype NotificationAction = NotificationAction(action: string, title: string)

  datatype NotificationOptions = NotificationOptions(
    title: string, body: Option<string>, icon: string, badge: string, vibrate: seq<nat>,
    tag: string, requireInteraction: bool, actions: seq<NotificationAction>, data: NotificationData)

  /** Messages from the page. */
  datatype WorkerMessage =
    | ScheduleAlarm(scheduled: Medication, delay: nat)
    | ShowNotification(title: string, body: string, shown: Option<Medication>)
    | OtherMessage(kind: string)

  /** A push event: no payload, a payload that parses as a JSON object, or one that
      does not parse (its text). */
  datatype PushEvent = NoPayload | JsonPayload(payload: PushPayload) | TextPayload(text: string)

  /** A possibly undefined value in a string concatenation. */
  function JsText(o: Option<string>): (s: string)
    ensures o.None? ==> s == "undefined"
    ensures o.Some? ==> s == o.value
  {
    if o.Some? then o.value else "undefined"
  }

  /** `x || fallback` for a string field: a missing or empty string is falsy. */
  function OrDefault(o: Option<string>, fallback: string): (s: string)
    ensures o.Some? && o.value != "" ==> s == o.value
    ensures o.None? || o.value == "" ==> s == fallback
  {
    if o.Some? && o.value != "" then o.value else fallback
  }

  /** `notification.data.medicationId` as the click handler reads it. A medication
      object has the field `id`, not `medicationId`, so it reads as undefined. */
  function MedicationIdField(data: NotificationData): (r: Option<string>)
    ensures data.AlarmData? ==> r == Some(data.medicationId)
    ensures data.PushData? ==> r == data.payload.medicationId
    ensures data.MedicationObject? || data.EmptyObject? ==> r.None?
  {
    match data
    case MedicationObject(_) => None
    case EmptyObject => None
    case AlarmData(id, _, _) => Some(id)
    case PushData(p) => p.medicationId
  }

  /** The id the click handler is meant to read: a medication object's own `id`. */
  function ClickedMedicationId(data: NotificationData): (r: Option<string>)
    ensures data.MedicationObject? ==> r == Some(data.med.id)
    ensures !data.MedicationObject? ==> r == MedicationIdField(data)
  {
    if data.MedicationObject? then Some(data.med.id) else MedicationIdField(data)
  }

  /** `client.url.includes('/dashboard') && 'focus' in client`. */
  predicate IsDashboardClient(c: Client) {
    Contains(c.url, "/dashboard") && c.focusable
  }

  function DashboardTest(): Client -> bool {
    (c: Client) => IsDashboardClient(c)
  }

  function FocusableTest(): Client -> bool {
    (c: Client) => c.focusable
  }

  function TakenUrl(id: Option<string>): string {
    "/dashboard?action=taken&id=" + JsText(id)
  }

  /** The effects of a notification click, given the medication id read from its data
      and whether the worker can open windows (`clients.openWindow`). */
  function ClickEffects(action: string, id: Option<string>, clients: seq<Client>, canOpen: bool): (r: seq<Effect>)
    ensures |r| >= 1 && r[0] == CloseNotification
    ensures forall k :: 1 <= k < |r| ==> !r[k].CloseNotification?
    // take: only the first dashboard window gets MARK_TAKEN and is focused ...
    ensures action == "take" ==> forall k :: 1 <= k < |r| && (r[k].Post? || r[k].Focus?) ==>
      r[k].client < |clients| && IsDashboardClient(clients[r[k].client]) &&
      (forall j :: 0 <= j < r[k].client ==> !IsDashboardClient(clients[j])) &&
      (r[k].Post? ==> r[k].msg == MarkTaken(id))
    ensures action == "take" && (exists j :: 0 <= j < |clients| && IsDashboardClient(clients[j])) ==>
      |r| == 3 && r[1].Post? && r[2] == Focus(r[1].client)
    // ... and without one a window is opened on the dashboard with the id
    ensures action == "take" && (forall j :: 0 <= j < |clients| ==> !IsDashboardClient(clients[j])) ==>
      r == [CloseNotification] + (if canOpen then [OpenWindow(TakenUrl(id))] else [])
    // snooze: every window gets SNOOZE with five minutes, in order
    ensures action == "snooze" ==>
      |r| == |clients| + 1 && forall k :: 1 <= k < |r| ==> r[k] == Post(k - 1, Snooze(id, 5))
    // anything else: no message, the first focusable window is focused, else one is opened
    ensures action != "take" && action != "snooze" ==> forall k :: 0 <= k < |r| ==> !r[k].Post?
    ensures action != "take" && action != "snooze" && (exists j :: 0 <= j < |clients| && clients[j].focusable) ==>
      |r| == 2 && r[1].Focus? && r[1].client < |clients| && clients[r[1].client].focusable &&
      forall j :: 0 <= j < r[1].client ==> !clients[j].focusable
    ensures action != "take" && action != "snooze" && (forall j :: 0 <= j < |clients| ==> !clients[j].focusable) ==>
      r == [CloseNotification] + (if canOpen then [OpenWindow("/dashboard")] else [])
  {
    [CloseNotification] +
    if action == "take" then
      match FirstIndex(clients, DashboardTest())
      case Some(i) => [Post(i, MarkTaken(id)), Focus(i)]
      case None => if canOpen then [OpenWindow(TakenUrl(id))] else []
    else if action == "snooze" then
      seq(|clients|, i requires 0 <= i < |clients| => Post(i, Snooze(id, 5)))
    else
      match FirstIndex(clients, FocusableTest())
      case Some(i) => [Focus(i)]
      case None => if canOpen then [OpenWindow("/dashboard")] else []
  }

  /** The `notificationclick` handler as written: it reads `data.medicationId`, which
      a notification the page raised for a medication does not have. */
  method HandleClick(action: string, data: NotificationData, clients: seq<Client>, canOpen: bool) returns (effects: seq<Effect>)
    ensures effects == ClickEffects(action, MedicationIdField(data), clients, canOpen)
  {
    effects := RouteClick(action, MedicationIdField(data), clients, canOpen);
  }

  /** The handler as evidently intended: a medication object's own `id` is read. */
  method HandleClickCorrected(action: string, data: NotificationData, clients: seq<Client>, canOpen: bool) returns (effects: seq<Effect>)
    ensures effects == ClickEffects(action, ClickedMedicationId(data), clients, canOpen)
    ensures data.MedicationObject? && action == "take" && clients == [] && canOpen ==>
      effects == [CloseNotification, OpenWindow("/dashboard?action=taken&id=" + data.med.id)]
  {
    effects := RouteClick(action, ClickedMedicationId(data), clients, canOpen);
  }

  /** The body of the click handler once the id is read: close, then walk the window list. */
  method RouteClick(action: string, id: Option<string>, clients: seq<Client>, canOpen: bool) returns (effects: seq<Effect>)
    ensures effects == ClickEffects(action, id, clients, canOpen)
  {
    effects := [CloseNotification];
    if action == "take" {
      var i := 0;
      while i < |clients|
        invariant 0 <= i <= |clients|
        invariant forall j :: 0 <= j < i ==> !IsDashboardClient(clients[j])
      {
        if IsDashboardClient(clients[i]) {
          effects := effects + [Post(i, MarkTaken(id)), Focus(i)];
          assert FirstIndex(clients, DashboardTest()) == Some(i);
          return;
        }
        i := i + 1;
      }
      if canOpen {
        effects := effects + [OpenWindow(TakenUrl(id))];
      }
    } else if action == "snooze" {
      var i := 0;
      while i < |clients|
        invariant 0 <= i <= |clients| && |effects| == i + 1 && effects[0] == CloseNotification
        invariant forall k :: 1 <= k <= i ==> effects[k] == Post(k - 1, Snooze(id, 5))
      {
        effects := effects + [Post(i, Snooze(id, 5))];
        i := i + 1;
      }
    } else {
      var i := 0;
      while i < |clients|
        invariant 0 <= i <= |clients|
        invariant forall j :: 0 <= j < i ==> !clients[j].focusable
      {
        if clients[i].focusable {
          effects := effects + [Focus(i)];
          assert FirstIndex(clients, FocusableTest()) == Some(i);
          return;
        }
        i := i + 1;
      }
      if canOpen {
        effects := effects + [OpenWindow("/dashboard")];
      }
    }
  }

  const TakeSnoozeDismiss: seq<string> := ["take", "snooze", "dismiss"]

  function ActionIds(actions: seq<NotificationAction>): (r: seq<string>)
    ensures |r| == |actions| && forall k :: 0 <= k < |r| ==> r[k] == actions[k].action
  {
    seq(|actions|, k requires 0 <= k < |actions| => actions[k].action)
  }

  /** The notification a push event shows: the defaults without a payload, the text as
      the body when the payload is not JSON, and the payload's own fields otherwise. */
  function PushNotification(ev: PushEvent): (n: NotificationOptions)
    ensures ev.NoPayload? ==> n.title == "Aliyumed Reminder" && n.body == Some("Time to take your medication!")
    ensures ev.TextPayload? ==> n.title == "Aliyumed Reminder" && n.body == Some(ev.text)
    ensures ev.JsonPayload? ==>
      n.title == JsText(ev.payload.title) && n.body == ev.payload.body && n.data == PushData(ev.payload)
    ensures !ev.JsonPayload? ==> n.icon == "/pill.svg" && n.badge == "/pill.svg" && n.tag == "medication-reminder"
    ensures ev.JsonPayload? ==>
      && n.tag == OrDefault(ev.payload.tag, "medication-reminder")
      && n.icon == OrDefault(ev.payload.icon, "/pill.svg")
      && n.badge == OrDefault(ev.payload.badge, "/pill.svg")
    ensures n.requireInteraction && n.vibrate == [200, 100, 200, 100, 200]
    ensures ActionIds(n.actions) == TakeSnoozeDismiss
  {
    var defaults := PushPayload(Some("Aliyumed Reminder"), Some("Time to take your medication!"),
                                Some("/pill.svg"), Some("/pill.svg"), None, None);
    var p := match ev
      case NoPayload => defaults
      case JsonPayload(q) => q
      case TextPayload(t) => defaults.(body := Some(t));
    NotificationOptions(
      JsText(p.title), p.body, OrDefault(p.icon, "/pill.svg"), OrDefault(p.badge, "/pill.svg"),
      [200, 100, 200, 100, 200], OrDefault(p.tag, "medication-reminder"), true,
      [NotificationAction("take", "\U{2713} Mark as Taken"), NotificationAction("snooze", "\U{23F0} Snooze 5 min"),
       NotificationAction("dismiss", "\U{2715} Dismiss")],
      PushData(p))
  }

  /** `⏰ Time for <name>!`. */
  function AlarmTitle(m: Medication): string {
    "\U{23F0} Time for " + m.name + "!"
  }

  /** The notification a page message asks for (for SCHEDULE_ALARM, the one shown once
      the delay has passed), or none for any other message. */
  function MessageNotification(msg: WorkerMessage): (r: Option<NotificationOptions>)
    ensures r.None? <==> msg.OtherMessage?
    ensures r.Some? ==> ActionIds(r.value.actions) == TakeSnoozeDismiss && r.value.requireInteraction
    ensures msg.ScheduleAlarm? ==>
      && r.value.tag == "med-" + msg.scheduled.id
      && r.value.data == AlarmData(msg.scheduled.id, msg.scheduled.name, msg.scheduled.dosage)
      && r.value.title == AlarmTitle(msg.scheduled) && |r.value.vibrate| == 5
    ensures msg.ShowNotification? && msg.shown.Some? ==>
      r.value.tag == "med-" + msg.shown.value.id && r.value.data == MedicationObject(msg.shown.value)
    ensures msg.ShowNotification? && msg.shown.None? ==>
      r.value.tag == "aliyumed-notification" && r.value.data == EmptyObject
    ensures msg.ShowNotification? ==> r.value.title == msg.title && r.value.body == Some(msg.body) && |r.value.vibrate| == 7
  {
    match msg
    case ScheduleAlarm(m, _) =>
      Some(NotificationOptions(
        AlarmTitle(m), Some("Dosage: " + m.dosage), "/pill.svg", "/pill.svg", [200, 100, 200, 100, 200],
        "med-" + m.id, true,
        [NotificationAction("take", "\U{2713} Mark as Taken"), NotificationAction("snooze", "\U{23F0} Snooze 5 min"),
         NotificationAction("dismiss", "\U{2715} Dismiss")],
        AlarmData(m.id, m.name, m.dosage)))
    case ShowNotification(title, body, med) =>
      Some(NotificationOptions(
        title, Some(body), "/pill.svg", "/pill.svg", [200, 100, 200, 100, 200, 100, 200],
        if med.Some? then "med-" + med.value.id else "aliyumed-notification", true,
        [NotificationAction("take", "\U{2713} Taken"), NotificationAction("snooze", "\U{23F0} Snooze"),
         NotificationAction("dismiss", "\U{2715} Dismiss")],
        if med.Some? then MedicationObject(med.value) else EmptyObject))
    case OtherMessage(_) => None
  }

  /** As written: "take" on a notification the page raised for a medication, with no
      dashboard window open, opens the dashboard with the id "undefined", and with a
      dashboard window open posts MARK_TAKEN without an id. */
  lemma PageNotificationClickLosesId(m: Medication, title: string, body: string, clients: seq<Client>)
    ensures var n := MessageNotification(ShowNotification(title, body, Some(m))).value;
      ClickEffects("take", MedicationIdField(n.data), [], true) ==
        [CloseNotification, OpenWindow("/dashboard?action=taken&id=undefined")]
    ensures var n := MessageNotification(ShowNotification(title, body, Some(m))).value;
      var r := ClickEffects("take", MedicationIdField(n.data), clients, true);
      forall k :: 0 <= k < |r| && r[k].Post? ==> r[k].msg == MarkTaken(None)
  {
    assert TakenUrl(None) == "/dashboard?action=taken&id=undefined";
  }

  /** Corrected: for every notification the page asks for on behalf of a medication,
      the id the click handler reads is that medication's id, so "take" with no
      dashboard window opens the dashboard for that id. */
  lemma ClickRecoversMedicationId(msg: WorkerMessage)
    requires msg.ScheduleAlarm? || (msg.ShowNotification? && msg.shown.Some?)
    ensures var m := if msg.ScheduleAlarm? then msg.scheduled else msg.shown.value;
      ClickedMedicationId(MessageNotification(msg).value.data) == Some(m.id) &&
      ClickEffects("take", ClickedMedicationId(MessageNotification(msg).value.data), [], true) ==
        [CloseNotification, OpenWindow("/dashboard?action=taken&id=" + m.id)]
  {
  }
}
