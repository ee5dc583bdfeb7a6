/** `pages/PatientDashboard.tsx`: the dismissible notifications, their styling, and the icon of
    each subscription plan. */
module PatientDashboard {
  import opened Seqs

  /** The three notification types, `'info' | 'warning' | 'message'`. */
  datatype NotificationKind = Info | Warning | Message

  datatype Notification = Notification(
    id: string, kind: NotificationKind, title: string, message: string, timestamp: string)

  const SeedNotifications: seq<Notification> := [
    Notification("n1", Info, "Upcoming Appointment",
                 "You have a session with your specialist tomorrow at 10:00 AM.", "2 hours ago"),
    Notification("n3", Warning, "Plan Expiration",
                 "Your Pack expires in 4 days. Renew now to avoid interruption.", "1 day ago")]

  /** `prev.filter(n => n.id !== id)`: every notification with that id removed, the rest in order. */
  function WithoutId(ns: seq<Notification>, id: string): (r: seq<Notification>)
    ensures forall n :: n in r <==> n in ns && n.id != id
    ensures |r| <= |ns|
  {
    Filter(ns, (n: Notification) => n.id != id)
  }

  /** Dismissing an id a second time removes nothing more. */
  lemma WithoutIdIdempotent(ns: seq<Notification>, id: string)
    ensures WithoutId(WithoutId(ns, id), id) == WithoutId(ns, id)
  {
    FilterIdempotent(ns, (n: Notification) => n.id != id);
  }

  /** Dismissing an id no notification carries changes nothing. */
  lemma WithoutUnknownId(ns: seq<Notification>, id: string)
    requires forall i :: 0 <= i < |ns| ==> ns[i].id != id
    ensures WithoutId(ns, id) == ns
  {
    FilterKeepsAll(ns, (n: Notification) => n.id != id);
  }

  /** The remaining notifications keep their order. */
  lemma WithoutIdInOrder(a: seq<Notification>, b: seq<Notification>, id: string)
    ensures WithoutId(a + b, id) == WithoutId(a, id) + WithoutId(b, id)
  {
    FilterConcat(a, b, (n: Notification) => n.id != id);
  }

  /** The list after dismissing each id of `ids` in turn. */
  function DismissAll(ns: seq<Notification>, ids: seq<string>): seq<Notification>
    decreases |ids|
  {
    if ids == [] then ns else DismissAll(WithoutId(ns, ids[0]), ids[1..])
  }

  /** Dismissing every id that appears leaves nothing, so the section disappears. */
  lemma {:induction false} DismissEveryId(ns: seq<Notification>, ids: seq<string>)
    requires forall n :: n in ns ==> n.id in ids
    ensures DismissAll(ns, ids) == []
    ensures !ShowNotifications(DismissAll(ns, ids))
    decreases |ids|
  {
    if ids != [] {
      var rest := WithoutId(ns, ids[0]);
      forall n | n in rest ensures n.id in ids[1..] {
        assert n in ns && n.id != ids[0];
        assert n.id in ids;
        var k :| 0 <= k < |ids| && ids[k] == n.id;
        assert ids[1..][k - 1] == n.id;
      }
      DismissEveryId(rest, ids[1..]);
    }
  }

  /** The "Recent Notifications" section is rendered only for a non-empty list. */
  predicate ShowNotifications(ns: seq<Notification>)
  {
    |ns| > 0
  }

  /** The dashboard's notification list. */
  class NotificationFeed {
    var notifications: seq<Notification>

    constructor()
      ensures notifications == SeedNotifications
    {
      notifications := SeedNotifications;
    }

    /** `dismissNotification(id)`. */
    method Dismiss(id: string)
      modifies this
      ensures notifications == WithoutId(old(notifications), id)
      ensures forall n :: n in notifications ==> n in old(notifications)
    {
      notifications := WithoutId(notifications, id);
    }
  }

  /** The icons the dashboard draws. */
  datatype Icon = Crown | Zap | Shield | AlertCircle | InfoIcon

  /** `getPlanIcon(name)`. */
  function PlanIcon(name: string): (icon: Icon)
    ensures icon == Crown <==> name == "Pro"
    ensures icon == Zap <==> name == "Recovery"
    ensures icon == Shield <==> name != "Pro" && name != "Recovery"
  {
    if name == "Pro" then Crown
    else if name == "Recovery" then Zap
    else Shield
  }

  /** The three plans on offer get three different icons: Basic the shield, Recovery the bolt, Pro the crown. */
  lemma PlanIconsDistinct()
    ensures PlanIcon("Basic") == Shield
    ensures PlanIcon("Recovery") == Zap && PlanIcon("Pro") == Crown
  {
  }

  /** The card colours. */
  datatype Tone = Amber | Blue | Emerald

  /** The card colour of a notification type. */
  function NotificationTone(kind: NotificationKind): (t: Tone)
    ensures t == Amber <==> kind == Warning
    ensures t == Blue <==> kind == Message
    ensures t == Emerald <==> kind == Info
  {
    match kind
    case Warning => Amber
    case Message => Blue
    case Info => Emerald
  }

  /** The card icon: the alert for warnings, the info mark otherwise. */
  function NotificationIcon(kind: NotificationKind): (icon: Icon)
    ensures icon == AlertCircle <==> NotificationTone(kind) == Amber
    ensures icon != AlertCircle ==> icon == InfoIcon
  {
    if kind == Warning then AlertCircle else InfoIcon
  }
}
