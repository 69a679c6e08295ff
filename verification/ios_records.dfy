/**
 * The records the iOS plugin keeps as SwiftyJSON values, written as typed
 * datatypes, together with the side effects the manager produces.
 */
module GeoRecords {
  import opened Wrappers

  /** Apple's NSTimeIntervalSince1970: the seconds from 1970-01-01 to 2001-01-01. */
  const NSTimeIntervalSince1970: int := 978307200

  /** Snooze durations used by the "Snooze" and "Delete" notification actions. */
  const SnoozeActionSeconds: int := 86400
  const DeleteActionSeconds: int := 300

  /** The `notification` sub-object of a fence. */
  datatype Notification = Notification(
    id: string,                  // `stringValue`: "" when missing
    title: Option<string>,
    text: Option<string>,
    data: Option<string>,
    frequency: Option<int>,      // seconds between two notifications
    lastTriggered: Option<int>)  // seconds since 1970 of the last notification

  /**
   * One stored fence. `startTime`/`endTime` are the parsed bounds: `None`
   * when the key is missing or its date does not parse.
   */
  datatype Fence = Fence(
    id: string,
    latitude: real,
    longitude: real,
    radius: real,
    transitionType: Option<int>,
    isInside: bool,
    notification: Option<Notification>,
    url: Option<string>,
    authorization: Option<string>,
    startTime: Option<int>,
    endTime: Option<int>,
    lastTriggered: Option<int>)  // top-level stamp written once by the store's `add`

  /**
   * The numeric transition type, 0 when absent. Both `.intValue` and the
   * defaulted `.int` read a numeric field this way; they differ only for a
   * type stored as text, which this record does not represent.
   */
  function TypeValue(f: Fence): int {
    f.transitionType.GetOr(0)
  }

  /** `json["notification"]["id"].stringValue`. */
  function NotificationId(f: Fence): string {
    if f.notification.Some? then f.notification.value.id else ""
  }

  /** The circular region handed to the platform's region monitoring. */
  datatype Region = Region(
    id: string,
    latitude: real,
    longitude: real,
    radius: real,
    notifyOnEntry: bool,
    notifyOnExit: bool)

  /**
   * `CLCircularRegion` built by addOrUpdateGeoNotification: entry and exit are
   * bits 0 and 1 of the transition type (`transitionType & 1`, `& 2`). For a
   * positive divisor Dafny's `/` and `%` floor, so these are the bits of the
   * two's-complement value also for negative types.
   */
  function RegionOf(f: Fence): Region {
    var t := TypeValue(f);
    Region(f.id, f.latitude, f.longitude, f.radius, t % 2 == 1, (t / 2) % 2 == 1)
  }

  /** The webhook POST built by handleTransition (its `date` field is not modelled). */
  datatype Webhook = Webhook(
    url: string,
    authorization: string,  // header value: "" when the fence has none
    geofenceId: string,
    transition: string)

  /** Side effects of the manager, recorded in the order they happen. */
  datatype Effect =
    | Notified(fence: Fence)             // notifyAbout: a local notification is shown
    | WebhookPosted(hook: Webhook)       // a URLSession POST is started
    | TransitionPublished(fence: Fence)  // "handleTransition" posted to the webview bridge
    | NotificationOpened(data: string)   // "CDVLocalNotification" posted after a tap
}
