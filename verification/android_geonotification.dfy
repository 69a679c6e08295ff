/**
 * The Android fence record `GeoNotification` as the plugin stores it (one
 * JSON document per fence), the platform `Geofence` it is turned into, and
 * the null case of its JSON reading.
 */
module AndroidGeoNotification {
  import opened Wrappers
  import opened JavaText

  /** `Geofence.GEOFENCE_TRANSITION_ENTER` and `GEOFENCE_TRANSITION_EXIT`. */
  const GeofenceTransitionEnter: int32 := 1
  const GeofenceTransitionExit: int32 := 2

  /** `Long.MAX_VALUE`: the expiration duration of every registered fence. */
  const LongMaxValue: int64 := 0x7FFF_FFFF_FFFF_FFFF

  /** The dwell time used when the record leaves `loiteringDelay` at 0: one hour. */
  const DefaultLoiteringDelayMs: int32 := 60 * 60 * 1000

  /** The plugin's `Notification` object, carried as its JSON text. */
  datatype NotificationRef = NotificationRef(json: string)

  /**
   * The record; Java's `null` for the object fields is `None`. Coordinates
   * are Java doubles, modelled as reals.
   */
  datatype GeoNotification = GeoNotification(
    id: Option<string>,
    latitude: real,
    longitude: real,
    radius: int32,
    transitionType: int32,
    loiteringDelay: int32,
    url: Option<string>,
    authorization: Option<string>,
    notification: Option<NotificationRef>)

  /** What `Geofence.Builder` is given for one fence. */
  datatype Geofence = Geofence(
    requestId: Option<string>,
    transitionTypes: int32,
    latitude: real,
    longitude: real,
    radius: int32,
    loiteringDelayMs: int32,
    expirationDurationMs: int64)

  /** `toGeofence`: the builder fed from the record's fields. */
  function ToGeofence(g: GeoNotification): (r: Geofence)
    ensures r.requestId == g.id && r.transitionTypes == g.transitionType
    ensures r.latitude == g.latitude && r.longitude == g.longitude && r.radius == g.radius
    ensures r.loiteringDelayMs != 0
    ensures g.loiteringDelay != 0 ==> r.loiteringDelayMs == g.loiteringDelay
    ensures r.expirationDurationMs == LongMaxValue
  {
    Geofence(g.id, g.transitionType, g.latitude, g.longitude, g.radius,
             if g.loiteringDelay == 0 then DefaultLoiteringDelayMs else g.loiteringDelay,
             LongMaxValue)
  }

  /**
   * A record that leaves the loitering delay at 0 registers exactly the
   * geofence of one that asks for an hour: 0 means "the default".
   */
  lemma ZeroLoiteringIsOneHour(g: GeoNotification)
    requires g.loiteringDelay == 0
    ensures ToGeofence(g) == ToGeofence(g.(loiteringDelay := DefaultLoiteringDelayMs))
    ensures ToGeofence(g).loiteringDelayMs == 3_600_000
  {
  }

  /**
   * The platform geofence does not depend on the webhook or notification
   * payload: two records agreeing on id, type, region and delay register
   * the same fence.
   */
  lemma ToGeofenceDependsOnlyOnRegion(g: GeoNotification, h: GeoNotification)
    requires g.id == h.id && g.transitionType == h.transitionType
    requires g.latitude == h.latitude && g.longitude == h.longitude && g.radius == h.radius
    requires g.loiteringDelay == h.loiteringDelay
    ensures ToGeofence(g) == ToGeofence(h)
  {
  }

  /**
   * `fromJson`: `null` for a `null` text, otherwise whatever the JSON reader
   * (`parse`, standing for Gson) produces.
   */
  function FromJson(json: Option<string>, parse: string -> Option<GeoNotification>): (r: Option<GeoNotification>)
    ensures json.None? ==> r.None?
    ensures json.Some? ==> r == parse(json.value)
  {
    match json
    case None => None
    case Some(text) => parse(text)
  }
}
