/**
 * `ReceiveTransitionsIntentService.onHandleIntent`: what the Android service
 * does with one geofencing event. The event, the fence store and the
 * outcome of each webhook send are inputs; notifications, the
 * `onTransitionReceived` call, the broadcast and the webhook requests are
 * recorded, in order, in an output log.
 */
module TransitionReceiver {
  import opened Wrappers
  import opened JavaText
  import opened AndroidGeoNotification
  import Engine = TransitionEngine

  /** The action of the broadcast every event ends in. */
  const GeofenceTransitionIntent := "com.cowbell.cordova.geofence.TRANSITION"

  const LocationServicesErrorPrefix := "Location Services error: "
  const TransitionErrorPrefix := "Geofence transition error: "

  /** The header every webhook request carries. */
  const JsonContentType := ("Content-Type", "application/json")

  /**
   * What `GeofencingEvent.fromIntent` yields: the error flag and code, the
   * transition, and the request ids of the triggering fences.
   */
  datatype GeofencingEvent = GeofencingEvent(hasError: bool, errorCode: int32, transition: int32, triggering: seq<string>)

  /** The broadcast intent with its `error` and `transitionData` extras (`None` when not put). */
  datatype Broadcast = Broadcast(action: string, error: Option<string>, transitionData: Option<seq<GeoNotification>>)

  /** A webhook POST: url, method, request properties in the order they are set, body. */
  datatype WebhookRequest = WebhookRequest(url: string, requestMethod: string, headers: seq<(string, string)>, body: string)

  /** What the service does to the outside world, in order. */
  datatype Output =
    | Notified(notification: NotificationRef)
    | TransitionReceived(fences: seq<GeoNotification>)
    | BroadcastSent(intent: Broadcast)
    | WebhookAttempted(request: WebhookRequest, failed: bool)

  /** The store's `getGeoNotification`: a record per stored fence id. */
  type Store = map<string, GeoNotification>

  /**
   * The `error` extra: a Location Services error, or a transition that is
   * neither ENTER nor EXIT; `None` for a usable transition.
   */
  function EventError(e: GeofencingEvent): (r: Option<string>)
    ensures r.None? <==> !e.hasError && (e.transition == GeofenceTransitionEnter || e.transition == GeofenceTransitionExit)
  {
    if e.hasError then
      Some(LocationServicesErrorPrefix + IntToString(e.errorCode))
    else if e.transition == GeofenceTransitionEnter || e.transition == GeofenceTransitionExit then
      None
    else
      Some(TransitionErrorPrefix + IntToString(e.transition))
  }

  /**
   * The first loop's list: the triggering fences found in the store, in
   * trigger order, each with its transition type set to `t`.
   */
  function Found(store: Store, ids: seq<string>, t: int32): (r: seq<GeoNotification>)
    ensures |r| <= |ids|
    ensures forall j :: 0 <= j < |r| ==> r[j].transitionType == t
    decreases |ids|
  {
    if ids == [] then []
    else
      var rest := Found(store, ids[..|ids| - 1], t);
      var id := ids[|ids| - 1];
      if id in store then rest + [store[id].(transitionType := t)] else rest
  }

  /** One `notify` per found fence with a notification, in order. */
  function NotificationsOf(found: seq<GeoNotification>): (r: seq<Output>)
    ensures |r| <= |found|
    ensures forall j :: 0 <= j < |r| ==> r[j].Notified?
    decreases |found|
  {
    if found == [] then []
    else
      var rest := NotificationsOf(found[..|found| - 1]);
      var g := found[|found| - 1];
      if g.notification.Some? then rest + [Notified(g.notification.value)] else rest
  }

  /** The webhook's `transition` value; `None` is Java's `null`. */
  function TransitionLabel(t: int32): (r: Option<string>)
    ensures r == Some("ENTER") <==> t == GeofenceTransitionEnter
    ensures r == Some("EXIT") <==> t == GeofenceTransitionExit
    ensures r.None? <==> t != GeofenceTransitionEnter && t != GeofenceTransitionExit
  {
    if t == GeofenceTransitionEnter then Some("ENTER")
    else if t == GeofenceTransitionExit then Some("EXIT")
    else None
  }

  /** Java's string concatenation of a possibly null string. */
  function JavaString(s: Option<string>): string {
    s.GetOr("null")
  }

  const BodyHead := "{ \"geofenceId\": \""
  const BodyMiddle := " \",  \"transition\": \""
  const BodyTail := "\" }"

  /** The webhook body, with the stray space after the fence id. */
  function WebhookBody(g: GeoNotification, t: int32): string {
    BodyHead + JavaString(g.id) + BodyMiddle + JavaString(TransitionLabel(t)) + BodyTail
  }

  /** The request for a fence with a url: `Authorization` only when set, then the JSON content type. */
  function Request(g: GeoNotification, t: int32): WebhookRequest
    requires g.url.Some?
  {
    var auth := if g.authorization.Some? then [("Authorization", g.authorization.value)] else [];
    WebhookRequest(g.url.value, "POST", auth + [JsonContentType], WebhookBody(g, t))
  }

  /**
   * The second loop: one request per triggering fence found in the store
   * with a url, in trigger order; a send that throws (its id in `failing`)
   * is caught and the loop goes on.
   */
  function Posts(store: Store, ids: seq<string>, t: int32, failing: set<string>): (r: seq<Output>)
    ensures |r| <= |ids|
    ensures forall j :: 0 <= j < |r| ==> r[j].WebhookAttempted?
    decreases |ids|
  {
    if ids == [] then []
    else
      var rest := Posts(store, ids[..|ids| - 1], t, failing);
      var id := ids[|ids| - 1];
      if id in store && store[id].url.Some?
      then rest + [WebhookAttempted(Request(store[id], t), id in failing)]
      else rest
  }

  /** The fences reported for event `e`: none unless it is a usable transition. */
  function Reported(store: Store, e: GeofencingEvent): seq<GeoNotification> {
    if EventError(e).None? then Found(store, e.triggering, e.transition) else []
  }

  /** The broadcast sent for event `e`. */
  function BroadcastFor(store: Store, e: GeofencingEvent): Broadcast {
    var found := Reported(store, e);
    Broadcast(GeofenceTransitionIntent, EventError(e), if |found| > 0 then Some(found) else None)
  }

  /** Everything `onHandleIntent` does for event `e`, in order. */
  function Handled(store: Store, e: GeofencingEvent, failing: set<string>): seq<Output> {
    var found := Reported(store, e);
    NotificationsOf(found)
      + (if |found| > 0 then [TransitionReceived(found)] else [])
      + [BroadcastSent(BroadcastFor(store, e))]
      + Posts(store, e.triggering, e.transition, failing)
  }

  // ------------------------------------------------------------------ lemmas

  /** Distinct error codes give distinct messages, and so do distinct bad transitions. */
  lemma ErrorMessageNamesCode(e1: GeofencingEvent, e2: GeofencingEvent)
    requires EventError(e1).Some? && EventError(e1) == EventError(e2)
    ensures e1.hasError == e2.hasError
    ensures e1.hasError ==> e1.errorCode == e2.errorCode
    ensures !e1.hasError ==> e1.transition == e2.transition
  {
    var m := EventError(e1).value;
    var p1 := if e1.hasError then LocationServicesErrorPrefix else TransitionErrorPrefix;
    var p2 := if e2.hasError then LocationServicesErrorPrefix else TransitionErrorPrefix;
    var c1 := if e1.hasError then e1.errorCode else e1.transition;
    var c2 := if e2.hasError then e2.errorCode else e2.transition;
    assert m == p1 + IntToString(c1) && m == p2 + IntToString(c2);
    assert p1 == p2 by {
      assert m[0] == p1[0] && m[0] == p2[0];
    }
    assert IntToString(c1) == m[|p1|..] == IntToString(c2);
    IntToStringInjective(c1, c2);
  }

  /**
   * A fence is reported iff one of the triggering ids is stored with that
   * record (its type set to the event's).
   */
  lemma {:induction false} FoundMembers(store: Store, ids: seq<string>, t: int32, g: GeoNotification)
    ensures g in Found(store, ids, t) <==>
      exists k :: 0 <= k < |ids| && ids[k] in store && g == store[ids[k]].(transitionType := t)
    decreases |ids|
  {
    if ids != [] {
      var prefix := ids[..|ids| - 1];
      FoundMembers(store, prefix, t, g);
      if g in Found(store, ids, t) {
        if g !in Found(store, prefix, t) {
          assert g == store[ids[|ids| - 1]].(transitionType := t);
        } else {
          var k :| 0 <= k < |prefix| && prefix[k] in store && g == store[prefix[k]].(transitionType := t);
          assert ids[k] == prefix[k];
        }
      }
      if exists k :: 0 <= k < |ids| && ids[k] in store && g == store[ids[k]].(transitionType := t) {
        var k :| 0 <= k < |ids| && ids[k] in store && g == store[ids[k]].(transitionType := t);
        if k < |prefix| {
          assert prefix[k] == ids[k];
        }
      }
    }
  }

  /** The list is empty iff none of the triggering ids is stored. */
  lemma {:induction false} FoundEmptyIff(store: Store, ids: seq<string>, t: int32)
    ensures Found(store, ids, t) == [] <==> forall k :: 0 <= k < |ids| ==> ids[k] !in store
    decreases |ids|
  {
    if ids != [] {
      var prefix := ids[..|ids| - 1];
      FoundEmptyIff(store, prefix, t);
      if forall k :: 0 <= k < |ids| ==> ids[k] !in store {
        assert forall k :: 0 <= k < |prefix| ==> prefix[k] == ids[k];
      }
    }
  }

  /** The first loop keeps trigger order: the list for a concatenation is the concatenation of the lists. */
  lemma {:induction false} FoundConcat(store: Store, a: seq<string>, b: seq<string>, t: int32)
    ensures Found(store, a + b, t) == Found(store, a, t) + Found(store, b, t)
    decreases |b|
  {
    if b == [] {
      assert a + b == a;
    } else {
      var b' := b[..|b| - 1];
      assert (a + b)[..|a + b| - 1] == a + b';
      assert (a + b)[|a + b| - 1] == b[|b| - 1];
      FoundConcat(store, a, b', t);
    }
  }

  /** `notify` is called with `n` iff some reported fence carries `n`. */
  lemma {:induction false} NotificationsOfMembers(found: seq<GeoNotification>, n: NotificationRef)
    ensures Notified(n) in NotificationsOf(found) <==>
      exists j :: 0 <= j < |found| && found[j].notification == Some(n)
    decreases |found|
  {
    if found != [] {
      var prefix := found[..|found| - 1];
      NotificationsOfMembers(prefix, n);
      if exists j :: 0 <= j < |found| && found[j].notification == Some(n) {
        var j :| 0 <= j < |found| && found[j].notification == Some(n);
        if j < |prefix| {
          assert prefix[j] == found[j];
        }
      }
      if Notified(n) in NotificationsOf(found) && Notified(n) in NotificationsOf(prefix) {
        var j :| 0 <= j < |prefix| && prefix[j].notification == Some(n);
        assert found[j] == prefix[j];
      }
    }
  }

  /** One `notify` per fence with a notification: the calls for a concatenation concatenate. */
  lemma {:induction false} NotificationsOfConcat(a: seq<GeoNotification>, b: seq<GeoNotification>)
    ensures NotificationsOf(a + b) == NotificationsOf(a) + NotificationsOf(b)
    decreases |b|
  {
    if b == [] {
      assert a + b == a;
    } else {
      var b' := b[..|b| - 1];
      assert (a + b)[..|a + b| - 1] == a + b';
      assert (a + b)[|a + b| - 1] == b[|b| - 1];
      NotificationsOfConcat(a, b');
    }
  }

  /**
   * A caught send failure changes nothing but its own `failed` mark: the
   * same requests go out, in the same order, whichever sends throw.
   */
  lemma {:induction false} PostsIndependentOfFailures(store: Store, ids: seq<string>, t: int32, f1: set<string>, f2: set<string>)
    ensures |Posts(store, ids, t, f1)| == |Posts(store, ids, t, f2)|
    ensures forall j :: 0 <= j < |Posts(store, ids, t, f1)| ==>
      Posts(store, ids, t, f1)[j].request == Posts(store, ids, t, f2)[j].request
    decreases |ids|
  {
    if ids != [] {
      PostsIndependentOfFailures(store, ids[..|ids| - 1], t, f1, f2);
    }
  }

  /**
   * A request goes out for exactly the triggering fences found in the store
   * with a url, built from that record and the event's transition.
   */
  lemma {:induction false} PostsMembers(store: Store, ids: seq<string>, t: int32, failing: set<string>, req: WebhookRequest, failed: bool)
    ensures WebhookAttempted(req, failed) in Posts(store, ids, t, failing) <==>
      exists k :: 0 <= k < |ids| && ids[k] in store && store[ids[k]].url.Some?
        && req == Request(store[ids[k]], t) && failed == (ids[k] in failing)
    decreases |ids|
  {
    if ids != [] {
      var prefix := ids[..|ids| - 1];
      var o := WebhookAttempted(req, failed);
      PostsMembers(store, prefix, t, failing, req, failed);
      if o in Posts(store, ids, t, failing) && o in Posts(store, prefix, t, failing) {
        var k :| 0 <= k < |prefix| && prefix[k] in store && store[prefix[k]].url.Some?
          && req == Request(store[prefix[k]], t) && failed == (prefix[k] in failing);
        assert ids[k] == prefix[k];
      }
      if exists k :: 0 <= k < |ids| && ids[k] in store && store[ids[k]].url.Some?
          && req == Request(store[ids[k]], t) && failed == (ids[k] in failing) {
        var k :| 0 <= k < |ids| && ids[k] in store && store[ids[k]].url.Some?
          && req == Request(store[ids[k]], t) && failed == (ids[k] in failing);
        if k < |prefix| {
          assert prefix[k] == ids[k];
        }
      }
    }
  }

  /** `Authorization` is sent iff the record has one, and the JSON content type always. */
  lemma AuthorizationHeaderIffPresent(g: GeoNotification, t: int32, a: string)
    requires g.url.Some?
    ensures ("Authorization", a) in Request(g, t).headers <==> g.authorization == Some(a)
    ensures JsonContentType in Request(g, t).headers
    ensures Request(g, t).requestMethod == "POST" && Request(g, t).url == g.url.value
  {
    var hs := Request(g, t).headers;
    if ("Authorization", a) in hs {
      assert hs[|hs| - 1] == JsonContentType;
    }
  }

  /**
   * The fence id can be read back from the body: it follows the fixed head
   * and is followed by a space before the closing quote, so a server sees
   * `"<id> "` and not `"<id>"`.
   */
  lemma WebhookBodyCarriesIdWithStraySpace(g: GeoNotification, t: int32)
    ensures var b := WebhookBody(g, t); var n := |BodyHead| + |JavaString(g.id)|;
      && n + 2 <= |b|
      && b[..|BodyHead|] == BodyHead
      && b[|BodyHead|..n] == JavaString(g.id)
      && b[n] == ' ' && b[n + 1] == '"'
  {
    var b := WebhookBody(g, t);
    var n := |BodyHead| + |JavaString(g.id)|;
    assert b == BodyHead + JavaString(g.id) + (BodyMiddle + JavaString(TransitionLabel(t)) + BodyTail);
    assert b[n] == BodyMiddle[0];
    assert b[n + 1] == BodyMiddle[1];
  }

  /**
   * Where the two platforms disagree: for a type other than 1 or 2 the iOS
   * webhook says "EXIT", the Android one sends `null`.
   */
  lemma LabelsDisagreeOnOtherTypes(t: int32)
    requires t != GeofenceTransitionEnter && t != GeofenceTransitionExit
    ensures JavaString(TransitionLabel(t)) == "null"
    ensures Engine.TransitionName(t as int) == "EXIT"
  {
  }

  /**
   * The `transitionData` extra and `onTransitionReceived` appear iff the
   * event is a usable transition with at least one stored triggering fence.
   */
  lemma TransitionDataIff(store: Store, e: GeofencingEvent)
    ensures BroadcastFor(store, e).transitionData.Some? <==>
      EventError(e).None? && exists k :: 0 <= k < |e.triggering| && e.triggering[k] in store
  {
    FoundEmptyIff(store, e.triggering, e.transition);
  }

  /**
   * The shape of one event's outputs: exactly one broadcast; before it only
   * notifications and the `onTransitionReceived` call; after it the webhook
   * loop, the same whichever branch the event took.
   */
  lemma HandledShape(store: Store, e: GeofencingEvent, failing: set<string>)
    ensures var r := Handled(store, e, failing);
      exists b :: 0 <= b < |r|
        && r[b] == BroadcastSent(BroadcastFor(store, e))
        && (forall j :: 0 <= j < b ==> r[j].Notified? || r[j].TransitionReceived?)
        && r[b + 1..] == Posts(store, e.triggering, e.transition, failing)
        && (forall j :: b < j < |r| ==> r[j].WebhookAttempted?)
  {
    var found := Reported(store, e);
    var pre := NotificationsOf(found) + (if |found| > 0 then [TransitionReceived(found)] else []);
    var r := Handled(store, e, failing);
    var ps := Posts(store, e.triggering, e.transition, failing);
    assert r == pre + [BroadcastSent(BroadcastFor(store, e))] + ps;
    var b := |pre|;
    assert r[b] == BroadcastSent(BroadcastFor(store, e));
    assert r[b + 1..] == ps;
    forall j | 0 <= j < b
      ensures r[j].Notified? || r[j].TransitionReceived?
    {
      assert r[j] == pre[j];
    }
    forall j | b < j < |r|
      ensures r[j].WebhookAttempted?
    {
      assert r[j] == ps[j - b - 1];
    }
  }

  /**
   * Regrouping a concatenation. Stated on its own so that `OnHandleIntent`
   * uses it without unfolding the log's other facts.
   */
  lemma AppendAssoc(a: seq<Output>, b: seq<Output>, c: seq<Output>)
    ensures (a + b) + c == a + (b + c)
  {
  }

  /** `ReceiveTransitionsIntentService`: the store it reads and everything it has done. */
  class ReceiveTransitionsIntentService {
    const store: Store
    var outputs: seq<Output>

    constructor (stored: Store)
      ensures store == stored && outputs == []
    {
      store := stored;
      outputs := [];
    }

    /** `onHandleIntent`: classify, notify and report, broadcast, then call the webhooks. */
    method OnHandleIntent(event: GeofencingEvent, failing: set<string>)
      modifies this
      ensures outputs == old(outputs) + Handled(store, event, failing)
    {
      var error: Option<string> := None;
      var transitionData: Option<seq<GeoNotification>> := None;
      ghost var found: seq<GeoNotification> := [];
      if event.hasError {
        error := Some(LocationServicesErrorPrefix + IntToString(event.errorCode));
      } else {
        var transitionType := event.transition;
        if transitionType == GeofenceTransitionEnter || transitionType == GeofenceTransitionExit {
          var geoNotifications := NotifyTriggered(event.triggering, transitionType);
          found := geoNotifications;
          if |geoNotifications| > 0 {
            transitionData := Some(geoNotifications);
            outputs := outputs + [TransitionReceived(geoNotifications)];
          }
        } else {
          error := Some(TransitionErrorPrefix + IntToString(transitionType));
        }
      }
      ghost var reported := if |found| > 0 then [TransitionReceived(found)] else [];
      ghost var start := old(outputs);
      assert outputs == start + NotificationsOf(found) + reported;
      assert found == Reported(store, event) && error == EventError(event);
      assert Broadcast(GeofenceTransitionIntent, error, transitionData) == BroadcastFor(store, event);
      outputs := outputs + [BroadcastSent(Broadcast(GeofenceTransitionIntent, error, transitionData))];
      ghost var before := NotificationsOf(found) + reported + [BroadcastSent(BroadcastFor(store, event))];
      AppendAssoc(start, NotificationsOf(found) + reported, [BroadcastSent(BroadcastFor(store, event))]);
      ghost var mid := outputs;
      assert mid == start + before;
      PostWebhooks(event.triggering, event.transition, failing);
      ghost var posts := Posts(store, event.triggering, event.transition, failing);
      assert outputs == mid + posts;
      assert Handled(store, event, failing) == before + posts;
      AppendAssoc(start, before, posts);
    }

    /** The first loop: look up each triggering fence, notify, and set its transition type. */
    method NotifyTriggered(triggerList: seq<string>, transitionType: int32) returns (geoNotifications: seq<GeoNotification>)
      modifies this
      ensures geoNotifications == Found(store, triggerList, transitionType)
      ensures outputs == old(outputs) + NotificationsOf(geoNotifications)
    {
      geoNotifications := [];
      var i := 0;
      while i < |triggerList|
        invariant 0 <= i <= |triggerList|
        invariant geoNotifications == Found(store, triggerList[..i], transitionType)
        invariant outputs == old(outputs) + NotificationsOf(geoNotifications)
      {
        var fenceId := triggerList[i];
        if fenceId in store {
          var geoNotification := store[fenceId];
          if geoNotification.notification.Some? {
            outputs := outputs + [Notified(geoNotification.notification.value)];
          }
          geoNotification := geoNotification.(transitionType := transitionType);
          assert (geoNotifications + [geoNotification])[..|geoNotifications|] == geoNotifications;
          geoNotifications := geoNotifications + [geoNotification];
        }
        assert triggerList[..i + 1][..i] == triggerList[..i];
        i := i + 1;
      }
      assert triggerList[..|triggerList|] == triggerList;
    }

    /** The second loop: a POST per stored triggering fence with a url; a failed send is caught. */
    method PostWebhooks(triggerList: seq<string>, transitionType: int32, failing: set<string>)
      modifies this
      ensures outputs == old(outputs) + Posts(store, triggerList, transitionType, failing)
    {
      var i := 0;
      while i < |triggerList|
        invariant 0 <= i <= |triggerList|
        invariant outputs == old(outputs) + Posts(store, triggerList[..i], transitionType, failing)
      {
        var fenceId := triggerList[i];
        assert triggerList[..i + 1][..i] == triggerList[..i];
        if fenceId in store {
          var geoNotification := store[fenceId];
          if geoNotification.url.Some? {
            var request := Request(geoNotification, transitionType);
            var failed := fenceId in failing;
            outputs := outputs + [WebhookAttempted(request, failed)];
          }
        }
        i := i + 1;
      }
      assert triggerList[..|triggerList|] == triggerList;
    }
  }
}
