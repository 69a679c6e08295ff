/**
 * The decision logic of GeoNotificationManager as functions of the store's
 * table, the snooze table and the current time: the gate of
 * `handleTransition`, the frequency throttle, the time window, snoozing, and
 * the inside/outside state machine of `checkTransition`.
 */
module TransitionEngine {
  import opened Wrappers
  import opened GeoRecords
  import opened FenceStore

  /** `snoozedFences`: fence (or notification) id to "snoozed until". */
  type SnoozeTable = map<string, int>

  /** `snoozeFence`: the deadline is NSTimeIntervalSince1970 + duration, not now + duration. */
  function Snooze(s: SnoozeTable, id: string, duration: int): SnoozeTable {
    s[id := NSTimeIntervalSince1970 + duration]
  }

  /** `isSnoozed`: compares the deadline against the same constant, never the clock. */
  predicate IsSnoozed(s: SnoozeTable, id: string) {
    id in s && s[id] > NSTimeIntervalSince1970
  }

  /** `isWithinTimeRange`: a missing or unparseable bound does not restrict. */
  predicate IsWithinTimeRange(f: Fence, now: int) {
    var greaterThanOrEqualToStartTime := if f.startTime.Some? then now >= f.startTime.value else true;
    var lessThanEndTime := if f.endTime.Some? then now < f.endTime.value else true;
    greaterThanOrEqualToStartTime && lessThanEndTime
  }

  /** The decision of `canBeTriggered`: throttled only when both fields exist. */
  predicate ThrottleAllows(n: Option<Notification>, now: int) {
    !(n.Some? && n.value.lastTriggered.Some? && n.value.frequency.Some?
      && now < n.value.lastTriggered.value + n.value.frequency.value)
  }

  /** The webhook's `transition` field: "ENTER" for type 1, "EXIT" for anything else. */
  function TransitionName(transitionType: int): string {
    if transitionType == 1 then "ENTER" else "EXIT"
  }

  /** The POST `handleTransition` sends for fence `g` (whose type was just set). */
  function WebhookFor(g: Fence): Webhook
    requires g.url.Some?
  {
    Webhook(g.url.value, g.authorization.GetOr(""), g.id, TransitionName(TypeValue(g)))
  }

  /** A table and the effects produced while reaching it. */
  datatype Step = Step(table: Table, effects: seq<Effect>)

  /**
   * `handleTransition(id, transitionType)` at time `now`: nothing unless the
   * id is stored, not snoozed and inside its time window; then a throttled
   * notification (stamping every row with the same notification id), a
   * webhook when the fence has a url, and the bridge event.
   */
  function HandledTransition(t: Table, s: SnoozeTable, id: string, transitionType: int, now: int): Step {
    if id in t && !IsSnoozed(s, id) && IsWithinTimeRange(t[id], now) then
      var g := t[id].(transitionType := Some(transitionType));
      var fires := g.notification.Some? && ThrottleAllows(g.notification, now);
      var notified := if fires then [Notified(g)] else [];
      var posted := if g.url.Some? then [WebhookPosted(WebhookFor(g))] else [];
      Step(if fires then Stamp(t, NotificationId(g), now) else t,
           notified + posted + [TransitionPublished(g)])
    else
      Step(t, [])
  }

  /** Whether the fix flips fence `f`'s remembered inside/outside state. */
  predicate Flips(f: Fence, contains: set<string>) {
    (f.id in contains) != f.isInside
  }

  /**
   * One iteration of `checkTransition` over snapshot row `f`: on a flip,
   * `handleTransition` runs only for an exact type match (1 entering, 2
   * leaving), and then the snapshot row with the new `isInside` is written
   * back whatever the gate decided.
   */
  function CheckStep(t: Table, s: SnoozeTable, f: Fence, contains: set<string>, now: int): Step {
    if f.id in contains then
      if !f.isInside then
        var h := if TypeValue(f) == 1 then HandledTransition(t, s, f.id, 1, now) else Step(t, []);
        Step(Upsert(h.table, f.(isInside := true)), h.effects)
      else
        Step(t, [])
    else
      if f.isInside then
        var h := if TypeValue(f) == 2 then HandledTransition(t, s, f.id, 2, now) else Step(t, []);
        Step(Upsert(h.table, f.(isInside := false)), h.effects)
      else
        Step(t, [])
  }

  /** `checkTransition`'s loop over the snapshot `snap`, in order. */
  function CheckAll(t: Table, s: SnoozeTable, snap: seq<Fence>, contains: set<string>, now: int): Step
    decreases |snap|
  {
    if snap == [] then
      Step(t, [])
    else
      var r := CheckAll(t, s, snap[..|snap| - 1], contains, now);
      var last := CheckStep(r.table, s, snap[|snap| - 1], contains, now);
      Step(last.table, r.effects + last.effects)
  }

  /** Extending the walked prefix by one row is one more `CheckStep`. */
  lemma CheckAllExtend(t: Table, s: SnoozeTable, snap: seq<Fence>, contains: set<string>, now: int, i: nat)
    requires i < |snap|
    ensures var r := CheckAll(t, s, snap[..i], contains, now);
      var last := CheckStep(r.table, s, snap[i], contains, now);
      CheckAll(t, s, snap[..i + 1], contains, now) == Step(last.table, r.effects + last.effects)
  {
    assert snap[..i + 1][..i] == snap[..i];
  }

  /** The store and effect log after walking `snap` from table `t` and log `e`. */
  ghost predicate Walked(t: Table, e: seq<Effect>, s: SnoozeTable, snap: seq<Fence>, contains: set<string>, now: int, table: Table, log: seq<Effect>) {
    var r := CheckAll(t, s, snap, contains, now);
    table == r.table && log == e + r.effects
  }

  /** One more `CheckStep` after a walked prefix is the walk of the longer prefix. */
  lemma WalkedExtend(t: Table, e: seq<Effect>, s: SnoozeTable, snap: seq<Fence>, contains: set<string>, now: int, i: nat,
                     tb: Table, eb: seq<Effect>, ta: Table, ea: seq<Effect>)
    requires i < |snap|
    requires Walked(t, e, s, snap[..i], contains, now, tb, eb)
    requires var st := CheckStep(tb, s, snap[i], contains, now); ta == st.table && ea == eb + st.effects
    ensures Walked(t, e, s, snap[..i + 1], contains, now, ta, ea)
  {
    var r := CheckAll(t, s, snap[..i], contains, now);
    var st := CheckStep(r.table, s, snap[i], contains, now);
    assert tb == r.table && eb == e + r.effects;
    assert ea == e + (r.effects + st.effects) && ta == st.table by {
      assert ea == (e + r.effects) + st.effects;
    }
    CheckAllExtend(t, s, snap, contains, now, i);
    var r1 := CheckAll(t, s, snap[..i + 1], contains, now);
    assert r1.table == st.table && r1.effects == r.effects + st.effects;
  }

  /** The fields a transition cycle may not change: all but `isInside` and the throttle stamp. */
  function Core(f: Fence): Fence {
    Unstamped(f).(isInside := false)
  }

  /** Whether some effect in `es` is a local notification. */
  ghost predicate HasNotification(es: seq<Effect>) {
    exists i :: 0 <= i < |es| && es[i].Notified?
  }

  // ---------------------------------------------------------------- snooze

  /**
   * After `snoozeFence(id, d)` the id is snoozed exactly when `d > 0`, and
   * other ids keep their state; no clock value appears anywhere.
   */
  lemma SnoozeDecidedByDurationSign(s: SnoozeTable, id: string, d: int, other: string)
    ensures IsSnoozed(Snooze(s, id, d), id) <==> d > 0
    ensures other != id ==> (IsSnoozed(Snooze(s, id, d), other) <==> IsSnoozed(s, other))
  {
  }

  /** A fence snoozed with a positive duration stays silent at every time `now`. */
  lemma SnoozedFenceSilentAtAnyTime(t: Table, s: SnoozeTable, id: string, d: int, transitionType: int, now: int)
    requires d > 0
    ensures HandledTransition(t, Snooze(s, id, d), id, transitionType, now) == Step(t, [])
  {
  }

  // ------------------------------------------------------------ time window

  /** The window is closed at its start and open at its end. */
  lemma WindowStartInclusiveEndExclusive(f: Fence, now: int)
    ensures f.startTime == Some(now) && (f.endTime.None? || now < f.endTime.value) ==> IsWithinTimeRange(f, now)
    ensures f.endTime == Some(now) ==> !IsWithinTimeRange(f, now)
    ensures f.startTime.None? && f.endTime.None? ==> IsWithinTimeRange(f, now)
  {
  }

  /** The window is an interval: between two admitted times every time is admitted. */
  lemma WindowIsInterval(f: Fence, a: int, b: int, now: int)
    requires a <= now <= b
    requires IsWithinTimeRange(f, a) && IsWithinTimeRange(f, b)
    ensures IsWithinTimeRange(f, now)
  {
  }

  // ----------------------------------------------------------- handleTransition

  /**
   * `handleTransition` does something (any effect at all) exactly when the id
   * is stored, not snoozed and inside its time window; otherwise the table is
   * untouched too.
   */
  lemma HandledTransitionGate(t: Table, s: SnoozeTable, id: string, transitionType: int, now: int)
    ensures var r := HandledTransition(t, s, id, transitionType, now);
      (r.effects != [] <==> id in t && !IsSnoozed(s, id) && IsWithinTimeRange(t[id], now))
      && (r.effects == [] ==> r.table == t)
  {
  }

  /**
   * Which effects a passed gate produces: a notification exactly when the
   * fence has one and the throttle allows it (and then every row sharing its
   * notification id is stamped), a webhook exactly when it has a url, and
   * always the bridge event last.
   */
  lemma HandledTransitionEffects(t: Table, s: SnoozeTable, id: string, transitionType: int, now: int)
    requires WellKeyed(t) && id in t && !IsSnoozed(s, id) && IsWithinTimeRange(t[id], now)
    ensures var r := HandledTransition(t, s, id, transitionType, now);
      var g := t[id].(transitionType := Some(transitionType));
      && (HasNotification(r.effects) <==> g.notification.Some? && ThrottleAllows(g.notification, now))
      && (HasNotification(r.effects) ==> r.table == Stamp(t, NotificationId(g), now) && r.effects[0] == Notified(g))
      && (!HasNotification(r.effects) ==> r.table == t)
      && (WebhookPosted(Webhook(g.url.GetOr(""), g.authorization.GetOr(""), id, TransitionName(transitionType))) in r.effects
          <==> g.url.Some?)
      && r.effects[|r.effects| - 1] == TransitionPublished(g)
  {
    var r := HandledTransition(t, s, id, transitionType, now);
    var g := t[id].(transitionType := Some(transitionType));
    var fires := g.notification.Some? && ThrottleAllows(g.notification, now);
    var notified := if fires then [Notified(g)] else [];
    var posted := if g.url.Some? then [WebhookPosted(WebhookFor(g))] else [];
    assert r.effects == notified + posted + [TransitionPublished(g)];
    if fires {
      assert r.effects[0].Notified?;
    } else {
      forall i | 0 <= i < |r.effects|
        ensures !r.effects[i].Notified?
      {
        if i < |posted| {
          assert r.effects[i] == posted[i];
        } else {
          assert r.effects[i] == TransitionPublished(g);
        }
      }
    }
    var hook := WebhookPosted(Webhook(g.url.GetOr(""), g.authorization.GetOr(""), id, TransitionName(transitionType)));
    if g.url.Some? {
      assert r.effects[|notified|] == WebhookPosted(WebhookFor(g)) == hook;
    } else {
      forall i | 0 <= i < |r.effects|
        ensures r.effects[i] != hook
      {
        if i < |notified| {
          assert r.effects[i] == notified[i];
        } else {
          assert r.effects[i] == TransitionPublished(g);
        }
      }
    }
  }

  /** `handleTransition` rewrites nothing but throttle stamps. */
  lemma HandledTransitionOnlyStamps(t: Table, s: SnoozeTable, id: string, transitionType: int, now: int)
    requires WellKeyed(t)
    ensures var r := HandledTransition(t, s, id, transitionType, now).table;
      WellKeyed(r) && r.Keys == t.Keys && forall k :: k in t ==> Unstamped(r[k]) == Unstamped(t[k])
  {
    if id in t {
      StampOnlyTouchesThrottle(t, NotificationId(t[id]), now);
    }
  }

  /**
   * The frequency throttle on the region-callback path: once a notification
   * fired at `t1`, a second transition for the same fence at `t2` notifies
   * again exactly when `t2 >= t1 + frequency`.
   */
  lemma ThrottleOnRegionPath(t: Table, s: SnoozeTable, id: string, type1: int, type2: int, t1: int, t2: int, freq: int)
    requires WellKeyed(t) && id in t && t[id].notification.Some?
    requires t[id].notification.value.frequency == Some(freq)
    requires !IsSnoozed(s, id) && IsWithinTimeRange(t[id], t1) && IsWithinTimeRange(t[id], t2)
    requires HasNotification(HandledTransition(t, s, id, type1, t1).effects)
    ensures var r1 := HandledTransition(t, s, id, type1, t1);
      HasNotification(HandledTransition(r1.table, s, id, type2, t2).effects) <==> t2 >= t1 + freq
  {
    var r1 := HandledTransition(t, s, id, type1, t1);
    HandledTransitionEffects(t, s, id, type1, t1);
    var g := t[id].(transitionType := Some(type1));
    StampOnlyTouchesThrottle(t, NotificationId(g), t1);
    var row := r1.table[id];
    assert row.notification.value.lastTriggered == Some(t1);
    assert row.notification.value.frequency == Some(freq);
    assert Core(row) == Core(t[id]);
    assert IsWithinTimeRange(row, t2);
    HandledTransitionEffects(r1.table, s, id, type2, t2);
  }

  // ------------------------------------------------------------ checkTransition

  /**
   * What a `checkTransition` step may do to table `t` for snapshot row `f`,
   * giving `r`: the ids stay, other rows change only in their throttle
   * stamps, and on a flip the fence's own row becomes exactly the snapshot
   * row with the new `isInside` (a stamp the gate just wrote for it is
   * overwritten); without a flip nothing changes.
   */
  ghost predicate WritesBack(t: Table, r: Table, f: Fence, contains: set<string>) {
    && WellKeyed(r) && r.Keys == t.Keys
    && (forall k :: k in t && k != f.id ==> Unstamped(r[k]) == Unstamped(t[k]))
    && (Flips(f, contains) ==> f.id in r && r[f.id] == f.(isInside := f.id in contains))
    && (!Flips(f, contains) ==> r == t)
  }

  /** One `checkTransition` step writes back its row, and without a flip has no effect. */
  lemma CheckStepWritesSnapshot(t: Table, s: SnoozeTable, f: Fence, contains: set<string>, now: int)
    requires WellKeyed(t) && f.id in t
    ensures var r := CheckStep(t, s, f, contains, now);
      WritesBack(t, r.table, f, contains) && (!Flips(f, contains) ==> r.effects == [])
  {
    if Flips(f, contains) {
      var inside := f.id in contains;
      var ty := if inside then 1 else 2;
      var h := if TypeValue(f) == ty then HandledTransition(t, s, f.id, ty, now) else Step(t, []);
      HandledTransitionOnlyStamps(t, s, f.id, ty, now);
      WriteBackAfterGate(t, h.table, f, contains);
      if inside {
        assert CheckStep(t, s, f, contains, now).table == Upsert(h.table, f.(isInside := true));
      } else {
        assert CheckStep(t, s, f, contains, now).table == Upsert(h.table, f.(isInside := false));
      }
    }
  }

  /** Writing the flipped snapshot row over a table the gate only restamped. */
  lemma WriteBackAfterGate(t: Table, h: Table, f: Fence, contains: set<string>)
    requires Flips(f, contains) && f.id in t
    requires WellKeyed(h) && h.Keys == t.Keys
    requires forall k :: k in t ==> Unstamped(h[k]) == Unstamped(t[k])
    ensures WritesBack(t, Upsert(h, f.(isInside := f.id in contains)), f, contains)
  {
    UpsertKeepsIdsUnique(h, f.(isInside := f.id in contains));
  }

  /**
   * On the polling path a step produces effects only for an exact type
   * match: 1 when entering, 2 when leaving. A type of 3 (both bits) never
   * fires here, though it enables both OS region callbacks.
   */
  lemma PollingFiresOnlyOnExactType(t: Table, s: SnoozeTable, f: Fence, contains: set<string>, now: int)
    ensures CheckStep(t, s, f, contains, now).effects != [] ==>
      (f.id in contains && !f.isInside && TypeValue(f) == 1)
      || (f.id !in contains && f.isInside && TypeValue(f) == 2)
  {
  }

  /** A whole polling cycle over fences none of whose types is exactly 1 or 2 is silent. */
  lemma {:induction false} PollingSilentWithoutExactTypes(t: Table, s: SnoozeTable, snap: seq<Fence>, contains: set<string>, now: int)
    requires forall j :: 0 <= j < |snap| ==> TypeValue(snap[j]) != 1 && TypeValue(snap[j]) != 2
    ensures CheckAll(t, s, snap, contains, now).effects == []
    decreases |snap|
  {
    if snap != [] {
      var prefix := snap[..|snap| - 1];
      PollingSilentWithoutExactTypes(t, s, prefix, contains, now);
      var r := CheckAll(t, s, prefix, contains, now);
      PollingFiresOnlyOnExactType(r.table, s, snap[|snap| - 1], contains, now);
    }
  }

  /**
   * The state of the table after the first `i` snapshot rows: the ids are the
   * same, nothing but `isInside` and throttle stamps changed, processed
   * fences remember exactly whether the fix is inside them, unprocessed ones
   * keep their old state.
   */
  ghost predicate Progress(t: Table, r: Table, snap: seq<Fence>, contains: set<string>, i: nat)
    requires i <= |snap|
  {
    && WellKeyed(r) && r.Keys == t.Keys
    && (forall k :: k in t ==> Core(r[k]) == Core(t[k]))
    && (forall j :: 0 <= j < i ==> snap[j].id in r && r[snap[j].id].isInside == (snap[j].id in contains))
    && (forall j :: i <= j < |snap| ==> snap[j].id in r && r[snap[j].id].isInside == snap[j].isInside)
  }

  /**
   * A step that writes snapshot row `i` back with the fix's answer when it
   * flips and otherwise only restamps extends the progress from `i` rows to
   * `i + 1`.
   */
  lemma ProgressStep(t: Table, r0: Table, r: Table, snap: seq<Fence>, contains: set<string>, i: nat)
    requires WellKeyed(t) && Enumerates(snap, t) && i < |snap|
    requires Progress(t, r0, snap, contains, i)
    requires WritesBack(r0, r, snap[i], contains)
    ensures Progress(t, r, snap, contains, i + 1)
  {
    var f := snap[i];
    forall k | k in t
      ensures Core(r[k]) == Core(t[k])
    {
      if k == f.id && Flips(f, contains) {
        CoreIgnoresInside(f, f.id in contains);
      } else if k != f.id {
        UnstampedKeepsInside(r[k], r0[k]);
      }
    }
    forall j | 0 <= j <= i
      ensures snap[j].id in r && r[snap[j].id].isInside == (snap[j].id in contains)
    {
      if j == i {
        if !Flips(f, contains) {
          assert r0[f.id].isInside == f.isInside;
        }
      } else {
        assert snap[j].id != f.id;
        UnstampedKeepsInside(r[snap[j].id], r0[snap[j].id]);
      }
    }
    forall j | i < j < |snap|
      ensures snap[j].id in r && r[snap[j].id].isInside == snap[j].isInside
    {
      assert snap[j].id != f.id;
      UnstampedKeepsInside(r[snap[j].id], r0[snap[j].id]);
    }
  }

  /** `Core` does not see `isInside`. */
  lemma CoreIgnoresInside(f: Fence, b: bool)
    ensures Core(f.(isInside := b)) == Core(f)
  {
  }

  /** Rows equal up to their throttle stamps have the same core and the same `isInside`. */
  lemma UnstampedKeepsInside(a: Fence, b: Fence)
    requires Unstamped(a) == Unstamped(b)
    ensures Core(a) == Core(b) && a.isInside == b.isInside
  {
    assert Unstamped(a).isInside == a.isInside && Unstamped(b).isInside == b.isInside;
  }

  /** Induction over the snapshot: `Progress` holds after every prefix. */
  lemma {:induction false} CheckAllPrefix(t: Table, s: SnoozeTable, snap: seq<Fence>, contains: set<string>, now: int, i: nat)
    requires WellKeyed(t) && Enumerates(snap, t) && i <= |snap|
    ensures Progress(t, CheckAll(t, s, snap[..i], contains, now).table, snap, contains, i)
  {
    if i == 0 {
      assert snap[..0] == [];
    } else {
      CheckAllPrefix(t, s, snap, contains, now, i - 1);
      var r0 := CheckAll(t, s, snap[..i - 1], contains, now).table;
      var r := CheckAll(t, s, snap[..i], contains, now).table;
      assert r == CheckStep(r0, s, snap[i - 1], contains, now).table by {
        CheckAllExtend(t, s, snap, contains, now, i - 1);
      }
      CheckStepWritesSnapshot(r0, s, snap[i - 1], contains, now);
      ProgressStep(t, r0, r, snap, contains, i - 1);
    }
  }

  /**
   * After a polling cycle every stored fence's `isInside` says whether the
   * fix is inside it, whatever the gates decided (snooze, time window and
   * type never hold the state machine back), and no other field but the
   * throttle stamps changed.
   */
  lemma CheckTransitionTracksContainment(t: Table, s: SnoozeTable, snap: seq<Fence>, contains: set<string>, now: int)
    requires WellKeyed(t) && Enumerates(snap, t)
    ensures var r := CheckAll(t, s, snap, contains, now).table;
      && WellKeyed(r) && r.Keys == t.Keys
      && (forall k :: k in r ==> r[k].isInside == (k in contains))
      && (forall k :: k in t ==> Core(r[k]) == Core(t[k]))
  {
    CheckAllPrefix(t, s, snap, contains, now, |snap|);
    assert snap[..|snap|] == snap;
    var r := CheckAll(t, s, snap, contains, now).table;
    forall k | k in r
      ensures r[k].isInside == (k in contains)
    {
      var j :| 0 <= j < |snap| && snap[j].id == k;
    }
  }

  /**
   * The throttle stamp is lost on the polling path: a fence that enters,
   * passes every gate and shows a notification is written back from the
   * loop's snapshot, so its stored `lastTriggered` is the old one.
   */
  lemma PollingLosesThrottleStamp(f: Fence, s: SnoozeTable, now: int)
    requires !f.isInside && TypeValue(f) == 1
    requires !IsSnoozed(s, f.id) && IsWithinTimeRange(f, now)
    requires f.notification.Some? && ThrottleAllows(f.notification, now)
    ensures var r := CheckAll(map[f.id := f], s, [f], {f.id}, now);
      && Notified(f.(transitionType := Some(1))) in r.effects
      && r.table[f.id] == f.(isInside := true)
      && r.table[f.id].notification == f.notification
  {
    var t := map[f.id := f];
    assert [f][..0] == [];
    assert CheckAll(t, s, [f], {f.id}, now) == CheckStep(t, s, f, {f.id}, now);
    HandledTransitionEffects(t, s, f.id, 1, now);
    CheckStepWritesSnapshot(t, s, f, {f.id}, now);
  }

  /**
   * A fence registered for both transitions (type 3) is tracked on the
   * polling path but never reported there: entering flips `isInside` to
   * true and produces no effect at all.
   */
  lemma BothBitsSilentOnPolling(f: Fence, s: SnoozeTable, now: int)
    requires !f.isInside && f.transitionType == Some(3)
    ensures RegionOf(f).notifyOnEntry && RegionOf(f).notifyOnExit
    ensures var r := CheckAll(map[f.id := f], s, [f], {f.id}, now);
      r.effects == [] && r.table[f.id].isInside
  {
    assert [f][..0] == [];
  }
}
