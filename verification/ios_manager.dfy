/**
 * GeoNotificationManager: the store, the in-memory snooze table, the
 * `isActive` flag that routes location input, the platform's monitored
 * regions and a log of the side effects the manager causes.
 */
module GeofenceManager {
  import opened Wrappers
  import opened GeoRecords
  import opened FenceStore
  import opened TransitionEngine

  /** `CLLocationManager.authorizationStatus()`. */
  datatype AuthorizationStatus = NotDetermined | Restricted | Denied | AuthorizedAlways | AuthorizedWhenInUse

  /** The `UIUserNotificationType` options. */
  datatype NotificationType = Sound | Alert | Badge

  /** The platform facts `checkRequirements` queries. */
  datatype Platform = Platform(
    monitoringAvailable: bool,
    locationServicesEnabled: bool,
    authorization: AuthorizationStatus,
    iOS8: bool,
    notificationSettings: Option<set<NotificationType>>)  // `currentUserNotificationSettings`, nil as None

  const GeofencingNotAvailable := "Geofencing not available"
  const LocationServicesNotEnabled := "Error: Locationservices not enabled"
  const WhenInUseNotGranted := "Error: Location when in use permissions not granted"
  const AlwaysNotGranted := "Warning: Location always permissions not granted"
  const NotificationPermissionMissing := "Error: notification permission missing"
  const SoundPermissionMissing := "Warning: notification settings - sound permission missing"
  const AlertPermissionMissing := "Warning: notification settings - alert permission missing"
  const BadgePermissionMissing := "Warning: notification settings - badge permission missing"

  /** The action identifiers iOS reports for a plain dismissal and a plain tap. */
  const DismissActionIdentifier := "com.apple.UNNotificationDismissActionIdentifier"
  const DefaultActionIdentifier := "com.apple.UNNotificationDefaultActionIdentifier"

  /** Whether the notification settings grant no permission at all (or are unavailable). */
  predicate NotificationsDenied(p: Platform) {
    p.notificationSettings.None? || p.notificationSettings.value == {}
  }

  /** Whether the settings exist, grant something, but lack `kind`. */
  predicate LacksPermission(p: Platform, kind: NotificationType) {
    !NotificationsDenied(p) && kind !in p.notificationSettings.value
  }

  /**
   * The position of each error in the order `checkRequirements` appends
   * them (4 for a string that is no error).
   */
  function ErrorRank(m: string): nat {
    if m == GeofencingNotAvailable then 0
    else if m == LocationServicesNotEnabled then 1
    else if m == WhenInUseNotGranted then 2
    else if m == NotificationPermissionMissing then 3
    else 4
  }

  /** The same for warnings. */
  function WarningRank(m: string): nat {
    if m == AlwaysNotGranted then 0
    else if m == SoundPermissionMissing then 1
    else if m == AlertPermissionMissing then 2
    else if m == BadgePermissionMissing then 3
    else 4
  }

  /** The errors `checkRequirements` reports, in the order it appends them. */
  function RequirementErrors(p: Platform): seq<string> {
    (if !p.monitoringAvailable then [GeofencingNotAvailable] else [])
    + (if !p.locationServicesEnabled then [LocationServicesNotEnabled] else [])
    + (if p.authorization != AuthorizedAlways && p.authorization != AuthorizedWhenInUse then [WhenInUseNotGranted] else [])
    + (if p.iOS8 && NotificationsDenied(p) then [NotificationPermissionMissing] else [])
  }

  /** The warnings `checkRequirements` reports, in the order it appends them. */
  function RequirementWarnings(p: Platform): seq<string> {
    (if p.authorization == AuthorizedWhenInUse then [AlwaysNotGranted] else [])
    + (if p.iOS8 && LacksPermission(p, Sound) then [SoundPermissionMissing] else [])
    + (if p.iOS8 && LacksPermission(p, Alert) then [AlertPermissionMissing] else [])
    + (if p.iOS8 && LacksPermission(p, Badge) then [BadgePermissionMissing] else [])
  }

  /** Each error is reported iff its capability is missing, and nothing else is. */
  lemma RequirementErrorsMembers(p: Platform)
    ensures var errors := RequirementErrors(p);
      && (GeofencingNotAvailable in errors <==> !p.monitoringAvailable)
      && (LocationServicesNotEnabled in errors <==> !p.locationServicesEnabled)
      && (WhenInUseNotGranted in errors <==> p.authorization != AuthorizedAlways && p.authorization != AuthorizedWhenInUse)
      && (NotificationPermissionMissing in errors <==> p.iOS8 && NotificationsDenied(p))
      && (forall i :: 0 <= i < |errors| ==> ErrorRank(errors[i]) < 4)
  {
  }

  /** Each error is reported at most once, in the fixed order of `ErrorRank`. */
  lemma RequirementErrorsOrdered(p: Platform)
    ensures var errors := RequirementErrors(p);
      forall i, j :: 0 <= i < j < |errors| ==> errors[i] != errors[j] && ErrorRank(errors[i]) < ErrorRank(errors[j])
  {
  }

  /** Each warning is reported iff its permission is missing, and nothing else is. */
  lemma RequirementWarningsMembers(p: Platform)
    ensures var warnings := RequirementWarnings(p);
      && (AlwaysNotGranted in warnings <==> p.authorization == AuthorizedWhenInUse)
      && (SoundPermissionMissing in warnings <==> p.iOS8 && LacksPermission(p, Sound))
      && (AlertPermissionMissing in warnings <==> p.iOS8 && LacksPermission(p, Alert))
      && (BadgePermissionMissing in warnings <==> p.iOS8 && LacksPermission(p, Badge))
      && (forall i :: 0 <= i < |warnings| ==> WarningRank(warnings[i]) < 4)
  {
  }

  /** Each warning is reported at most once, in the fixed order of `WarningRank`. */
  lemma RequirementWarningsOrdered(p: Platform)
    ensures var warnings := RequirementWarnings(p);
      forall i, j :: 0 <= i < j < |warnings| ==> warnings[i] != warnings[j] && WarningRank(warnings[i]) < WarningRank(warnings[j])
  {
  }

  class GeoNotificationManager {
    const store: GeoNotificationStore
    var snoozedFences: SnoozeTable
    var isActive: bool
    /** The platform's monitored regions by identifier. */
    var regions: map<string, Region>
    /** Side effects caused so far, oldest first. */
    var effects: seq<Effect>

    ghost predicate Valid()
      reads this, store
    {
      store.Valid()
    }

    /**
     * `init`: a fresh manager over the persisted table (`None` when no table
     * could be opened) and the regions the platform still monitors; the snooze
     * table starts empty and the manager inactive.
     */
    constructor (existing: Option<Table>, monitored: map<string, Region>)
      requires existing.Some? ==> WellKeyed(existing.value)
      ensures Valid() && fresh(store)
      ensures store.hasTable == existing.Some? && store.table == existing.GetOr(map[])
      ensures snoozedFences == map[] && !isActive && regions == monitored && effects == []
    {
      store := new GeoNotificationStore(existing);
      snoozedFences := map[];
      isActive := false;
      regions := monitored;
      effects := [];
    }

    /** `initialize` in the plugin façade switches the polling path on. */
    method Activate()
      modifies this`isActive
      ensures isActive
    {
      isActive := true;
    }

    /** `onAppTerminate` in the plugin façade switches the polling path off. */
    method Deactivate()
      modifies this`isActive
      ensures !isActive
    {
      isActive := false;
    }

    /**
     * `checkRequirements`: collects one error or warning per missing
     * capability; `ok` exactly when there is no error.
     */
    method CheckRequirements(p: Platform) returns (ok: bool, warnings: seq<string>, errors: seq<string>)
      ensures ok <==> errors == []
      ensures errors == RequirementErrors(p) && warnings == RequirementWarnings(p)
    {
      errors := [];
      warnings := [];
      if !p.monitoringAvailable {
        errors := errors + [GeofencingNotAvailable];
      }
      if !p.locationServicesEnabled {
        errors := errors + [LocationServicesNotEnabled];
      }
      if p.authorization != AuthorizedAlways {
        if p.authorization != AuthorizedWhenInUse {
          errors := errors + [WhenInUseNotGranted];
        } else {
          warnings := warnings + [AlwaysNotGranted];
        }
      }
      if p.iOS8 {
        if p.notificationSettings.Some? {
          var types := p.notificationSettings.value;
          if types == {} {
            errors := errors + [NotificationPermissionMissing];
          } else {
            if Sound !in types {
              warnings := warnings + [SoundPermissionMissing];
            }
            if Alert !in types {
              warnings := warnings + [AlertPermissionMissing];
            }
            if Badge !in types {
              warnings := warnings + [BadgePermissionMissing];
            }
          }
        } else {
          errors := errors + [NotificationPermissionMissing];
        }
      }
      ok := |errors| == 0;
    }

    /**
     * `addOrUpdateGeoNotification`: stores the record with `isInside` reset to
     * false (also for an id already stored) and starts monitoring a region
     * whose entry/exit flags are bits 0 and 1 of the transition type.
     */
    method AddOrUpdateGeoNotification(f: Fence)
      requires Valid()
      modifies this, store
      ensures Valid()
      ensures store.table == if store.hasTable then Upsert(old(store.table), f.(isInside := false)) else old(store.table)
      ensures store.hasTable ==> f.id in store.table && !store.table[f.id].isInside
      ensures regions == old(regions)[f.id := RegionOf(f)]
      ensures snoozedFences == old(snoozedFences) && isActive == old(isActive) && effects == old(effects)
    {
      var region := RegionOf(f);
      store.AddOrUpdate(f.(isInside := false));
      regions := regions[f.id := region];
    }

    /** `getWatchedGeoNotifications`: every stored fence, `None` when the store cannot be read. */
    method GetWatchedGeoNotifications() returns (r: Option<seq<Fence>>)
      requires Valid()
      ensures r.None? <==> !store.hasTable
      ensures r.Some? ==> Enumerates(r.value, store.table)
    {
      r := store.GetAll();
    }

    /** `snoozeFence`. */
    method SnoozeFence(id: string, duration: int)
      modifies this`snoozedFences
      ensures snoozedFences == Snooze(old(snoozedFences), id, duration)
      ensures IsSnoozed(snoozedFences, id) <==> duration > 0
    {
      snoozedFences := Snooze(snoozedFences, id, duration);
    }

    /**
     * `removeGeoNotification`: deletes the row, stops monitoring the region
     * and resets the snooze entry with `snoozeFence(id, 0)`.
     */
    method RemoveGeoNotification(id: string)
      requires Valid()
      modifies this, store
      ensures Valid()
      ensures store.table == old(store.table) - {id}
      ensures regions == old(regions) - {id}
      ensures snoozedFences == Snooze(old(snoozedFences), id, 0) && !IsSnoozed(snoozedFences, id)
      ensures isActive == old(isActive) && effects == old(effects)
    {
      store.Remove(id);
      if id in regions {
        regions := regions - {id};
      }
      SnoozeFence(id, 0);
    }

    /**
     * `removeAllGeoNotifications`: empties the table and stops every
     * monitored region; the snooze table is left as it was.
     */
    method RemoveAllGeoNotifications()
      requires Valid()
      modifies this, store
      ensures Valid()
      ensures store.table == map[] && regions == map[]
      ensures snoozedFences == old(snoozedFences)
      ensures isActive == old(isActive) && effects == old(effects)
    {
      store.Clear();
      regions := map[];
    }

    /**
     * `canBeTriggered`: false when the notification's last trigger plus its
     * frequency is still ahead of `now`; otherwise stamps `now` on every row
     * whose notification id matches and answers true.
     */
    method CanBeTriggered(geo: Fence, now: int) returns (allowed: bool)
      requires Valid()
      modifies store
      ensures Valid()
      ensures allowed == ThrottleAllows(geo.notification, now)
      ensures store.table == if allowed then Stamp(old(store.table), NotificationId(geo), now) else old(store.table)
    {
      if geo.notification.Some? {
        var n := geo.notification.value;
        if n.lastTriggered.Some? && n.frequency.Some? && now < n.lastTriggered.value + n.frequency.value {
          return false;
        }
      }
      store.UpdateLastTriggeredByNotificationId(NotificationId(geo), now);
      return true;
    }

    /**
     * `handleTransition(id, transitionType)` at time `now`: the gate, the
     * throttled notification, the webhook and the bridge event.
     */
    method HandleTransition(id: string, transitionType: int, now: int)
      requires Valid()
      modifies this, store
      ensures Valid()
      ensures var r := HandledTransition(old(store.table), snoozedFences, id, transitionType, now);
        store.table == r.table && effects == old(effects) + r.effects
      ensures snoozedFences == old(snoozedFences) && isActive == old(isActive) && regions == old(regions)
    {
      var found := store.FindById(id);
      if found.Some? && !IsSnoozed(snoozedFences, id) && IsWithinTimeRange(found.value, now) {
        var geo := found.value.(transitionType := Some(transitionType));
        if geo.notification.Some? {
          var allowed := CanBeTriggered(geo, now);
          if allowed {
            effects := effects + [Notified(geo)];
          }
        }
        if geo.url.Some? {
          effects := effects + [WebhookPosted(WebhookFor(geo))];
        }
        effects := effects + [TransitionPublished(geo)];
      }
    }

    /**
     * `checkTransition` for a location fix; `contains` holds the ids of the
     * fences whose circle contains the fix. A failed read of the table skips
     * the cycle. Returns the snapshot the loop walked.
     */
    method CheckTransition(contains: set<string>, now: int) returns (ghost snapshot: seq<Fence>)
      requires Valid()
      modifies this, store
      ensures Valid()
      ensures !store.hasTable ==> store.table == old(store.table) && effects == old(effects)
      ensures store.hasTable ==> Enumerates(snapshot, old(store.table))
      ensures store.hasTable ==> var r := CheckAll(old(store.table), snoozedFences, snapshot, contains, now);
        store.table == r.table && effects == old(effects) + r.effects
      ensures store.table.Keys == old(store.table).Keys
      ensures store.hasTable ==> forall k :: k in store.table ==> store.table[k].isInside == (k in contains)
      ensures snoozedFences == old(snoozedFences) && isActive == old(isActive) && regions == old(regions)
    {
      var all := store.GetAll();
      if all.None? {
        return [];
      }
      snapshot := all.value;
      WalkSnapshot(all.value, contains, now);
      CheckTransitionTracksContainment(old(store.table), snoozedFences, snapshot, contains, now);
    }

    /** `checkTransition`'s loop over the snapshot `rows`, in order. */
    method WalkSnapshot(rows: seq<Fence>, contains: set<string>, now: int)
      requires Valid() && store.hasTable
      modifies this, store
      ensures Valid()
      ensures var r := CheckAll(old(store.table), snoozedFences, rows, contains, now);
        store.table == r.table && effects == old(effects) + r.effects
      ensures snoozedFences == old(snoozedFences) && isActive == old(isActive) && regions == old(regions)
    {
      ghost var t0 := store.table;
      ghost var e0 := effects;
      assert rows[..0] == [];
      var i := 0;
      while i < |rows|
        invariant 0 <= i <= |rows|
        invariant Valid() && store.hasTable
        invariant snoozedFences == old(snoozedFences) && isActive == old(isActive) && regions == old(regions)
        invariant Walked(t0, e0, snoozedFences, rows[..i], contains, now, store.table, effects)
      {
        ghost var tb := store.table;
        ghost var eb := effects;
        CheckFence(rows[i], contains, now);
        WalkedExtend(t0, e0, snoozedFences, rows, contains, now, i, tb, eb, store.table, effects);
        i := i + 1;
      }
      assert rows[..|rows|] == rows;
    }

    /**
     * One iteration of `checkTransition`'s loop for snapshot row `f`: on a
     * flip, `handleTransition` for an exact type match, then the snapshot row
     * with the new `isInside` is stored.
     */
    method CheckFence(f: Fence, contains: set<string>, now: int)
      requires Valid() && store.hasTable
      modifies this, store
      ensures Valid()
      ensures var r := CheckStep(old(store.table), snoozedFences, f, contains, now);
        store.table == r.table && effects == old(effects) + r.effects
      ensures snoozedFences == old(snoozedFences) && isActive == old(isActive) && regions == old(regions)
    {
      if f.id in contains {
        if !f.isInside {
          if TypeValue(f) == 1 {
            HandleTransition(f.id, 1, now);
          }
          store.AddOrUpdate(f.(isInside := true));
        }
      } else {
        if f.isInside {
          if TypeValue(f) == 2 {
            HandleTransition(f.id, 2, now);
          }
          store.AddOrUpdate(f.(isInside := false));
        }
      }
    }

    /**
     * `didUpdateLocations`: only the active manager runs `checkTransition`.
     * Returns the snapshot that cycle walked (empty when none ran).
     */
    method OnLocationUpdate(contains: set<string>, now: int) returns (ghost snapshot: seq<Fence>)
      requires Valid()
      modifies this, store
      ensures Valid()
      ensures !(isActive && store.hasTable) ==> store.table == old(store.table) && effects == old(effects)
      ensures isActive && store.hasTable ==> Enumerates(snapshot, old(store.table))
      ensures isActive && store.hasTable ==> var r := CheckAll(old(store.table), snoozedFences, snapshot, contains, now);
        store.table == r.table && effects == old(effects) + r.effects
      ensures isActive && store.hasTable ==> forall k :: k in store.table ==> store.table[k].isInside == (k in contains)
      ensures store.table.Keys == old(store.table).Keys
      ensures snoozedFences == old(snoozedFences) && isActive == old(isActive) && regions == old(regions)
    {
      snapshot := [];
      if isActive {
        snapshot := CheckTransition(contains, now);
      }
    }

    /** `didEnterRegion`: only the inactive manager reacts, with transition type 1. */
    method OnEnterRegion(id: string, now: int)
      requires Valid()
      modifies this, store
      ensures Valid()
      ensures isActive ==> store.table == old(store.table) && effects == old(effects)
      ensures !isActive ==> var r := HandledTransition(old(store.table), snoozedFences, id, 1, now);
        store.table == r.table && effects == old(effects) + r.effects
      ensures snoozedFences == old(snoozedFences) && isActive == old(isActive) && regions == old(regions)
    {
      if !isActive {
        HandleTransition(id, 1, now);
      }
    }

    /** `didExitRegion`: only the inactive manager reacts, with transition type 2. */
    method OnExitRegion(id: string, now: int)
      requires Valid()
      modifies this, store
      ensures Valid()
      ensures isActive ==> store.table == old(store.table) && effects == old(effects)
      ensures !isActive ==> var r := HandledTransition(old(store.table), snoozedFences, id, 2, now);
        store.table == r.table && effects == old(effects) + r.effects
      ensures snoozedFences == old(snoozedFences) && isActive == old(isActive) && regions == old(regions)
    {
      if !isActive {
        HandleTransition(id, 2, now);
      }
    }

    /**
     * `userNotificationCenter(_:didReceive:)`: "Snooze" and "Delete" snooze
     * the notification's request identifier (the notification id, not the
     * fence id) for 86400 and 300 seconds; a plain tap with data publishes it.
     */
    method OnNotificationAction(action: string, requestId: string, data: Option<string>)
      modifies this`snoozedFences, this`effects
      ensures action == "Snooze" ==> snoozedFences == Snooze(old(snoozedFences), requestId, SnoozeActionSeconds)
      ensures action == "Delete" ==> snoozedFences == Snooze(old(snoozedFences), requestId, DeleteActionSeconds)
      ensures action == "Snooze" || action == "Delete" ==> IsSnoozed(snoozedFences, requestId)
      ensures action != "Snooze" && action != "Delete" ==> snoozedFences == old(snoozedFences)
      ensures effects == if action == DefaultActionIdentifier && data.Some?
        then old(effects) + [NotificationOpened(data.value)] else old(effects)
    {
      if action == DismissActionIdentifier {
      } else if action == DefaultActionIdentifier {
        if data.Some? {
          effects := effects + [NotificationOpened(data.value)];
        }
      } else if action == "Snooze" {
        SnoozeFence(requestId, SnoozeActionSeconds);
      } else if action == "Delete" {
        SnoozeFence(requestId, DeleteActionSeconds);
      }
    }
  }
}
