/** Exact-device bindings: who holds which device, and what the reservation recorded about it. */
module LedgerBindings {
  import opened Common
  import opened Ledger

  type Devices = map<DeviceId, Device>
  type Rows = map<ExecutionId, Reservation>

  // ------------------------------------------------------------------------- invariants

  /** Bindings belong to exact-device reservations, active ones to active reservations on the device's own worker. */
  ghost predicate LinksOwned(links: Links, devices: Devices, rs: Rows) {
    && (forall link {:trigger links[link]} :: link in links ==> link.0 in rs && rs[link.0].authority == ExactDevice)
    && (forall e, d {:trigger Bound(links, e, d)} :: Bound(links, e, d) ==>
          && Active(rs, e) && rs[e].authority == ExactDevice
          && d in devices && devices[d].worker == rs[e].worker)
  }

  /** A device has at most one active binding. */
  ghost predicate LinksExclusive(links: Links) {
    forall e, f, d {:trigger Bound(links, e, d), Bound(links, f, d)} :: Bound(links, e, d) && Bound(links, f, d) ==> e == f
  }

  /** A reservation owns exactly as many devices as it asked for and recorded their vendor and uuids. */
  ghost predicate Owns(links: Links, devices: Devices, e: ExecutionId, r: Reservation) {
    var bound := BoundTo(links, devices, e);
    && |bound| == r.gpus
    && (r.gpus > 0 ==> r.observed.Some? && Some(r.observed.value.vendor) == r.vendor
                       && multiset(r.observed.value.ids) == multiset(Uuids(devices, bound)))
  }

  ghost predicate ReservationsOwn(links: Links, devices: Devices, rs: Rows) {
    forall e {:trigger rs[e]} :: Active(rs, e) && rs[e].authority == ExactDevice ==> Owns(links, devices, e, rs[e])
  }

  ghost predicate UuidsUnique(devices: Devices) {
    forall d, e {:trigger devices[d], devices[e]} ::
      d in devices && e in devices && devices[d].worker == devices[e].worker && devices[d].uuid == devices[e].uuid ==> d == e
  }

  ghost predicate Exact(db: Database) {
    && LinksOwned(db.links, db.devices, db.reservations)
    && LinksExclusive(db.links)
    && ReservationsOwn(db.links, db.devices, db.reservations)
    && UuidsUnique(db.devices)
  }

  // -------------------------------------------------------------------------- placement

  lemma BoundAfterNewLinks(links: Links, e: ExecutionId, chosen: set<DeviceId>, x: ExecutionId, d: DeviceId)
    requires forall link {:trigger links[link]} :: link in links ==> link.0 != e
    ensures Bound(NewLinks(links, e, chosen), x, d) <==> if x == e then d in chosen else Bound(links, x, d)
  {
  }

  lemma BoundSetAfterNewLinks(links: Links, devices: Devices, e: ExecutionId, chosen: set<DeviceId>, x: ExecutionId)
    requires (forall link {:trigger links[link]} :: link in links ==> link.0 != e) && chosen <= devices.Keys
    ensures BoundTo(NewLinks(links, e, chosen), devices, x) == if x == e then chosen else BoundTo(links, devices, x)
  {
  }

  /** The chosen devices are as many as the task asks for, and none is bound. */
  lemma ChosenDevices(db: Database, p: Placement)
    requires PlaceCheck(db, p).None?
    ensures Chosen(db.devices, p) <= db.devices.Keys
    ensures p.admission.None? ==> |Chosen(db.devices, p)| == db.tasks[p.task].gpus
    ensures forall e, d {:trigger Bound(db.links, e, d)} :: d in Chosen(db.devices, p) ==> !Bound(db.links, e, d)
  {
  }

  lemma FreshExecutionHasNoLinks(db: Database, e: ExecutionId)
    requires LinksOwned(db.links, db.devices, db.reservations) && e !in db.reservations
    ensures forall link {:trigger db.links[link]} :: link in db.links ==> link.0 != e
  {
  }

  lemma PlacementOwns(db: Database, p: Placement)
    requires Exact(db) && PlaceCheck(db, p).None? && p.admission.None?
    ensures Owns(NewLinks(db.links, p.execution, Chosen(db.devices, p)), db.devices, p.execution, ReservationFor(db, p))
  {
    ChosenDevices(db, p);
    FreshExecutionHasNoLinks(db, p.execution);
    BoundSetAfterNewLinks(db.links, db.devices, p.execution, Chosen(db.devices, p), p.execution);
  }

  /** The binding check inside `place` never fires. */
  lemma PlacementBindsExactly(db: Database, p: Placement)
    requires Exact(db) && PlaceCheck(db, p).None?
    ensures BindingHolds(NewLinks(db.links, p.execution, Chosen(db.devices, p)), db.devices, p.execution, ReservationFor(db, p))
  {
    if p.admission.None? {
      PlacementOwns(db, p);
      ChosenDevices(db, p);
      FreshExecutionHasNoLinks(db, p.execution);
      BoundSetAfterNewLinks(db.links, db.devices, p.execution, Chosen(db.devices, p), p.execution);
    }
  }

  lemma PlaceKeepsOwned(db: Database, p: Placement)
    requires Exact(db) && Place(db, p).Ok?
    ensures LinksOwned(Placed(db, p).links, db.devices, Placed(db, p).reservations)
  {
    var next, chosen := Placed(db, p), Chosen(db.devices, p);
    FreshExecutionHasNoLinks(db, p.execution);
    forall e, d | Bound(next.links, e, d)
      ensures && Active(next.reservations, e) && next.reservations[e].authority == ExactDevice
              && d in db.devices && db.devices[d].worker == next.reservations[e].worker {
      BoundAfterNewLinks(db.links, p.execution, chosen, e, d);
      assert e != p.execution ==> Bound(db.links, e, d);
    }
  }

  lemma PlaceKeepsExclusive(db: Database, p: Placement)
    requires Exact(db) && Place(db, p).Ok?
    ensures LinksExclusive(Placed(db, p).links)
  {
    var links := Placed(db, p).links;
    FreshExecutionHasNoLinks(db, p.execution);
    ChosenDevices(db, p);
    forall e, f, d | Bound(links, e, d) && Bound(links, f, d) ensures e == f {
      BoundAfterNewLinks(db.links, p.execution, Chosen(db.devices, p), e, d);
      BoundAfterNewLinks(db.links, p.execution, Chosen(db.devices, p), f, d);
    }
  }

  lemma PlaceKeepsOwning(db: Database, p: Placement)
    requires Exact(db) && Place(db, p).Ok?
    ensures ReservationsOwn(Placed(db, p).links, db.devices, Placed(db, p).reservations)
  {
    var next := Placed(db, p);
    FreshExecutionHasNoLinks(db, p.execution);
    ChosenDevices(db, p);
    forall e | Active(next.reservations, e) && next.reservations[e].authority == ExactDevice
      ensures Owns(next.links, db.devices, e, next.reservations[e]) {
      if e == p.execution {
        PlacementOwns(db, p);
      } else {
        assert next.reservations[e] == db.reservations[e];
        BoundSetAfterNewLinks(db.links, db.devices, p.execution, Chosen(db.devices, p), e);
      }
    }
  }

  // ---------------------------------------------------------------------------- release

  lemma BoundAfterUnlink(links: Links, e: ExecutionId, x: ExecutionId, d: DeviceId)
    ensures Bound(Unlinked(links, e), x, d) <==> x != e && Bound(links, x, d)
  {
  }

  lemma ReleaseKeepsExact(links: Links, devices: Devices, rs: Rows, e: ExecutionId)
    requires LinksOwned(links, devices, rs) && LinksExclusive(links) && ReservationsOwn(links, devices, rs) && Active(rs, e)
    ensures var links', rs' := Unlinked(links, e), rs[e := rs[e].(released := true)];
            && LinksOwned(links', devices, rs') && LinksExclusive(links') && ReservationsOwn(links', devices, rs')
            && BoundTo(links', devices, e) == {}
            && forall x, d {:trigger Bound(links', x, d)} {:trigger Bound(links, x, d)} :: x != e ==> (Bound(links', x, d) <==> Bound(links, x, d))
  {
    var links', rs' := Unlinked(links, e), rs[e := rs[e].(released := true)];
    forall x, d ensures Bound(links', x, d) <==> x != e && Bound(links, x, d) {
      BoundAfterUnlink(links, e, x, d);
    }
    forall x | Active(rs', x) && rs'[x].authority == ExactDevice ensures Owns(links', devices, x, rs'[x]) {
      assert rs'[x] == rs[x] && BoundTo(links', devices, x) == BoundTo(links, devices, x);
    }
  }

  // ------------------------------------------------------------------------ observation

  /** A device-plugin observation leaves exact-device reservations alone. */
  lemma ObserveKeepsExact(links: Links, devices: Devices, rs: Rows, e: ExecutionId, o: Option<Observation>)
    requires LinksOwned(links, devices, rs) && ReservationsOwn(links, devices, rs) && e in rs && rs[e].authority == DevicePlugin
    ensures var rs' := rs[e := rs[e].(observed := o)];
            LinksOwned(links, devices, rs') && ReservationsOwn(links, devices, rs')
  {
  }

  // -------------------------------------------------------------------------- inventory

  /** Existing devices keep their worker and uuid. */
  ghost predicate Identified(devices: Devices, devices': Devices) {
    && devices.Keys <= devices'.Keys
    && (forall d {:trigger devices'[d]} :: d in devices ==>
          devices'[d].worker == devices[d].worker && devices'[d].uuid == devices[d].uuid)
  }

  lemma {:induction false} SameUuids(devices: Devices, devices': Devices, ds: set<DeviceId>)
    requires Identified(devices, devices') && ds <= devices.Keys
    ensures Uuids(devices', ds) == Uuids(devices, ds)
    decreases ds
  {
    if ds != {} {
      SameUuids(devices, devices', ds - {Least(ds)});
    }
  }

  lemma InventoryKeepsExact(links: Links, devices: Devices, devices': Devices, rs: Rows)
    requires LinksOwned(links, devices, rs) && ReservationsOwn(links, devices, rs) && Identified(devices, devices')
    ensures LinksOwned(links, devices', rs) && ReservationsOwn(links, devices', rs)
  {
    forall e | Active(rs, e) && rs[e].authority == ExactDevice ensures Owns(links, devices', e, rs[e]) {
      assert BoundTo(links, devices', e) == BoundTo(links, devices, e) by {
        forall d | Bound(links, e, d) ensures d in devices && d in devices' {
        }
      }
      SameUuids(devices, devices', BoundTo(links, devices, e));
    }
  }

  lemma InventoryIdentifies(devices: Devices, id: WorkerId, reported: map<string, Report>, ids: map<DeviceId, string>)
    requires FreshIds(devices, id, reported, ids)
    ensures Identified(devices, Inventoried(devices, id, reported, ids))
  {
  }

  /** A newly added device shares its uuid with no device already known on its worker. */
  lemma NewUuidIsUnknown(devices: Devices, id: WorkerId, reported: map<string, Report>, ids: map<DeviceId, string>,
                         d: DeviceId, e: DeviceId)
    requires FreshIds(devices, id, reported, ids) && d in devices && e in ids && devices[d].worker == id
    ensures devices[d].uuid != ids[e]
  {
  }

  lemma InventoryKeepsUuidsUnique(devices: Devices, id: WorkerId, reported: map<string, Report>, ids: map<DeviceId, string>)
    requires UuidsUnique(devices) && FreshIds(devices, id, reported, ids)
    ensures UuidsUnique(Inventoried(devices, id, reported, ids))
  {
    var next := Inventoried(devices, id, reported, ids);
    forall d, e | d in next && e in next && next[d].worker == next[e].worker && next[d].uuid == next[e].uuid ensures d == e {
      if d in devices && e in ids {
        NewUuidIsUnknown(devices, id, reported, ids, d, e);
      } else if d in ids && e in devices {
        NewUuidIsUnknown(devices, id, reported, ids, e, d);
      }
    }
  }

  // ------------------------------------------------------------- what a later check would say

  /** The binding check, repeated later, still holds exactly while no bound device has been re-reported
      under another vendor. */
  lemma BindingHoldsExactly(db: Database, e: ExecutionId)
    requires Exact(db) && Active(db.reservations, e) && db.reservations[e].authority == ExactDevice && db.reservations[e].gpus > 0
    ensures BindingHolds(db.links, db.devices, e, db.reservations[e]) <==>
            forall d :: d in db.devices && Bound(db.links, e, d) ==> Some(db.devices[d].vendor) == db.reservations[e].vendor
  {
  }

  // -------------------------------------------------------------------------- every step

  lemma StepKeepsExact(db: Database, now: int, step: Step)
    requires Exact(db)
    ensures Exact(Apply(db, now, step))
  {
    match step
    case DoPlace(p) =>
      var q := p.(now := now);
      if Place(db, q).Ok? {
        PlaceKeepsOwned(db, q);
        PlaceKeepsExclusive(db, q);
        PlaceKeepsOwning(db, q);
      }
    case DoRelease(e, final) =>
      if Active(db.reservations, e) && ReleaseCheck(db, e, now).None? {
        ReleaseKeepsExact(db.links, db.devices, db.reservations, e);
      }
    case DoObserve(e, o) =>
      if Observe(db, e, o).Ok? && Apply(db, now, step) != db {
        ObserveKeepsExact(db.links, db.devices, db.reservations, e, Some(o));
      }
    case DoInventory(w, s, items, ids) =>
      if FreshIds(db.devices, w, ReportsOf(items), ids) && ReplaceInventory(db, w, s, items, ids).Ok? {
        InventoryIdentifies(db.devices, w, ReportsOf(items), ids);
        InventoryKeepsUuidsUnique(db.devices, w, ReportsOf(items), ids);
        InventoryKeepsExact(db.links, db.devices, Apply(db, now, step).devices, db.reservations);
      }
    case _ => OtherStepsLeaveBindings(db, now, step);
  }

  lemma OtherStepsLeaveBindings(db: Database, now: int, step: Step)
    requires !step.DoPlace? && !step.DoRelease? && !step.DoObserve? && !step.DoInventory?
    ensures var next := Apply(db, now, step);
            next.links == db.links && next.devices == db.devices && next.reservations == db.reservations
  {
    if step.DoRegister? || step.DoHeartbeat? || step.DoSetStatus? || step.DoMarkStale? {
      WorkerStepsLeaveBindings(db, now, step);
    } else {
      TaskStepsLeaveBindings(db, now, step);
    }
  }

  lemma WorkerStepsLeaveBindings(db: Database, now: int, step: Step)
    requires step.DoRegister? || step.DoHeartbeat? || step.DoSetStatus? || step.DoMarkStale?
    ensures Apply(db, now, step) == db.(workers := Apply(db, now, step).workers)
  {
  }

  lemma TaskStepsLeaveBindings(db: Database, now: int, step: Step)
    requires step.DoSubmit? || step.DoProgress? || step.DoRequeue? || step.DoCancel? || step.DoInitialize? || step.DoChangeQuota?
    ensures Apply(db, now, step) == db.(tasks := Apply(db, now, step).tasks, quotas := Apply(db, now, step).quotas)
  {
  }
}
