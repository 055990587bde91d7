/** The energy-site device: live-status and site-information handlers over the
    base device, and the reconciliation of its capability list with the
    capabilities its components call for. */
module EnergySiteDevice {
  import opened Wrappers
  import opened Values
  import opened Catalog
  import opened Device
  import opened SiteValues
  import Capabilities
  import Seqs

  /** The updates of the `liveStatus` handler; a missing response makes none. */
  function LiveStatusUpdates(response: Option<LiveStatus>): (us: seq<Update>)
    ensures response.None? ==> us == []
  {
    if response.None? then []
    else
      var d := response.value;
      [ Update("measure_battery", Literal(OfNum(d.percentage_charged))),
        Update("measure_power_battery", Literal(NegatedPower(d.battery_power))),
        Update("measure_power_solar", Literal(OfNum(d.solar_power))),
        Update("measure_power_grid", Literal(OfNum(d.grid_power))),
        Update("measure_power_load", Literal(OfNum(d.load_power))),
        Update("alarm_off_grid", Literal(GridStatusAlarm(d.grid_status))),
        Update("alarm_island_status", Literal(IslandStatusAlarm(d.island_status))),
        Update("alarm_storm_watch_active", Literal(OfBool(d.storm_mode_active))) ]
  }

  /** After the `liveStatus` handler each capability holds its reported or
      derived value where the write is made, and is left as it was where the
      value is missing, the capability unsupported or the write rejected; the
      battery power is the negated reported power. */
  lemma LiveStatusEffect(values: map<string, Value>, caps: seq<string>, d: LiveStatus, rejected: set<string>)
    ensures var after := Store(values, caps, LiveStatusUpdates(Some(d)), rejected);
      && Applied(values, after, caps, rejected, "measure_battery", OfNum(d.percentage_charged))
      && Applied(values, after, caps, rejected, "measure_power_battery", NegatedPower(d.battery_power))
      && Applied(values, after, caps, rejected, "measure_power_solar", OfNum(d.solar_power))
      && Applied(values, after, caps, rejected, "measure_power_grid", OfNum(d.grid_power))
      && Applied(values, after, caps, rejected, "measure_power_load", OfNum(d.load_power))
      && Applied(values, after, caps, rejected, "alarm_off_grid", GridStatusAlarm(d.grid_status))
      && Applied(values, after, caps, rejected, "alarm_island_status", IslandStatusAlarm(d.island_status))
      && Applied(values, after, caps, rejected, "alarm_storm_watch_active", OfBool(d.storm_mode_active))
    ensures var after := Store(values, caps, LiveStatusUpdates(Some(d)), rejected);
      d.battery_power.Some? && "measure_power_battery" in caps && "measure_power_battery" !in rejected ==>
        "measure_power_battery" in after && after["measure_power_battery"] == Num(-d.battery_power.value)
  {
    LiveStatusSole(values, caps, d, rejected, 0);
    LiveStatusSole(values, caps, d, rejected, 1);
    LiveStatusSole(values, caps, d, rejected, 2);
    LiveStatusSole(values, caps, d, rejected, 3);
    LiveStatusSole(values, caps, d, rejected, 4);
    LiveStatusSole(values, caps, d, rejected, 5);
    LiveStatusSole(values, caps, d, rejected, 6);
    LiveStatusSole(values, caps, d, rejected, 7);
  }

  /** Each `liveStatus` update names a capability that no other one names. */
  lemma LiveStatusSole(values: map<string, Value>, caps: seq<string>, d: LiveStatus, rejected: set<string>, k: nat)
    requires k < 8
    ensures var us := LiveStatusUpdates(Some(d));
      Applied(values, Store(values, caps, us, rejected), caps, rejected, us[k].capability, Resolve(us[k].arg))
  {
    var us := LiveStatusUpdates(Some(d));
    var names := ["measure_battery", "measure_power_battery", "measure_power_solar", "measure_power_grid",
                  "measure_power_load", "alarm_off_grid", "alarm_island_status", "alarm_storm_watch_active"];
    assert forall i :: 0 <= i < 8 ==> us[i].capability == names[i];
    assert forall i :: 0 <= i < 8 && i != k ==> names[i] != names[k];
    StoreSoleUpdate(values, caps, us, rejected, k);
  }

  /** The updates of the `siteInfo` handler after reconciliation. Reading
      `user_settings.storm_mode_enabled` without `user_settings` throws, so the
      storm-watch update is then never made. */
  function SiteInfoUpdates(d: SiteInfo, c: Components): seq<Update> {
    [ Update("backup_reserve", Literal(ReserveFraction(d.backup_reserve_percent))),
      Update("operation_mode", Literal(OfStr(d.default_real_mode))),
      Update("allow_export", Literal(ExportSetting(c))),
      Update("charge_from_grid", Literal(ChargeFromGrid(c))) ] +
    (if d.user_settings.Some? then [Update("storm_watch", Literal(OfBool(d.user_settings.value.storm_mode_enabled)))] else [])
  }

  /** On an update, an unmapped grid or island status leaves the previous alarm in place. */
  lemma UnmappedStatusKeepsAlarm(dev: map<string, Value>, caps: seq<string>, live: LiveStatus, rejected: set<string>)
    requires "alarm_off_grid" in dev && live.grid_status != Some("Active") && live.grid_status != Some("Inactive")
    ensures var after := Store(dev, caps, LiveStatusUpdates(Some(live)), rejected);
      "alarm_off_grid" in after && after["alarm_off_grid"] == dev["alarm_off_grid"]
  {
    var us := LiveStatusUpdates(Some(live));
    var pre := us[..5];
    var post := us[6..];
    assert us == pre + [us[5]] + post;
    assert us[..7] == pre + [us[5]] + us[6..7];
    StoreSoleUpdate(dev, caps, us, rejected, 5);
  }

  // ---------------------------------------------------------------------------
  // Reconciliation

  /** The platform calls of one reconciliation: an add for each desired
      capability not on the device beforehand, then a remove for each one on
      the device beforehand that is not desired. */
  function ReconcileCalls(desired: seq<string>, current: seq<string>): seq<CapabilityCall> {
    AddedCalls(Seqs.Missing(desired, current)) + RemovedCalls(Seqs.Missing(current, desired))
  }

  function AddedCalls(cs: seq<string>): seq<CapabilityCall> {
    if cs == [] then [] else AddedCalls(cs[..|cs| - 1]) + [Added(cs[|cs| - 1])]
  }

  function RemovedCalls(cs: seq<string>): seq<CapabilityCall> {
    if cs == [] then [] else RemovedCalls(cs[..|cs| - 1]) + [Removed(cs[|cs| - 1])]
  }

  /** The add calls name exactly the listed capabilities. */
  lemma {:induction false} AddedCallsMembers(cs: seq<string>, call: CapabilityCall)
    ensures call in AddedCalls(cs) <==> call.Added? && call.capability in cs
  {
    if cs != [] {
      AddedCallsMembers(cs[..|cs| - 1], call);
      assert cs == cs[..|cs| - 1] + [cs[|cs| - 1]];
    }
  }

  /** The remove calls name exactly the listed capabilities. */
  lemma {:induction false} RemovedCallsMembers(cs: seq<string>, call: CapabilityCall)
    ensures call in RemovedCalls(cs) <==> call.Removed? && call.capability in cs
  {
    if cs != [] {
      RemovedCallsMembers(cs[..|cs| - 1], call);
      assert cs == cs[..|cs| - 1] + [cs[|cs| - 1]];
    }
  }

  /** The capability list after reconciliation: the list with the desired ones
      added, then the undesired ones taken out. */
  function Reconciled(desired: seq<string>, current: seq<string>): seq<string> {
    Seqs.KeepOnly(Seqs.InsertAll(current, desired), desired)
  }

  /** The list has exactly the desired capabilities, and no duplicates when it had none. */
  lemma ReconciledIsDesired(desired: seq<string>, current: seq<string>)
    ensures forall c :: c in Reconciled(desired, current) <==> c in desired
    ensures Seqs.NoDup(current) ==> Seqs.NoDup(Reconciled(desired, current))
  {
    forall c ensures c in Reconciled(desired, current) <==> c in desired {
      Seqs.InsertAllMembers(current, desired, c);
    }
    if Seqs.NoDup(current) {
      Seqs.InsertAllNoDup(current, desired);
      Seqs.KeepOnlyNoDup(Seqs.InsertAll(current, desired), desired);
    }
  }

  /** Once the list has the desired capabilities, reconciling again makes no calls. */
  lemma ReconcileIdempotent(desired: seq<string>, current: seq<string>)
    requires forall c :: c in current <==> c in desired
    ensures ReconcileCalls(desired, current) == []
  {
    Seqs.MissingNone(desired, current);
    Seqs.MissingNone(current, desired);
  }

  /** A second run finds the list the first one left and makes no calls. */
  lemma SecondRunMakesNoCalls(desired: seq<string>, current: seq<string>)
    ensures ReconcileCalls(desired, Reconciled(desired, current)) == []
  {
    ReconciledIsDesired(desired, current);
    ReconcileIdempotent(desired, Reconciled(desired, current));
  }

  /** A capability both present and desired is neither added nor removed. */
  lemma PresentAndDesiredUntouched(desired: seq<string>, current: seq<string>, c: string)
    requires c in current && c in desired
    ensures Added(c) !in ReconcileCalls(desired, current) && Removed(c) !in ReconcileCalls(desired, current)
  {
    var adds := AddedCalls(Seqs.Missing(desired, current));
    var removes := RemovedCalls(Seqs.Missing(current, desired));
    Seqs.MissingMembers(desired, current, c);
    Seqs.MissingMembers(current, desired, c);
    AddedCallsMembers(Seqs.Missing(desired, current), Added(c));
    AddedCallsMembers(Seqs.Missing(desired, current), Removed(c));
    RemovedCallsMembers(Seqs.Missing(current, desired), Added(c));
    RemovedCallsMembers(Seqs.Missing(current, desired), Removed(c));
  }

  /** A device holding the desired capabilities and one stale one loses only that one. */
  lemma StaleOnlyRemoved(desired: seq<string>, stale: string)
    requires stale !in desired
    ensures Reconciled(desired, desired + [stale]) == desired
    ensures ReconcileCalls(desired, desired + [stale]) == [Removed(stale)]
  {
    var cur := desired + [stale];
    Seqs.InsertAllPresent(cur, desired);
    Seqs.KeepOnlyAppend(desired, [stale], desired);
    Seqs.KeepOnlyAll(desired, desired);
    assert [stale][1..] == [];
    Seqs.MissingNone(desired, cur);
    Seqs.MissingAppend(desired, [stale], desired);
    Seqs.MissingNone(desired, desired);
    assert Seqs.Missing(cur, desired) == [stale];
    assert RemovedCalls([stale]) == [Removed(stale)];
  }

  /** The elements of `s` that the remove loop keeps once it has visited `seen`. */
  function KeptAfter(s: seq<string>, desired: seq<string>, seen: seq<string>): (r: seq<string>)
  {
    if s == [] then []
    else (if s[0] in desired || s[0] !in seen then [s[0]] else []) + KeptAfter(s[1..], desired, seen)
  }

  lemma {:induction false} KeptAfterNothingSeen(s: seq<string>, desired: seq<string>)
    ensures KeptAfter(s, desired, []) == s
  {
    if s != [] {
      KeptAfterNothingSeen(s[1..], desired);
      assert s == [s[0]] + s[1..];
    }
  }

  /** Visiting one more capability of the snapshot removes it when it is not desired. */
  lemma {:induction false} KeptAfterStep(s: seq<string>, desired: seq<string>, seen: seq<string>, c: string)
    ensures KeptAfter(s, desired, seen + [c]) ==
            if c in desired then KeptAfter(s, desired, seen) else Seqs.Without(KeptAfter(s, desired, seen), c)
  {
    if s != [] {
      KeptAfterStep(s[1..], desired, seen, c);
      var x := s[0];
      assert (x in desired || x !in seen + [c]) <==> (x in desired || x !in seen) && (x in desired || x != c);
      if c !in desired {
        var k := KeptAfter(s, desired, seen);
        var head := if x in desired || x !in seen then [x] else [];
        assert k == head + KeptAfter(s[1..], desired, seen);
        WithoutAppend(head, KeptAfter(s[1..], desired, seen), c);
      }
    }
  }

  lemma {:induction false} WithoutAppend(a: seq<string>, b: seq<string>, c: string)
    ensures Seqs.Without(a + b, c) == Seqs.Without(a, c) + Seqs.Without(b, c)
  {
    if a == [] {
      assert [] + b == b;
    } else {
      assert (a + b)[0] == a[0] && (a + b)[1..] == a[1..] + b;
      WithoutAppend(a[1..], b, c);
    }
  }

  /** Having visited the whole snapshot, the remove loop keeps exactly the desired capabilities. */
  lemma {:induction false} KeptAfterAll(s: seq<string>, desired: seq<string>, seen: seq<string>)
    requires forall x :: x in s ==> x in desired || x in seen
    ensures KeptAfter(s, desired, seen) == Seqs.KeepOnly(s, desired)
  {
    if s != [] {
      assert forall x :: x in s[1..] ==> x in s;
      KeptAfterAll(s[1..], desired, seen);
    }
  }

  /** Removing the undesired capabilities of the snapshot from the list the
      add loop left keeps exactly the desired ones. */
  lemma KeptAfterAdded(current: seq<string>, desired: seq<string>)
    ensures KeptAfter(Seqs.InsertAll(current, desired), desired, current) == Reconciled(desired, current)
  {
    var added := Seqs.InsertAll(current, desired);
    forall x | x in added ensures x in desired || x in current {
      Seqs.InsertAllMembers(current, desired, x);
    }
    KeptAfterAll(added, desired, current);
  }

  /** One step of the add loop: the capability is added, and the call made,
      only when it was not on the device beforehand. */
  lemma AddStep(current: seq<string>, seen: seq<string>, c: string)
    ensures c in current ==> Seqs.InsertAll(current, seen + [c]) == Seqs.InsertAll(current, seen)
    ensures c !in current ==> Seqs.InsertAll(current, seen + [c]) == Seqs.Insert(Seqs.InsertAll(current, seen), c)
    ensures AddedCalls(Seqs.Missing(seen + [c], current)) ==
            AddedCalls(Seqs.Missing(seen, current)) + (if c in current then [] else [Added(c)])
  {
    Seqs.InsertAllSnoc(current, seen, c);
    Seqs.InsertAllMembers(current, seen, c);
    Seqs.MissingSnoc(seen, current, c);
    if c !in current {
      assert AddedCalls(Seqs.Missing(seen, current) + [c]) == AddedCalls(Seqs.Missing(seen, current)) + [Added(c)];
    } else {
      assert Seqs.Missing(seen, current) + [] == Seqs.Missing(seen, current);
    }
  }

  /** One step of the remove loop: the capability is removed, and the call
      made, only when it is not desired. */
  lemma RemoveStep(s: seq<string>, desired: seq<string>, seen: seq<string>, c: string)
    ensures c in desired ==> KeptAfter(s, desired, seen + [c]) == KeptAfter(s, desired, seen)
    ensures c !in desired ==> KeptAfter(s, desired, seen + [c]) == Seqs.Without(KeptAfter(s, desired, seen), c)
    ensures RemovedCalls(Seqs.Missing(seen + [c], desired)) ==
            RemovedCalls(Seqs.Missing(seen, desired)) + (if c in desired then [] else [Removed(c)])
  {
    KeptAfterStep(s, desired, seen, c);
    Seqs.MissingSnoc(seen, desired, c);
    if c !in desired {
      assert RemovedCalls(Seqs.Missing(seen, desired) + [c]) == RemovedCalls(Seqs.Missing(seen, desired)) + [Removed(c)];
    } else {
      assert Seqs.Missing(seen, desired) + [] == Seqs.Missing(seen, desired);
    }
  }

  /** One pass of the add loop: `c` is added when the device lacks it. */
  method AddIfMissing(dev: TeslemetryDevice, c: string, current: seq<string>, ghost seen: seq<string>,
                      ghost calls: seq<CapabilityCall>)
    requires dev.capabilities == Seqs.InsertAll(current, seen)
    requires dev.capabilityCalls == calls + AddedCalls(Seqs.Missing(seen, current))
    modifies dev
    ensures dev.capabilities == Seqs.InsertAll(current, seen + [c])
    ensures dev.capabilityCalls == calls + AddedCalls(Seqs.Missing(seen + [c], current))
    ensures dev.values == old(dev.values) && dev.writes == old(dev.writes)
    ensures dev.available == old(dev.available) && dev.unavailableMessage == old(dev.unavailableMessage)
  {
    AddStep(current, seen, c);
    if c !in current {
      dev.AddCapability(c);
    }
  }

  /** The add loop of the `siteInfo` handler. */
  method AddMissing(dev: TeslemetryDevice, desired: seq<string>)
    modifies dev
    ensures dev.capabilities == Seqs.InsertAll(old(dev.capabilities), desired)
    ensures dev.capabilityCalls == old(dev.capabilityCalls) + AddedCalls(Seqs.Missing(desired, old(dev.capabilities)))
    ensures dev.values == old(dev.values) && dev.writes == old(dev.writes)
    ensures dev.available == old(dev.available) && dev.unavailableMessage == old(dev.unavailableMessage)
  {
    var current := dev.capabilities;
    ghost var calls := dev.capabilityCalls;
    ghost var seen: seq<string> := [];
    var i := 0;
    while i < |desired|
      invariant 0 <= i <= |desired| && seen == desired[..i]
      invariant dev.capabilities == Seqs.InsertAll(current, seen)
      invariant dev.capabilityCalls == calls + AddedCalls(Seqs.Missing(seen, current))
      invariant dev.values == old(dev.values) && dev.writes == old(dev.writes)
      invariant dev.available == old(dev.available) && dev.unavailableMessage == old(dev.unavailableMessage)
    {
      var c := desired[i];
      AddIfMissing(dev, c, current, seen, calls);
      seen := seen + [c];
      i := i + 1;
      assert desired[..i] == desired[..i - 1] + [c];
    }
    assert desired[..i] == desired;
  }

  /** One pass of the remove loop: `c` is removed when it is not desired. */
  method RemoveIfUndesired(dev: TeslemetryDevice, desired: seq<string>, c: string,
                           ghost added: seq<string>, ghost seen: seq<string>, ghost calls: seq<CapabilityCall>)
    requires dev.capabilities == KeptAfter(added, desired, seen)
    requires dev.capabilityCalls == calls + RemovedCalls(Seqs.Missing(seen, desired))
    modifies dev
    ensures dev.capabilities == KeptAfter(added, desired, seen + [c])
    ensures dev.capabilityCalls == calls + RemovedCalls(Seqs.Missing(seen + [c], desired))
    ensures dev.values == old(dev.values) && dev.writes == old(dev.writes)
    ensures dev.available == old(dev.available) && dev.unavailableMessage == old(dev.unavailableMessage)
  {
    RemoveStep(added, desired, seen, c);
    if c !in desired {
      dev.RemoveCapability(c);
    }
  }

  /** The remove loop of the `siteInfo` handler, over the snapshot `current`
      taken before the add loop. */
  method RemoveUndesired(dev: TeslemetryDevice, desired: seq<string>, current: seq<string>)
    modifies dev
    ensures dev.capabilities == KeptAfter(old(dev.capabilities), desired, current)
    ensures dev.capabilityCalls == old(dev.capabilityCalls) + RemovedCalls(Seqs.Missing(current, desired))
    ensures dev.values == old(dev.values) && dev.writes == old(dev.writes)
    ensures dev.available == old(dev.available) && dev.unavailableMessage == old(dev.unavailableMessage)
  {
    ghost var added, calls := dev.capabilities, dev.capabilityCalls;
    ghost var seen: seq<string> := [];
    KeptAfterNothingSeen(added, desired);
    var j := 0;
    while j < |current|
      invariant 0 <= j <= |current| && seen == current[..j]
      invariant dev.capabilities == KeptAfter(added, desired, seen)
      invariant dev.capabilityCalls == calls + RemovedCalls(Seqs.Missing(seen, desired))
      invariant dev.values == old(dev.values) && dev.writes == old(dev.writes)
      invariant dev.available == old(dev.available) && dev.unavailableMessage == old(dev.unavailableMessage)
    {
      var c := current[j];
      RemoveIfUndesired(dev, desired, c, added, seen, calls);
      seen := seen + [c];
      j := j + 1;
      assert current[..j] == current[..j - 1] + [c];
    }
    assert current[..j] == current;
  }

  lemma CallsAppend(calls: seq<CapabilityCall>, desired: seq<string>, current: seq<string>)
    ensures calls + AddedCalls(Seqs.Missing(desired, current)) + RemovedCalls(Seqs.Missing(current, desired)) ==
            calls + ReconcileCalls(desired, current)
  {
  }

  /** The two loops of the `siteInfo` handler over a snapshot of the list. */
  method Reconcile(dev: TeslemetryDevice, desired: seq<string>)
    modifies dev
    ensures dev.capabilities == Reconciled(desired, old(dev.capabilities))
    ensures dev.capabilityCalls == old(dev.capabilityCalls) + ReconcileCalls(desired, old(dev.capabilities))
    ensures dev.values == old(dev.values) && dev.writes == old(dev.writes)
    ensures dev.available == old(dev.available) && dev.unavailableMessage == old(dev.unavailableMessage)
  {
    var current := dev.capabilities;
    ghost var calls := dev.capabilityCalls;
    AddMissing(dev, desired);
    KeptAfterAdded(current, desired);
    RemoveUndesired(dev, desired, current);
    CallsAppend(calls, desired, current);
  }

  /** The `siteInfo` handler: without a response nothing happens; without
      components `getCapabilities` throws before any change; otherwise the
      list is reconciled with `getCapabilities` and the updates are made. */
  method SiteInfo(dev: TeslemetryDevice, response: Option<SiteInfo>, rejected: set<string>)
    modifies dev
    ensures response.None? || response.value.components.None? ==> unchanged(dev)
    ensures response.Some? && response.value.components.Some? ==>
      var c := response.value.components.value;
      var desired := Capabilities.Desired(c);
      && dev.capabilities == Reconciled(desired, old(dev.capabilities))
      && dev.capabilityCalls == old(dev.capabilityCalls) + ReconcileCalls(desired, old(dev.capabilities))
      && dev.values == Store(old(dev.values), dev.capabilities, SiteInfoUpdates(response.value, c), rejected)
      && dev.writes == old(dev.writes) + Writes(dev.capabilities, SiteInfoUpdates(response.value, c))
  {
    if response.None? || response.value.components.None? {
      return;
    }
    var d := response.value;
    var c := d.components.value;
    var deviceClass, desired := Capabilities.GetCapabilities(c);
    Reconcile(dev, desired);
    dev.ApplyAll(SiteInfoUpdates(d, c), rejected);
  }

  /** After the `siteInfo` handler the device exposes exactly the capabilities
      its components call for, and writes only to those. */
  method SiteInfoAligns(dev: TeslemetryDevice, d: SiteInfo, c: Components, rejected: set<string>)
    requires d.components == Some(c)
    modifies dev
    ensures forall x :: x in dev.capabilities <==> Capabilities.Selected(c, x)
    ensures |old(dev.writes)| <= |dev.writes|
    ensures forall w :: w in dev.writes[|old(dev.writes)|..] ==> Capabilities.Selected(c, w.0)
  {
    SiteInfo(dev, Some(d), rejected);
    ReconciledIsDesired(Capabilities.Desired(c), old(dev.capabilities));
    forall x ensures x in dev.capabilities <==> Capabilities.Selected(c, x) {
      Capabilities.DesiredMembers(c, x);
    }
    WritesAreGuarded(dev.capabilities, SiteInfoUpdates(d, c));
    assert dev.writes[|old(dev.writes)|..] == Writes(dev.capabilities, SiteInfoUpdates(d, c));
  }

  /** The example of a solar-only site: a device holding the solar group and
      one stale capability loses only that one. */
  method SolarOnlyRemovesStale(dev: TeslemetryDevice, d: SiteInfo, c: Components, stale: string, rejected: set<string>)
    requires d.components == Some(c)
    requires c.solar && !c.battery && !c.storm_mode_capable && !c.backup && !c.grid && !c.load_meter
    requires dev.capabilities == Capabilities.SOLAR + [stale] && stale !in Capabilities.SOLAR
    modifies dev
    ensures dev.capabilities == Capabilities.SOLAR
    ensures dev.capabilityCalls == old(dev.capabilityCalls) + [Removed(stale)]
  {
    Capabilities.SolarOnly(c);
    StaleOnlyRemoved(Capabilities.SOLAR, stale);
    SiteInfo(dev, Some(d), rejected);
  }
}
