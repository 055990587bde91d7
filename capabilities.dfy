/** The capability set an energy site exposes, chosen by the components its
    site information reports. Each component flag selects one group; the
    result is their union as an insertion-ordered set. */
module Capabilities {
  import opened Wrappers
  import opened Catalog
  import Seqs

  const BATTERY: seq<string> :=
    ["measure_battery", "measure_power_battery", "charge_from_grid", "allow_export", "operation_mode"]
  const STORM_MODE: seq<string> := ["storm_watch", "alarm_storm_watch_active"]
  const BACKUP: seq<string> := ["backup_reserve"]
  const SOLAR: seq<string> := ["measure_power_solar", "allow_export"]
  const GRID: seq<string> := ["alarm_off_grid", "measure_power_grid", "alarm_island_status"]
  const LOAD_METER: seq<string> := ["measure_power_load"]

  function Opt(flag: bool, group: seq<string>): seq<seq<string>> {
    if flag then [group] else []
  }

  /** The groups the flags select, in the order they are added. */
  function Groups(c: Components): seq<seq<string>> {
    Opt(c.solar, SOLAR) + (Opt(c.battery, BATTERY) + (Opt(c.storm_mode_capable, STORM_MODE) +
    (Opt(c.backup, BACKUP) + (Opt(c.grid, GRID) + Opt(c.load_meter, LOAD_METER)))))
  }

  /** The capability list `getCapabilities` returns. */
  function Desired(c: Components): seq<string> {
    Seqs.UnionAll([], Groups(c))
  }

  /** A capability belongs to the group of a flag. */
  predicate Selected(c: Components, x: string) {
    || (c.solar && x in SOLAR)
    || (c.battery && x in BATTERY)
    || (c.storm_mode_capable && x in STORM_MODE)
    || (c.backup && x in BACKUP)
    || (c.grid && x in GRID)
    || (c.load_meter && x in LOAD_METER)
  }

  /** A capability that some combination of components exposes. */
  predicate Exposable(x: string) {
    x in SOLAR || x in BATTERY || x in STORM_MODE || x in BACKUP || x in GRID || x in LOAD_METER
  }

  /** One guarded `forEach` of `getCapabilities`: the group is added when its flag is set. */
  function AddIf(acc: seq<string>, flag: bool, group: seq<string>): seq<string> {
    if flag then Seqs.InsertAll(acc, group) else acc
  }

  lemma UnionAllStep(acc: seq<string>, flag: bool, g: seq<string>, rest: seq<seq<string>>)
    ensures Seqs.UnionAll(acc, Opt(flag, g) + rest) == Seqs.UnionAll(AddIf(acc, flag, g), rest)
  {
    if flag {
      assert ([g] + rest)[0] == g && ([g] + rest)[1..] == rest;
    } else {
      assert [] + rest == rest;
    }
  }

  /** The union of the selected groups is what the six guarded additions build, in turn. */
  lemma DesiredInTurn(c: Components)
    ensures Desired(c) ==
      AddIf(AddIf(AddIf(AddIf(AddIf(AddIf([], c.solar, SOLAR), c.battery, BATTERY),
        c.storm_mode_capable, STORM_MODE), c.backup, BACKUP), c.grid, GRID), c.load_meter, LOAD_METER)
  {
    var g6 := Opt(c.load_meter, LOAD_METER);
    var g5 := Opt(c.grid, GRID) + g6;
    var g4 := Opt(c.backup, BACKUP) + g5;
    var g3 := Opt(c.storm_mode_capable, STORM_MODE) + g4;
    var g2 := Opt(c.battery, BATTERY) + g3;
    var a1 := AddIf([], c.solar, SOLAR);
    var a2 := AddIf(a1, c.battery, BATTERY);
    var a3 := AddIf(a2, c.storm_mode_capable, STORM_MODE);
    var a4 := AddIf(a3, c.backup, BACKUP);
    var a5 := AddIf(a4, c.grid, GRID);
    UnionAllStep([], c.solar, SOLAR, g2);
    UnionAllStep(a1, c.battery, BATTERY, g3);
    UnionAllStep(a2, c.storm_mode_capable, STORM_MODE, g4);
    UnionAllStep(a3, c.backup, BACKUP, g5);
    UnionAllStep(a4, c.grid, GRID, g6);
    assert g6 == g6 + [];
    UnionAllStep(a5, c.load_meter, LOAD_METER, []);
  }

  /** `group.forEach((c) => capabilities.add(c))` */
  method AddEach(s: seq<string>, group: seq<string>) returns (r: seq<string>)
    ensures r == Seqs.InsertAll(s, group)
  {
    r := s;
    var i := 0;
    while i < |group|
      invariant 0 <= i <= |group|
      invariant Seqs.InsertAll(r, group[i..]) == Seqs.InsertAll(s, group)
    {
      assert group[i..][0] == group[i] && group[i..][1..] == group[i + 1..];
      if group[i] !in r {
        r := r + [group[i]];
      }
      i := i + 1;
    }
  }

  /** `if (flag) group.forEach((c) => capabilities.add(c))` */
  method AddGroupIf(s: seq<string>, flag: bool, group: seq<string>) returns (r: seq<string>)
    ensures r == AddIf(s, flag, group)
  {
    r := s;
    if flag {
      r := AddEach(s, group);
    }
  }

  /** `getCapabilities(siteInfo)` on the site's components. */
  method GetCapabilities(c: Components) returns (deviceClass: Option<string>, capabilities: seq<string>)
    ensures capabilities == Desired(c)
    ensures deviceClass == if c.battery then Some("battery") else if c.solar then Some("solar") else None
  {
    deviceClass := None;
    if c.solar {
      deviceClass := Some("solar");
    }
    capabilities := AddGroupIf([], c.solar, SOLAR);
    if c.battery {
      deviceClass := Some("battery");
    }
    capabilities := AddGroupIf(capabilities, c.battery, BATTERY);
    capabilities := AddGroupIf(capabilities, c.storm_mode_capable, STORM_MODE);
    capabilities := AddGroupIf(capabilities, c.backup, BACKUP);
    capabilities := AddGroupIf(capabilities, c.grid, GRID);
    capabilities := AddGroupIf(capabilities, c.load_meter, LOAD_METER);
    DesiredInTurn(c);
  }

  /** The returned list has no duplicates. */
  lemma DesiredNoDup(c: Components)
    ensures Seqs.NoDup(Desired(c))
  {
    Seqs.UnionAllNoDup([], Groups(c));
  }

  lemma InGroups(c: Components, x: string)
    ensures (exists g :: g in Groups(c) && x in g) <==> Selected(c, x)
  {
    var gs := Groups(c);
    if Selected(c, x) {
      if c.solar && x in SOLAR { assert SOLAR in gs; }
      else if c.battery && x in BATTERY { assert BATTERY in gs; }
      else if c.storm_mode_capable && x in STORM_MODE { assert STORM_MODE in gs; }
      else if c.backup && x in BACKUP { assert BACKUP in gs; }
      else if c.grid && x in GRID { assert GRID in gs; }
      else { assert LOAD_METER in gs; }
    }
  }

  /** A capability is returned exactly when it is in the group of a set flag:
      every set flag contributes its whole group, and nothing else appears. */
  lemma DesiredMembers(c: Components, x: string)
    ensures x in Desired(c) <==> Selected(c, x)
  {
    Seqs.UnionAllMembers([], Groups(c), x);
    InGroups(c, x);
  }

  /** With no flag set there is nothing to expose. */
  lemma NoComponentsNoCapabilities(c: Components)
    requires !c.solar && !c.battery && !c.storm_mode_capable && !c.backup && !c.grid && !c.load_meter
    ensures Desired(c) == []
  {
    assert Groups(c) == [];
  }

  /** The group shared by solar and battery appears once. */
  lemma AllowExportOnce(c: Components)
    requires c.solar && c.battery
    ensures Seqs.Count(Desired(c), "allow_export") == 1
  {
    DesiredNoDup(c);
    DesiredMembers(c, "allow_export");
    Seqs.CountNoDup(Desired(c), "allow_export");
  }

  /** Component flags ordered pointwise. */
  predicate FewerFlags(a: Components, b: Components) {
    && (a.solar ==> b.solar) && (a.battery ==> b.battery)
    && (a.storm_mode_capable ==> b.storm_mode_capable) && (a.backup ==> b.backup)
    && (a.grid ==> b.grid) && (a.load_meter ==> b.load_meter)
  }

  /** Setting more flags never removes a capability. */
  lemma MoreFlagsMoreCapabilities(a: Components, b: Components, x: string)
    requires FewerFlags(a, b) && x in Desired(a)
    ensures x in Desired(b)
  {
    DesiredMembers(a, x);
    DesiredMembers(b, x);
  }

  /** A site with only solar exposes the solar group, in its order. */
  lemma SolarOnly(c: Components)
    requires c.solar && !c.battery && !c.storm_mode_capable && !c.backup && !c.grid && !c.load_meter
    ensures Desired(c) == SOLAR
  {
    assert Groups(c) == [SOLAR];
    assert SOLAR[1..] == ["allow_export"] && SOLAR[1..][1..] == [];
    assert Seqs.InsertAll([], SOLAR) == Seqs.InsertAll(["measure_power_solar"], ["allow_export"]);
    assert Seqs.InsertAll(["measure_power_solar"], ["allow_export"]) == SOLAR;
    assert [SOLAR][1..] == [];
    assert Seqs.UnionAll([], [SOLAR]) == Seqs.UnionAll(Seqs.InsertAll([], SOLAR), []);
  }
}
