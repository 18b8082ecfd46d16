/**
 * The plugin's edits of its list of configured devices (`selected_devices`)
 * and of each device record: lookup by id, upsert and delete by id, adopting
 * the discovered type, and the defaults that settings migration fills in.
 * These are the specifications the plugin's in-place loops are proved against.
 */
module DeviceList {
  import opened Values

  /** Every record has an `id` key, so `dev['id']` never raises. */
  predicate HasIds(devs: seq<Record>)
  {
    forall k :: 0 <= k < |devs| ==> "id" in devs[k]
  }

  /** Position of the first record whose id equals `id`. */
  function FirstIndex(devs: seq<Record>, id: Value): (r: Option<nat>)
    requires HasIds(devs)
    ensures r.Some? ==> r.value < |devs| && devs[r.value]["id"] == id
    ensures r.Some? ==> forall k :: 0 <= k < r.value ==> devs[k]["id"] != id
    ensures r.None? ==> forall k :: 0 <= k < |devs| ==> devs[k]["id"] != id
  {
    if devs == [] then None
    else if devs[0]["id"] == id then Some(0)
    else match FirstIndex(devs[1..], id)
      case None => None
      case Some(k) => Some(k + 1)
  }

  /** The first record with the given id, as `getDeviceFromId` returns it. */
  function Lookup(devs: seq<Record>, id: Value): Option<Record>
    requires HasIds(devs)
  {
    match FirstIndex(devs, id)
    case None => None
    case Some(k) => Some(devs[k])
  }

  /** The first-match characterisation determines `FirstIndex`. */
  lemma FirstIndexIs(devs: seq<Record>, id: Value, r: Option<nat>)
    requires HasIds(devs)
    requires r.Some? ==> r.value < |devs| && devs[r.value]["id"] == id
    requires r.Some? ==> forall k :: 0 <= k < r.value ==> devs[k]["id"] != id
    requires r.None? ==> forall k :: 0 <= k < |devs| ==> devs[k]["id"] != id
    ensures FirstIndex(devs, id) == r
  {
  }

  /** Two lists whose records agree on where `id` occurs have the same first match. */
  lemma SameMatches(a: seq<Record>, b: seq<Record>, id: Value)
    requires HasIds(a) && HasIds(b) && |a| == |b|
    requires forall k :: 0 <= k < |a| ==> (a[k]["id"] == id <==> b[k]["id"] == id)
    ensures FirstIndex(a, id) == FirstIndex(b, id)
  {
    FirstIndexIs(b, id, FirstIndex(a, id));
  }

  /**
   * `saveDevice`: replace the first record with the same id in place, or
   * append the record when there is none.
   */
  function Upsert(devs: seq<Record>, d: Record): seq<Record>
    requires HasIds(devs) && "id" in d
  {
    match FirstIndex(devs, d["id"])
    case Some(k) => devs[k := d]
    case None => devs + [d]
  }

  /** `deleteDevice`: remove the first record with the given id, if any. */
  function RemoveFirst(devs: seq<Record>, id: Value): seq<Record>
    requires HasIds(devs)
  {
    match FirstIndex(devs, id)
    case Some(k) => devs[..k] + devs[k + 1..]
    case None => devs
  }

  /** How many records carry the given id. */
  function Occurrences(devs: seq<Record>, id: Value): nat
    requires HasIds(devs)
  {
    if devs == [] then 0
    else (if devs[0]["id"] == id then 1 else 0) + Occurrences(devs[1..], id)
  }

  lemma {:induction false} OccurrencesAppend(a: seq<Record>, b: seq<Record>, id: Value)
    requires HasIds(a) && HasIds(b)
    ensures HasIds(a + b)
    ensures Occurrences(a + b, id) == Occurrences(a, id) + Occurrences(b, id)
  {
    if a != [] {
      var ab := a + b;
      assert ab[0] == a[0];
      assert ab[1..] == a[1..] + b;
      OccurrencesAppend(a[1..], b, id);
      assert Occurrences(ab, id) == (if a[0]["id"] == id then 1 else 0) + Occurrences(ab[1..], id);
    } else {
      assert a + b == b;
    }
  }

  /** After an upsert, looking the id up yields the saved record. */
  lemma UpsertThenLookup(devs: seq<Record>, d: Record)
    requires HasIds(devs) && "id" in d
    ensures HasIds(Upsert(devs, d))
    ensures Lookup(Upsert(devs, d), d["id"]) == Some(d)
  {
    var r := Upsert(devs, d);
    match FirstIndex(devs, d["id"])
    case Some(k) =>
      SameMatches(devs, r, d["id"]);
    case None =>
      assert r[|devs|]["id"] == d["id"];
  }

  /**
   * An upsert keeps the list's shape: it either has the same length and
   * differs only at the first match, or it is the old list with the record
   * appended; and the lookup of every other id is unchanged.
   */
  lemma UpsertFrame(devs: seq<Record>, d: Record, id: Value)
    requires HasIds(devs) && "id" in d && id != d["id"]
    ensures HasIds(Upsert(devs, d))
    ensures Lookup(Upsert(devs, d), id) == Lookup(devs, id)
    ensures Occurrences(devs, d["id"]) > 0 ==>
      |Upsert(devs, d)| == |devs| &&
      forall k :: 0 <= k < |devs| && k != FirstIndex(devs, d["id"]).value ==> Upsert(devs, d)[k] == devs[k]
    ensures Occurrences(devs, d["id"]) == 0 ==> Upsert(devs, d) == devs + [d]
  {
    OccurrencesNone(devs, d["id"]);
    match FirstIndex(devs, d["id"])
    case Some(k) =>
      ReplaceFrame(devs, k, d, id);
    case None =>
      AppendFrame(devs, d, id);
  }

  lemma ReplaceFrame(devs: seq<Record>, k: nat, d: Record, id: Value)
    requires HasIds(devs) && "id" in d && id != d["id"] && k < |devs| && devs[k]["id"] == d["id"]
    ensures HasIds(devs[k := d]) && Lookup(devs[k := d], id) == Lookup(devs, id)
  {
    var r := devs[k := d];
    SameMatches(devs, r, id);
    var f := FirstIndex(devs, id);
    if f.Some? {
      assert f.value != k && r[f.value] == devs[f.value];
    }
  }

  lemma AppendFrame(devs: seq<Record>, d: Record, id: Value)
    requires HasIds(devs) && "id" in d && id != d["id"]
    ensures HasIds(devs + [d]) && Lookup(devs + [d], id) == Lookup(devs, id)
  {
    var r := devs + [d];
    var f := FirstIndex(devs, id);
    assert forall k :: 0 <= k < |devs| ==> r[k] == devs[k];
    assert r[|devs|] == d;
    FirstIndexIs(r, id, f);
  }

  /** An id occurs exactly when a first match exists. */
  lemma {:induction false} OccurrencesNone(devs: seq<Record>, id: Value)
    requires HasIds(devs)
    ensures FirstIndex(devs, id).None? <==> Occurrences(devs, id) == 0
  {
    if devs != [] {
      OccurrencesNone(devs[1..], id);
    }
  }

  /**
   * A delete removes exactly one record with the id when there is one (so
   * later duplicates stay), keeps the order of the others, and leaves the
   * lookup of every other id unchanged.
   */
  lemma RemoveFirstFrame(devs: seq<Record>, id: Value, other: Value)
    requires HasIds(devs) && other != id
    ensures HasIds(RemoveFirst(devs, id))
    ensures Occurrences(devs, id) > 0 ==> Occurrences(RemoveFirst(devs, id), id) == Occurrences(devs, id) - 1
    ensures Occurrences(devs, id) > 0 ==> |RemoveFirst(devs, id)| == |devs| - 1
    ensures Occurrences(devs, id) == 0 ==> RemoveFirst(devs, id) == devs
    ensures Lookup(RemoveFirst(devs, id), other) == Lookup(devs, other)
  {
    OccurrencesNone(devs, id);
    match FirstIndex(devs, id)
    case None =>
    case Some(k) =>
      assert RemoveFirst(devs, id) == devs[..k] + devs[k + 1..];
      RemoveAtOccurrences(devs, k, id);
      RemoveAtLookup(devs, k, other);
  }

  /** Removing one record that carries `id` removes one occurrence of it. */
  lemma RemoveAtOccurrences(devs: seq<Record>, k: nat, id: Value)
    requires HasIds(devs) && k < |devs| && devs[k]["id"] == id
    ensures HasIds(devs[..k] + devs[k + 1..])
    ensures Occurrences(devs[..k] + devs[k + 1..], id) == Occurrences(devs, id) - 1
  {
    var a, m, b := devs[..k], [devs[k]], devs[k + 1..];
    assert devs == a + m + b;
    assert HasIds(a) && HasIds(m) && HasIds(b);
    OccurrencesAppend(a, b, id);
    OccurrencesAppend(a + m, b, id);
    OccurrencesAppend(a, m, id);
    assert Occurrences(m, id) == 1 by {
      assert m[1..] == [];
    }
  }

  /** Removing a record that does not carry `other` keeps the first match of `other`. */
  lemma RemoveAtLookup(devs: seq<Record>, k: nat, other: Value)
    requires HasIds(devs) && k < |devs| && devs[k]["id"] != other
    ensures HasIds(devs[..k] + devs[k + 1..])
    ensures Lookup(devs[..k] + devs[k + 1..], other) == Lookup(devs, other)
  {
    var r := devs[..k] + devs[k + 1..];
    assert forall j :: 0 <= j < k ==> r[j] == devs[j];
    assert forall j :: k <= j < |r| ==> r[j] == devs[j + 1];
    var f := FirstIndex(devs, other);
    if f.Some? {
      var p := if f.value < k then f.value else f.value - 1;
      assert r[p] == devs[f.value];
      forall j | 0 <= j < p ensures r[j]["id"] != other {
        if j >= k { assert r[j] == devs[j + 1]; }
      }
      FirstIndexIs(r, other, Some(p));
    } else {
      forall j | 0 <= j < |r| ensures r[j]["id"] != other {
        if j >= k { assert r[j] == devs[j + 1]; }
      }
      FirstIndexIs(r, other, None);
    }
  }

  // ---------------------------------------------------------------------
  // Adopting the discovered type on save
  // ---------------------------------------------------------------------

  /** Every discovered record has both keys `saveDevice` reads. */
  predicate Discovered(ds: seq<Record>)
  {
    forall k :: 0 <= k < |ds| ==> "id" in ds[k] && "type" in ds[k]
  }

  /**
   * `saveDevice`'s first loop: every discovered record with the same id
   * overwrites the saved record's `type`, so the last match wins.
   */
  function AdoptType(device: Record, ds: seq<Record>): (r: Record)
    requires "id" in device && Discovered(ds)
    ensures "id" in r && r["id"] == device["id"]
    decreases |ds|
  {
    if ds == [] then device
    else AdoptType(if ds[0]["id"] == device["id"] then device["type" := ds[0]["type"]] else device, ds[1..])
  }

  /** The position of the last discovered record with the given id. */
  function LastIndex(ds: seq<Record>, id: Value): (r: Option<nat>)
    requires Discovered(ds)
    ensures r.Some? ==> r.value < |ds| && ds[r.value]["id"] == id
    ensures r.Some? ==> forall k :: r.value < k < |ds| ==> ds[k]["id"] != id
    ensures r.None? ==> forall k :: 0 <= k < |ds| ==> ds[k]["id"] != id
  {
    if ds == [] then None
    else if ds[|ds| - 1]["id"] == id then Some(|ds| - 1)
    else LastIndex(ds[..|ds| - 1], id)
  }

  /** The last-match characterisation determines `LastIndex`. */
  lemma LastIndexIs(ds: seq<Record>, id: Value, r: Option<nat>)
    requires Discovered(ds)
    requires r.Some? ==> r.value < |ds| && ds[r.value]["id"] == id
    requires r.Some? ==> forall k :: r.value < k < |ds| ==> ds[k]["id"] != id
    requires r.None? ==> forall k :: 0 <= k < |ds| ==> ds[k]["id"] != id
    ensures LastIndex(ds, id) == r
  {
  }

  /**
   * The saved record keeps everything but `type`, which becomes that of the
   * last discovered device with the same id; without one it is unchanged.
   */
  lemma {:induction false} AdoptTypeLastMatch(device: Record, ds: seq<Record>)
    requires "id" in device && Discovered(ds)
    ensures LastIndex(ds, device["id"]).None? ==> AdoptType(device, ds) == device
    ensures LastIndex(ds, device["id"]).Some? ==>
      AdoptType(device, ds) == device["type" := ds[LastIndex(ds, device["id"]).value]["type"]]
    decreases |ds|
  {
    if ds != [] {
      var id := device["id"];
      var first := if ds[0]["id"] == id then device["type" := ds[0]["type"]] else device;
      assert first["id"] == id;
      AdoptTypeLastMatch(first, ds[1..]);
      var tail := LastIndex(ds[1..], id);
      assert forall k :: 1 <= k < |ds| ==> ds[k] == ds[1..][k - 1];
      if tail.Some? {
        LastIndexIs(ds, id, Some(tail.value + 1));
        assert first["type" := ds[1..][tail.value]["type"]] == device["type" := ds[tail.value + 1]["type"]];
      } else if ds[0]["id"] == id {
        LastIndexIs(ds, id, Some(0));
      } else {
        LastIndexIs(ds, id, None);
      }
    }
  }

  // ---------------------------------------------------------------------
  // Settings migration
  // ---------------------------------------------------------------------

  /** The same defaults as a dict. */
  function DeviceDefaults(): Record
  {
    map["nav_icon" := VBool(true), "nav_name" := VBool(false), "connect_palette2" := VBool(false),
        "turn_off_mode" := VStr("time"), "cooldown_bed" := VInt(-1), "cooldown_hotend" := VInt(50)]
  }

  /** A record that already carries every key migration would add. */
  predicate Complete(d: Record)
  {
    DeviceDefaults().Keys <= d.Keys
  }

  /**
   * A record after migration: each missing key gets its default, each
   * present key keeps its value.
   */
  function WithDefaults(d: Record): (r: Record)
    ensures r.Keys == d.Keys + DeviceDefaults().Keys
    ensures forall k :: k in d ==> r[k] == d[k]
    ensures forall k :: k in DeviceDefaults() && k !in d ==> r[k] == DeviceDefaults()[k]
    ensures Complete(r)
  {
    DeviceDefaults() + d
  }

  /** The defaults are applied once: a complete record is left as it is. */
  lemma WithDefaultsIdempotent(d: Record)
    ensures Complete(d) ==> WithDefaults(d) == d
    ensures WithDefaults(WithDefaults(d)) == WithDefaults(d)
  {
    if Complete(d) {
      assert WithDefaults(d).Keys == d.Keys;
    }
    assert WithDefaults(WithDefaults(d)).Keys == WithDefaults(d).Keys;
  }

  /**
   * One of migration's steps on a partially migrated record `m + d`: adding
   * `key` when it is missing is the same as adding it to the defaults so far.
   */
  lemma DefaultStep(m: Record, d: Record, key: string, v: Value)
    requires key !in m
    ensures key in m + d <==> key in d
    ensures (if key in m + d then m + d else (m + d)[key := v]) == m[key := v] + d
  {
  }

  /**
   * The migration of one record, key by key as `on_settings_migrate` does it:
   * `changed` tells whether any default had to be added.
   */
  method FillDefaults(d: Record) returns (r: Record, changed: bool)
    ensures r == WithDefaults(d)
    ensures changed <==> !Complete(d)
  {
    r, changed := d, false;
    assert r == map[] + d;
    DefaultStep(map[], d, "nav_icon", VBool(true));
    if "nav_icon" !in r {
      r := r["nav_icon" := VBool(true)];
      changed := true;
    }
    ghost var m: Record := map["nav_icon" := VBool(true)];
    DefaultStep(m, d, "nav_name", VBool(false));
    if "nav_name" !in r {
      r := r["nav_name" := VBool(false)];
      changed := true;
    }
    m := m["nav_name" := VBool(false)];
    DefaultStep(m, d, "connect_palette2", VBool(false));
    if "connect_palette2" !in r {
      r := r["connect_palette2" := VBool(false)];
      changed := true;
    }
    m := m["connect_palette2" := VBool(false)];
    DefaultStep(m, d, "turn_off_mode", VStr("time"));
    if "turn_off_mode" !in r {
      r := r["turn_off_mode" := VStr("time")];
      changed := true;
    }
    m := m["turn_off_mode" := VStr("time")];
    DefaultStep(m, d, "cooldown_bed", VInt(-1));
    if "cooldown_bed" !in r {
      r := r["cooldown_bed" := VInt(-1)];
      changed := true;
    }
    m := m["cooldown_bed" := VInt(-1)];
    DefaultStep(m, d, "cooldown_hotend", VInt(50));
    if "cooldown_hotend" !in r {
      r := r["cooldown_hotend" := VInt(50)];
      changed := true;
    }
    m := m["cooldown_hotend" := VInt(50)];
    assert m == DeviceDefaults();
  }

  /** Every record of a list after migration. */
  function MigrateAll(devs: seq<Record>): (r: seq<Record>)
    ensures |r| == |devs|
    ensures forall k :: 0 <= k < |devs| ==> r[k] == WithDefaults(devs[k])
  {
    seq(|devs|, k requires 0 <= k < |devs| => WithDefaults(devs[k]))
  }

  /** Some record lacks a default key, so migration saves the settings. */
  predicate NeedsMigration(devs: seq<Record>)
  {
    exists k :: 0 <= k < |devs| && !Complete(devs[k])
  }

  /** Migrating an already migrated list changes nothing and has nothing to save. */
  lemma MigrationIdempotent(devs: seq<Record>)
    ensures MigrateAll(MigrateAll(devs)) == MigrateAll(devs)
    ensures !NeedsMigration(MigrateAll(devs))
  {
    forall k | 0 <= k < |devs| ensures MigrateAll(MigrateAll(devs))[k] == MigrateAll(devs)[k] {
      WithDefaultsIdempotent(devs[k]);
    }
  }

  /**
   * The single record built from a pre-version-2 configuration: the old
   * `selected_outlet`, and each old timing and event key or its default.
   */
  function LegacyDevice(values: map<string, Value>): Record
  {
    map["name" := VStr("Printer"),
        "id" := Setting(values, "selected_outlet"),
        "type" := VStr("Outlet"),
        "connection_timer" := Or(Setting(values, "connection_timer"), VInt(5)),
        "stop_timer" := Or(Setting(values, "stop_timer"), VInt(30)),
        "postpone_delay" := Or(Setting(values, "postponeDelay"), VInt(30)),
        "on_done" := Or(Setting(values, "on_done"), VBool(false)),
        "on_failed" := Or(Setting(values, "on_failed"), VBool(false)),
        "icon" := Or(Setting(values, "icon"), VStr("plug")),
        "nav_name" := VBool(false),
        "nav_icon" := VBool(true)]
  }

  /** The keys the legacy record carries and lacks, and the values that matter. */
  lemma LegacyDeviceFields(values: map<string, Value>)
    ensures var legacy := LegacyDevice(values);
      && "turn_off_mode" !in legacy && "cooldown_bed" !in legacy
      && "cooldown_hotend" !in legacy && "connect_palette2" !in legacy
      && "id" in legacy && legacy["id"] == Setting(values, "selected_outlet")
      && "stop_timer" in legacy && Truthy(legacy["stop_timer"])
      && "postpone_delay" in legacy && Truthy(legacy["postpone_delay"])
      && "nav_icon" in legacy && legacy["nav_icon"] == VBool(true)
      && "nav_name" in legacy && legacy["nav_name"] == VBool(false)
  {
  }

  /**
   * A migrated legacy configuration is one device, on the old outlet, that
   * switches off on a timer ("time" mode) with the cooldown thresholds at
   * their defaults, and whose stop timer is never falsy.
   */
  lemma LegacyMigration(values: map<string, Value>)
    ensures |MigrateAll([LegacyDevice(values)])| == 1
    ensures var d := MigrateAll([LegacyDevice(values)])[0];
      && Complete(d)
      && d["id"] == Setting(values, "selected_outlet")
      && d["turn_off_mode"] == VStr("time")
      && d["cooldown_bed"] == VInt(-1) && d["cooldown_hotend"] == VInt(50)
      && d["connect_palette2"] == VBool(false)
      && Truthy(d["stop_timer"]) && Truthy(d["postpone_delay"])
      && d["nav_icon"] == VBool(true) && d["nav_name"] == VBool(false)
  {
    var legacy := LegacyDevice(values);
    LegacyDeviceFields(values);
    var d := WithDefaults(legacy);
    assert MigrateAll([legacy])[0] == d;
  }
}
