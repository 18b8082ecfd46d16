/**
 * The setup wizard: whether it is required, the generated client identity,
 * the default device record it stores for the chosen outlet, and the
 * connection attempt that stores the gateway credentials and the devices
 * found on the gateway.
 *
 * Request bodies are records; psk generation, the uuid and the device
 * listing are inputs.
 */
module WizardMixin {
  import opened Values
  import opened DeviceList
  import opened TradfriDevice

  /** `is_wizard_required`: some credential is still the empty string. */
  predicate IsWizardRequired(values: map<string, Value>)
  {
    Setting(values, "gateway_ip") == VStr("") || Setting(values, "psk") == VStr("")
      || Setting(values, "identity") == VStr("")
  }

  /**
   * A fresh installation starts in the wizard: the declared defaults leave
   * every credential empty, and with any credential empty the wizard is
   * required whatever the other two hold.
   */
  lemma DefaultsRequireWizard(values: map<string, Value>)
    ensures IsWizardRequired(DefaultValues())
    ensures Setting(DefaultValues(), "gateway_ip") == VStr("") && Setting(DefaultValues(), "psk") == VStr("")
            && Setting(DefaultValues(), "identity") == VStr("")
    ensures forall key :: key in {"gateway_ip", "psk", "identity"} && Setting(values, key) == VStr("") ==>
              IsWizardRequired(values)
  {
  }

  /** `get_wizard_version`. */
  const WizardVersion := 2

  /** `is_wizard_ignored`: never, whatever the wizards seen so far. */
  predicate IsWizardIgnored(seenWizards: map<string, Value>, implementation: Value)
  {
    false
  }

  const UserIdPrefix := "OctoPrintTradfriV2Plugin-"

  predicate IsHex(c: char)
  {
    '0' <= c <= '9' || 'a' <= c <= 'f'
  }

  /** `get_user_id()`: the prefix and the first six characters of a uuid's 32 hex digits. */
  function UserId(uuidHex: string): (r: string)
    requires |uuidHex| == 32
    ensures |r| == |UserIdPrefix| + 6
    ensures r[..|UserIdPrefix|] == UserIdPrefix && r[|UserIdPrefix|..] == uuidHex[..6]
    ensures (forall k :: 0 <= k < 32 ==> IsHex(uuidHex[k])) ==>
              forall k :: |UserIdPrefix| <= k < |r| ==> IsHex(r[k])
  {
    UserIdPrefix + uuidHex[..6]
  }

  /** The record the wizard stores for the outlet it was given. */
  function DefaultDevice(id: Value): Record
  {
    map["name" := VStr("Printer"), "id" := id, "type" := VStr("Outlet"),
        "connection_timer" := VInt(5), "stop_timer" := VInt(30), "postpone_delay" := VInt(30),
        "turn_off_mode" := VStr("cooldown"), "cooldown_bed" := VInt(-1), "cooldown_hotend" := VInt(50),
        "on_done" := VBool(true), "on_failed" := VBool(false), "icon" := VStr("plug"),
        "nav_name" := VBool(false), "nav_icon" := VBool(true)]
  }

  /**
   * The wizard's record switches off by cooldown (bed check disabled, hot
   * end at 50). It holds every key the settings migration adds except
   * `connect_palette2`, so the migration adds just that key, as False.
   */
  lemma DefaultDeviceMigration(id: Value)
    ensures DefaultDevice(id)["id"] == id
    ensures DefaultDevice(id)["turn_off_mode"] == VStr("cooldown")
    ensures DefaultDevice(id)["cooldown_bed"] == VInt(-1) && DefaultDevice(id)["cooldown_hotend"] == VInt(50)
    ensures DefaultDevice(id)["stop_timer"] == VInt(30)
    ensures !Complete(DefaultDevice(id))
    ensures WithDefaults(DefaultDevice(id)) == DefaultDevice(id)["connect_palette2" := VBool(false)]
  {
    var d := DefaultDevice(id);
    assert "connect_palette2" !in d;
    assert WithDefaults(d).Keys == d["connect_palette2" := VBool(false)].Keys;
  }

  /** The answer of one wizard route: its status code and, on success, the devices it reports. */
  datatype Reply = Reply(status: int, devices: seq<Record>)

  /**
   * `wizard_set_outlet`: 400 without writing when the body lacks
   * `selected_outlet`; otherwise the selected devices become the single
   * default record for that outlet, saved once.
   */
  method WizardSetOutlet(settings: Settings, body: Record) returns (reply: Reply)
    modifies settings
    ensures "selected_outlet" !in body ==> reply.status == 400 && unchanged(settings)
    ensures "selected_outlet" in body ==>
      && reply.status == 200
      && settings.selectedDevices == [DefaultDevice(body["selected_outlet"])]
      && settings.saves == old(settings.saves) + 1
      && settings.values == old(settings.values) && settings.devices == old(settings.devices)
  {
    if "selected_outlet" !in body {
      return Reply(400, []);
    }
    var dev := DefaultDevice(body["selected_outlet"]);
    settings.selectedDevices := [dev];
    settings.saves := settings.saves + 1;
    reply := Reply(200, []);
  }

  /** What psk generation did: raised a PytradfriError, returned None (a timeout), or returned a key. */
  datatype PskOutcome = PskRaised | PskNone | PskKey(key: string)

  /** The settings values after a successful psk exchange. */
  function Connected(values: map<string, Value>, identity: string, psk: string, gateway: Value): (r: map<string, Value>)
    ensures r.Keys == values.Keys + {"identity", "psk", "gateway_ip"}
    ensures r["identity"] == VStr(identity) && r["psk"] == VStr(psk) && r["gateway_ip"] == gateway
    ensures forall k :: k in values && k !in {"identity", "psk", "gateway_ip"} ==> r[k] == values[k]
  {
    values["identity" := VStr(identity)]["psk" := VStr(psk)]["gateway_ip" := gateway]
  }

  /**
   * After a successful exchange the wizard is required again exactly when
   * the gateway or the key stored was empty; the identity never is.
   */
  lemma ConnectedEndsWizard(values: map<string, Value>, uuidHex: string, psk: string, gateway: Value)
    requires |uuidHex| == 32
    ensures IsWizardRequired(Connected(values, UserId(uuidHex), psk, gateway)) <==> gateway == VStr("") || psk == ""
  {
    var id := UserId(uuidHex);
    assert id[0] == 'O';
  }

  /**
   * `wizard_try_connect`. 400 without writing when `securityCode` or
   * `gateway` is missing from the body; 500 without writing when psk
   * generation raises or yields None. Otherwise the identity, the key and
   * the gateway are stored and saved; then the gateway's devices are
   * listed (`listing`, None when `list_devices` raised, which the host
   * answers with 500). A non-empty listing is stored as records and saved
   * again, and reported; an empty one reports nothing.
   */
  method WizardTryConnect(settings: Settings, body: Record, uuidHex: string, psk: PskOutcome,
                          listing: Option<seq<RawDevice>>) returns (reply: Reply)
    requires |uuidHex| == 32
    modifies settings
    ensures "securityCode" !in body || "gateway" !in body ==> reply.status == 400 && unchanged(settings)
    ensures "securityCode" in body && "gateway" in body && !psk.PskKey? ==> reply.status == 500 && unchanged(settings)
    ensures "securityCode" in body && "gateway" in body && psk.PskKey? ==>
      && settings.values == Connected(old(settings.values), UserId(uuidHex), psk.key, body["gateway"])
      && settings.selectedDevices == old(settings.selectedDevices)
      && (listing.None? ==> reply.status == 500 && settings.devices == old(settings.devices)
                            && settings.saves == old(settings.saves) + 1)
      && (listing.Some? && listing.value == [] ==>
            reply == Reply(200, []) && settings.devices == old(settings.devices)
            && settings.saves == old(settings.saves) + 1)
      && (listing.Some? && listing.value != [] ==>
            && reply.status == 200
            && |reply.devices| == |listing.value|
            && (forall k :: 0 <= k < |listing.value| ==> reply.devices[k] == ToDict(listing.value[k]))
            && settings.devices == reply.devices
            && settings.saves == old(settings.saves) + 2)
  {
    if "securityCode" !in body || "gateway" !in body {
      return Reply(400, []);
    }
    var gateway := body["gateway"];
    var identity := UserId(uuidHex);
    if !psk.PskKey? {
      return Reply(500, []);
    }
    settings.values := settings.values["identity" := VStr(identity)];
    settings.values := settings.values["psk" := VStr(psk.key)];
    settings.values := settings.values["gateway_ip" := gateway];
    settings.saves := settings.saves + 1;
    if listing.None? {
      return Reply(500, []);
    }
    var devices := listing.value;
    if devices == [] {
      return Reply(200, []);
    }
    var records := [];
    for i := 0 to |devices|
      invariant |records| == i
      invariant forall k :: 0 <= k < i ==> records[k] == ToDict(devices[k])
    {
      records := records + [ToDict(devices[i])];
    }
    settings.devices := records;
    settings.saves := settings.saves + 1;
    reply := Reply(200, records);
  }
}
