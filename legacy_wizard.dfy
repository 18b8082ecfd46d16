/**
 * The older copy of the setup wizard, which is not wired into the plugin:
 * version 1, a constant client identity, and a connection attempt that
 * fails before writing anything; as intended, it would report the devices
 * already stored instead of listing the gateway.
 */
module LegacyWizard {
  import opened Values
  import WizardMixin

  /** `get_wizard_version`. */
  const WizardVersion := 1

  /** `userId`: the identity every connection attempt uses. */
  const UserId := "OctoPrint_Tradfri_Plugin"

  /** `is_wizard_required`: as in the current wizard, some credential is the empty string. */
  predicate IsWizardRequired(values: map<string, Value>)
  {
    WizardMixin.IsWizardRequired(values)
  }

  /**
   * `wizard_set_outlet`: the same as the current wizard's: 400 without
   * writing when `selected_outlet` is missing, otherwise exactly the one
   * default record, saved once.
   */
  method WizardSetOutlet(settings: Settings, body: Record) returns (reply: WizardMixin.Reply)
    modifies settings
    ensures "selected_outlet" !in body ==> reply.status == 400 && unchanged(settings)
    ensures "selected_outlet" in body ==>
      && reply.status == 200
      && settings.selectedDevices == [WizardMixin.DefaultDevice(body["selected_outlet"])]
      && settings.saves == old(settings.saves) + 1
      && settings.values == old(settings.values) && settings.devices == old(settings.devices)
  {
    reply := WizardMixin.WizardSetOutlet(settings, body);
  }

  /** How the route ends: an answer to the client, or an exception the route does not catch. */
  datatype Answer = Replied(reply: WizardMixin.Reply) | AttributeError

  /**
   * `wizard_try_connect` as written. 400 when `securityCode` or `gateway` is
   * missing. Otherwise the route asks the imported client class for
   * `generate_psk`, which that class does not have (the function is defined
   * at module level beside it), so an AttributeError leaves the route before
   * any setting is written. The method may modify nothing, so the settings
   * stay as they were on every path.
   */
  method WizardTryConnect(settings: Settings, body: Record) returns (a: Answer)
    ensures "securityCode" !in body || "gateway" !in body ==> a == Replied(WizardMixin.Reply(400, []))
    ensures "securityCode" in body && "gateway" in body ==> a == AttributeError
  {
    if "securityCode" !in body || "gateway" !in body {
      return Replied(WizardMixin.Reply(400, []));
    }
    a := AttributeError;
  }

  /**
   * `wizard_try_connect` as evidently intended, with the module-level
   * `generate_psk` called. 400 without writing when `securityCode` or
   * `gateway` is missing; 500 without writing when psk generation raises or
   * yields None. Otherwise the constant identity, the key and the gateway
   * are stored and saved once, and the devices already stored are
   * reported (none, the "{}" answer, when the list is empty).
   */
  method WizardTryConnectIntended(settings: Settings, body: Record, psk: WizardMixin.PskOutcome)
    returns (reply: WizardMixin.Reply)
    modifies settings
    ensures "securityCode" !in body || "gateway" !in body ==> reply == WizardMixin.Reply(400, []) && unchanged(settings)
    ensures "securityCode" in body && "gateway" in body && !psk.PskKey? ==> reply.status == 500 && unchanged(settings)
    ensures "securityCode" in body && "gateway" in body && psk.PskKey? ==>
      && settings.values == WizardMixin.Connected(old(settings.values), UserId, psk.key, body["gateway"])
      && settings.devices == old(settings.devices) && settings.selectedDevices == old(settings.selectedDevices)
      && settings.saves == old(settings.saves) + 1
      && reply == WizardMixin.Reply(200, old(settings.devices))
  {
    if "securityCode" !in body || "gateway" !in body {
      return WizardMixin.Reply(400, []);
    }
    var gateway := body["gateway"];
    if !psk.PskKey? {
      return WizardMixin.Reply(500, []);
    }
    settings.values := settings.values["identity" := VStr(UserId)];
    settings.values := settings.values["psk" := VStr(psk.key)];
    settings.values := settings.values["gateway_ip" := gateway];
    settings.saves := settings.saves + 1;
    var devices := settings.devices;
    if devices != [] {
      return WizardMixin.Reply(200, devices);
    }
    reply := WizardMixin.Reply(200, []);
  }

  /**
   * After the intended exchange stores the credentials, the wizard is
   * required again exactly when the gateway or the key was empty.
   */
  lemma ConnectedEndsWizard(values: map<string, Value>, psk: string, gateway: Value)
    ensures IsWizardRequired(WizardMixin.Connected(values, UserId, psk, gateway)) <==> gateway == VStr("") || psk == ""
  {
    assert UserId[0] == 'O';
  }
}
