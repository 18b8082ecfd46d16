/**
 * The template configuration: the three fixed configs (settings, wizard,
 * sidebar) followed by one navbar entry per selected device, and the
 * template variables. Two copies of `get_template_configs` exist, differing
 * only in the settings key their bindings target; `pluginKey` selects it.
 */
module TemplateMixin {
  import opened Values

  /** One template config dict; `suffix` and `dataBind` are absent (None) on the fixed configs. */
  datatype TemplateConfig = TemplateConfig(
    kind: string,
    customBindings: bool,
    suffix: Option<string>,
    dataBind: Option<string>,
    classes: seq<string>)

  /** The key the older mixin's bindings target. */
  const MixinKey := "ikea_tradfri"
  /** The key the plugin's own copy targets. */
  const PluginKey := "ikea_tradfri_v2"

  const NavbarClass := "dropdown navbar_plugin_ikea_tradfri"
  const HiddenClass := "navbar_plugin_ikea_tradfri_hidden"

  function FixedConfigs(): seq<TemplateConfig>
  {
    [TemplateConfig("settings", true, None, None, []),
     TemplateConfig("wizard", true, None, None, []),
     TemplateConfig("sidebar", true, None, None, [])]
  }

  /**
   * The keys the loop reads from a device: `nav_name`, then `nav_icon` only
   * when `nav_name` is falsy (the `and` short-circuits), then `id`.
   */
  predicate NavReadable(dev: Record)
  {
    "nav_name" in dev && (Truthy(dev["nav_name"]) || "nav_icon" in dev) && "id" in dev
  }

  /** `not dev['nav_name'] and not dev['nav_icon']`. */
  predicate Hidden(dev: Record)
    requires NavReadable(dev)
  {
    !Truthy(dev["nav_name"]) && !Truthy(dev["nav_icon"])
  }

  /** The knockout binding of the navbar entry at position `i`. */
  function DataBind(pluginKey: string, i: nat): string
  {
    BindHead + (NatToString(i) + BindTail(pluginKey, i))
  }

  const BindHead := "let: {idev: "

  /** What follows the first rendering of the position: a non-digit, then the device lookup. */
  function BindTail(pluginKey: string, i: nat): (t: string)
    ensures |t| > 0 && !IsDigit(t[0])
  {
    ", dev: settings.settings.plugins." + pluginKey + ".selected_devices()[" + NatToString(i) + "] }"
  }

  /** The navbar entry of device `dev` at position `i`. */
  function NavbarEntry(pluginKey: string, dev: Record, i: nat): (c: TemplateConfig)
    requires NavReadable(dev)
    ensures c.kind == "navbar" && c.customBindings
    ensures c.suffix == Some("_" + Str(dev["id"]))
    ensures c.dataBind == Some(DataBind(pluginKey, i))
    ensures |c.classes| > 0 && c.classes[0] == NavbarClass
    ensures Hidden(dev) <==> c.classes == [NavbarClass, HiddenClass]
    ensures !Hidden(dev) <==> c.classes == [NavbarClass]
  {
    TemplateConfig("navbar", true, Some("_" + Str(dev["id"])), Some(DataBind(pluginKey, i)),
                   if Hidden(dev) then [NavbarClass, HiddenClass] else [NavbarClass])
  }

  /**
   * `get_template_configs`: exactly the fixed configs, in order, then one
   * navbar entry per selected device, in list order.
   */
  method TemplateConfigs(pluginKey: string, devices: seq<Record>) returns (configs: seq<TemplateConfig>)
    requires forall k :: 0 <= k < |devices| ==> NavReadable(devices[k])
    ensures |configs| == |FixedConfigs()| + |devices|
    ensures configs[..|FixedConfigs()|] == FixedConfigs()
    ensures forall k :: 0 <= k < |devices| ==> configs[|FixedConfigs()| + k] == NavbarEntry(pluginKey, devices[k], k)
  {
    configs := FixedConfigs();
    for i := 0 to |devices|
      invariant |configs| == |FixedConfigs()| + i
      invariant configs[..|FixedConfigs()|] == FixedConfigs()
      invariant forall k :: 0 <= k < i ==> configs[|FixedConfigs()| + k] == NavbarEntry(pluginKey, devices[k], k)
    {
      var dev := devices[i];
      var hidden := !Truthy(dev["nav_name"]) && !Truthy(dev["nav_icon"]);
      var classes := [NavbarClass];
      if hidden {
        classes := classes + [HiddenClass];
      }
      var item := TemplateConfig("navbar", true, Some("_" + Str(dev["id"])), Some(DataBind(pluginKey, i)), classes);
      configs := configs + [item];
    }
  }

  /** Two digit strings followed by a non-digit can only be equal as wholes when they are equal. */
  lemma DigitsPrefix(a: string, x: string, b: string, y: string)
    requires forall k :: 0 <= k < |a| ==> IsDigit(a[k])
    requires forall k :: 0 <= k < |b| ==> IsDigit(b[k])
    requires |x| > 0 && !IsDigit(x[0]) && |y| > 0 && !IsDigit(y[0])
    requires a + x == b + y
    ensures a == b
  {
    var m := if |a| < |b| then |a| else |b|;
    assert (a + x)[m] == (b + y)[m];
    assert |a| == |b|;
    assert a == (a + x)[..|a|];
    assert b == (b + y)[..|b|];
  }

  /** Distinct positions get distinct bindings, so every navbar entry binds its own device. */
  lemma DataBindInjective(pluginKey: string, i: nat, j: nat)
    ensures DataBind(pluginKey, i) == DataBind(pluginKey, j) ==> i == j
  {
    if DataBind(pluginKey, i) == DataBind(pluginKey, j) {
      var si := NatToString(i) + BindTail(pluginKey, i);
      var sj := NatToString(j) + BindTail(pluginKey, j);
      assert si == DataBind(pluginKey, i)[|BindHead|..];
      assert sj == DataBind(pluginKey, j)[|BindHead|..];
      NatToStringRoundTrip(i);
      NatToStringRoundTrip(j);
      DigitsPrefix(NatToString(i), BindTail(pluginKey, i), NatToString(j), BindTail(pluginKey, j));
      NatToStringInjective(i, j);
    }
  }

  /** The bindings of the two copies differ at every position: the plugin's names the longer key. */
  lemma CopiesBindDifferentKeys(i: nat)
    ensures |DataBind(PluginKey, i)| == |DataBind(MixinKey, i)| + 3
    ensures DataBind(MixinKey, i) != DataBind(PluginKey, i)
  {
  }

  /** The template variables. */
  datatype TemplateVars = TemplateVars(
    devices: seq<Record>,
    status: string,
    shutdownAt: map<Value, Option<int>>,
    hasPalette2: bool)

  /** `get_template_vars`: the plugin's state passed through, and whether palette2 is enabled. */
  function TemplateVarsOf(devices: seq<Record>, status: string, shutdownAt: map<Value, Option<int>>,
                          enabledPlugins: set<string>): (r: TemplateVars)
    ensures r.hasPalette2 <==> "palette2" in enabledPlugins
    ensures r.devices == devices && r.status == status && r.shutdownAt == shutdownAt
  {
    TemplateVars(devices, status, shutdownAt, "palette2" in enabledPlugins)
  }
}
