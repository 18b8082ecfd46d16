/**
 * The plugin object: its per-device deadline and timer slots, the timers it
 * started, the requests it sent, the devices found on the gateway, and the
 * settings store it edits. Every method updates the fields in place as the
 * plugin does and is proved to perform exactly the transition of the
 * scheduler or device-list function that specifies it.
 */
module Plugin {
  import opened Values
  import opened DeviceList
  import Scheduler
  import SchedulerProps
  import TemplateMixin
  import TradfriDevice

  /** The first position at which `devs` holds a record with the given id, found by scanning in order. */
  method FindIndex(devs: seq<Record>, id: Value) returns (r: Option<nat>)
    requires HasIds(devs)
    ensures r == FirstIndex(devs, id)
  {
    var index := -1;
    var i := 0;
    while i < |devs| && index < 0
      invariant 0 <= i <= |devs|
      invariant -1 <= index < i
      invariant index < 0 ==> forall k :: 0 <= k < i ==> devs[k]["id"] != id
      invariant index >= 0 ==> devs[index]["id"] == id && forall k :: 0 <= k < index ==> devs[k]["id"] != id
    {
      if devs[i]["id"] == id {
        index := i;
      }
      i := i + 1;
    }
    r := if index >= 0 then Some(index as nat) else None;
    FirstIndexIs(devs, id, r);
  }

  /** One step of `Fill` over a suffix of the selected devices. */
  lemma FillStep(m: map<Value, Option<int>>, selected: seq<Record>, i: nat)
    requires HasIds(selected) && i < |selected|
    ensures Scheduler.Fill(m, selected[i..]) ==
      Scheduler.Fill(if selected[i]["id"] in m then m else m[selected[i]["id"] := None], selected[i + 1..])
  {
    assert selected[i..][0] == selected[i] && selected[i..][1..] == selected[i + 1..];
  }

  /** One step of `CooldownWait` over a growing prefix of the selected devices. */
  lemma CooldownWaitStep(stopCooldown: map<Value, nat>, selected: seq<Record>, i: nat)
    requires Scheduler.Listed(selected) && i < |selected|
    ensures var w := Scheduler.CooldownWait(stopCooldown, selected[..i]);
            var dev := selected[i];
      Scheduler.CooldownWait(stopCooldown, selected[..i + 1]) ==
        if dev["turn_off_mode"] == VStr("cooldown") then w[dev["id"] := dev["id"] in stopCooldown] else w
  {
    assert selected[..i + 1][..i] == selected[..i] && selected[..i + 1][i] == selected[i];
  }

  /**
   * The watcher's two comparisons, in the source's order: a threshold above
   * -1 reads its temperature (a missing one raises, `readable` false) and
   * is exceeded when the reading is higher.
   */
  method CheckCooldown(temps: Scheduler.Temps, hotendRequest: int, bedRequest: int) returns (readable: bool, ready: bool)
    ensures readable <==> Scheduler.Readable(temps, hotendRequest, bedRequest)
    ensures readable ==> (ready <==> Scheduler.ReadyForStop(temps, hotendRequest, bedRequest))
  {
    ready := true;
    if -1 < bedRequest {
      if temps.bed.None? {
        return false, false;
      }
      if (bedRequest as real) < temps.bed.value {
        ready := false;
      }
    }
    if -1 < hotendRequest {
      if temps.tool0.None? {
        return false, false;
      }
      if (hotendRequest as real) < temps.tool0.value {
        ready := false;
      }
    }
    readable := true;
  }

  /** One step of `on_event`'s loop over the selected devices. */
  lemma OnEventStep(s: Scheduler.Sched, event: string, devs: seq<Record>, i: nat, now: int, selected: seq<Record>)
    requires i < |devs| && Scheduler.Listed(selected)
    requires forall k :: 0 <= k < |devs| ==> Scheduler.EventReady(devs[k], event)
    ensures var dev := devs[i];
      Scheduler.OnEvent(s, event, devs[i..], now, selected) ==
        if Scheduler.SchedulesStop(dev, event) then
          var o := Scheduler.PlanStop(s, dev, false, now, selected);
          if o.raised then o else Scheduler.OnEvent(o.s, event, devs[i + 1..], now, selected)
        else if event == "PrintStarted" then
          Scheduler.OnEvent(s.(book := Scheduler.CancelBoth(s.book, dev["id"])), event, devs[i + 1..], now, selected)
        else
          Scheduler.OnEvent(s, event, devs[i + 1..], now, selected)
  {
    assert devs[i..][0] == devs[i] && devs[i..][1..] == devs[i + 1..];
  }

  /** The records `load_devices` builds from the gateway's devices, in order. */
  function Records(ds: seq<TradfriDevice.RawDevice>): (r: seq<Record>)
    ensures |r| == |ds|
    ensures forall k :: 0 <= k < |ds| ==> r[k] == TradfriDevice.ToDict(ds[k])
  {
    if ds == [] then [] else [TradfriDevice.ToDict(ds[0])] + Records(ds[1..])
  }

  /** Loaded records carry the id and type keys `saveDevice` reads when adopting a type. */
  lemma RecordsDiscovered(rs: seq<Record>)
    requires forall k :: 0 <= k < |rs| ==> rs[k].Keys == {"id", "type", "name"}
    ensures Discovered(rs)
  {
  }

  class Plugin {
    const settings: Settings
    var shutdownAt: map<Value, Option<int>>
    var stopTimer: map<Value, nat>
    var stopCooldown: map<Value, nat>
    var timers: map<nat, Scheduler.Timer>
    var active: set<nat>
    var nextToken: nat
    var effects: seq<Scheduler.Effect>
    var devices: seq<Record>
    var status: string
    var errorMessage: string

    /** The timer bookkeeping held in the fields. */
    function Bookkeeping(): Scheduler.Book
      reads this
    {
      Scheduler.Book(stopTimer, stopCooldown, timers, active, nextToken)
    }

    /** The scheduler state held in the fields. */
    function State(): Scheduler.Sched
      reads this
    {
      Scheduler.Sched(shutdownAt, Bookkeeping(), effects)
    }

    /** A new plugin: nothing scheduled, no devices, status 'waiting'. */
    constructor(settings: Settings)
      ensures this.settings == settings
      ensures State() == Scheduler.Initial()
      ensures devices == [] && status == "waiting" && errorMessage == ""
    {
      this.settings := settings;
      shutdownAt := map[];
      stopTimer := map[];
      stopCooldown := map[];
      timers := map[];
      active := {};
      nextToken := 0;
      effects := [];
      devices := [];
      status := "waiting";
      errorMessage := "";
    }

    // -------------------------------------------------------------------
    // Timer slots
    // -------------------------------------------------------------------

    /** Cancel the device's stop timer and empty its slot, when one is held. */
    method CancelStopSlot(id: Value)
      modifies this
      ensures Bookkeeping() == Scheduler.CancelStop(old(Bookkeeping()), id)
      ensures shutdownAt == old(shutdownAt) && effects == old(effects)
      ensures devices == old(devices) && status == old(status) && errorMessage == old(errorMessage)
    {
      if id in stopTimer {
        active := active - {stopTimer[id]};
        stopTimer := stopTimer - {id};
      }
    }

    /** Cancel the device's cooldown watcher and empty its slot, when one is held. */
    method CancelCooldownSlot(id: Value)
      modifies this
      ensures Bookkeeping() == Scheduler.CancelCooldown(old(Bookkeeping()), id)
      ensures shutdownAt == old(shutdownAt) && effects == old(effects)
      ensures devices == old(devices) && status == old(status) && errorMessage == old(errorMessage)
    {
      if id in stopCooldown {
        active := active - {stopCooldown[id]};
        stopCooldown := stopCooldown - {id};
      }
    }

    /** `threading.Timer(delay, task).start()`. */
    method StartTimer(delay: int, task: Scheduler.Task) returns (token: nat)
      modifies this
      ensures token == old(nextToken)
      ensures Bookkeeping() == Scheduler.Start(old(Bookkeeping()), delay, task)
      ensures shutdownAt == old(shutdownAt) && effects == old(effects)
      ensures devices == old(devices) && status == old(status) && errorMessage == old(errorMessage)
    {
      token := nextToken;
      timers := timers[token := Scheduler.Timer(delay, task)];
      active := active + {token};
      nextToken := nextToken + 1;
    }

    /** Start a stop timer for the device and keep it in the device's slot. */
    method ArmStopSlot(dev: Record, delay: int)
      requires "id" in dev
      modifies this
      ensures Bookkeeping() == Scheduler.ArmStop(old(Bookkeeping()), dev, delay)
      ensures shutdownAt == old(shutdownAt) && effects == old(effects)
      ensures devices == old(devices) && status == old(status) && errorMessage == old(errorMessage)
    {
      var token := StartTimer(delay, Scheduler.StopTask(dev));
      stopTimer := stopTimer[dev["id"] := token];
    }

    /** Start a cooldown watcher due in 5 seconds and keep it in the device's slot. */
    method ArmCooldownSlot(task: Scheduler.Task)
      requires task.CooldownTask? && "id" in task.dev
      modifies this
      ensures Bookkeeping() == Scheduler.ArmCooldown(old(Bookkeeping()), task)
      ensures shutdownAt == old(shutdownAt) && effects == old(effects)
      ensures devices == old(devices) && status == old(status) && errorMessage == old(errorMessage)
    {
      var token := StartTimer(5, task);
      stopCooldown := stopCooldown[task.dev["id"] := token];
    }

    // -------------------------------------------------------------------
    // sidebarInfoData
    // -------------------------------------------------------------------

    /**
     * `sidebarInfoData`: give every selected id without a deadline entry
     * one holding None, and report the deadlines and, per cooldown-mode
     * device, whether its watcher slot is held.
     */
    method SidebarInfoData() returns (deadlines: map<Value, Option<int>>, cooldownWait: map<Value, bool>)
      requires Scheduler.Listed(settings.selectedDevices)
      modifies this`shutdownAt
      ensures State() == Scheduler.FillState(old(State()), settings.selectedDevices)
      ensures devices == old(devices) && status == old(status) && errorMessage == old(errorMessage)
      ensures deadlines == shutdownAt
      ensures cooldownWait == Scheduler.CooldownWait(stopCooldown, settings.selectedDevices)
    {
      var selected := settings.selectedDevices;
      cooldownWait := map[];
      for i := 0 to |selected|
        invariant Scheduler.Fill(shutdownAt, selected[i..]) == Scheduler.Fill(old(shutdownAt), selected)
        invariant cooldownWait == Scheduler.CooldownWait(stopCooldown, selected[..i])
      {
        var dev := selected[i];
        FillStep(shutdownAt, selected, i);
        CooldownWaitStep(stopCooldown, selected, i);
        if dev["id"] !in shutdownAt {
          shutdownAt := shutdownAt[dev["id"] := None];
        }
        if dev["turn_off_mode"] == VStr("cooldown") {
          cooldownWait := cooldownWait[dev["id"] := dev["id"] in stopCooldown];
        }
      }
      assert selected[|selected|..] == [];
      assert selected[..|selected|] == selected;
      deadlines := shutdownAt;
    }

    // -------------------------------------------------------------------
    // Planning a switch-off
    // -------------------------------------------------------------------

    /**
     * `planStopTimeMode`: extend or set the device's deadline, start a stop
     * timer for the time left and keep it in the slot. `raised` is the
     * `KeyError` of a device without a deadline entry.
     */
    method PlanStopTimeMode(dev: Record, delay: int, now: int) returns (raised: bool)
      requires "id" in dev && Scheduler.Listed(settings.selectedDevices)
      modifies this
      ensures Scheduler.Outcome(State(), raised) ==
              Scheduler.PlanStopTimeMode(old(State()), dev, delay, now, settings.selectedDevices)
      ensures devices == old(devices) && status == old(status) && errorMessage == old(errorMessage)
    {
      var id := dev["id"];
      if id !in shutdownAt {
        return true;
      }
      ghost var s0 := State();
      var deadline := now + delay;
      if shutdownAt[id].Some? {
        deadline := shutdownAt[id].value + delay;
      }
      shutdownAt := shutdownAt[id := Some(deadline)];
      var stopIn := deadline - now;
      ArmStopSlot(dev, stopIn);
      assert State() == Scheduler.Sched(s0.shutdownAt[id := Some(Scheduler.Extended(s0.shutdownAt[id], delay, now))],
                                        Scheduler.ArmStop(s0.book, dev, stopIn), s0.effects);
      var _, _ := SidebarInfoData();
      raised := false;
    }

    /** `planStopCooldown`: start a watcher due in 5 seconds and keep it in the slot. */
    method PlanStopCooldown(dev: Record)
      requires "id" in dev && IntField(dev, "cooldown_hotend") && IntField(dev, "cooldown_bed")
      requires Scheduler.Listed(settings.selectedDevices)
      modifies this
      ensures State() == Scheduler.PlanStopCooldown(old(State()), dev, settings.selectedDevices)
      ensures devices == old(devices) && status == old(status) && errorMessage == old(errorMessage)
    {
      var hotendRequest := AsInt(dev["cooldown_hotend"]);
      var bedRequest := AsInt(dev["cooldown_bed"]);
      ArmCooldownSlot(Scheduler.CooldownTask(dev, hotendRequest, bedRequest));
      var _, _ := SidebarInfoData();
    }

    /**
     * `planStop`: cancel both pending timers, then plan by time (the stop
     * delay, or the postpone delay when forced) or by cooldown. The
     * bookkeeping invariant is kept.
     */
    method PlanStop(dev: Record, force: bool, now: int) returns (raised: bool)
      requires Scheduler.Plannable(dev, force) && Scheduler.Listed(settings.selectedDevices)
      modifies this
      ensures Scheduler.Outcome(State(), raised) ==
              Scheduler.PlanStop(old(State()), dev, force, now, settings.selectedDevices)
      ensures Scheduler.Coherent(old(Bookkeeping())) ==> Scheduler.Coherent(Bookkeeping())
      ensures devices == old(devices) && status == old(status) && errorMessage == old(errorMessage)
    {
      ghost var s0 := State();
      CancelStopSlot(dev["id"]);
      CancelCooldownSlot(dev["id"]);
      if dev["turn_off_mode"] == VStr("time") || force {
        var delay := AsInt(dev["stop_timer"]);
        if force {
          delay := AsInt(dev["postpone_delay"]);
        }
        raised := PlanStopTimeMode(dev, delay, now);
      } else {
        PlanStopCooldown(dev);
        raised := false;
      }
      if Scheduler.Coherent(s0.book) {
        SchedulerProps.PlanStopCoherent(s0, dev, force, now, settings.selectedDevices);
      }
    }

    // -------------------------------------------------------------------
    // Switching
    // -------------------------------------------------------------------

    /**
     * `turnOff`: drop the deadline, cancel both pending timers, then, unless
     * the printer is busy, disconnect it (not with a Palette 2) and switch
     * the device off.
     */
    method TurnOff(dev: Record, printer: Scheduler.PrinterState)
      requires "id" in dev && Scheduler.Listed(settings.selectedDevices)
      modifies this
      ensures State() == Scheduler.TurnOff(old(State()), dev, printer, settings.selectedDevices)
      ensures devices == old(devices) && status == old(status) && errorMessage == old(errorMessage)
    {
      var id := dev["id"];
      shutdownAt := shutdownAt[id := None];
      CancelStopSlot(id);
      CancelCooldownSlot(id);
      var _, _ := SidebarInfoData();
      if printer.printing {
        return;
      } else if printer.pausing || printer.paused {
        return;
      } else if printer.cancelling {
        return;
      }
      if !("connect_palette2" in dev && Truthy(dev["connect_palette2"])) {
        effects := effects + [Scheduler.PrinterDisconnect];
      }
      effects := effects + [Scheduler.Switch(id, false)];
    }

    /**
     * `turnOn`: an outlet is switched on, any other device is sent
     * `switch_off`; `result` says how that request ended. A raising request
     * ends the call (`raised`); otherwise a connection timer starts unless
     * `connection_timer` is below -1, and the sidebar data is computed.
     */
    method TurnOn(dev: Record, result: Scheduler.SwitchResult) returns (raised: bool)
      requires "id" in dev && IntField(dev, "connection_timer") && Scheduler.Listed(settings.selectedDevices)
      modifies this
      ensures Scheduler.Outcome(State(), raised) == Scheduler.TurnOn(old(State()), dev, result, settings.selectedDevices)
      ensures Scheduler.Coherent(old(Bookkeeping())) ==> Scheduler.Coherent(Bookkeeping())
      ensures devices == old(devices) && status == old(status) && errorMessage == old(errorMessage)
    {
      if Scheduler.Coherent(Bookkeeping()) {
        SchedulerProps.TurnOnCoherent(State(), dev, result, settings.selectedDevices);
      }
      var on := "type" !in dev || dev["type"] == VStr("Outlet");
      if result != Scheduler.RaisedBeforeSend {
        effects := effects + [Scheduler.Switch(dev["id"], on)];
      }
      if result != Scheduler.Switched {
        return true;
      }
      var connectionTimer := AsInt(dev["connection_timer"]);
      if connectionTimer >= -1 {
        var _ := StartTimer(connectionTimer, Scheduler.ConnectTask(dev));
      }
      var _, _ := SidebarInfoData();
      raised := false;
    }

    // -------------------------------------------------------------------
    // Timers firing
    // -------------------------------------------------------------------

    /** The stop timer's task, run only while the timer is pending: `turnOff`. */
    method FireStop(token: nat, printer: Scheduler.PrinterState)
      requires token in timers && timers[token].task.StopTask? && "id" in timers[token].task.dev
      requires Scheduler.Listed(settings.selectedDevices)
      modifies this
      ensures State() == Scheduler.FireStop(old(State()), token, printer, settings.selectedDevices)
      ensures Scheduler.Coherent(old(Bookkeeping())) ==> Scheduler.Coherent(Bookkeeping())
      ensures devices == old(devices) && status == old(status) && errorMessage == old(errorMessage)
    {
      if Scheduler.Coherent(Bookkeeping()) {
        SchedulerProps.FireStopCoherent(State(), token, printer, settings.selectedDevices);
      }
      if token !in active {
        return;
      }
      var dev := timers[token].task.dev;
      active := active - {token};
      TurnOff(dev, printer);
    }

    /**
     * The cooldown watcher's task, run only while it is pending: read the
     * temperatures the thresholds need (a missing reading raises), then
     * switch off when both are down, or check again in 5 seconds.
     */
    method FireCooldown(token: nat, temps: Scheduler.Temps, printer: Scheduler.PrinterState) returns (raised: bool)
      requires token in timers && timers[token].task.CooldownTask? && "id" in timers[token].task.dev
      requires Scheduler.Listed(settings.selectedDevices)
      modifies this
      ensures Scheduler.Outcome(State(), raised) ==
              Scheduler.FireCooldown(old(State()), token, temps, printer, settings.selectedDevices)
      ensures Scheduler.Coherent(old(Bookkeeping())) ==> Scheduler.Coherent(Bookkeeping())
      ensures devices == old(devices) && status == old(status) && errorMessage == old(errorMessage)
    {
      if Scheduler.Coherent(Bookkeeping()) {
        SchedulerProps.FireCooldownCoherent(State(), token, temps, printer, settings.selectedDevices);
      }
      ghost var s0 := State();
      if token !in active {
        return false;
      }
      var task := timers[token].task;
      active := active - {token};
      ghost var s1 := s0.(book := Scheduler.Retire(s0.book, token));
      assert State() == s1;
      var readable, ready := CheckCooldown(temps, task.hotendRequest, task.bedRequest);
      if !readable {
        return true;
      }
      var id := task.dev["id"];
      if ready {
        TurnOff(task.dev, printer);
        ghost var s2 := State();
        stopCooldown := stopCooldown - {id};
        assert State() == s2.(book := s2.book.(stopCooldown := s2.book.stopCooldown - {id}));
      } else {
        ArmCooldownSlot(task);
        assert State() == s1.(book := Scheduler.ArmCooldown(s1.book, task));
      }
      var _, _ := SidebarInfoData();
      raised := false;
    }

    /** The connection timer's task, run only while it is pending: connect the Palette 2 or the printer. */
    method FireConnect(token: nat)
      requires token in timers && timers[token].task.ConnectTask?
      modifies this
      ensures State() == Scheduler.FireConnect(old(State()), token)
      ensures Scheduler.Coherent(old(Bookkeeping())) ==> Scheduler.Coherent(Bookkeeping())
      ensures devices == old(devices) && status == old(status) && errorMessage == old(errorMessage)
    {
      if Scheduler.Coherent(Bookkeeping()) {
        SchedulerProps.FireConnectCoherent(State(), token);
      }
      if token !in active {
        return;
      }
      var dev := timers[token].task.dev;
      active := active - {token};
      if "connect_palette2" in dev && Truthy(dev["connect_palette2"]) {
        effects := effects + [Scheduler.Palette2Connect];
      } else {
        effects := effects + [Scheduler.PrinterConnect];
      }
    }

    // -------------------------------------------------------------------
    // Sidebar routes
    // -------------------------------------------------------------------

    /** `/sidebar/postpone`: `planStop` forced, then the sidebar data (filled twice, as the route does). */
    method Postpone(dev: Record, now: int)
      returns (raised: bool, deadlines: map<Value, Option<int>>, cooldownWait: map<Value, bool>)
      requires Scheduler.Plannable(dev, true) && Scheduler.Listed(settings.selectedDevices)
      modifies this
      ensures Scheduler.Outcome(State(), raised) == Scheduler.Postpone(old(State()), dev, now, settings.selectedDevices)
      ensures !raised ==> deadlines == shutdownAt && cooldownWait == Scheduler.CooldownWait(stopCooldown, settings.selectedDevices)
      ensures Scheduler.Coherent(old(Bookkeeping())) ==> Scheduler.Coherent(Bookkeeping())
      ensures devices == old(devices) && status == old(status) && errorMessage == old(errorMessage)
    {
      deadlines, cooldownWait := map[], map[];
      raised := PlanStop(dev, true, now);
      if raised {
        return;
      }
      ghost var planned := State();
      var _, _ := SidebarInfoData();
      deadlines, cooldownWait := SidebarInfoData();
      Scheduler.FillIdempotent(planned.shutdownAt, settings.selectedDevices);
    }

    /**
     * `/sidebar/cancelShutdown`: when a stop timer slot is held, drop the
     * deadline and cancel the timer; cancel the cooldown watcher; then the
     * sidebar data.
     */
    method CancelShutdown(dev: Record) returns (deadlines: map<Value, Option<int>>, cooldownWait: map<Value, bool>)
      requires "id" in dev && Scheduler.Listed(settings.selectedDevices)
      modifies this
      ensures State() == Scheduler.CancelShutdown(old(State()), dev, settings.selectedDevices)
      ensures deadlines == shutdownAt && cooldownWait == Scheduler.CooldownWait(stopCooldown, settings.selectedDevices)
      ensures Scheduler.Coherent(old(Bookkeeping())) ==> Scheduler.Coherent(Bookkeeping())
      ensures devices == old(devices) && status == old(status) && errorMessage == old(errorMessage)
    {
      if Scheduler.Coherent(Bookkeeping()) {
        SchedulerProps.CancelShutdownCoherent(State(), dev, settings.selectedDevices);
      }
      var id := dev["id"];
      if id in stopTimer {
        shutdownAt := shutdownAt[id := None];
        CancelStopSlot(id);
      }
      CancelCooldownSlot(id);
      ghost var cancelled := State();
      var _, _ := SidebarInfoData();
      deadlines, cooldownWait := SidebarInfoData();
      Scheduler.FillIdempotent(cancelled.shutdownAt, settings.selectedDevices);
    }

    /** `/sidebar/shutdownNow`: `turnOff` at once, then the sidebar data. */
    method ShutdownNow(dev: Record, printer: Scheduler.PrinterState)
      returns (deadlines: map<Value, Option<int>>, cooldownWait: map<Value, bool>)
      requires "id" in dev && Scheduler.Listed(settings.selectedDevices)
      modifies this
      ensures State() == Scheduler.ShutdownNow(old(State()), dev, printer, settings.selectedDevices)
      ensures deadlines == shutdownAt && cooldownWait == Scheduler.CooldownWait(stopCooldown, settings.selectedDevices)
      ensures Scheduler.Coherent(old(Bookkeeping())) ==> Scheduler.Coherent(Bookkeeping())
      ensures devices == old(devices) && status == old(status) && errorMessage == old(errorMessage)
    {
      if Scheduler.Coherent(Bookkeeping()) {
        SchedulerProps.ShutdownNowCoherent(State(), dev, printer, settings.selectedDevices);
      }
      TurnOff(dev, printer);
      ghost var off := State();
      var _, _ := SidebarInfoData();
      deadlines, cooldownWait := SidebarInfoData();
      Scheduler.FillIdempotent(off.shutdownAt, settings.selectedDevices);
    }

    // -------------------------------------------------------------------
    // Printer events
    // -------------------------------------------------------------------

    /**
     * `on_event`: for each selected device in order, plan a switch-off when
     * it is configured for the event, or cancel both pending timers on
     * `PrintStarted`. A `KeyError` from planning ends the loop.
     */
    method OnEvent(event: string, now: int) returns (raised: bool)
      requires Scheduler.Listed(settings.selectedDevices)
      requires forall k :: 0 <= k < |settings.selectedDevices| ==> Scheduler.EventReady(settings.selectedDevices[k], event)
      modifies this
      ensures Scheduler.Outcome(State(), raised) ==
              Scheduler.OnEvent(old(State()), event, settings.selectedDevices, now, settings.selectedDevices)
      ensures Scheduler.Coherent(old(Bookkeeping())) ==> Scheduler.Coherent(Bookkeeping())
      ensures devices == old(devices) && status == old(status) && errorMessage == old(errorMessage)
    {
      var devs := settings.selectedDevices;
      if Scheduler.Coherent(Bookkeeping()) {
        SchedulerProps.OnEventCoherent(State(), event, devs, now, devs);
      }
      for i := 0 to |devs|
        invariant Scheduler.OnEvent(State(), event, devs[i..], now, devs) == Scheduler.OnEvent(old(State()), event, devs, now, devs)
        invariant devices == old(devices) && status == old(status) && errorMessage == old(errorMessage)
      {
        var dev := devs[i];
        OnEventStep(State(), event, devs, i, now, devs);
        var scheduleStop := false;
        if event == "PrintDone" && Truthy(dev["on_done"]) {
          scheduleStop := true;
        }
        if event == "PrintFailed" && Truthy(dev["on_failed"]) {
          scheduleStop := true;
        }
        if scheduleStop {
          raised := PlanStop(dev, false, now);
          if raised {
            return;
          }
        } else if event == "PrintStarted" {
          CancelStopSlot(dev["id"]);
          CancelCooldownSlot(dev["id"]);
        }
      }
      assert devs[|devs|..] == [];
      raised := false;
    }

    // -------------------------------------------------------------------
    // Device list maintenance
    // -------------------------------------------------------------------

    /** `getDeviceFromId`: the first selected device with the given id, or None. */
    method GetDeviceFromId(id: Value) returns (r: Option<Record>)
      requires HasIds(settings.selectedDevices)
      ensures r == Lookup(settings.selectedDevices, id)
      ensures r.Some? ==> r.value in settings.selectedDevices && r.value["id"] == id
      ensures r.None? <==> forall k :: 0 <= k < |settings.selectedDevices| ==> settings.selectedDevices[k]["id"] != id
    {
      var index := FindIndex(settings.selectedDevices, id);
      if index.None? {
        return None;
      }
      r := Some(settings.selectedDevices[index.value]);
    }

    /**
     * `/device/save`: 400 without writing when the body has no device.
     * Otherwise the device takes the type of the last discovered device with
     * its id, replaces the first selected device with that id in place (or is
     * appended), and the list is saved once and returned.
     */
    method SaveDevice(device: Option<Record>) returns (code: int, list: seq<Record>)
      requires device.Some? ==> "id" in device.value && Discovered(devices) && HasIds(settings.selectedDevices)
      modifies settings
      ensures device.None? ==> code == 400 && unchanged(settings)
      ensures device.Some? ==>
        && code == 200
        && settings.selectedDevices == Upsert(old(settings.selectedDevices), AdoptType(device.value, devices))
        && list == settings.selectedDevices
        && settings.saves == old(settings.saves) + 1
        && settings.values == old(settings.values) && settings.devices == old(settings.devices)
    {
      if device.None? {
        return 400, [];
      }
      var d := device.value;
      for i := 0 to |devices|
        invariant "id" in d && d["id"] == device.value["id"]
        invariant AdoptType(device.value, devices) == AdoptType(d, devices[i..])
      {
        assert devices[i..][0] == devices[i] && devices[i..][1..] == devices[i + 1..];
        if devices[i]["id"] == d["id"] {
          d := d["type" := devices[i]["type"]];
        }
      }
      var selected := settings.selectedDevices;
      var index := FindIndex(selected, d["id"]);
      if index.Some? {
        selected := selected[index.value := d];
      } else {
        selected := selected + [d];
      }
      settings.selectedDevices := selected;
      settings.saves := settings.saves + 1;
      code, list := 200, selected;
    }

    /**
     * `/device/delete`: 400 without writing when the body has no device id.
     * Otherwise the first selected device with that id is removed, if any,
     * and the list is saved once and returned.
     */
    method DeleteDevice(deviceId: Option<Value>) returns (code: int, list: seq<Record>)
      requires deviceId.Some? ==> HasIds(settings.selectedDevices)
      modifies settings
      ensures deviceId.None? ==> code == 400 && unchanged(settings)
      ensures deviceId.Some? ==>
        && code == 200
        && settings.selectedDevices == RemoveFirst(old(settings.selectedDevices), deviceId.value)
        && list == settings.selectedDevices
        && settings.saves == old(settings.saves) + 1
        && settings.values == old(settings.values) && settings.devices == old(settings.devices)
    {
      if deviceId.None? {
        return 400, [];
      }
      var selected := settings.selectedDevices;
      var index := FindIndex(selected, deviceId.value);
      if index.Some? {
        selected := selected[..index.value] + selected[index.value + 1..];
      }
      settings.selectedDevices := selected;
      settings.saves := settings.saves + 1;
      code, list := 200, selected;
    }

    /**
     * `on_settings_migrate`: below version 2 (or with no version) the list is
     * replaced by the single legacy device; then every device gets the keys
     * it lacks, in place. The settings are saved once when anything changed.
     */
    method OnSettingsMigrate(current: Option<int>)
      modifies settings
      ensures var legacy := current.None? || current.value < 2;
              var source := if legacy then [LegacyDevice(old(settings.values))] else old(settings.selectedDevices);
        && settings.selectedDevices == MigrateAll(source)
        && settings.saves == old(settings.saves) + (if legacy || NeedsMigration(source) then 1 else 0)
        && settings.values == old(settings.values) && settings.devices == old(settings.devices)
    {
      var changed := false;
      if current.None? || current.value < 2 {
        settings.selectedDevices := [LegacyDevice(settings.values)];
        changed := true;
      }
      ghost var legacy := changed;
      var devs := settings.selectedDevices;
      for i := 0 to |devs|
        invariant |settings.selectedDevices| == |devs|
        invariant forall k :: 0 <= k < i ==> settings.selectedDevices[k] == WithDefaults(devs[k])
        invariant forall k :: i <= k < |devs| ==> settings.selectedDevices[k] == devs[k]
        invariant changed <==> legacy || exists k :: 0 <= k < i && !Complete(devs[k])
        invariant settings.values == old(settings.values) && settings.devices == old(settings.devices)
        invariant settings.saves == old(settings.saves)
      {
        var dev, devChanged := FillDefaults(settings.selectedDevices[i]);
        settings.selectedDevices := settings.selectedDevices[i := dev];
        changed := changed || devChanged;
      }
      assert settings.selectedDevices == MigrateAll(devs);
      if changed {
        settings.saves := settings.saves + 1;
      }
    }

    /**
     * `load_devices`: the discovered devices are cleared; when a psk is
     * configured the gateway's listing is stored as records (a listing that
     * raised, None here, propagates and leaves status and settings alone).
     * The status becomes 'ok' or 'no_devices' and `save_settings` stores the
     * status, the error message and the devices, and saves once.
     */
    method LoadDevices(listing: Option<seq<TradfriDevice.RawDevice>>) returns (raised: bool)
      modifies this, settings
      ensures raised <==> Truthy(old(settings.Get("psk"))) && listing.None?
      ensures raised ==> devices == [] && status == old(status) && unchanged(settings)
      ensures !raised ==>
        && devices == (if Truthy(old(settings.Get("psk"))) then Records(listing.value) else [])
        && (status == "ok" <==> devices != []) && (status == "no_devices" <==> devices == [])
        && settings.values == old(settings.values)["status" := VStr(status)]["error_message" := VStr(errorMessage)]
        && settings.devices == devices
        && settings.saves == old(settings.saves) + 1
        && settings.selectedDevices == old(settings.selectedDevices)
      ensures Discovered(devices)
      ensures State() == old(State()) && errorMessage == old(errorMessage)
    {
      devices := [];
      if Truthy(settings.Get("psk")) {
        if listing.None? {
          return true;
        }
        var found := listing.value;
        for i := 0 to |found|
          invariant |devices| == i && forall k :: 0 <= k < i ==> devices[k] == TradfriDevice.ToDict(found[k])
          invariant unchanged(settings) && status == old(status)
          invariant State() == old(State()) && errorMessage == old(errorMessage)
        {
          devices := devices + [TradfriDevice.ToDict(found[i])];
        }
        assert devices == Records(found);
      }
      RecordsDiscovered(devices);
      if |devices| > 0 {
        status := "ok";
      } else {
        status := "no_devices";
      }
      SaveSettings();
      raised := false;
    }

    /** `save_settings`: store the status, the error message and the discovered devices, and save. */
    method SaveSettings()
      modifies settings
      ensures settings.values == old(settings.values)["status" := VStr(status)]["error_message" := VStr(errorMessage)]
      ensures settings.devices == devices && settings.saves == old(settings.saves) + 1
      ensures settings.selectedDevices == old(settings.selectedDevices)
    {
      settings.values := settings.values["status" := VStr(status)];
      settings.values := settings.values["error_message" := VStr(errorMessage)];
      settings.devices := devices;
      settings.saves := settings.saves + 1;
    }

    // -------------------------------------------------------------------
    // Templates
    // -------------------------------------------------------------------

    /** The plugin's own `get_template_configs`, binding to its settings key. */
    method TemplateConfigs() returns (configs: seq<TemplateMixin.TemplateConfig>)
      requires forall k :: 0 <= k < |settings.selectedDevices| ==> TemplateMixin.NavReadable(settings.selectedDevices[k])
      ensures |configs| == 3 + |settings.selectedDevices|
      ensures configs[..3] == TemplateMixin.FixedConfigs()
      ensures forall k :: 0 <= k < |settings.selectedDevices| ==>
        configs[3 + k] == TemplateMixin.NavbarEntry(TemplateMixin.PluginKey, settings.selectedDevices[k], k)
    {
      configs := TemplateMixin.TemplateConfigs(TemplateMixin.PluginKey, settings.selectedDevices);
    }

    /** `get_template_vars`: the discovered devices, the status and the deadlines, and whether palette2 is enabled. */
    function TemplateVars(enabledPlugins: set<string>): (r: TemplateMixin.TemplateVars)
      reads this
      ensures r.devices == devices && r.status == status && r.shutdownAt == shutdownAt
      ensures r.hasPalette2 <==> "palette2" in enabledPlugins
    {
      TemplateMixin.TemplateVarsOf(devices, status, shutdownAt, enabledPlugins)
    }
  }
}
