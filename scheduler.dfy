/**
 * The plugin's switch-off scheduling, as pure state transitions: the
 * per-device deadlines (`shutdownAt`), the per-device stop timer and cooldown
 * watcher slots (`stopTimer`, `stopCooldown`), the timers themselves, and the
 * requests sent to the printer and the gateway.
 *
 * A timer is a token. Starting one records it in `timers` and makes it
 * active; `cancel()` makes it inactive. A timer fires only while active, so a
 * cancelled timer never runs its task.
 */
module Scheduler {
  import opened Values
  import opened DeviceList

  /** What a timer runs when it expires. */
  datatype Task =
    | StopTask(dev: Record)
    | CooldownTask(dev: Record, hotendRequest: int, bedRequest: int)
    | ConnectTask(dev: Record)

  datatype Timer = Timer(delay: int, task: Task)

  /** A request to the printer or to the gateway. */
  datatype Effect =
    | PrinterDisconnect
    | PrinterConnect
    | Palette2Connect
    | Switch(id: Value, on: bool)

  datatype PrinterState = PrinterState(printing: bool, pausing: bool, paused: bool, cancelling: bool)

  /** The printer states in which the plugin refuses to switch off. */
  predicate Busy(p: PrinterState)
  {
    p.printing || p.pausing || p.paused || p.cancelling
  }

  /** The current readings of `get_current_temperatures()`; None when the key is absent. */
  datatype Temps = Temps(bed: Option<real>, tool0: Option<real>)

  /**
   * The timer bookkeeping: the two per-device slots (a slot is absent when
   * the source holds None there), every timer started so far, the ones still
   * pending, and the next token to hand out.
   */
  datatype Book = Book(
    stopTimer: map<Value, nat>,
    stopCooldown: map<Value, nat>,
    timers: map<nat, Timer>,
    active: set<nat>,
    nextToken: nat)

  /** The scheduler's state: deadlines, timers, and the requests issued so far. */
  datatype Sched = Sched(shutdownAt: map<Value, Option<int>>, book: Book, effects: seq<Effect>)

  /** The result of a step that may raise `KeyError`; on a raise `s` is the state left behind. */
  datatype Outcome = Outcome(s: Sched, raised: bool)

  /** The state right after the plugin is constructed. */
  function Initial(): Sched
  {
    Sched(map[], Book(map[], map[], map[], {}, 0), [])
  }

  /**
   * The device records the plugin schedules for: `selected_devices` after
   * migration, where every record has an id and a switch-off mode.
   */
  predicate Listed(selected: seq<Record>)
  {
    forall k :: 0 <= k < |selected| ==> "id" in selected[k] && "turn_off_mode" in selected[k]
  }

  function IdSet(selected: seq<Record>): set<Value>
    requires HasIds(selected)
  {
    set k | 0 <= k < |selected| :: selected[k]["id"]
  }

  // ---------------------------------------------------------------------
  // sidebarInfoData
  // ---------------------------------------------------------------------

  /**
   * The side effect of `sidebarInfoData`: every selected id without a
   * deadline entry gets one holding None.
   */
  function Fill(shutdownAt: map<Value, Option<int>>, selected: seq<Record>): (r: map<Value, Option<int>>)
    requires HasIds(selected)
    ensures r.Keys == shutdownAt.Keys + IdSet(selected)
    ensures forall id :: id in shutdownAt ==> r[id] == shutdownAt[id]
    ensures forall id :: id in r && id !in shutdownAt ==> r[id] == None
    decreases |selected|
  {
    if selected == [] then shutdownAt
    else
      var id := selected[0]["id"];
      var r := Fill(if id in shutdownAt then shutdownAt else shutdownAt[id := None], selected[1..]);
      assert IdSet(selected) == {id} + IdSet(selected[1..]) by {
        forall x | x in IdSet(selected) ensures x in {id} + IdSet(selected[1..]) {
          var k :| 0 <= k < |selected| && selected[k]["id"] == x;
          if k > 0 { assert selected[1..][k - 1] == selected[k]; }
        }
        forall x | x in IdSet(selected[1..]) ensures x in IdSet(selected) {
          var k :| 0 <= k < |selected[1..]| && selected[1..][k]["id"] == x;
          assert selected[k + 1] == selected[1..][k];
        }
      }
      r
  }

  /** Filling twice is filling once. */
  lemma FillIdempotent(shutdownAt: map<Value, Option<int>>, selected: seq<Record>)
    requires HasIds(selected)
    ensures Fill(Fill(shutdownAt, selected), selected) == Fill(shutdownAt, selected)
  {
    var once := Fill(shutdownAt, selected);
    assert Fill(once, selected).Keys == once.Keys;
  }

  function FillState(s: Sched, selected: seq<Record>): Sched
    requires HasIds(selected)
  {
    s.(shutdownAt := Fill(s.shutdownAt, selected))
  }

  /**
   * The `cooldown_wait` part of `sidebarInfoData`: for every device in
   * cooldown mode, whether its watcher slot is held (the source's None is
   * false here).
   */
  function CooldownWait(stopCooldown: map<Value, nat>, selected: seq<Record>): (w: map<Value, bool>)
    requires Listed(selected)
    ensures forall id :: id in w <==>
      exists k :: 0 <= k < |selected| && selected[k]["id"] == id && selected[k]["turn_off_mode"] == VStr("cooldown")
    ensures forall id :: id in w ==> (w[id] <==> id in stopCooldown)
    decreases |selected|
  {
    if selected == [] then map[]
    else
      var dev := selected[|selected| - 1];
      var w := CooldownWait(stopCooldown, selected[..|selected| - 1]);
      assert forall k :: 0 <= k < |selected| - 1 ==> selected[..|selected| - 1][k] == selected[k];
      if dev["turn_off_mode"] == VStr("cooldown") then w[dev["id"] := dev["id"] in stopCooldown] else w
  }

  // ---------------------------------------------------------------------
  // Timers and the two watcher slots
  // ---------------------------------------------------------------------

  /** The id of the device a task acts on. */
  function TaskId(t: Task): Value
    requires "id" in t.dev
  {
    t.dev["id"]
  }

  /**
   * The bookkeeping invariant: tokens are issued in order, only started
   * timers are active, a slot holds a timer of its own kind for its own id,
   * every active stop timer or cooldown watcher is the one its id's slot
   * holds, and no device has both pending. So at most one timer that can
   * switch a device off is pending for it.
   */
  predicate Coherent(b: Book)
  {
    Issued(b) && SlotsHold(b) && PendingSlotted(b) && Exclusive(b)
  }

  /** Every timer was issued before the next token, for a device; only started timers are pending. */
  predicate Issued(b: Book)
  {
    && (forall t :: t in b.timers ==> t < b.nextToken && "id" in b.timers[t].task.dev)
    && b.active <= b.timers.Keys
  }

  /** A slot holds a started timer of its own kind for its own id. */
  predicate SlotsHold(b: Book)
    requires Issued(b)
  {
    && (forall id :: id in b.stopTimer ==>
          b.stopTimer[id] in b.timers && b.timers[b.stopTimer[id]].task.StopTask?
          && TaskId(b.timers[b.stopTimer[id]].task) == id)
    && (forall id :: id in b.stopCooldown ==>
          b.stopCooldown[id] in b.timers && b.timers[b.stopCooldown[id]].task.CooldownTask?
          && TaskId(b.timers[b.stopCooldown[id]].task) == id)
  }

  /** Every pending stop timer or cooldown watcher is the one its id's slot holds. */
  predicate PendingSlotted(b: Book)
    requires Issued(b)
  {
    && (forall t :: t in b.active && b.timers[t].task.StopTask? ==>
          TaskId(b.timers[t].task) in b.stopTimer && b.stopTimer[TaskId(b.timers[t].task)] == t)
    && (forall t :: t in b.active && b.timers[t].task.CooldownTask? ==>
          TaskId(b.timers[t].task) in b.stopCooldown && b.stopCooldown[TaskId(b.timers[t].task)] == t)
  }

  /** No device has a stop timer and a cooldown watcher both pending. */
  predicate Exclusive(b: Book)
  {
    forall id :: id in b.stopTimer && id in b.stopCooldown ==>
      b.stopTimer[id] !in b.active || b.stopCooldown[id] !in b.active
  }

  /** `stopTimer[id].cancel()` and `stopTimer[id] = None`, when a stop timer is pending. */
  function CancelStop(b: Book, id: Value): Book
  {
    if id in b.stopTimer
    then b.(stopTimer := b.stopTimer - {id}, active := b.active - {b.stopTimer[id]})
    else b
  }

  /** The same for the cooldown watcher slot. */
  function CancelCooldown(b: Book, id: Value): Book
  {
    if id in b.stopCooldown
    then b.(stopCooldown := b.stopCooldown - {id}, active := b.active - {b.stopCooldown[id]})
    else b
  }

  /** Both cancellations, in the order every caller performs them. */
  function CancelBoth(b: Book, id: Value): Book
  {
    CancelCooldown(CancelStop(b, id), id)
  }

  /** `threading.Timer(delay, task).start()`: the new timer gets token `b.nextToken`. */
  function Start(b: Book, delay: int, task: Task): Book
  {
    b.(timers := b.timers[b.nextToken := Timer(delay, task)],
       active := b.active + {b.nextToken},
       nextToken := b.nextToken + 1)
  }

  /** Start a stop timer and keep it in the device's slot. */
  function ArmStop(b: Book, dev: Record, delay: int): Book
    requires "id" in dev
  {
    var b1 := Start(b, delay, StopTask(dev));
    b1.(stopTimer := b1.stopTimer[dev["id"] := b.nextToken])
  }

  /** Start a cooldown watcher, due in 5 seconds, and keep it in the device's slot. */
  function ArmCooldown(b: Book, task: Task): Book
    requires task.CooldownTask? && "id" in task.dev
  {
    var b1 := Start(b, 5, task);
    b1.(stopCooldown := b1.stopCooldown[TaskId(task) := b.nextToken])
  }

  /** A timer that expires runs its task only while it is pending. */
  predicate Fires(b: Book, token: nat)
  {
    token in b.active
  }

  /** A timer that has run is no longer pending. */
  function Retire(b: Book, token: nat): Book
  {
    b.(active := b.active - {token})
  }

  /** The new deadline: the current one extended by `delay`, or `now + delay` when there is none. */
  function Extended(deadline: Option<int>, delay: int, now: int): int
  {
    match deadline
    case Some(t) => t + delay
    case None => now + delay
  }

  // ---------------------------------------------------------------------
  // Planning a switch-off
  // ---------------------------------------------------------------------

  /**
   * `planStopTimeMode`: extend the device's deadline by `delay`, or set it
   * to `now + delay` when there is none, and start a stop timer for the time
   * left. Raises `KeyError` when the device has no deadline entry yet.
   */
  function PlanStopTimeMode(s: Sched, dev: Record, delay: int, now: int, selected: seq<Record>): Outcome
    requires "id" in dev && Listed(selected)
  {
    var id := dev["id"];
    if id !in s.shutdownAt then Outcome(s, true)
    else
      var deadline := Extended(s.shutdownAt[id], delay, now);
      var s1 := Sched(s.shutdownAt[id := Some(deadline)], ArmStop(s.book, dev, deadline - now), s.effects);
      Outcome(FillState(s1, selected), false)
  }

  /** `planStopCooldown`: start a watcher that checks the temperatures every 5 seconds. */
  function PlanStopCooldown(s: Sched, dev: Record, selected: seq<Record>): Sched
    requires "id" in dev && IntField(dev, "cooldown_hotend") && IntField(dev, "cooldown_bed")
    requires Listed(selected)
  {
    var task := CooldownTask(dev, AsInt(dev["cooldown_hotend"]), AsInt(dev["cooldown_bed"]));
    FillState(s.(book := ArmCooldown(s.book, task)), selected)
  }

  /** The device is in time mode, or the switch-off is a postponement. */
  predicate TimeMode(dev: Record, force: bool)
    requires "turn_off_mode" in dev
  {
    dev["turn_off_mode"] == VStr("time") || force
  }

  /** The keys `planStop` reads from the record on the path it takes. */
  predicate Plannable(dev: Record, force: bool)
  {
    && "id" in dev && "turn_off_mode" in dev
    && (if TimeMode(dev, force)
        then IntField(dev, "stop_timer") && (force ==> IntField(dev, "postpone_delay"))
        else IntField(dev, "cooldown_hotend") && IntField(dev, "cooldown_bed"))
  }

  /**
   * `planStop`: cancel what is pending for the device, then plan a timed
   * switch-off (`stop_timer`, or `postpone_delay` when postponing) or a
   * cooldown watcher.
   */
  function PlanStop(s: Sched, dev: Record, force: bool, now: int, selected: seq<Record>): Outcome
    requires Plannable(dev, force) && Listed(selected)
  {
    var s1 := s.(book := CancelBoth(s.book, dev["id"]));
    if TimeMode(dev, force) then
      var delay := if force then AsInt(dev["postpone_delay"]) else AsInt(dev["stop_timer"]);
      PlanStopTimeMode(s1, dev, delay, now, selected)
    else
      Outcome(PlanStopCooldown(s1, dev, selected), false)
  }

  // ---------------------------------------------------------------------
  // Switching
  // ---------------------------------------------------------------------

  /** A record without a type is an outlet. */
  predicate IsOutlet(dev: Record)
  {
    "type" !in dev || dev["type"] == VStr("Outlet")
  }

  /**
   * `turnOff`: drop the deadline and whatever is pending; then, unless the
   * printer is busy, disconnect it (not when a Palette 2 is attached) and
   * switch the device off.
   */
  function TurnOff(s: Sched, dev: Record, printer: PrinterState, selected: seq<Record>): Sched
    requires "id" in dev && Listed(selected)
  {
    var id := dev["id"];
    var s1 := FillState(Sched(s.shutdownAt[id := None], CancelBoth(s.book, id), s.effects), selected);
    if Busy(printer) then s1
    else
      var disconnect := if FlagSet(dev, "connect_palette2") then [] else [PrinterDisconnect];
      s1.(effects := s1.effects + disconnect + [Switch(id, false)])
  }

  /**
   * How the facade's switch request in `turnOn` ended: it succeeded, it
   * raised before a command was sent (no device from `get_by_id`, no
   * control, no registered client), or it raised after sending (the
   * refresh found no device).
   */
  datatype SwitchResult = Switched | RaisedBeforeSend | RaisedAfterSend

  /**
   * The body of `turnOn` with the switch request `on` it sends and how that
   * request ended: switch the device, then connect the printer after
   * `connection_timer` seconds unless it is below -1, and fill the sidebar
   * deadlines. A raising switch request ends `turnOn` at once.
   */
  function SwitchThenConnect(s: Sched, dev: Record, on: bool, result: SwitchResult, selected: seq<Record>): Outcome
    requires "id" in dev && IntField(dev, "connection_timer") && Listed(selected)
  {
    var s1 := if result == RaisedBeforeSend then s else s.(effects := s.effects + [Switch(dev["id"], on)]);
    if result != Switched then Outcome(s1, true)
    else
      var delay := AsInt(dev["connection_timer"]);
      Outcome(FillState(if delay >= -1 then s1.(book := Start(s1.book, delay, ConnectTask(dev))) else s1, selected), false)
  }

  /**
   * `turnOn` as written: an outlet is switched on; anything else is sent
   * `switch_off`, as `turnOnLight` does.
   */
  function TurnOn(s: Sched, dev: Record, result: SwitchResult, selected: seq<Record>): Outcome
    requires "id" in dev && IntField(dev, "connection_timer") && Listed(selected)
  {
    SwitchThenConnect(s, dev, IsOutlet(dev), result, selected)
  }

  /** `turnOn` as its name intends: every device is switched on. */
  function TurnOnIntended(s: Sched, dev: Record, result: SwitchResult, selected: seq<Record>): Outcome
    requires "id" in dev && IntField(dev, "connection_timer") && Listed(selected)
  {
    SwitchThenConnect(s, dev, true, result, selected)
  }

  // ---------------------------------------------------------------------
  // Timers firing
  // ---------------------------------------------------------------------

  /** The stop timer's task: `turnOff(dev)`. */
  function FireStop(s: Sched, token: nat, printer: PrinterState, selected: seq<Record>): Sched
    requires token in s.book.timers && s.book.timers[token].task.StopTask? && "id" in s.book.timers[token].task.dev
    requires Listed(selected)
  {
    if !Fires(s.book, token) then s
    else TurnOff(s.(book := Retire(s.book, token)), s.book.timers[token].task.dev, printer, selected)
  }

  /** The readings the watcher's comparisons need are present (a reading is needed only for a threshold above -1). */
  predicate Readable(temps: Temps, hotendRequest: int, bedRequest: int)
  {
    (-1 < bedRequest ==> temps.bed.Some?) && (-1 < hotendRequest ==> temps.tool0.Some?)
  }

  /** Neither enabled threshold is exceeded by the current reading. */
  predicate ReadyForStop(temps: Temps, hotendRequest: int, bedRequest: int)
    requires Readable(temps, hotendRequest, bedRequest)
  {
    && !(-1 < bedRequest && (bedRequest as real) < temps.bed.value)
    && !(-1 < hotendRequest && (hotendRequest as real) < temps.tool0.value)
  }

  /**
   * The cooldown watcher's task: when both temperatures are down, switch
   * off; otherwise check again in 5 seconds. A missing reading raises
   * `KeyError` in the timer's thread, which ends the watcher.
   */
  function FireCooldown(s: Sched, token: nat, temps: Temps, printer: PrinterState, selected: seq<Record>): Outcome
    requires token in s.book.timers && s.book.timers[token].task.CooldownTask? && "id" in s.book.timers[token].task.dev
    requires Listed(selected)
  {
    if !Fires(s.book, token) then Outcome(s, false)
    else
      var task := s.book.timers[token].task;
      var s1 := s.(book := Retire(s.book, token));
      if !Readable(temps, task.hotendRequest, task.bedRequest) then Outcome(s1, true)
      else if ReadyForStop(temps, task.hotendRequest, task.bedRequest) then
        var s2 := TurnOff(s1, task.dev, printer, selected);
        var b2 := s2.book.(stopCooldown := s2.book.stopCooldown - {TaskId(task)});
        Outcome(FillState(s2.(book := b2), selected), false)
      else
        Outcome(FillState(s1.(book := ArmCooldown(s1.book, task)), selected), false)
  }

  /** The connection timer's task: connect the Palette 2 when the record asks for it, else the printer. */
  function FireConnect(s: Sched, token: nat): Sched
    requires token in s.book.timers && s.book.timers[token].task.ConnectTask?
  {
    if !Fires(s.book, token) then s
    else
      var dev := s.book.timers[token].task.dev;
      Sched(s.shutdownAt, Retire(s.book, token),
            s.effects + [if FlagSet(dev, "connect_palette2") then Palette2Connect else PrinterConnect])
  }

  // ---------------------------------------------------------------------
  // Sidebar requests
  // ---------------------------------------------------------------------

  /** `/sidebar/postpone`: postpone the switch-off by `postpone_delay`. */
  function Postpone(s: Sched, dev: Record, now: int, selected: seq<Record>): Outcome
    requires Plannable(dev, true) && Listed(selected)
  {
    var o := PlanStop(s, dev, true, now, selected);
    if o.raised then o else Outcome(FillState(o.s, selected), false)
  }

  /**
   * `/sidebar/cancelShutdown`: cancel the pending stop timer (dropping the
   * deadline with it) and the pending cooldown watcher.
   */
  function CancelShutdown(s: Sched, dev: Record, selected: seq<Record>): Sched
    requires "id" in dev && Listed(selected)
  {
    var id := dev["id"];
    var s1 := if id in s.book.stopTimer then Sched(s.shutdownAt[id := None], CancelStop(s.book, id), s.effects) else s;
    FillState(s1.(book := CancelCooldown(s1.book, id)), selected)
  }

  /** `/sidebar/shutdownNow`: `turnOff` at once. */
  function ShutdownNow(s: Sched, dev: Record, printer: PrinterState, selected: seq<Record>): Sched
    requires "id" in dev && Listed(selected)
  {
    FillState(TurnOff(s, dev, printer, selected), selected)
  }

  // ---------------------------------------------------------------------
  // Printer events
  // ---------------------------------------------------------------------

  /** The flags `on_event` reads for this event are present. */
  predicate EventReadable(dev: Record, event: string)
  {
    "id" in dev && (event == "PrintDone" ==> "on_done" in dev) && (event == "PrintFailed" ==> "on_failed" in dev)
  }

  /** The event is one the device is configured to switch off after. */
  predicate SchedulesStop(dev: Record, event: string)
    requires EventReadable(dev, event)
  {
    (event == "PrintDone" && Truthy(dev["on_done"])) || (event == "PrintFailed" && Truthy(dev["on_failed"]))
  }

  predicate EventReady(dev: Record, event: string)
  {
    EventReadable(dev, event) && (SchedulesStop(dev, event) ==> Plannable(dev, false))
  }

  /**
   * `on_event` over the devices still to visit: plan a switch-off for each
   * device configured for the event, cancel everything pending on
   * `PrintStarted`. A `KeyError` from planning ends the loop.
   */
  function OnEvent(s: Sched, event: string, devs: seq<Record>, now: int, selected: seq<Record>): Outcome
    requires forall k :: 0 <= k < |devs| ==> EventReady(devs[k], event)
    requires Listed(selected)
    decreases |devs|
  {
    if devs == [] then Outcome(s, false)
    else
      var dev := devs[0];
      assert EventReady(dev, event);
      assert forall k :: 0 <= k < |devs[1..]| ==> devs[1..][k] == devs[k + 1];
      if SchedulesStop(dev, event) then
        var o := PlanStop(s, dev, false, now, selected);
        if o.raised then o else OnEvent(o.s, event, devs[1..], now, selected)
      else if event == "PrintStarted" then
        OnEvent(s.(book := CancelBoth(s.book, dev["id"])), event, devs[1..], now, selected)
      else
        OnEvent(s, event, devs[1..], now, selected)
  }
}
