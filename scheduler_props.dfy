/**
 * What the scheduling steps guarantee: every step keeps the bookkeeping
 * coherent, at most one stop timer and one cooldown watcher is pending per
 * device, a cancelled timer never runs, postponing accumulates, a busy
 * printer is never switched off, and events plan or cancel as configured.
 */
module SchedulerProps {
  import opened Values
  import opened DeviceList
  import opened Scheduler

  // ---------------------------------------------------------------------
  // Coherence is kept by every step
  // ---------------------------------------------------------------------

  lemma InitialCoherent()
    ensures Coherent(Initial().book)
  {
  }

  lemma CancelStopCoherent(b: Book, id: Value)
    requires Coherent(b)
    ensures Coherent(CancelStop(b, id)) && id !in CancelStop(b, id).stopTimer
  {
  }

  lemma CancelCooldownCoherent(b: Book, id: Value)
    requires Coherent(b)
    ensures Coherent(CancelCooldown(b, id)) && id !in CancelCooldown(b, id).stopCooldown
  {
  }

  lemma CancelBothCoherent(b: Book, id: Value)
    requires Coherent(b)
    ensures Coherent(CancelBoth(b, id))
    ensures id !in CancelBoth(b, id).stopTimer && id !in CancelBoth(b, id).stopCooldown
  {
    CancelStopCoherent(b, id);
    CancelCooldownCoherent(CancelStop(b, id), id);
  }

  /** Starting a stop timer into a slot that holds nothing pending keeps coherence. */
  lemma ArmStopCoherent(b: Book, dev: Record, delay: int)
    requires Coherent(b) && "id" in dev
    requires dev["id"] in b.stopTimer ==> b.stopTimer[dev["id"]] !in b.active
    requires dev["id"] in b.stopCooldown ==> b.stopCooldown[dev["id"]] !in b.active
    ensures Coherent(ArmStop(b, dev, delay))
  {
    ArmStopSlots(b, dev, delay);
    ArmStopPending(b, dev, delay);
  }

  lemma ArmStopSlots(b: Book, dev: Record, delay: int)
    requires Issued(b) && SlotsHold(b) && "id" in dev
    ensures Issued(ArmStop(b, dev, delay)) && SlotsHold(ArmStop(b, dev, delay))
  {
    var b2 := ArmStop(b, dev, delay);
    var n := b.nextToken;
    var id := dev["id"];
    assert n !in b.timers;
    assert b2.timers == b.timers[n := Timer(delay, StopTask(dev))] && b2.active == b.active + {n};
    assert b2.stopTimer == b.stopTimer[id := n] && b2.stopCooldown == b.stopCooldown;
    forall t | t in b2.timers ensures t < b2.nextToken && "id" in b2.timers[t].task.dev {
      if t != n {
        assert b2.timers[t] == b.timers[t];
      }
    }
    forall x | x in b2.stopTimer
      ensures b2.stopTimer[x] in b2.timers && b2.timers[b2.stopTimer[x]].task.StopTask?
              && TaskId(b2.timers[b2.stopTimer[x]].task) == x
    {
      if x != id {
        assert b2.stopTimer[x] == b.stopTimer[x] != n;
      }
    }
    forall x | x in b2.stopCooldown
      ensures b2.stopCooldown[x] in b2.timers && b2.timers[b2.stopCooldown[x]].task.CooldownTask?
              && TaskId(b2.timers[b2.stopCooldown[x]].task) == x
    {
      assert b2.stopCooldown[x] == b.stopCooldown[x] != n;
    }
  }

  lemma ArmStopPending(b: Book, dev: Record, delay: int)
    requires Issued(b) && SlotsHold(b) && PendingSlotted(b) && Exclusive(b) && "id" in dev
    requires dev["id"] in b.stopTimer ==> b.stopTimer[dev["id"]] !in b.active
    requires dev["id"] in b.stopCooldown ==> b.stopCooldown[dev["id"]] !in b.active
    ensures Issued(ArmStop(b, dev, delay))
    ensures PendingSlotted(ArmStop(b, dev, delay)) && Exclusive(ArmStop(b, dev, delay))
  {
    var b2 := ArmStop(b, dev, delay);
    var n := b.nextToken;
    var id := dev["id"];
    assert n !in b.timers && n !in b.active;
    assert b2.timers == b.timers[n := Timer(delay, StopTask(dev))] && b2.active == b.active + {n};
    assert b2.stopTimer == b.stopTimer[id := n] && b2.stopCooldown == b.stopCooldown;
    forall t | t in b2.timers ensures t < b2.nextToken && "id" in b2.timers[t].task.dev {
      if t != n {
        assert b2.timers[t] == b.timers[t];
      }
    }
    forall t | t in b2.active && b2.timers[t].task.StopTask?
      ensures TaskId(b2.timers[t].task) in b2.stopTimer && b2.stopTimer[TaskId(b2.timers[t].task)] == t
    {
      if t != n {
        assert t in b.active && TaskId(b.timers[t].task) != id;
      }
    }
    forall t | t in b2.active && b2.timers[t].task.CooldownTask?
      ensures TaskId(b2.timers[t].task) in b2.stopCooldown && b2.stopCooldown[TaskId(b2.timers[t].task)] == t
    {
      assert t != n && t in b.active && b2.timers[t] == b.timers[t];
    }
    forall x | x in b2.stopTimer && x in b2.stopCooldown
      ensures b2.stopTimer[x] !in b2.active || b2.stopCooldown[x] !in b2.active
    {
      if x == id {
        assert b.stopCooldown[x] !in b.active && b.stopCooldown[x] != n;
      }
    }
  }

  /** The same for a cooldown watcher. */
  lemma ArmCooldownCoherent(b: Book, task: Task)
    requires Coherent(b) && task.CooldownTask? && "id" in task.dev
    requires TaskId(task) in b.stopCooldown ==> b.stopCooldown[TaskId(task)] !in b.active
    requires TaskId(task) in b.stopTimer ==> b.stopTimer[TaskId(task)] !in b.active
    ensures Coherent(ArmCooldown(b, task))
  {
    ArmCooldownSlots(b, task);
    ArmCooldownPending(b, task);
  }

  lemma ArmCooldownSlots(b: Book, task: Task)
    requires Issued(b) && SlotsHold(b) && task.CooldownTask? && "id" in task.dev
    ensures Issued(ArmCooldown(b, task)) && SlotsHold(ArmCooldown(b, task))
  {
    var b2 := ArmCooldown(b, task);
    var n := b.nextToken;
    var id := TaskId(task);
    assert n !in b.timers;
    assert b2.timers == b.timers[n := Timer(5, task)] && b2.active == b.active + {n};
    assert b2.stopCooldown == b.stopCooldown[id := n] && b2.stopTimer == b.stopTimer;
    forall t | t in b2.timers ensures t < b2.nextToken && "id" in b2.timers[t].task.dev {
      if t != n {
        assert b2.timers[t] == b.timers[t];
      }
    }
    forall x | x in b2.stopTimer
      ensures b2.stopTimer[x] in b2.timers && b2.timers[b2.stopTimer[x]].task.StopTask?
              && TaskId(b2.timers[b2.stopTimer[x]].task) == x
    {
      assert b2.stopTimer[x] == b.stopTimer[x] != n;
    }
    forall x | x in b2.stopCooldown
      ensures b2.stopCooldown[x] in b2.timers && b2.timers[b2.stopCooldown[x]].task.CooldownTask?
              && TaskId(b2.timers[b2.stopCooldown[x]].task) == x
    {
      if x != id {
        assert b2.stopCooldown[x] == b.stopCooldown[x] != n;
      }
    }
  }

  lemma ArmCooldownPending(b: Book, task: Task)
    requires Issued(b) && SlotsHold(b) && PendingSlotted(b) && Exclusive(b) && task.CooldownTask? && "id" in task.dev
    requires TaskId(task) in b.stopCooldown ==> b.stopCooldown[TaskId(task)] !in b.active
    requires TaskId(task) in b.stopTimer ==> b.stopTimer[TaskId(task)] !in b.active
    ensures Issued(ArmCooldown(b, task))
    ensures PendingSlotted(ArmCooldown(b, task)) && Exclusive(ArmCooldown(b, task))
  {
    var b2 := ArmCooldown(b, task);
    var n := b.nextToken;
    var id := TaskId(task);
    assert n !in b.timers && n !in b.active;
    assert b2.timers == b.timers[n := Timer(5, task)] && b2.active == b.active + {n};
    assert b2.stopCooldown == b.stopCooldown[id := n] && b2.stopTimer == b.stopTimer;
    forall t | t in b2.timers ensures t < b2.nextToken && "id" in b2.timers[t].task.dev {
      if t != n {
        assert b2.timers[t] == b.timers[t];
      }
    }
    forall t | t in b2.active && b2.timers[t].task.StopTask?
      ensures TaskId(b2.timers[t].task) in b2.stopTimer && b2.stopTimer[TaskId(b2.timers[t].task)] == t
    {
      assert t != n && t in b.active && b2.timers[t] == b.timers[t];
    }
    forall t | t in b2.active && b2.timers[t].task.CooldownTask?
      ensures TaskId(b2.timers[t].task) in b2.stopCooldown && b2.stopCooldown[TaskId(b2.timers[t].task)] == t
    {
      if t != n {
        assert t in b.active && TaskId(b.timers[t].task) != id;
      }
    }
    forall x | x in b2.stopTimer && x in b2.stopCooldown
      ensures b2.stopTimer[x] !in b2.active || b2.stopCooldown[x] !in b2.active
    {
      if x == id {
        assert b.stopTimer[x] !in b.active && b.stopTimer[x] != n;
      }
    }
  }

  /** Retiring a fired timer keeps coherence. */
  lemma RetireCoherent(b: Book, token: nat)
    requires Coherent(b)
    ensures Coherent(Retire(b, token))
  {
  }

  /** Planning a timed switch-off keeps coherence when nothing is pending in the stop slot. */
  lemma PlanStopTimeModeCoherent(s: Sched, dev: Record, delay: int, now: int, selected: seq<Record>)
    requires Coherent(s.book) && "id" in dev && Listed(selected)
    requires dev["id"] in s.book.stopTimer ==> s.book.stopTimer[dev["id"]] !in s.book.active
    requires dev["id"] in s.book.stopCooldown ==> s.book.stopCooldown[dev["id"]] !in s.book.active
    ensures Coherent(PlanStopTimeMode(s, dev, delay, now, selected).s.book)
  {
    if dev["id"] in s.shutdownAt {
      var delta := Extended(s.shutdownAt[dev["id"]], delay, now) - now;
      assert PlanStopTimeMode(s, dev, delay, now, selected).s.book == ArmStop(s.book, dev, delta);
      ArmStopCoherent(s.book, dev, delta);
    }
  }

  lemma PlanStopCooldownCoherent(s: Sched, dev: Record, selected: seq<Record>)
    requires Coherent(s.book) && "id" in dev && IntField(dev, "cooldown_hotend") && IntField(dev, "cooldown_bed")
    requires Listed(selected)
    requires dev["id"] in s.book.stopCooldown ==> s.book.stopCooldown[dev["id"]] !in s.book.active
    requires dev["id"] in s.book.stopTimer ==> s.book.stopTimer[dev["id"]] !in s.book.active
    ensures Coherent(PlanStopCooldown(s, dev, selected).book)
  {
    ArmCooldownCoherent(s.book, CooldownTask(dev, AsInt(dev["cooldown_hotend"]), AsInt(dev["cooldown_bed"])));
  }

  /** `planStop` keeps coherence unconditionally, because it cancels first. */
  lemma PlanStopCoherent(s: Sched, dev: Record, force: bool, now: int, selected: seq<Record>)
    requires Coherent(s.book) && Plannable(dev, force) && Listed(selected)
    ensures Coherent(PlanStop(s, dev, force, now, selected).s.book)
  {
    var s1 := s.(book := CancelBoth(s.book, dev["id"]));
    CancelBothCoherent(s.book, dev["id"]);
    if TimeMode(dev, force) {
      var delay := if force then AsInt(dev["postpone_delay"]) else AsInt(dev["stop_timer"]);
      PlanStopTimeModeCoherent(s1, dev, delay, now, selected);
    } else {
      PlanStopCooldownCoherent(s1, dev, selected);
    }
  }

  lemma TurnOffCoherent(s: Sched, dev: Record, printer: PrinterState, selected: seq<Record>)
    requires Coherent(s.book) && "id" in dev && Listed(selected)
    ensures Coherent(TurnOff(s, dev, printer, selected).book)
  {
    CancelBothCoherent(s.book, dev["id"]);
  }

  lemma TurnOnCoherent(s: Sched, dev: Record, result: SwitchResult, selected: seq<Record>)
    requires Coherent(s.book) && "id" in dev && IntField(dev, "connection_timer") && Listed(selected)
    ensures Coherent(TurnOn(s, dev, result, selected).s.book)
  {
    if result == Switched && AsInt(dev["connection_timer"]) >= -1 {
      var task := ConnectTask(dev);
      assert TurnOn(s, dev, result, selected).s.book == Start(s.book, AsInt(dev["connection_timer"]), task);
      StartConnectCoherent(s.book, AsInt(dev["connection_timer"]), task);
    } else {
      assert TurnOn(s, dev, result, selected).s.book == s.book;
    }
  }

  /** Starting a connection timer touches no slot, so coherence is kept. */
  lemma StartConnectCoherent(b: Book, delay: int, task: Task)
    requires Coherent(b) && task.ConnectTask? && "id" in task.dev
    ensures Coherent(Start(b, delay, task))
  {
    var b2 := Start(b, delay, task);
    var n := b.nextToken;
    assert n !in b.timers && n !in b.active;
    forall x | x in b2.stopTimer ensures b2.stopTimer[x] != n && b2.timers[b2.stopTimer[x]] == b.timers[b.stopTimer[x]] {
    }
    forall x | x in b2.stopCooldown ensures b2.stopCooldown[x] != n && b2.timers[b2.stopCooldown[x]] == b.timers[b.stopCooldown[x]] {
    }
  }

  lemma FireStopCoherent(s: Sched, token: nat, printer: PrinterState, selected: seq<Record>)
    requires Coherent(s.book) && token in s.book.timers && s.book.timers[token].task.StopTask? && Listed(selected)
    ensures Coherent(FireStop(s, token, printer, selected).book)
  {
    if Fires(s.book, token) {
      RetireCoherent(s.book, token);
      TurnOffCoherent(s.(book := Retire(s.book, token)), s.book.timers[token].task.dev, printer, selected);
    }
  }

  lemma FireCooldownCoherent(s: Sched, token: nat, temps: Temps, printer: PrinterState, selected: seq<Record>)
    requires Coherent(s.book) && token in s.book.timers && s.book.timers[token].task.CooldownTask? && Listed(selected)
    ensures Coherent(FireCooldown(s, token, temps, printer, selected).s.book)
  {
    if Fires(s.book, token) {
      var task := s.book.timers[token].task;
      var s1 := s.(book := Retire(s.book, token));
      RetireCoherent(s.book, token);
      if Readable(temps, task.hotendRequest, task.bedRequest) {
        if ReadyForStop(temps, task.hotendRequest, task.bedRequest) {
          TurnOffCoherent(s1, task.dev, printer, selected);
        } else {
          assert s1.book.stopCooldown[TaskId(task)] == token;
          ArmCooldownCoherent(s1.book, task);
        }
      }
    }
  }

  lemma FireConnectCoherent(s: Sched, token: nat)
    requires Coherent(s.book) && token in s.book.timers && s.book.timers[token].task.ConnectTask?
    ensures Coherent(FireConnect(s, token).book)
  {
  }

  lemma PostponeCoherent(s: Sched, dev: Record, now: int, selected: seq<Record>)
    requires Coherent(s.book) && Plannable(dev, true) && Listed(selected)
    ensures Coherent(Postpone(s, dev, now, selected).s.book)
  {
    PlanStopCoherent(s, dev, true, now, selected);
  }

  lemma CancelShutdownCoherent(s: Sched, dev: Record, selected: seq<Record>)
    requires Coherent(s.book) && "id" in dev && Listed(selected)
    ensures Coherent(CancelShutdown(s, dev, selected).book)
  {
    CancelStopCoherent(s.book, dev["id"]);
    CancelCooldownCoherent(s.book, dev["id"]);
    CancelCooldownCoherent(CancelStop(s.book, dev["id"]), dev["id"]);
  }

  lemma ShutdownNowCoherent(s: Sched, dev: Record, printer: PrinterState, selected: seq<Record>)
    requires Coherent(s.book) && "id" in dev && Listed(selected)
    ensures Coherent(ShutdownNow(s, dev, printer, selected).book)
  {
    TurnOffCoherent(s, dev, printer, selected);
  }

  lemma {:induction false} OnEventCoherent(s: Sched, event: string, devs: seq<Record>, now: int, selected: seq<Record>)
    requires Coherent(s.book) && Listed(selected)
    requires forall k :: 0 <= k < |devs| ==> EventReady(devs[k], event)
    ensures Coherent(OnEvent(s, event, devs, now, selected).s.book)
    decreases |devs|
  {
    if devs != [] {
      var dev := devs[0];
      assert EventReady(dev, event);
      assert forall k :: 0 <= k < |devs[1..]| ==> devs[1..][k] == devs[k + 1];
      if SchedulesStop(dev, event) {
        PlanStopCoherent(s, dev, false, now, selected);
        var o := PlanStop(s, dev, false, now, selected);
        if !o.raised {
          OnEventCoherent(o.s, event, devs[1..], now, selected);
        }
      } else if event == "PrintStarted" {
        CancelBothCoherent(s.book, dev["id"]);
        OnEventCoherent(s.(book := CancelBoth(s.book, dev["id"])), event, devs[1..], now, selected);
      } else {
        OnEventCoherent(s, event, devs[1..], now, selected);
      }
    }
  }

  // ---------------------------------------------------------------------
  // One watcher per device
  // ---------------------------------------------------------------------

  /** Two pending stop timers for the same device are the same timer. */
  lemma AtMostOneStopTimer(b: Book, t1: nat, t2: nat)
    requires Coherent(b) && Fires(b, t1) && Fires(b, t2)
    requires b.timers[t1].task.StopTask? && b.timers[t2].task.StopTask?
    requires TaskId(b.timers[t1].task) == TaskId(b.timers[t2].task)
    ensures t1 == t2
  {
  }

  /** Two pending timers that can switch the same device off are the same timer. */
  lemma AtMostOneWatcher(b: Book, id: Value, t1: nat, t2: nat)
    requires Coherent(b) && Watching(b, id, t1) && Watching(b, id, t2)
    ensures t1 == t2
  {
  }

  /** Two pending cooldown watchers for the same device are the same watcher. */
  lemma AtMostOneCooldown(b: Book, t1: nat, t2: nat)
    requires Coherent(b) && Fires(b, t1) && Fires(b, t2)
    requires b.timers[t1].task.CooldownTask? && b.timers[t2].task.CooldownTask?
    requires TaskId(b.timers[t1].task) == TaskId(b.timers[t2].task)
    ensures t1 == t2
  {
  }

  // ---------------------------------------------------------------------
  // Cancelling and replacing
  // ---------------------------------------------------------------------

  /** `t` is a pending stop timer or cooldown watcher of device `id`. */
  predicate Watching(b: Book, id: Value, t: nat)
  {
    && t in b.active && t in b.timers
    && !b.timers[t].task.ConnectTask? && "id" in b.timers[t].task.dev
    && TaskId(b.timers[t].task) == id
  }

  /**
   * Cancelling a device's slots retires every pending timer of that device,
   * and only those; no timer is forgotten.
   */
  lemma CancelBothRetires(b: Book, id: Value)
    requires Coherent(b)
    ensures forall t :: !Watching(CancelBoth(b, id), id, t)
    ensures forall other, t :: other != id ==> (Watching(CancelBoth(b, id), other, t) <==> Watching(b, other, t))
    ensures CancelBoth(b, id).timers == b.timers && CancelBoth(b, id).nextToken == b.nextToken
  {
  }

  /**
   * Arming a slot whose device has nothing pending makes the new timer the
   * device's only pending one and leaves other devices alone.
   */
  lemma ArmWatches(b: Book, id: Value, timer: Timer)
    requires Coherent(b) && !timer.task.ConnectTask? && "id" in timer.task.dev && TaskId(timer.task) == id
    requires timer.task.CooldownTask? ==> timer.delay == 5
    requires forall t :: !Watching(b, id, t)
    ensures var b2 := if timer.task.StopTask? then ArmStop(b, timer.task.dev, timer.delay) else ArmCooldown(b, timer.task);
      && Watching(b2, id, b.nextToken)
      && (forall t :: Watching(b2, id, t) ==> t == b.nextToken)
      && (forall other, t :: other != id ==> (Watching(b2, other, t) <==> Watching(b, other, t)))
      && b2.timers[b.nextToken] == timer
      && (forall t :: t in b.timers ==> t in b2.timers)
  {
    var b2 := if timer.task.StopTask? then ArmStop(b, timer.task.dev, timer.delay) else ArmCooldown(b, timer.task);
    forall t | Watching(b2, id, t) ensures t == b.nextToken {
      if t != b.nextToken {
        assert Watching(b, id, t);
      }
    }
  }

  /**
   * `planStop` replaces whatever was pending for the device: none of the
   * device's earlier timers stays pending and, unless it raises, exactly one
   * new one is: a stop timer for the time left until the extended deadline,
   * or a cooldown watcher with the record's two thresholds. It raises only
   * in time mode, when the device has no deadline entry yet.
   */
  lemma PlanStopReplaces(s: Sched, dev: Record, force: bool, now: int, selected: seq<Record>)
    requires Coherent(s.book) && Plannable(dev, force) && Listed(selected)
    ensures var o := PlanStop(s, dev, force, now, selected);
      o.raised <==> TimeMode(dev, force) && dev["id"] !in s.shutdownAt
    ensures var o := PlanStop(s, dev, force, now, selected);
      forall t :: t in s.book.timers ==> !Watching(o.s.book, dev["id"], t)
    ensures var o := PlanStop(s, dev, force, now, selected);
      forall other, t :: other != dev["id"] ==> (Watching(o.s.book, other, t) <==> Watching(s.book, other, t))
    ensures var o := PlanStop(s, dev, force, now, selected);
      !o.raised ==>
        && Watching(o.s.book, dev["id"], s.book.nextToken)
        && (forall t :: Watching(o.s.book, dev["id"], t) ==> t == s.book.nextToken)
        && o.s.book.timers[s.book.nextToken] ==
           (if TimeMode(dev, force)
            then Timer(Extended(s.shutdownAt[dev["id"]], if force then AsInt(dev["postpone_delay"]) else AsInt(dev["stop_timer"]), now) - now,
                       StopTask(dev))
            else Timer(5, CooldownTask(dev, AsInt(dev["cooldown_hotend"]), AsInt(dev["cooldown_bed"]))))
  {
    var id := dev["id"];
    var b1 := CancelBoth(s.book, id);
    CancelBothRetires(s.book, id);
    CancelBothCoherent(s.book, id);
    if TimeMode(dev, force) {
      var delay := if force then AsInt(dev["postpone_delay"]) else AsInt(dev["stop_timer"]);
      if id in s.shutdownAt {
        var delta := Extended(s.shutdownAt[id], delay, now) - now;
        assert PlanStop(s, dev, force, now, selected) == PlanStopTimeMode(s.(book := b1), dev, delay, now, selected);
        assert PlanStop(s, dev, force, now, selected).s.book == ArmStop(b1, dev, delta);
        ArmWatches(b1, id, Timer(delta, StopTask(dev)));
      }
    } else {
      var task := CooldownTask(dev, AsInt(dev["cooldown_hotend"]), AsInt(dev["cooldown_bed"]));
      assert PlanStop(s, dev, force, now, selected).s.book == ArmCooldown(b1, task);
      ArmWatches(b1, id, Timer(5, task));
    }
  }

  /** A stop timer that `planStop` replaced never runs its task. */
  lemma ReplacedStopTimerNeverRuns(s: Sched, dev: Record, force: bool, now: int, selected: seq<Record>,
                                   token: nat, printer: PrinterState)
    requires Coherent(s.book) && Plannable(dev, force) && Listed(selected)
    requires token in s.book.timers && s.book.timers[token].task.StopTask? && TaskId(s.book.timers[token].task) == dev["id"]
    ensures var r := PlanStop(s, dev, force, now, selected).s;
      token in r.book.timers && r.book.timers[token] == s.book.timers[token]
      && FireStop(r, token, printer, selected) == r
  {
    PlanStopDeactivates(s, dev, force, now, selected, token);
  }

  /** A cooldown watcher that `planStop` replaced never checks the temperatures again. */
  lemma ReplacedCooldownNeverRuns(s: Sched, dev: Record, force: bool, now: int, selected: seq<Record>,
                                  token: nat, temps: Temps, printer: PrinterState)
    requires Coherent(s.book) && Plannable(dev, force) && Listed(selected)
    requires token in s.book.timers && s.book.timers[token].task.CooldownTask? && TaskId(s.book.timers[token].task) == dev["id"]
    ensures var r := PlanStop(s, dev, force, now, selected).s;
      token in r.book.timers && r.book.timers[token] == s.book.timers[token]
      && FireCooldown(r, token, temps, printer, selected) == Outcome(r, false)
  {
    PlanStopDeactivates(s, dev, force, now, selected, token);
  }

  /** Every earlier timer of the device is still recorded after `planStop`, and no longer pending. */
  lemma PlanStopDeactivates(s: Sched, dev: Record, force: bool, now: int, selected: seq<Record>, token: nat)
    requires Coherent(s.book) && Plannable(dev, force) && Listed(selected)
    requires token in s.book.timers && !s.book.timers[token].task.ConnectTask? && TaskId(s.book.timers[token].task) == dev["id"]
    ensures var b := PlanStop(s, dev, force, now, selected).s.book;
      token in b.timers && b.timers[token] == s.book.timers[token] && token !in b.active
  {
    var b1 := CancelBoth(s.book, dev["id"]);
    assert token !in b1.active && b1.timers == s.book.timers && b1.nextToken == s.book.nextToken;
    assert token < b1.nextToken;
  }

  /**
   * `/sidebar/cancelShutdown` leaves nothing pending for the device. It
   * drops the deadline only when a stop timer was pending; the deadline of
   * a device in cooldown mode is left as it was.
   */
  lemma CancelShutdownRetires(s: Sched, dev: Record, selected: seq<Record>)
    requires Coherent(s.book) && "id" in dev && Listed(selected)
    ensures var r := CancelShutdown(s, dev, selected);
      && (forall t :: !Watching(r.book, dev["id"], t))
      && (forall other, t :: other != dev["id"] ==> (Watching(r.book, other, t) <==> Watching(s.book, other, t)))
      && r.effects == s.effects
      && (dev["id"] in s.book.stopTimer ==> r.shutdownAt[dev["id"]] == None)
      && (dev["id"] !in s.book.stopTimer && dev["id"] in s.shutdownAt ==> r.shutdownAt[dev["id"]] == s.shutdownAt[dev["id"]])
  {
    CancelBothRetires(s.book, dev["id"]);
  }

  /** A stop timer running after `/sidebar/cancelShutdown` does nothing. */
  lemma CancelledStopTimerNeverRuns(s: Sched, dev: Record, selected: seq<Record>, token: nat, printer: PrinterState)
    requires Coherent(s.book) && "id" in dev && Listed(selected)
    requires token in s.book.timers && s.book.timers[token].task.StopTask? && TaskId(s.book.timers[token].task) == dev["id"]
    ensures var r := CancelShutdown(s, dev, selected);
      token in r.book.timers && FireStop(r, token, printer, selected) == r
  {
    CancelShutdownRetires(s, dev, selected);
    assert !Watching(CancelShutdown(s, dev, selected).book, dev["id"], token);
  }

  // ---------------------------------------------------------------------
  // Deadlines
  // ---------------------------------------------------------------------

  /**
   * `planStopTimeMode` raises exactly when the device has no deadline entry,
   * and then changes nothing. Otherwise the deadline is extended by `delay`
   * (or set to `now + delay`), the new stop timer runs for the time left
   * until it, and no other device's deadline changes.
   */
  lemma PlanStopTimeModeDeadline(s: Sched, dev: Record, delay: int, now: int, selected: seq<Record>)
    requires "id" in dev && Listed(selected)
    ensures var o := PlanStopTimeMode(s, dev, delay, now, selected);
      && (o.raised <==> dev["id"] !in s.shutdownAt)
      && (o.raised ==> o.s == s)
      && (!o.raised ==>
            && o.s.shutdownAt[dev["id"]] == Some(Extended(s.shutdownAt[dev["id"]], delay, now))
            && o.s.book.timers[s.book.nextToken] == Timer(o.s.shutdownAt[dev["id"]].value - now, StopTask(dev))
            && (forall other :: other in s.shutdownAt && other != dev["id"] ==> o.s.shutdownAt[other] == s.shutdownAt[other])
            && o.s.effects == s.effects)
  {
  }

  /**
   * Postponing twice pushes the deadline back by twice `postpone_delay`,
   * whatever the clock says at each request, and the second stop timer runs
   * until that deadline.
   */
  lemma PostponeAccumulates(s: Sched, dev: Record, now1: int, now2: int, selected: seq<Record>)
    requires Plannable(dev, true) && Listed(selected)
    requires dev["id"] in s.shutdownAt && s.shutdownAt[dev["id"]].Some?
    ensures var o1 := Postpone(s, dev, now1, selected);
      var o2 := Postpone(o1.s, dev, now2, selected);
      && !o1.raised && !o2.raised
      && o2.s.shutdownAt[dev["id"]] == Some(s.shutdownAt[dev["id"]].value + 2 * AsInt(dev["postpone_delay"]))
      && o2.s.book.timers[o1.s.book.nextToken].delay == o2.s.shutdownAt[dev["id"]].value - now2
  {
    var id := dev["id"];
    var p := AsInt(dev["postpone_delay"]);
    PostponeDeadline(s, dev, now1, selected);
    var o1 := Postpone(s, dev, now1, selected);
    PostponeDeadline(o1.s, dev, now2, selected);
  }

  /** One postponement extends the deadline by `postpone_delay` and times the new stop timer to it. */
  lemma PostponeDeadline(s: Sched, dev: Record, now: int, selected: seq<Record>)
    requires Plannable(dev, true) && Listed(selected) && dev["id"] in s.shutdownAt
    ensures var o := Postpone(s, dev, now, selected);
      && !o.raised && dev["id"] in o.s.shutdownAt
      && o.s.shutdownAt[dev["id"]] == Some(Extended(s.shutdownAt[dev["id"]], AsInt(dev["postpone_delay"]), now))
      && o.s.book.timers[s.book.nextToken].delay == o.s.shutdownAt[dev["id"]].value - now
  {
    var s1 := s.(book := CancelBoth(s.book, dev["id"]));
    PlanStopTimeModeDeadline(s1, dev, AsInt(dev["postpone_delay"]), now, selected);
    assert PlanStop(s, dev, true, now, selected) == PlanStopTimeMode(s1, dev, AsInt(dev["postpone_delay"]), now, selected);
  }

  /** Postponing a device with no deadline sets one `postpone_delay` seconds from now. */
  lemma PostponeFromNow(s: Sched, dev: Record, now: int, selected: seq<Record>)
    requires Plannable(dev, true) && Listed(selected)
    requires dev["id"] in s.shutdownAt && s.shutdownAt[dev["id"]].None?
    ensures var o := Postpone(s, dev, now, selected);
      !o.raised && o.s.shutdownAt[dev["id"]] == Some(now + AsInt(dev["postpone_delay"]))
  {
    PostponeDeadline(s, dev, now, selected);
  }

  // ---------------------------------------------------------------------
  // Switching off
  // ---------------------------------------------------------------------

  /**
   * `turnOff` always drops the device's deadline and everything pending for
   * it, but while the printer prints, pauses or cancels it issues no request
   * at all; otherwise it disconnects the printer (unless a Palette 2 is
   * attached) and then switches the device off.
   */
  lemma TurnOffRefusesWhileBusy(s: Sched, dev: Record, printer: PrinterState, selected: seq<Record>)
    requires Coherent(s.book) && "id" in dev && Listed(selected)
    ensures var r := TurnOff(s, dev, printer, selected);
      && r.shutdownAt[dev["id"]] == None
      && (forall t :: !Watching(r.book, dev["id"], t))
      && (forall other, t :: other != dev["id"] ==> (Watching(r.book, other, t) <==> Watching(s.book, other, t)))
      && (Busy(printer) ==> r.effects == s.effects)
      && (!Busy(printer) ==>
            r.effects == s.effects + (if FlagSet(dev, "connect_palette2") then [] else [PrinterDisconnect])
                                   + [Switch(dev["id"], false)])
  {
    CancelBothRetires(s.book, dev["id"]);
  }

  /** Python's chained `-1 < request < actual`: a threshold of -1 or below is disabled. */
  lemma ReadyForStopThresholds(temps: Temps, hotendRequest: int, bedRequest: int)
    requires Readable(temps, hotendRequest, bedRequest)
    ensures ReadyForStop(temps, hotendRequest, bedRequest) <==>
      && (bedRequest <= -1 || temps.bed.value <= bedRequest as real)
      && (hotendRequest <= -1 || temps.tool0.value <= hotendRequest as real)
  {
  }

  /** With both thresholds disabled no reading is needed and the device is always ready. */
  lemma DisabledThresholdsReady(temps: Temps, hotendRequest: int, bedRequest: int)
    requires hotendRequest <= -1 && bedRequest <= -1
    ensures Readable(temps, hotendRequest, bedRequest) && ReadyForStop(temps, hotendRequest, bedRequest)
  {
  }

  /** The watcher that runs is its device's only pending one, and retiring it leaves none. */
  lemma RetireWatcher(b: Book, token: nat)
    requires Coherent(b) && token in b.timers && b.timers[token].task.CooldownTask? && Fires(b, token)
    ensures Coherent(Retire(b, token))
    ensures forall t :: !Watching(Retire(b, token), TaskId(b.timers[token].task), t)
    ensures TaskId(b.timers[token].task) in b.stopCooldown && b.stopCooldown[TaskId(b.timers[token].task)] == token
  {
  }

  /**
   * A cooldown watcher that finds a reading missing raises: it ends, issues
   * nothing, yet its slot still holds it, so the sidebar keeps reporting the
   * device as waiting for the cooldown.
   */
  lemma FireCooldownMissingReading(s: Sched, token: nat, temps: Temps, printer: PrinterState, selected: seq<Record>)
    requires Coherent(s.book) && token in s.book.timers && s.book.timers[token].task.CooldownTask? && Listed(selected)
    requires Fires(s.book, token)
    requires !Readable(temps, s.book.timers[token].task.hotendRequest, s.book.timers[token].task.bedRequest)
    ensures var id := TaskId(s.book.timers[token].task);
      var o := FireCooldown(s, token, temps, printer, selected);
      && o.raised && o.s.effects == s.effects
      && (forall t :: !Watching(o.s.book, id, t))
      && id in o.s.book.stopCooldown
      && CooldownWait(o.s.book.stopCooldown, selected) == CooldownWait(s.book.stopCooldown, selected)
  {
    RetireWatcher(s.book, token);
  }

  /**
   * A cooldown watcher that finds both temperatures down switches off
   * through `turnOff`, and afterwards nothing is pending for the device.
   */
  lemma FireCooldownReady(s: Sched, token: nat, temps: Temps, printer: PrinterState, selected: seq<Record>)
    requires Coherent(s.book) && token in s.book.timers && s.book.timers[token].task.CooldownTask? && Listed(selected)
    requires Fires(s.book, token)
    requires Readable(temps, s.book.timers[token].task.hotendRequest, s.book.timers[token].task.bedRequest)
    requires ReadyForStop(temps, s.book.timers[token].task.hotendRequest, s.book.timers[token].task.bedRequest)
    ensures var task := s.book.timers[token].task;
      var o := FireCooldown(s, token, temps, printer, selected);
      && !o.raised
      && TaskId(task) !in o.s.book.stopCooldown
      && (forall t :: !Watching(o.s.book, TaskId(task), t))
      && o.s.shutdownAt[TaskId(task)] == None
      && o.s.effects == TurnOff(s, task.dev, printer, selected).effects
  {
    var task := s.book.timers[token].task;
    RetireWatcher(s.book, token);
    TurnOffRefusesWhileBusy(s.(book := Retire(s.book, token)), task.dev, printer, selected);
  }

  /**
   * A cooldown watcher that finds a temperature still too high re-arms
   * itself for another 5 seconds with the same thresholds, and issues
   * nothing.
   */
  lemma FireCooldownNotReady(s: Sched, token: nat, temps: Temps, printer: PrinterState, selected: seq<Record>)
    requires Coherent(s.book) && token in s.book.timers && s.book.timers[token].task.CooldownTask? && Listed(selected)
    requires Fires(s.book, token)
    requires Readable(temps, s.book.timers[token].task.hotendRequest, s.book.timers[token].task.bedRequest)
    requires !ReadyForStop(temps, s.book.timers[token].task.hotendRequest, s.book.timers[token].task.bedRequest)
    ensures var task := s.book.timers[token].task;
      var o := FireCooldown(s, token, temps, printer, selected);
      && !o.raised
      && Watching(o.s.book, TaskId(task), s.book.nextToken)
      && (forall t :: Watching(o.s.book, TaskId(task), t) ==> t == s.book.nextToken)
      && o.s.book.timers[s.book.nextToken] == Timer(5, task)
      && o.s.effects == s.effects
  {
    var task := s.book.timers[token].task;
    RetireWatcher(s.book, token);
    ArmWatches(Retire(s.book, token), TaskId(task), Timer(5, task));
  }

  // ---------------------------------------------------------------------
  // Switching on
  // ---------------------------------------------------------------------

  /**
   * `turnOn` sends at most one switch request (`switch_on` only for an
   * outlet), logged unless the facade raised before sending. It raises
   * exactly when the request raised, and then starts no timer and fills no
   * deadline. Otherwise it starts the connection timer exactly when
   * `connection_timer` is at least -1. No switch-off timer is touched.
   */
  lemma TurnOnSwitches(s: Sched, dev: Record, result: SwitchResult, selected: seq<Record>)
    requires Coherent(s.book) && "id" in dev && IntField(dev, "connection_timer") && Listed(selected)
    ensures var r := TurnOn(s, dev, result, selected);
      && (r.raised <==> result != Switched)
      && r.s.effects == s.effects + (if result == RaisedBeforeSend then [] else [Switch(dev["id"], IsOutlet(dev))])
      && (result != Switched ==> r.s.book == s.book && r.s.shutdownAt == s.shutdownAt)
      && (Fires(r.s.book, s.book.nextToken) <==> result == Switched && AsInt(dev["connection_timer"]) >= -1)
      && (result == Switched && AsInt(dev["connection_timer"]) >= -1 ==>
            r.s.book.timers[s.book.nextToken] == Timer(AsInt(dev["connection_timer"]), ConnectTask(dev)))
      && (forall id, t :: Watching(r.s.book, id, t) <==> Watching(s.book, id, t))
  {
  }

  /** When the connection timer runs, it connects the Palette 2 if the record asks for it, else the printer. */
  lemma TurnOnThenConnect(s: Sched, dev: Record, selected: seq<Record>)
    requires Coherent(s.book) && "id" in dev && IntField(dev, "connection_timer") && Listed(selected)
    requires AsInt(dev["connection_timer"]) >= -1
    ensures var r := TurnOn(s, dev, Switched, selected).s;
      && s.book.nextToken in r.book.timers && r.book.timers[s.book.nextToken].task.ConnectTask?
      && FireConnect(r, s.book.nextToken).effects ==
         s.effects + [Switch(dev["id"], IsOutlet(dev)),
                      if FlagSet(dev, "connect_palette2") then Palette2Connect else PrinterConnect]
  {
  }

  /** The intended `turnOn` sends `switch_on` and otherwise does what `turnOn` does. */
  lemma TurnOnIntendedSwitchesOn(s: Sched, dev: Record, result: SwitchResult, selected: seq<Record>)
    requires "id" in dev && IntField(dev, "connection_timer") && Listed(selected)
    ensures var r := TurnOnIntended(s, dev, result, selected);
      && r.s.effects == s.effects + (if result == RaisedBeforeSend then [] else [Switch(dev["id"], true)])
      && r.s.book == TurnOn(s, dev, result, selected).s.book
      && r.s.shutdownAt == TurnOn(s, dev, result, selected).s.shutdownAt
      && r.raised == TurnOn(s, dev, result, selected).raised
  {
  }

  /**
   * `turnOn` as written agrees with the intended one exactly for outlets,
   * or when nothing was sent: a light or blind is sent `switch_off`.
   */
  lemma TurnOnAsIntendedIffOutlet(s: Sched, dev: Record, result: SwitchResult, selected: seq<Record>)
    requires "id" in dev && IntField(dev, "connection_timer") && Listed(selected)
    ensures TurnOn(s, dev, result, selected) == TurnOnIntended(s, dev, result, selected)
            <==> IsOutlet(dev) || result == RaisedBeforeSend
  {
    if !IsOutlet(dev) && result != RaisedBeforeSend {
      assert TurnOn(s, dev, result, selected).s.effects[|s.effects|] == Switch(dev["id"], false);
      assert TurnOnIntended(s, dev, result, selected).s.effects[|s.effects|] == Switch(dev["id"], true);
    }
  }

  // ---------------------------------------------------------------------
  // Printer events
  // ---------------------------------------------------------------------

  /** Events other than `PrintDone`, `PrintFailed` and `PrintStarted` change nothing. */
  lemma {:induction false} OnEventIgnores(s: Sched, event: string, devs: seq<Record>, now: int, selected: seq<Record>)
    requires event != "PrintDone" && event != "PrintFailed" && event != "PrintStarted"
    requires forall k :: 0 <= k < |devs| ==> EventReady(devs[k], event)
    requires Listed(selected)
    ensures OnEvent(s, event, devs, now, selected) == Outcome(s, false)
    decreases |devs|
  {
    if devs != [] {
      assert EventReady(devs[0], event);
      assert forall k :: 0 <= k < |devs[1..]| ==> devs[1..][k] == devs[k + 1];
      OnEventIgnores(s, event, devs[1..], now, selected);
    }
  }

  /**
   * `PrintStarted` cancels everything pending for every listed device and
   * issues nothing. It leaves the deadlines as they are, so a later
   * time-mode switch-off extends a stale deadline.
   */
  lemma {:induction false} OnEventPrintStarted(s: Sched, devs: seq<Record>, now: int, selected: seq<Record>)
    requires Coherent(s.book) && Listed(selected)
    requires forall k :: 0 <= k < |devs| ==> EventReady(devs[k], "PrintStarted")
    ensures var o := OnEvent(s, "PrintStarted", devs, now, selected);
      && !o.raised && o.s.shutdownAt == s.shutdownAt && o.s.effects == s.effects
      && Coherent(o.s.book)
      && (forall k, t :: 0 <= k < |devs| ==> !Watching(o.s.book, devs[k]["id"], t))
      && (forall other, t :: (forall k :: 0 <= k < |devs| ==> devs[k]["id"] != other) ==>
            (Watching(o.s.book, other, t) <==> Watching(s.book, other, t)))
    decreases |devs|
  {
    if devs != [] {
      var dev := devs[0];
      assert EventReady(dev, "PrintStarted");
      assert forall k :: 0 <= k < |devs[1..]| ==> devs[1..][k] == devs[k + 1];
      var s1 := s.(book := CancelBoth(s.book, dev["id"]));
      CancelBothRetires(s.book, dev["id"]);
      CancelBothCoherent(s.book, dev["id"]);
      OnEventPrintStarted(s1, devs[1..], now, selected);
      var o := OnEvent(s, "PrintStarted", devs, now, selected);
      assert o == OnEvent(s1, "PrintStarted", devs[1..], now, selected);
      forall k, t | 0 <= k < |devs| ensures !Watching(o.s.book, devs[k]["id"], t) {
        if k > 0 {
          assert devs[k] == devs[1..][k - 1];
        }
      }
    }
  }

  /** The device has a pending timer that can switch it off. */
  predicate Pending(b: Book, id: Value)
  {
    exists t :: t in b.active && Watching(b, id, t)
  }

  /** A device that has a pending switch-off keeps one through the rest of a stop-planning event. */
  lemma {:induction false} OnEventKeepsPending(s: Sched, event: string, devs: seq<Record>, now: int, selected: seq<Record>, id: Value)
    requires Coherent(s.book) && Listed(selected) && event != "PrintStarted"
    requires forall k :: 0 <= k < |devs| ==> EventReady(devs[k], event)
    requires Pending(s.book, id)
    ensures var o := OnEvent(s, event, devs, now, selected);
      !o.raised ==> Pending(o.s.book, id)
    decreases |devs|
  {
    if devs != [] {
      var dev := devs[0];
      assert EventReady(dev, event);
      assert forall k :: 0 <= k < |devs[1..]| ==> devs[1..][k] == devs[k + 1];
      if SchedulesStop(dev, event) {
        var o := PlanStop(s, dev, false, now, selected);
        PlanStopReplaces(s, dev, false, now, selected);
        PlanStopCoherent(s, dev, false, now, selected);
        if !o.raised {
          if dev["id"] == id {
            assert Watching(o.s.book, id, s.book.nextToken);
          } else {
            var t :| Watching(s.book, id, t);
            assert Watching(o.s.book, id, t);
          }
          OnEventKeepsPending(o.s, event, devs[1..], now, selected, id);
        }
      } else {
        OnEventKeepsPending(s, event, devs[1..], now, selected, id);
      }
    }
  }

  /**
   * Unless planning raised, every device configured for a `PrintDone` or
   * `PrintFailed` event has a pending switch-off afterwards.
   */
  lemma {:induction false} OnEventPlans(s: Sched, event: string, devs: seq<Record>, now: int, selected: seq<Record>)
    requires Coherent(s.book) && Listed(selected)
    requires forall k :: 0 <= k < |devs| ==> EventReady(devs[k], event)
    ensures var o := OnEvent(s, event, devs, now, selected);
      !o.raised ==> forall k :: 0 <= k < |devs| && SchedulesStop(devs[k], event) ==> Pending(o.s.book, devs[k]["id"])
    decreases |devs|
  {
    if devs != [] {
      var dev := devs[0];
      assert EventReady(dev, event);
      assert forall k :: 0 <= k < |devs[1..]| ==> devs[1..][k] == devs[k + 1];
      var o := OnEvent(s, event, devs, now, selected);
      if SchedulesStop(dev, event) {
        var p := PlanStop(s, dev, false, now, selected);
        PlanStopReplaces(s, dev, false, now, selected);
        PlanStopCoherent(s, dev, false, now, selected);
        if !p.raised {
          assert Watching(p.s.book, dev["id"], s.book.nextToken);
          OnEventKeepsPending(p.s, event, devs[1..], now, selected, dev["id"]);
          OnEventPlans(p.s, event, devs[1..], now, selected);
          assert o == OnEvent(p.s, event, devs[1..], now, selected);
          if !o.raised {
            forall k | 0 < k < |devs| && SchedulesStop(devs[k], event) ensures Pending(o.s.book, devs[k]["id"]) {
              assert devs[k] == devs[1..][k - 1];
            }
          }
        }
      } else if event == "PrintStarted" {
        assert forall k :: 0 <= k < |devs| ==> !SchedulesStop(devs[k], event);
      } else {
        OnEventPlans(s, event, devs[1..], now, selected);
        assert o == OnEvent(s, event, devs[1..], now, selected);
        if !o.raised {
          forall k | 0 < k < |devs| && SchedulesStop(devs[k], event) ensures Pending(o.s.book, devs[k]["id"]) {
            assert devs[k] == devs[1..][k - 1];
          }
        }
      }
    }
  }
}
