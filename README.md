# IKEA Tradfri plugin for OctoPrint (v2): a verified model

This project models the core of the OctoPrint plugin that switches IKEA
Tradfri outlets and lights on and off around a print.

- **Shutdown scheduler.** Each selected device has an optional deadline
  (`shutdownAt`), an optional fixed-delay stop timer and an optional cooldown
  watcher. The model covers `planStop` with its time and cooldown modes,
  `turnOn`, `turnOff`, the three sidebar routes and `on_event`.
  - Timers are tokens that `cancel` makes inert. When a token fires it runs
    its task only while it is still pending.
  - The clock, the printer state and the temperature readings are inputs.
  - Requests to the printer and the gateway are appended to an effect log.
- **Device list and settings maintenance.**
  - `getDeviceFromId`, `saveDevice` (upsert, adopting the discovered type)
    and `deleteDevice`.
  - `on_settings_migrate`, which converts a legacy configuration and fills in
    the default keys.
  - `load_devices` and its status rule, and `save_settings`.
  - `sidebarInfoData` with its side effect of filling `shutdownAt`.
- **Device facade.**
  - A device's type is chosen by control priority.
  - A control and entity name is mapped to each type.
  - `to_dict` exports a device.
  - The wrapper caches its control lazily and drops it on refresh.
  - The control reads the state, switches, and toggles by one opposite set.
  - Commands go to an abstract sink. Whether a client is registered (so that
    `TradfriClient.instance()` does not raise) and the device a refresh
    fetches are inputs.
- **Client singleton.**
  - The private constructor.
  - `instance`, `setup` and `shutdown` on a registry of the class attribute.
  - The lazily filled factory and worker slots.
  - The socket filter.
  - The bridge, `_checked_execution`, which turns any failure or timeout into
    None.
  - The AttributeError mapping in `_call_api`.
- **Wizard and template mixins.**
  - The wizard's required and ignored flags, the generated identity, the
    default outlet record and the two wizard routes.
  - The older root copy of the wizard, with its constant identity.
  - Template configs and template variables.

Each `.dfy` file mirrors one part of the source:

| file | models |
|---|---|
| `values.dfy` | Python scalars, dict records, truthiness, `str()`, the settings store |
| `scheduler.dfy` | the scheduler's state and every step as a function |
| `scheduler_props.dfy` | what the steps guarantee |
| `plugin.dfy` | the plugin object: fields updated in place by methods proved against the functions above |
| `device_list.dfy` | lookup, upsert, delete, type adoption and migration as functions |
| `tradfri_device.dfy` | the device facade |
| `tradfri_client.dfy` | the client and its registry |
| `wizard_mixin.dfy`, `legacy_wizard.dfy` | the two wizards |
| `template_mixin.dfy` | template configs and variables |

Source and model disagree in a few places:

- `TradfriClient.shutdown` reads as if it always clears the factory, the
  worker and the instance. In the code, the `finally` clause at
  `tradfri_client.py:171` asks the worker for its loop. With no worker, or
  with a stopped loop, that call raises out of `shutdown`, and nothing is
  cleared. `TradfriClient.Registry.Shutdown` models the code;
  `TradfriClient.Registry.ShutdownIntended` is the reset the clauses
  evidently intend, and it always clears all three slots. Where `Shutdown`
  does not raise, its postcondition is the same final state.
- `list_devices` iterates over the bridge's result. When the bridge returns
  None, the iteration raises a TypeError rather than returning None, so the
  `devices is None` branch of `load_devices` cannot be reached through this
  client. In `LoadDevices`, a listing that raised is None.
- `turnOnLight` sends `switch_off`. `Scheduler.TurnOn` reproduces this;
  `Scheduler.TurnOnIntended` switches every device on, and
  `SchedulerProps.TurnOnAsIntendedIffOutlet` shows the two agree exactly
  for outlets. The plugin object uses the code's `TurnOn`.
- The older wizard at the package root imports the client class and calls
  `TradfriClient.generate_psk` on it (`wizzard_impl.py:68`). That class has
  no such attribute; `generate_psk` is a module-level function
  (`tradfri_client.py:25`). Every body with both keys therefore ends in an
  AttributeError that the route does not catch, before any setting is
  written. `LegacyWizard.WizardTryConnect` models the code, and
  `LegacyWizard.WizardTryConnectIntended` the route with the module-level
  function called.

## Model

| member | source | states |
|---|---|---|
| Values.NatToStringRoundTrip | octoprint_ikea_tradfri_v2/mixins/template_impl.py:22-24 | the decimal rendering `str(i)` used in the bindings reads back as `i` and consists of digits only |
| Values.NatToStringInjective | octoprint_ikea_tradfri_v2/mixins/template_impl.py:22-24 | distinct positions render as distinct strings |
| Values.Settings.Defaults | octoprint_ikea_tradfri_v2/octoprint_ikea_tradfri_v2_plugin.py:172-183 | the settings start with `DefaultValues()`, no selected or discovered devices and no save |
| Values.DefaultValues | octoprint_ikea_tradfri_v2/octoprint_ikea_tradfri_v2_plugin.py:172-183 | the declared scalar defaults: empty identity, gateway, psk, status and error message, and config version 1 |
| DeviceList.FirstIndex | octoprint_ikea_tradfri_v2/octoprint_ikea_tradfri_v2_plugin.py:546-552 | the found position holds the id and no earlier one does; None exactly when no record has the id |
| DeviceList.Lookup | octoprint_ikea_tradfri_v2/octoprint_ikea_tradfri_v2_plugin.py:408-414 | the record at the first match of the id, None when there is none; `UpsertThenLookup`, `UpsertFrame` and `RemoveFirstFrame` state what saving and deleting do to it |
| DeviceList.Upsert | octoprint_ikea_tradfri_v2/octoprint_ikea_tradfri_v2_plugin.py:546-556 | the record replaces the first one with its id in place, or is appended when there is none; its properties are `UpsertThenLookup` and `UpsertFrame` |
| DeviceList.RemoveFirst | octoprint_ikea_tradfri_v2/octoprint_ikea_tradfri_v2_plugin.py:570-578 | the first record with the id is cut out, or nothing changes; its properties are `RemoveFirstFrame` and `RemoveAtLookup` |
| DeviceList.FirstIndexIs | octoprint_ikea_tradfri_v2/octoprint_ikea_tradfri_v2_plugin.py:546-552 | the first-match characterisation determines the index uniquely |
| DeviceList.SameMatches | octoprint_ikea_tradfri_v2/octoprint_ikea_tradfri_v2_plugin.py:546-552 | two lists that agree on where an id occurs have the same first match |
| DeviceList.OccurrencesAppend | octoprint_ikea_tradfri_v2/octoprint_ikea_tradfri_v2_plugin.py:553-556 | the number of records with an id is additive over concatenation |
| DeviceList.UpsertThenLookup | octoprint_ikea_tradfri_v2/octoprint_ikea_tradfri_v2_plugin.py:546-556 | after saving a device, looking its id up yields exactly that device |
| DeviceList.UpsertFrame | octoprint_ikea_tradfri_v2/octoprint_ikea_tradfri_v2_plugin.py:546-556 | saving leaves the lookup of every other id unchanged; it keeps the length when the id was present and appends at the end when it was not |
| DeviceList.OccurrencesNone | octoprint_ikea_tradfri_v2/octoprint_ikea_tradfri_v2_plugin.py:570-576 | no first match exactly when no record carries the id |
| DeviceList.RemoveFirstFrame | octoprint_ikea_tradfri_v2/octoprint_ikea_tradfri_v2_plugin.py:570-578 | deleting removes exactly one record with the id when there is one (length and count drop by one), changes nothing otherwise, and keeps every other id's lookup |
| DeviceList.RemoveAtLookup | octoprint_ikea_tradfri_v2/octoprint_ikea_tradfri_v2_plugin.py:577-578 | removing a record with a different id keeps the lookup of `other` |
| DeviceList.AdoptType | octoprint_ikea_tradfri_v2/octoprint_ikea_tradfri_v2_plugin.py:542-544 | adopting a discovered type never changes the saved record's id |
| DeviceList.LastIndex | octoprint_ikea_tradfri_v2/octoprint_ikea_tradfri_v2_plugin.py:542-544 | the position of the last discovered record with the id; None when there is none |
| DeviceList.LastIndexIs | octoprint_ikea_tradfri_v2/octoprint_ikea_tradfri_v2_plugin.py:542-544 | the last-match characterisation determines the index uniquely |
| DeviceList.AdoptTypeLastMatch | octoprint_ikea_tradfri_v2/octoprint_ikea_tradfri_v2_plugin.py:542-544 | the saved record takes the type of the last discovered device with its id, and is unchanged when there is none |
| DeviceList.WithDefaults | octoprint_ikea_tradfri_v2/octoprint_ikea_tradfri_v2_plugin.py:646-665 | migration adds exactly the missing default keys (nav_icon True, nav_name False, connect_palette2 False, turn_off_mode 'time', cooldown_bed -1, cooldown_hotend 50) and never overwrites a present key |
| DeviceList.WithDefaultsIdempotent | octoprint_ikea_tradfri_v2/octoprint_ikea_tradfri_v2_plugin.py:646-665 | a complete record is left alone, and migrating twice equals migrating once |
| DeviceList.DefaultStep | octoprint_ikea_tradfri_v2/octoprint_ikea_tradfri_v2_plugin.py:648-650 | one `if key not in dev` step equals adding that key's default |
| DeviceList.FillDefaults | octoprint_ikea_tradfri_v2/octoprint_ikea_tradfri_v2_plugin.py:647-665 | the in-place key checks yield the migrated record and report a change exactly when a key was missing |
| DeviceList.MigrateAll | octoprint_ikea_tradfri_v2/octoprint_ikea_tradfri_v2_plugin.py:646-667 | every record of the list is migrated, in place and in order |
| DeviceList.MigrationIdempotent | octoprint_ikea_tradfri_v2/octoprint_ikea_tradfri_v2_plugin.py:646-669 | a second migration changes nothing and has nothing to save |
| DeviceList.LegacyDevice | octoprint_ikea_tradfri_v2/octoprint_ikea_tradfri_v2_plugin.py:620-644 | the one record built from a pre-version-2 configuration: the old outlet, each old timing and event key or its default; its properties are `LegacyDeviceFields` and `LegacyMigration` |
| DeviceList.LegacyDeviceFields | octoprint_ikea_tradfri_v2/octoprint_ikea_tradfri_v2_plugin.py:620-644 | the legacy record sits on the old outlet, has truthy timers, and lacks the four keys added later |
| DeviceList.LegacyMigration | octoprint_ikea_tradfri_v2/octoprint_ikea_tradfri_v2_plugin.py:620-669 | a legacy configuration becomes one complete device in time mode with the default thresholds |
| Scheduler.Fill | octoprint_ikea_tradfri_v2/octoprint_ikea_tradfri_v2_plugin.py:482-484 | `sidebarInfoData` gives every selected id without a deadline entry one holding None, and keeps every existing entry |
| Scheduler.FillIdempotent | octoprint_ikea_tradfri_v2/octoprint_ikea_tradfri_v2_plugin.py:482-484 | filling twice is filling once, so the routes that ask for the sidebar data twice end in the same state |
| Scheduler.CooldownWait | octoprint_ikea_tradfri_v2/octoprint_ikea_tradfri_v2_plugin.py:485-489 | `cooldown_wait` has an entry exactly for each device in cooldown mode, true exactly when the device's watcher slot is held |
| Scheduler.PlanStopTimeMode | octoprint_ikea_tradfri_v2/octoprint_ikea_tradfri_v2_plugin.py:314-330 | extend the deadline by `delay` (from now when it is None), start a stop timer for the time left; raise without change when the id has no deadline entry; proved in `PlanStopTimeModeDeadline` |
| Scheduler.PlanStopCooldown | octoprint_ikea_tradfri_v2/octoprint_ikea_tradfri_v2_plugin.py:287-312 | start a watcher with the record's hot-end and bed thresholds; proved in `PlanStopReplaces` and `PlanStopCooldownCoherent` |
| Scheduler.PlanStop | octoprint_ikea_tradfri_v2/octoprint_ikea_tradfri_v2_plugin.py:269-285 | cancel both slots of the device, then plan in time mode (`stop_timer`, or `postpone_delay` when forced) or by cooldown; proved in `PlanStopReplaces`, `PlanStopDeactivates` and `PlanStopCoherent` |
| Scheduler.ReadyForStop | octoprint_ikea_tradfri_v2/octoprint_ikea_tradfri_v2_plugin.py:295-300 | neither enabled threshold is below its reading; proved in `ReadyForStopThresholds` |
| Scheduler.TurnOff | octoprint_ikea_tradfri_v2/octoprint_ikea_tradfri_v2_plugin.py:366-401 | drop the deadline and both slots; unless the printer is busy, disconnect (not with a Palette 2) and switch off; proved in `TurnOffRefusesWhileBusy` |
| Scheduler.TurnOn | octoprint_ikea_tradfri_v2/octoprint_ikea_tradfri_v2_plugin.py:339-364 | as written: one switch request, on only for an outlet; when the request raises, `turnOn` raises with no timer and no fill (the request is logged if it was sent); otherwise the connection timer unless `connection_timer` is below -1, then the fill; proved in `TurnOnSwitches` and `TurnOnThenConnect` |
| Scheduler.TurnOnIntended | octoprint_ikea_tradfri_v2/octoprint_ikea_tradfri_v2_plugin.py:339-364 | as evidently intended: the same with every device switched on; related to `TurnOn` by `TurnOnAsIntendedIffOutlet` |
| Scheduler.FireStop | octoprint_ikea_tradfri_v2/octoprint_ikea_tradfri_v2_plugin.py:324-325 | a pending stop timer is retired and runs `turnOff`; an inert one does nothing; proved in `ReplacedStopTimerNeverRuns` and `CancelledStopTimerNeverRuns` |
| Scheduler.FireCooldown | octoprint_ikea_tradfri_v2/octoprint_ikea_tradfri_v2_plugin.py:292-308 | a pending watcher switches off when cooled, re-arms for 5 seconds otherwise, and raises on a missing reading; proved in the three `FireCooldown…` lemmas |
| Scheduler.FireConnect | octoprint_ikea_tradfri_v2/octoprint_ikea_tradfri_v2_plugin.py:347-351 | a pending connection timer connects the Palette 2 when the record asks for it, else the printer; proved in `TurnOnThenConnect` |
| Scheduler.Postpone | octoprint_ikea_tradfri_v2/octoprint_ikea_tradfri_v2_plugin.py:502-508 | a forced `planStop`, then the sidebar fill; proved in `PostponeDeadline`, `PostponeAccumulates` and `PostponeFromNow` |
| Scheduler.CancelShutdown | octoprint_ikea_tradfri_v2/octoprint_ikea_tradfri_v2_plugin.py:511-521 | cancel the stop timer with its deadline, and the watcher; proved in `CancelShutdownRetires` |
| Scheduler.ShutdownNow | octoprint_ikea_tradfri_v2/octoprint_ikea_tradfri_v2_plugin.py:524-528 | `turnOff` at once, then the sidebar fill; proved in `ShutdownNowCoherent` |
| Scheduler.OnEvent | octoprint_ikea_tradfri_v2/octoprint_ikea_tradfri_v2_plugin.py:671-688 | plan a switch-off for each device configured for the event, cancel everything on PrintStarted, stop at the first KeyError; proved in the four `OnEvent…` lemmas |
| SchedulerProps.InitialCoherent | octoprint_ikea_tradfri_v2/octoprint_ikea_tradfri_v2_plugin.py:33-39 | the plugin starts with coherent timer bookkeeping |
| SchedulerProps.CancelStopCoherent | octoprint_ikea_tradfri_v2/octoprint_ikea_tradfri_v2_plugin.py:270-272 | cancelling the stop slot keeps coherence and empties the slot |
| SchedulerProps.CancelCooldownCoherent | octoprint_ikea_tradfri_v2/octoprint_ikea_tradfri_v2_plugin.py:274-276 | cancelling the cooldown slot keeps coherence and empties the slot |
| SchedulerProps.CancelBothCoherent | octoprint_ikea_tradfri_v2/octoprint_ikea_tradfri_v2_plugin.py:270-276 | cancelling both slots keeps coherence and empties both |
| SchedulerProps.ArmStopCoherent | octoprint_ikea_tradfri_v2/octoprint_ikea_tradfri_v2_plugin.py:327-328 | arming the stop timer into an empty slot keeps coherence |
| SchedulerProps.ArmCooldownCoherent | octoprint_ikea_tradfri_v2/octoprint_ikea_tradfri_v2_plugin.py:310-311 | arming the watcher into an empty slot keeps coherence |
| SchedulerProps.RetireCoherent | octoprint_ikea_tradfri_v2/octoprint_ikea_tradfri_v2_plugin.py:292-308 | a fired timer that is retired keeps coherence |
| SchedulerProps.PlanStopTimeModeCoherent | octoprint_ikea_tradfri_v2/octoprint_ikea_tradfri_v2_plugin.py:314-330 | planning a timed switch-off keeps coherence when the stop slot is empty |
| SchedulerProps.PlanStopCooldownCoherent | octoprint_ikea_tradfri_v2/octoprint_ikea_tradfri_v2_plugin.py:287-312 | planning a cooldown watcher keeps coherence when both slots are empty |
| SchedulerProps.PlanStopCoherent | octoprint_ikea_tradfri_v2/octoprint_ikea_tradfri_v2_plugin.py:269-285 | `planStop` keeps coherence unconditionally, because it cancels first |
| SchedulerProps.TurnOffCoherent | octoprint_ikea_tradfri_v2/octoprint_ikea_tradfri_v2_plugin.py:366-395 | `turnOff` keeps coherence |
| SchedulerProps.TurnOnCoherent | octoprint_ikea_tradfri_v2/octoprint_ikea_tradfri_v2_plugin.py:339-358 | `turnOn` keeps coherence, whether or not its switch request raised |
| SchedulerProps.FireStopCoherent | octoprint_ikea_tradfri_v2/octoprint_ikea_tradfri_v2_plugin.py:324-325 | a stop timer firing keeps coherence |
| SchedulerProps.FireCooldownCoherent | octoprint_ikea_tradfri_v2/octoprint_ikea_tradfri_v2_plugin.py:292-308 | a watcher firing keeps coherence |
| SchedulerProps.FireConnectCoherent | octoprint_ikea_tradfri_v2/octoprint_ikea_tradfri_v2_plugin.py:347-351 | the connection timer firing keeps coherence |
| SchedulerProps.PostponeCoherent | octoprint_ikea_tradfri_v2/octoprint_ikea_tradfri_v2_plugin.py:502-508 | `/sidebar/postpone` keeps coherence |
| SchedulerProps.CancelShutdownCoherent | octoprint_ikea_tradfri_v2/octoprint_ikea_tradfri_v2_plugin.py:511-521 | `/sidebar/cancelShutdown` keeps coherence |
| SchedulerProps.ShutdownNowCoherent | octoprint_ikea_tradfri_v2/octoprint_ikea_tradfri_v2_plugin.py:524-528 | `/sidebar/shutdownNow` keeps coherence |
| SchedulerProps.OnEventCoherent | octoprint_ikea_tradfri_v2/octoprint_ikea_tradfri_v2_plugin.py:671-688 | `on_event` keeps coherence over the whole device loop |
| SchedulerProps.AtMostOneStopTimer | octoprint_ikea_tradfri_v2/octoprint_ikea_tradfri_v2_plugin.py:270-276 | in a coherent state two pending stop timers of one device are the same timer |
| SchedulerProps.AtMostOneWatcher | octoprint_ikea_tradfri_v2/octoprint_ikea_tradfri_v2_plugin.py:270-276 | two pending timers that can switch one device off are the same timer |
| SchedulerProps.AtMostOneCooldown | octoprint_ikea_tradfri_v2/octoprint_ikea_tradfri_v2_plugin.py:270-276 | two pending cooldown watchers of one device are the same watcher |
| SchedulerProps.CancelBothRetires | octoprint_ikea_tradfri_v2/octoprint_ikea_tradfri_v2_plugin.py:270-276 | cancelling a device's slots retires exactly its pending timers and keeps every other device's |
| SchedulerProps.ArmWatches | octoprint_ikea_tradfri_v2/octoprint_ikea_tradfri_v2_plugin.py:310-311 | a timer armed into an empty device becomes its only pending one; other devices are untouched |
| SchedulerProps.PlanStopReplaces | octoprint_ikea_tradfri_v2/octoprint_ikea_tradfri_v2_plugin.py:269-285 | `planStop` retires all earlier timers of the device and, unless it raises, leaves exactly one new one: a stop timer for the time left in time mode or when forced, else a watcher with the record's thresholds; it raises only in time mode without a deadline entry |
| SchedulerProps.PlanStopDeactivates | octoprint_ikea_tradfri_v2/octoprint_ikea_tradfri_v2_plugin.py:269-276 | after `planStop` every earlier stop timer or watcher of the device is still recorded, unchanged, and no longer pending |
| SchedulerProps.ReplacedStopTimerNeverRuns | octoprint_ikea_tradfri_v2/octoprint_ikea_tradfri_v2_plugin.py:270-272 | a stop timer that was replaced is still recorded unchanged and does nothing when it expires |
| SchedulerProps.ReplacedCooldownNeverRuns | octoprint_ikea_tradfri_v2/octoprint_ikea_tradfri_v2_plugin.py:274-276 | a watcher that was replaced is still recorded unchanged and never checks the temperatures again |
| SchedulerProps.CancelShutdownRetires | octoprint_ikea_tradfri_v2/octoprint_ikea_tradfri_v2_plugin.py:511-521 | cancelling leaves nothing pending for the device, and drops the deadline only when a stop timer was pending |
| SchedulerProps.CancelledStopTimerNeverRuns | octoprint_ikea_tradfri_v2/octoprint_ikea_tradfri_v2_plugin.py:511-521 | a stop timer expiring after a cancel does nothing |
| SchedulerProps.PlanStopTimeModeDeadline | octoprint_ikea_tradfri_v2/octoprint_ikea_tradfri_v2_plugin.py:314-330 | raises with no change exactly when the id has no deadline entry; otherwise the deadline is extended by `delay` (or set to `now + delay`), the timer runs for the time left, and other deadlines are unchanged |
| SchedulerProps.PostponeAccumulates | octoprint_ikea_tradfri_v2/octoprint_ikea_tradfri_v2_plugin.py:280-283 | two postponements push the deadline back by twice `postpone_delay`, whatever the clock says |
| SchedulerProps.PostponeDeadline | octoprint_ikea_tradfri_v2/octoprint_ikea_tradfri_v2_plugin.py:314-330 | one postponement never raises for a device with a deadline entry, extends the deadline by `postpone_delay` (or sets it from now) and times the new stop timer to it |
| SchedulerProps.PostponeFromNow | octoprint_ikea_tradfri_v2/octoprint_ikea_tradfri_v2_plugin.py:317-320 | postponing a device with no deadline sets it `postpone_delay` seconds from now |
| SchedulerProps.TurnOffRefusesWhileBusy | octoprint_ikea_tradfri_v2/octoprint_ikea_tradfri_v2_plugin.py:366-395 | `turnOff` always clears the deadline and what is pending for the device; while printing, pausing, paused or cancelling it issues nothing, otherwise it disconnects the printer (unless a Palette 2 is set) and then switches off |
| SchedulerProps.ReadyForStopThresholds | octoprint_ikea_tradfri_v2/octoprint_ikea_tradfri_v2_plugin.py:295-300 | ready exactly when each enabled threshold is not exceeded; -1 or below disables one; a reading equal to the threshold counts as cooled |
| SchedulerProps.DisabledThresholdsReady | octoprint_ikea_tradfri_v2/octoprint_ikea_tradfri_v2_plugin.py:297-299 | with both thresholds disabled no reading is needed and the device is ready |
| SchedulerProps.RetireWatcher | octoprint_ikea_tradfri_v2/octoprint_ikea_tradfri_v2_plugin.py:292-308 | the watcher that runs is the device's only pending one, and retiring it leaves none |
| SchedulerProps.FireCooldownMissingReading | octoprint_ikea_tradfri_v2/octoprint_ikea_tradfri_v2_plugin.py:297-299 | a missing reading raises; nothing is issued and the slot still shows the device as waiting |
| SchedulerProps.FireCooldownReady | octoprint_ikea_tradfri_v2/octoprint_ikea_tradfri_v2_plugin.py:302-304 | a cooled device is switched off through `turnOff`, and nothing stays pending for it |
| SchedulerProps.FireCooldownNotReady | octoprint_ikea_tradfri_v2/octoprint_ikea_tradfri_v2_plugin.py:305-307 | a device still too hot gets a new 5-second watcher with the same thresholds, and nothing is issued |
| SchedulerProps.TurnOnSwitches | octoprint_ikea_tradfri_v2/octoprint_ikea_tradfri_v2_plugin.py:339-364 | `turnOn` raises exactly when its switch request raised, and then starts no timer and leaves the deadlines; the request (`switch_on` only for an outlet; a light gets `switch_off`) is logged unless it raised before sending; without a raise the connection timer starts exactly when `connection_timer >= -1`; no switch-off timer is touched |
| SchedulerProps.TurnOnThenConnect | octoprint_ikea_tradfri_v2/octoprint_ikea_tradfri_v2_plugin.py:347-351 | after a successful switch, the connection timer connects the Palette 2 when the record asks for it, else the printer |
| SchedulerProps.TurnOnIntendedSwitchesOn | octoprint_ikea_tradfri_v2/octoprint_ikea_tradfri_v2_plugin.py:339-364 | the intended `turnOn` sends `switch_on` and plans the same timers, deadlines and raise as the code |
| SchedulerProps.TurnOnAsIntendedIffOutlet | octoprint_ikea_tradfri_v2/octoprint_ikea_tradfri_v2_plugin.py:339-364 | the code's `turnOn` equals the intended one exactly for outlets or when nothing was sent, because `turnOnLight` sends `switch_off` |
| SchedulerProps.OnEventIgnores | octoprint_ikea_tradfri_v2/octoprint_ikea_tradfri_v2_plugin.py:671-688 | events other than PrintDone, PrintFailed and PrintStarted change nothing |
| SchedulerProps.OnEventPrintStarted | octoprint_ikea_tradfri_v2/octoprint_ikea_tradfri_v2_plugin.py:682-688 | PrintStarted cancels everything pending for every listed device, issues nothing and keeps the deadlines |
| SchedulerProps.OnEventKeepsPending | octoprint_ikea_tradfri_v2/octoprint_ikea_tradfri_v2_plugin.py:674-681 | a device with a pending switch-off keeps one through the rest of a stop-planning event |
| SchedulerProps.OnEventPlans | octoprint_ikea_tradfri_v2/octoprint_ikea_tradfri_v2_plugin.py:674-681 | unless planning raised, every device configured for PrintDone or PrintFailed has a pending switch-off afterwards |
| Plugin.FindIndex | octoprint_ikea_tradfri_v2/octoprint_ikea_tradfri_v2_plugin.py:546-552 | the index loop with `break` finds the first match |
| Plugin.Records | octoprint_ikea_tradfri_v2/octoprint_ikea_tradfri_v2_plugin.py:91-92 | one `to_dict`-shaped record per discovered device, in order |
| Plugin.RecordsDiscovered | octoprint_ikea_tradfri_v2/octoprint_ikea_tradfri_v2_plugin.py:91-92 | loaded records carry the id and type that `saveDevice` reads |
| Plugin.Plugin.constructor | octoprint_ikea_tradfri_v2/octoprint_ikea_tradfri_v2_plugin.py:33-49 | nothing is scheduled, no devices are discovered, the status is 'waiting' |
| Plugin.Plugin.CancelStopSlot | octoprint_ikea_tradfri_v2/octoprint_ikea_tradfri_v2_plugin.py:270-272 | the in-place cancel is `Scheduler.CancelStop` |
| Plugin.Plugin.CancelCooldownSlot | octoprint_ikea_tradfri_v2/octoprint_ikea_tradfri_v2_plugin.py:274-276 | the in-place cancel is `Scheduler.CancelCooldown` |
| Plugin.Plugin.StartTimer | octoprint_ikea_tradfri_v2/octoprint_ikea_tradfri_v2_plugin.py:310-311 | starting a timer is `Scheduler.Start`, and its token is new |
| Plugin.Plugin.ArmStopSlot | octoprint_ikea_tradfri_v2/octoprint_ikea_tradfri_v2_plugin.py:327-328 | starting the stop timer into the device's slot is `Scheduler.ArmStop`; nothing else changes |
| Plugin.Plugin.ArmCooldownSlot | octoprint_ikea_tradfri_v2/octoprint_ikea_tradfri_v2_plugin.py:310-311 | starting a watcher due in 5 seconds into the device's slot is `Scheduler.ArmCooldown`; nothing else changes |
| Plugin.CheckCooldown | octoprint_ikea_tradfri_v2/octoprint_ikea_tradfri_v2_plugin.py:295-300 | the two comparisons succeed exactly when the readings the enabled thresholds need are present, and then report ready exactly when no enabled threshold is exceeded |
| Plugin.Plugin.SidebarInfoData | octoprint_ikea_tradfri_v2/octoprint_ikea_tradfri_v2_plugin.py:478-494 | the loop fills `shutdownAt` as `Fill` does and returns it together with `CooldownWait` |
| Plugin.Plugin.PlanStopTimeMode | octoprint_ikea_tradfri_v2/octoprint_ikea_tradfri_v2_plugin.py:314-330 | the in-place steps perform `Scheduler.PlanStopTimeMode`, including its KeyError |
| Plugin.Plugin.PlanStopCooldown | octoprint_ikea_tradfri_v2/octoprint_ikea_tradfri_v2_plugin.py:287-312 | the in-place steps perform `Scheduler.PlanStopCooldown` |
| Plugin.Plugin.PlanStop | octoprint_ikea_tradfri_v2/octoprint_ikea_tradfri_v2_plugin.py:269-285 | performs `Scheduler.PlanStop` and keeps the bookkeeping coherent |
| Plugin.Plugin.TurnOff | octoprint_ikea_tradfri_v2/octoprint_ikea_tradfri_v2_plugin.py:366-401 | performs `Scheduler.TurnOff`, including the early returns while the printer is busy, and keeps coherence |
| Plugin.Plugin.TurnOn | octoprint_ikea_tradfri_v2/octoprint_ikea_tradfri_v2_plugin.py:339-364 | performs `Scheduler.TurnOn`, including the early raise of a failed switch request, and keeps coherence |
| Plugin.Plugin.FireStop | octoprint_ikea_tradfri_v2/octoprint_ikea_tradfri_v2_plugin.py:324-325 | a pending stop timer runs `turnOff`, an inert one does nothing; keeps coherence |
| Plugin.Plugin.FireCooldown | octoprint_ikea_tradfri_v2/octoprint_ikea_tradfri_v2_plugin.py:292-308 | the watcher's body in the source's order of reads performs `Scheduler.FireCooldown`; keeps coherence |
| Plugin.Plugin.FireConnect | octoprint_ikea_tradfri_v2/octoprint_ikea_tradfri_v2_plugin.py:347-351 | a pending connection timer connects the Palette 2 or the printer; keeps coherence |
| Plugin.Plugin.Postpone | octoprint_ikea_tradfri_v2/octoprint_ikea_tradfri_v2_plugin.py:502-508 | a forced `planStop` and then the sidebar data, as `Scheduler.Postpone`; keeps coherence |
| Plugin.Plugin.CancelShutdown | octoprint_ikea_tradfri_v2/octoprint_ikea_tradfri_v2_plugin.py:511-521 | performs `Scheduler.CancelShutdown`, returns the sidebar data and keeps coherence |
| Plugin.Plugin.ShutdownNow | octoprint_ikea_tradfri_v2/octoprint_ikea_tradfri_v2_plugin.py:524-528 | performs `Scheduler.ShutdownNow`, returns the sidebar data and keeps coherence |
| Plugin.Plugin.OnEvent | octoprint_ikea_tradfri_v2/octoprint_ikea_tradfri_v2_plugin.py:671-688 | the loop over the selected devices performs `Scheduler.OnEvent` and stops at the first KeyError; keeps coherence |
| Plugin.Plugin.GetDeviceFromId | octoprint_ikea_tradfri_v2/octoprint_ikea_tradfri_v2_plugin.py:408-414 | the first selected device with the id, or None exactly when no record has it |
| Plugin.Plugin.SaveDevice | octoprint_ikea_tradfri_v2/octoprint_ikea_tradfri_v2_plugin.py:536-561 | 400 without writing when there is no device; otherwise the selected list becomes `Upsert` of the device with its adopted type, is saved once and returned |
| Plugin.Plugin.DeleteDevice | octoprint_ikea_tradfri_v2/octoprint_ikea_tradfri_v2_plugin.py:564-583 | 400 without writing when there is no id; otherwise the list becomes `RemoveFirst`, is saved once and returned |
| Plugin.Plugin.OnSettingsMigrate | octoprint_ikea_tradfri_v2/octoprint_ikea_tradfri_v2_plugin.py:616-669 | the list becomes `MigrateAll` of the legacy device (below version 2) or of the current list, saved once exactly when something changed |
| Plugin.Plugin.LoadDevices | octoprint_ikea_tradfri_v2/octoprint_ikea_tradfri_v2_plugin.py:71-97 | the discovered devices are the listing's records (none without a psk); status 'ok' exactly when some were found, else 'no_devices'; then saved; a raising listing leaves status and settings alone |
| Plugin.Plugin.SaveSettings | octoprint_ikea_tradfri_v2/octoprint_ikea_tradfri_v2_plugin.py:64-69 | stores status, error message and devices and saves once |
| Plugin.Plugin.TemplateConfigs | octoprint_ikea_tradfri_v2/octoprint_ikea_tradfri_v2_plugin.py:187-209 | the fixed configs, then one navbar entry per selected device bound to `ikea_tradfri_v2` |
| Plugin.Plugin.TemplateVars | octoprint_ikea_tradfri_v2/octoprint_ikea_tradfri_v2_plugin.py:211-217 | devices, status and deadlines passed through; `hasPalette2` exactly when palette2 is enabled |
| TradfriDevice.MapperCoversAllButOther | octoprint_ikea_tradfri_v2/tradfri_device.py:22-42 | exactly the types other than Other have a control and an entity name, and no two types share one |
| TradfriDevice.Ctrl | octoprint_ikea_tradfri_v2/tradfri_device.py:22-39 | the control attribute of each type, none for Other; proved in `MapperCoversAllButOther` |
| TradfriDevice.Entity | octoprint_ikea_tradfri_v2/tradfri_device.py:22-42 | the entity list attribute of each type, none for Other; proved in `MapperCoversAllButOther` |
| TradfriDevice.TypeOf | octoprint_ikea_tradfri_v2/tradfri_device.py:64-71 | light control before socket control before blind control, else Other; proved in `TypePriority` |
| TradfriDevice.TypePriority | octoprint_ikea_tradfri_v2/tradfri_device.py:63-71 | each type is chosen exactly when its flag is the first one set, light before socket before blind |
| TradfriDevice.ToDict | octoprint_ikea_tradfri_v2/tradfri_device.py:90-91 | exactly the keys id, type and name, holding the id, the type's value and the name |
| TradfriDevice.Controls | octoprint_ikea_tradfri_v2/tradfri_device.py:131-135 | the type's control object; KeyError for Other, TradfriDeviceError when the attribute is missing; proved in `StateReadsFirstEntity` |
| TradfriDevice.State | octoprint_ikea_tradfri_v2/tradfri_device.py:120-124 | the state of the first entity of the type's list, with the three errors; proved in `StateReadsFirstEntity` |
| TradfriDevice.StateReadsFirstEntity | octoprint_ikea_tradfri_v2/tradfri_device.py:120-135 | the state is readable exactly when the control and a non-empty entity list exist, and is the first entity's; KeyError for Other; TradfriDeviceError without the control or without the entity list; IndexError exactly when the list is empty |
| TradfriDevice.CommandSink.Run | octoprint_ikea_tradfri_v2/tradfri_client.py:119-120 | a command is appended to what was sent |
| TradfriDevice.DeviceWrapper.constructor | octoprint_ikea_tradfri_v2/tradfri_device.py:49-53 | the wrapper holds the device and no control |
| TradfriDevice.DeviceWrapper.Control | octoprint_ikea_tradfri_v2/tradfri_device.py:73-77 | the control is created on first access and the same object is returned afterwards |
| TradfriDevice.DeviceWrapper.Refresh | octoprint_ikea_tradfri_v2/tradfri_device.py:85-88 | the device is replaced by the fetched one and the cached control dropped; a failed fetch changes nothing |
| TradfriDevice.Wrap | octoprint_ikea_tradfri_v2/tradfri_device.py:49-51 | wrapping fails exactly when there is no device |
| TradfriDevice.DeviceControl.GetState | octoprint_ikea_tradfri_v2/tradfri_device.py:120-124 | returns `State` of the wrapper's current device |
| TradfriDevice.DeviceControl.SetState | octoprint_ikea_tradfri_v2/tradfri_device.py:126-135 | the command sets the type's control to the requested state; nothing is sent and nothing refreshed when the control is missing or no client is registered (TradfriClientError); otherwise one command is sent, and the wrapper holds the fetched device with no cached control, or raises PytradfriError and keeps its device when the fetch fails |
| TradfriDevice.DeviceControl.SwitchOn | octoprint_ikea_tradfri_v2/tradfri_device.py:108-109 | `_set_state(True)`; nothing is sent and nothing refreshed when the control is missing or no client is registered (TradfriClientError); otherwise one command is sent, and the wrapper holds the fetched device with no cached control, or raises PytradfriError and keeps its device when the fetch fails |
| TradfriDevice.DeviceControl.SwitchOff | octoprint_ikea_tradfri_v2/tradfri_device.py:111-112 | `_set_state(False)`; nothing is sent and nothing refreshed when the control is missing or no client is registered (TradfriClientError); otherwise one command is sent, and the wrapper holds the fetched device with no cached control, or raises PytradfriError and keeps its device when the fetch fails |
| TradfriDevice.DeviceControl.Toggle | octoprint_ikea_tradfri_v2/tradfri_device.py:114-129 | the command sets the negation of the state read; nothing is sent and nothing refreshed when the state cannot be read (its error) or no client is registered (TradfriClientError); otherwise exactly one command is sent and the wrapper is refreshed or PytradfriError raised, as in `SetState` |
| TradfriClient.MapAttributeError | octoprint_ikea_tradfri_v2/tradfri_client.py:149-155 | an AttributeError becomes a PytradfriError; values and other failures pass through |
| TradfriClient.Sockets | octoprint_ikea_tradfri_v2/tradfri_client.py:131-134 | only devices with socket control are kept |
| TradfriClient.SocketsCount | octoprint_ikea_tradfri_v2/tradfri_client.py:131-134 | every socket device is kept as often as it occurs, every other is dropped |
| TradfriClient.SocketsAppend | octoprint_ikea_tradfri_v2/tradfri_client.py:131-134 | the filter commutes with concatenation, so it keeps the original order |
| TradfriClient.SocketsIdempotent | octoprint_ikea_tradfri_v2/tradfri_client.py:131-134 | filtering twice is filtering once |
| TradfriClient.Checked | octoprint_ikea_tradfri_v2/tradfri_client.py:122-129 | a value exactly when the loop runs, the request returns and no timeout occurs; None for every failure |
| TradfriClient.Worker.GetLoop | octoprint_ikea_tradfri_v2/threaded_worker.py:46-51 | succeeds exactly when the loop is running |
| TradfriClient.Worker.Close | octoprint_ikea_tradfri_v2/threaded_worker.py:53-63 | the loop is stopped |
| TradfriClient.Client.constructor | octoprint_ikea_tradfri_v2/tradfri_client.py:71-75 | the arguments are stored and both slots are empty |
| TradfriClient.Client.GetWorker | octoprint_ikea_tradfri_v2/tradfri_client.py:96-105 | the worker is created once and reused |
| TradfriClient.Client.GetApiFactory | octoprint_ikea_tradfri_v2/tradfri_client.py:157-161 | the factory is created once and reused; a failed init stores nothing |
| TradfriClient.Client.CallApi | octoprint_ikea_tradfri_v2/tradfri_client.py:149-161 | a failed factory init raises `InitFailed` and stores nothing; otherwise the reply with AttributeError mapped, the factory kept or freshly created |
| TradfriClient.Client.CheckedExecution | octoprint_ikea_tradfri_v2/tradfri_client.py:96-129 | the bridged call yields `Checked` of the request's outcome; the worker is created on first use and kept afterwards, and the factory is kept unless this call ran on a running loop with no factory and a successful init, which creates it |
| TradfriClient.Client.ListDevices | octoprint_ikea_tradfri_v2/tradfri_client.py:111-113 | one fresh wrapper per device returned; fails exactly when the bridge yields None; the worker is created on first use and kept afterwards, and the factory is kept unless this call ran on a running loop with no factory and a successful init, which creates it |
| TradfriClient.Client.GetSockets | octoprint_ikea_tradfri_v2/tradfri_client.py:107-109 | as `ListDevices`, over the filtered devices; the worker is created on first use and kept afterwards, and the factory is kept unless this call ran on a running loop with no factory and a successful init, which creates it |
| TradfriClient.Client.GetById | octoprint_ikea_tradfri_v2/tradfri_client.py:115-117 | a fresh wrapper of the fetched device; fails exactly when the bridge yields None; the worker is created on first use and kept afterwards, and the factory is kept unless this call ran on a running loop with no factory and a successful init, which creates it |
| TradfriClient.WrapAll | octoprint_ikea_tradfri_v2/tradfri_client.py:113 | one fresh wrapper per device, in order |
| TradfriClient.Construct | octoprint_ikea_tradfri_v2/tradfri_client.py:67-76 | the constructor succeeds exactly when called with the private sentinel |
| TradfriClient.Registry.Instance | octoprint_ikea_tradfri_v2/tradfri_client.py:78-84 | the stored client; fails before setup |
| TradfriClient.Registry.Setup | octoprint_ikea_tradfri_v2/tradfri_client.py:86-94 | the first call creates the client; later calls return it and ignore their arguments |
| TradfriClient.Registry.Shutdown | octoprint_ikea_tradfri_v2/tradfri_client.py:163-182 | raises and resets nothing exactly when there is no worker or its loop is stopped; otherwise the factory, the worker and the instance are cleared and the loop stopped |
| TradfriClient.Registry.ShutdownIntended | octoprint_ikea_tradfri_v2/tradfri_client.py:163-182 | as evidently intended: the factory, the worker and the instance are cleared on every call, and an existing worker's loop is stopped |
| TemplateMixin.BindTail | octoprint_ikea_tradfri_v2/mixins/template_impl.py:23-24 | what follows the position starts with a non-digit |
| TemplateMixin.NavbarEntry | octoprint_ikea_tradfri_v2/mixins/template_impl.py:18-28 | a navbar entry with suffix "_" + id and the position's binding; the hidden class follows the base class exactly when nav_name and nav_icon are both falsy |
| TemplateMixin.TemplateConfigs | octoprint_ikea_tradfri_v2/mixins/template_impl.py:9-31 | exactly the settings, wizard and sidebar configs, then one navbar entry per selected device in list order |
| TemplateMixin.DigitsPrefix | octoprint_ikea_tradfri_v2/mixins/template_impl.py:23-24 | digit strings followed by a non-digit are equal only when the digit parts are |
| TemplateMixin.DataBindInjective | octoprint_ikea_tradfri_v2/mixins/template_impl.py:23-24 | distinct positions have distinct bindings |
| TemplateMixin.CopiesBindDifferentKeys | octoprint_ikea_tradfri_v2/octoprint_ikea_tradfri_v2_plugin.py:202 | the plugin's copy binds to `ikea_tradfri_v2`, the mixin's to `ikea_tradfri`, so their bindings always differ |
| TemplateMixin.TemplateVarsOf | octoprint_ikea_tradfri_v2/mixins/template_impl.py:33-39 | devices, status and deadlines pass through; `hasPalette2` exactly when palette2 is enabled |
| WizardMixin.DefaultsRequireWizard | octoprint_ikea_tradfri_v2/mixins/wizzard_impl.py:23-30 | the declared defaults leave all three credentials empty and so require the wizard; any one empty credential requires it |
| WizardMixin.IsWizardRequired | octoprint_ikea_tradfri_v2/mixins/wizzard_impl.py:23-30 | the gateway, the psk or the identity is the empty string; proved in `DefaultsRequireWizard` and `ConnectedEndsWizard` |
| WizardMixin.IsWizardIgnored | octoprint_ikea_tradfri_v2/mixins/wizzard_impl.py:101-105 | never ignored, whatever the wizards seen and the implementation |
| WizardMixin.UserId | octoprint_ikea_tradfri_v2/mixins/wizzard_impl.py:14-15 | the prefix followed by the uuid's first six hex characters, so prefix length plus 6 |
| WizardMixin.DefaultDevice | octoprint_ikea_tradfri_v2/mixins/wizzard_impl.py:41-56 | the record the wizard stores for the chosen outlet; proved in `DefaultDeviceMigration` |
| WizardMixin.DefaultDeviceMigration | octoprint_ikea_tradfri_v2/mixins/wizzard_impl.py:41-56 | the wizard's record is in cooldown mode (bed -1, hot end 50, stop timer 30) on the chosen outlet, and migration adds only `connect_palette2` False |
| WizardMixin.WizardSetOutlet | octoprint_ikea_tradfri_v2/mixins/wizzard_impl.py:35-60 | 400 without writing when `selected_outlet` is missing; otherwise the list becomes the single default record, saved once |
| WizardMixin.Connected | octoprint_ikea_tradfri_v2/mixins/wizzard_impl.py:80-82 | identity, psk and gateway are stored and nothing else changes |
| WizardMixin.ConnectedEndsWizard | octoprint_ikea_tradfri_v2/mixins/wizzard_impl.py:23-30 | after a successful exchange the wizard is required exactly when the gateway or the psk stored is empty |
| WizardMixin.WizardTryConnect | octoprint_ikea_tradfri_v2/mixins/wizzard_impl.py:62-95 | 400 without writing when a key is missing; 500 without writing when psk generation raises or yields None; otherwise the credentials are saved and a non-empty listing is stored as records, saved and reported |
| LegacyWizard.WizardSetOutlet | octoprint_ikea_tradfri_v2/wizzard_impl.py:30-55 | the same behaviour as the mixin's route |
| LegacyWizard.IsWizardRequired | octoprint_ikea_tradfri_v2/wizzard_impl.py:21-25 | the same rule as the current wizard: some credential is the empty string |
| LegacyWizard.WizardTryConnect | octoprint_ikea_tradfri_v2/wizzard_impl.py:57-85 | as written: 400 when a key is missing; with both keys an AttributeError from `TradfriClient.generate_psk`, before anything is written |
| LegacyWizard.WizardTryConnectIntended | octoprint_ikea_tradfri_v2/wizzard_impl.py:57-85 | as evidently intended, with the module-level `generate_psk`: 400 when a key is missing, 500 when psk generation raises or yields None, and nothing written in either; otherwise the constant identity, the psk and the gateway are saved once and the devices already stored are reported |
| LegacyWizard.ConnectedEndsWizard | octoprint_ikea_tradfri_v2/wizzard_impl.py:21-25 | once the intended route has stored the credentials, the older wizard is required exactly when the gateway or the psk is empty |

## Left out

- `cooldown_wait` holds None, not False, for a cooldown device whose watcher slot is empty; `Scheduler.CooldownWait` renders it as false.
- Scheduler.TurnOff: the final switch request is always logged, even when the facade raises before sending it. Nothing in `turnOff` follows that request except the navbar message, so only the log differs.
- How `turnOn`'s switch request ends is an input (`SwitchResult`) rather than derived from the facade's model; `DeviceControl.SetState` states when each ending occurs.
- Real threads and timers. Timers are tokens, and firing is an explicit method call. Concurrent firing, `threading.Timer` delays, and races between a timer and a cancel are not modelled.
- The coroutine/thread bridge. `asyncio.run_coroutine_threadsafe`, `find_a_loop`, the `_get_worker` sleep-poll loop and the thread body of `threaded_worker.py` are left out. Each bridged call is given as inputs: the reply, whether factory init succeeded, and whether the wait timed out.
- The timeout coroutine goes on running. After a timeout, `_checked_execution` returns None, but the coroutine may still change the factory slot later. The model does not capture that later effect.
- `_get_devices` makes two requests in a row. The model takes them as one reply.
- pytradfri itself is not modelled: `APIFactory`, `Gateway` commands, CoAP/DTLS, and `generate_psk`. Where the module-level `generate_psk` is reached (the current wizard, and the older wizard's intended route), its outcome is an input; the older wizard as written never reaches it.
- A blind's `set_state` is modelled as a plain set-state command, like the others.
- Host integration is left out: Flask responses and JSON, MQTT publish/subscribe (`on_mqtt_sub`, `mqtt_publish_ikea`), `_send_message`, `on_after_startup`, `on_settings_save`, and `on_api_command`. The printer's and Palette 2's connect and disconnect calls appear as logged effects.
- `navbarInfoData`, `getStateData` and `getStateDataById` are left out. They only read device state through the client for display.
- The metadata functions are left out: `get_update_information`, `get_assets`, `get_additional_permissions` and `get_settings_version`.
- The settings store is a map plus a save counter. OctoPrint's merging of defaults is not modelled.
- KeyErrors the source never handles mostly become preconditions, for example a device record without `id` or `turn_off_mode`. Modelled as raises are the KeyError from `planStopTimeMode` for a device without a deadline entry, the watcher's KeyError for a missing temperature reading (`FireCooldown`), the facade's KeyError for a device of type Other, and the stop of `on_event`'s loop at the first of them.
- Plugin.Plugin.SaveDevice: requires the saved device to carry an `id`. The source reads `device['id']` only inside its two loops, so a device without one, saved while both the discovered list and `selected_devices` are empty, is appended without a KeyError; the model does not cover that case.
- TradfriClient.Client.CallApi: a failed factory init is one `InitFailed` outcome that does not pass through the AttributeError mapping, although the source's `try` also covers `_get_api_factory`; an AttributeError from `APIFactory.init` is not told apart.
- `int()` is modelled only on ints and bools. Parsing strings is left out.
- Python's `1 == True` equality of ids is left out. Ids compare as values.
- `saveDevice` and `deleteDevice` only model bodies that are dicts. A body of None that fails at `in` is not modelled.
- `load_devices(startup=True)` opens a fresh client with `with setup()`, and the model leaves out that client's shutdown on exit. The listing is an input in both modes.
- The wizard's `wizard_try_connect` lists the devices through whatever client `setup` returns, which may be an older client with other credentials. The listing is an input.
- `TradfriClient.Registry.Shutdown` models the shutdown of the worker's loop inside `close()` as always succeeding. Exceptions inside `close()` are swallowed by the source, so their logging is not modelled.
- The broken earlier client draft, the scripts and the logging configuration are not part of this model.
