/**
 * The device facade over a pytradfri device: its type, derived from which
 * controls it has, the names of the control and entity attributes each type
 * uses, its export as a record, and the wrapper and control objects that
 * cache the control, read the state and send switch commands.
 */
module TradfriDevice {
  import opened Values

  /** `TradfriDeviceType`. */
  datatype DeviceType = Outlet | Light | Blind | Other

  /** The enum's `value`. */
  function TypeValue(t: DeviceType): string
  {
    match t
    case Outlet => "Outlet"
    case Light => "Light"
    case Blind => "Blind"
    case Other => "Other"
  }

  /** `ctrl()`: the control attribute of the type; None where the mapper has no entry (`KeyError`). */
  function Ctrl(t: DeviceType): Option<string>
  {
    match t
    case Outlet => Some("socket_control")
    case Light => Some("light_control")
    case Blind => Some("blind_control")
    case Other => None
  }

  /** `entity()`: the entity list attribute of the type; None where the mapper has no entry. */
  function Entity(t: DeviceType): Option<string>
  {
    match t
    case Outlet => Some("sockets")
    case Light => Some("lights")
    case Blind => Some("blinds")
    case Other => None
  }

  /**
   * Exactly the types other than `Other` have a control and an entity
   * attribute, and no two types share one.
   */
  lemma MapperCoversAllButOther(t: DeviceType, u: DeviceType)
    ensures Ctrl(t).None? <==> t == Other
    ensures Entity(t).None? <==> t == Other
    ensures Ctrl(t).Some? && Ctrl(t) == Ctrl(u) ==> t == u
    ensures Entity(t).Some? && Entity(t) == Entity(u) ==> t == u
  {
  }

  /** A control object: its entity lists, each entity given by its on/off state. */
  datatype ControlObj = ControlObj(entities: map<string, seq<bool>>)

  /**
   * The pytradfri device as the plugin sees it: id, name, the three
   * `has_*_control` flags, and the control attributes present on it.
   */
  datatype RawDevice = RawDevice(
    id: int,
    name: string,
    hasLight: bool,
    hasSocket: bool,
    hasBlind: bool,
    controls: map<string, ControlObj>)

  /** The wrapper's `type`: light control wins over socket control, which wins over blind control. */
  function TypeOf(d: RawDevice): DeviceType
  {
    if d.hasLight then Light
    else if d.hasSocket then Outlet
    else if d.hasBlind then Blind
    else Other
  }

  /** Each type is chosen exactly when its flag is the first one set. */
  lemma TypePriority(d: RawDevice)
    ensures TypeOf(d) == Light <==> d.hasLight
    ensures TypeOf(d) == Outlet <==> !d.hasLight && d.hasSocket
    ensures TypeOf(d) == Blind <==> !d.hasLight && !d.hasSocket && d.hasBlind
    ensures TypeOf(d) == Other <==> !d.hasLight && !d.hasSocket && !d.hasBlind
  {
  }

  /** `to_dict()`: exactly the id, the type's value and the name. */
  function ToDict(d: RawDevice): (r: Record)
    ensures r.Keys == {"id", "type", "name"}
    ensures r["id"] == VInt(d.id) && r["type"] == VStr(TypeValue(TypeOf(d))) && r["name"] == VStr(d.name)
  {
    map["id" := VInt(d.id), "type" := VStr(TypeValue(TypeOf(d))), "name" := VStr(d.name)]
  }

  /** The exceptions the facade raises. */
  datatype DeviceError = KeyError | TradfriDeviceError | IndexError | PytradfriError | TradfriClientError

  datatype Result<T> = Ok(value: T) | Err(error: DeviceError)

  /**
   * `_get_controls()`: the control attribute of the device's type; `KeyError`
   * for a device of type `Other`, `TradfriDeviceError` when the attribute is
   * missing.
   */
  function Controls(d: RawDevice): Result<ControlObj>
  {
    match Ctrl(TypeOf(d))
    case None => Err(KeyError)
    case Some(c) => if c in d.controls then Ok(d.controls[c]) else Err(TradfriDeviceError)
  }

  /**
   * `get_state()`: the state of the first entity in the type's entity list;
   * `TradfriDeviceError` when the control has no such list, `IndexError`
   * when the list is empty.
   */
  function State(d: RawDevice): Result<bool>
  {
    match Controls(d)
    case Err(e) => Err(e)
    case Ok(c) =>
      var name := Entity(TypeOf(d)).value;
      if name !in c.entities then Err(TradfriDeviceError)
      else if |c.entities[name]| == 0 then Err(IndexError)
      else Ok(c.entities[name][0])
  }

  /** When and what `get_state()` reads, and which error it raises otherwise. */
  lemma StateReadsFirstEntity(d: RawDevice)
    ensures State(d).Ok? <==>
      && TypeOf(d) != Other
      && Ctrl(TypeOf(d)).value in d.controls
      && Entity(TypeOf(d)).value in d.controls[Ctrl(TypeOf(d)).value].entities
      && |d.controls[Ctrl(TypeOf(d)).value].entities[Entity(TypeOf(d)).value]| > 0
    ensures State(d).Ok? ==>
      State(d).value == d.controls[Ctrl(TypeOf(d)).value].entities[Entity(TypeOf(d)).value][0]
    ensures TypeOf(d) == Other ==> State(d) == Err(KeyError)
    ensures TypeOf(d) != Other && Ctrl(TypeOf(d)).value !in d.controls ==> State(d) == Err(TradfriDeviceError)
    ensures Controls(d).Ok? && Entity(TypeOf(d)).value !in Controls(d).value.entities ==> State(d) == Err(TradfriDeviceError)
    ensures Controls(d).Ok? && Entity(TypeOf(d)).value in Controls(d).value.entities ==>
              (State(d) == Err(IndexError) <==> Controls(d).value.entities[Entity(TypeOf(d)).value] == [])
  {
  }

  /** The command a control's `set_state` builds, addressed to one device. */
  datatype Command = SetStateCommand(deviceId: int, control: string, on: bool)

  /** Where commands go: the client's `intern_run_command`, which swallows every failure. */
  class CommandSink {
    var commands: seq<Command>

    constructor()
      ensures commands == []
    {
      commands := [];
    }

    method Run(c: Command)
      modifies this
      ensures commands == old(commands) + [c]
    {
      commands := commands + [c];
    }
  }

  /** `CommonTradfriDeviceWrapper`: a pytradfri device and its lazily created control. */
  class DeviceWrapper {
    var deviceObj: RawDevice
    var control: Option<DeviceControl>

    constructor(obj: RawDevice)
      ensures deviceObj == obj && control == None
    {
      deviceObj := obj;
      control := None;
    }

    function Type(): DeviceType
      reads this
    {
      TypeOf(deviceObj)
    }

    /**
     * `control`: create the control on first access and return the same
     * object on every later access.
     */
    method Control() returns (c: DeviceControl)
      modifies this
      ensures deviceObj == old(deviceObj)
      ensures control == Some(c)
      ensures old(control).Some? ==> c == old(control).value
      ensures old(control).None? ==> fresh(c) && c.device == this
    {
      if control.None? {
        c := new DeviceControl(this);
        control := Some(c);
      } else {
        c := control.value;
      }
    }

    /**
     * `refresh()`: replace the device with the one the client fetched by id
     * and drop the cached control. When the fetch yielded nothing the
     * client's wrapper raises `PytradfriError` and nothing changes.
     */
    method Refresh(fetched: Option<RawDevice>) returns (ok: bool)
      modifies this
      ensures ok <==> fetched.Some?
      ensures ok ==> deviceObj == fetched.value && control == None
      ensures !ok ==> deviceObj == old(deviceObj) && control == old(control)
    {
      if fetched.None? {
        return false;
      }
      deviceObj := fetched.value;
      control := None;
      ok := true;
    }
  }

  /** Wrapping a device the client returned: `PytradfriError` (None here) when there is none. */
  method Wrap(obj: Option<RawDevice>) returns (w: Option<DeviceWrapper>)
    ensures w.Some? <==> obj.Some?
    ensures w.Some? ==> fresh(w.value) && w.value.deviceObj == obj.value && w.value.control == None
  {
    if obj.None? {
      return None;
    }
    var wrapper := new DeviceWrapper(obj.value);
    w := Some(wrapper);
  }

  /** `CommonTradfriDeviceControl`: reads and switches the device it belongs to. */
  class DeviceControl {
    const device: DeviceWrapper

    constructor(device: DeviceWrapper)
      ensures this.device == device
    {
      this.device := device;
    }

    /** `get_state()` on the wrapper's current device. */
    method GetState() returns (r: Result<bool>)
      ensures r == State(device.deviceObj)
    {
      var d := device.deviceObj;
      var controls := Controls(d);
      if controls.Err? {
        return Err(controls.error);
      }
      var name := Entity(TypeOf(d)).value;
      if name !in controls.value.entities {
        return Err(TradfriDeviceError);
      }
      var states := controls.value.entities[name];
      if |states| == 0 {
        return Err(IndexError);
      }
      r := Ok(states[0]);
    }

    /**
     * `_set_state()`: build the set-state command for the device's control,
     * hand it to the registered client, then refresh the wrapper from
     * `fetched`. Nothing is sent when the control cannot be found or when no
     * client is registered (`instance()` raises `TradfriClientError`); a
     * failed refresh raises after sending.
     */
    method SetState(on: bool, registered: bool, sink: CommandSink, fetched: Option<RawDevice>) returns (r: Result<()>)
      modifies sink, device
      ensures Controls(old(device.deviceObj)).Err? ==>
        r == Err(Controls(old(device.deviceObj)).error)
        && sink.commands == old(sink.commands)
        && device.deviceObj == old(device.deviceObj) && device.control == old(device.control)
      ensures Controls(old(device.deviceObj)).Ok? && !registered ==>
        r == Err(TradfriClientError)
        && sink.commands == old(sink.commands)
        && device.deviceObj == old(device.deviceObj) && device.control == old(device.control)
      ensures Controls(old(device.deviceObj)).Ok? && registered ==>
        && sink.commands == old(sink.commands) + [SetStateCommand(old(device.deviceObj).id, Ctrl(TypeOf(old(device.deviceObj))).value, on)]
        && (r.Ok? <==> fetched.Some?)
        && (fetched.Some? ==> device.deviceObj == fetched.value && device.control == None)
        && (fetched.None? ==> r == Err(PytradfriError) && device.deviceObj == old(device.deviceObj) && device.control == old(device.control))
    {
      var d := device.deviceObj;
      var controls := Controls(d);
      if controls.Err? {
        return Err(controls.error);
      }
      var command := SetStateCommand(d.id, Ctrl(TypeOf(d)).value, on);
      if !registered {
        return Err(TradfriClientError);
      }
      sink.Run(command);
      var ok := device.Refresh(fetched);
      r := if ok then Ok(()) else Err(PytradfriError);
    }

    /** `switch_on()`: `_set_state(True)`. */
    method SwitchOn(registered: bool, sink: CommandSink, fetched: Option<RawDevice>) returns (r: Result<()>)
      modifies sink, device
      ensures Controls(old(device.deviceObj)).Err? ==>
        r == Err(Controls(old(device.deviceObj)).error)
        && sink.commands == old(sink.commands)
        && device.deviceObj == old(device.deviceObj) && device.control == old(device.control)
      ensures Controls(old(device.deviceObj)).Ok? && !registered ==>
        r == Err(TradfriClientError)
        && sink.commands == old(sink.commands)
        && device.deviceObj == old(device.deviceObj) && device.control == old(device.control)
      ensures Controls(old(device.deviceObj)).Ok? && registered ==>
        && sink.commands == old(sink.commands) + [SetStateCommand(old(device.deviceObj).id, Ctrl(TypeOf(old(device.deviceObj))).value, true)]
        && (r.Ok? <==> fetched.Some?)
        && (fetched.Some? ==> device.deviceObj == fetched.value && device.control == None)
        && (fetched.None? ==> r == Err(PytradfriError) && device.deviceObj == old(device.deviceObj) && device.control == old(device.control))
    {
      r := SetState(true, registered, sink, fetched);
    }

    /** `switch_off()`: `_set_state(False)`. */
    method SwitchOff(registered: bool, sink: CommandSink, fetched: Option<RawDevice>) returns (r: Result<()>)
      modifies sink, device
      ensures Controls(old(device.deviceObj)).Err? ==>
        r == Err(Controls(old(device.deviceObj)).error)
        && sink.commands == old(sink.commands)
        && device.deviceObj == old(device.deviceObj) && device.control == old(device.control)
      ensures Controls(old(device.deviceObj)).Ok? && !registered ==>
        r == Err(TradfriClientError)
        && sink.commands == old(sink.commands)
        && device.deviceObj == old(device.deviceObj) && device.control == old(device.control)
      ensures Controls(old(device.deviceObj)).Ok? && registered ==>
        && sink.commands == old(sink.commands) + [SetStateCommand(old(device.deviceObj).id, Ctrl(TypeOf(old(device.deviceObj))).value, false)]
        && (r.Ok? <==> fetched.Some?)
        && (fetched.Some? ==> device.deviceObj == fetched.value && device.control == None)
        && (fetched.None? ==> r == Err(PytradfriError) && device.deviceObj == old(device.deviceObj) && device.control == old(device.control))
    {
      r := SetState(false, registered, sink, fetched);
    }

    /**
     * `toggle_state()`: read the state, then switch to its negation. Nothing
     * is sent and nothing refreshed when the state cannot be read or no
     * client is registered; otherwise exactly one command is sent and the
     * wrapper is refreshed as by `_set_state`.
     */
    method Toggle(registered: bool, sink: CommandSink, fetched: Option<RawDevice>) returns (r: Result<()>)
      modifies sink, device
      ensures State(old(device.deviceObj)).Err? ==>
        r == Err(State(old(device.deviceObj)).error)
        && sink.commands == old(sink.commands)
        && device.deviceObj == old(device.deviceObj) && device.control == old(device.control)
      ensures State(old(device.deviceObj)).Ok? && !registered ==>
        r == Err(TradfriClientError)
        && sink.commands == old(sink.commands)
        && device.deviceObj == old(device.deviceObj) && device.control == old(device.control)
      ensures State(old(device.deviceObj)).Ok? && registered ==>
        && sink.commands == old(sink.commands) +
             [SetStateCommand(old(device.deviceObj).id, Ctrl(TypeOf(old(device.deviceObj))).value, !State(old(device.deviceObj)).value)]
        && (r.Ok? <==> fetched.Some?)
        && (fetched.Some? ==> device.deviceObj == fetched.value && device.control == None)
        && (fetched.None? ==> r == Err(PytradfriError) && device.deviceObj == old(device.deviceObj) && device.control == old(device.control))
    {
      var state := GetState();
      if state.Err? {
        return Err(state.error);
      }
      if state.value {
        r := SwitchOff(registered, sink, fetched);
      } else {
        r := SwitchOn(registered, sink, fetched);
      }
    }
  }
}
