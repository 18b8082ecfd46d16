/**
 * The gateway client: a process-wide singleton created through `setup`, its
 * lazily created API factory and worker, the bridge that runs one gateway
 * request on the worker's loop and turns every failure into None, the socket
 * filter, and `shutdown`.
 *
 * The coroutine/thread bridge is abstract: a request's reply, whether the
 * factory could be initialised, and whether the wait for the result timed
 * out are inputs.
 */
module TradfriClient {
  import opened Values
  import opened TradfriDevice

  /** What a gateway request raised. */
  datatype Failure = AttributeError | Pytradfri | InitFailed | RequestFailed

  /** The outcome of a coroutine: its value, or what it raised. */
  datatype Outcome<T> = Done(value: T) | Raised(failure: Failure)

  /** `_call_api`'s error mapping: an AttributeError becomes a PytradfriError; everything else passes through. */
  function MapAttributeError<T>(reply: Outcome<T>): (r: Outcome<T>)
    ensures r.Done? <==> reply.Done?
    ensures r.Done? ==> r.value == reply.value
    ensures r.Raised? ==> r.failure != AttributeError
    ensures reply.Raised? && reply.failure != AttributeError ==> r == reply
  {
    if reply == Raised(AttributeError) then Raised(Pytradfri) else reply
  }

  /** `_get_sockets`: the devices with socket control, in their original order. */
  function Sockets(devs: seq<RawDevice>): (r: seq<RawDevice>)
    ensures |r| <= |devs|
    ensures forall k :: 0 <= k < |r| ==> r[k].hasSocket
  {
    if devs == [] then []
    else (if devs[0].hasSocket then [devs[0]] else []) + Sockets(devs[1..])
  }

  /** The filter keeps every device with socket control as often as it occurs and drops every other. */
  lemma {:induction false} SocketsCount(devs: seq<RawDevice>, d: RawDevice)
    ensures multiset(Sockets(devs))[d] == if d.hasSocket then multiset(devs)[d] else 0
  {
    if devs != [] {
      SocketsCount(devs[1..], d);
      assert devs == [devs[0]] + devs[1..];
    }
  }

  /** The filter commutes with concatenation, so it keeps the relative order of the devices. */
  lemma {:induction false} SocketsAppend(a: seq<RawDevice>, b: seq<RawDevice>)
    ensures Sockets(a + b) == Sockets(a) + Sockets(b)
  {
    if a == [] {
      assert a + b == b;
    } else {
      var head := if a[0].hasSocket then [a[0]] else [];
      assert (a + b)[0] == a[0] && (a + b)[1..] == a[1..] + b;
      assert Sockets(a + b) == head + Sockets(a[1..] + b);
      SocketsAppend(a[1..], b);
      assert Sockets(a) == head + Sockets(a[1..]);
    }
  }

  /** Filtering twice is filtering once. */
  lemma {:induction false} SocketsIdempotent(devs: seq<RawDevice>)
    ensures Sockets(Sockets(devs)) == Sockets(devs)
  {
    if devs != [] {
      SocketsIdempotent(devs[1..]);
      if devs[0].hasSocket {
        var kept := [devs[0]] + Sockets(devs[1..]);
        assert kept[0] == devs[0] && kept[1..] == Sockets(devs[1..]);
      } else {
        assert Sockets(devs) == Sockets(devs[1..]);
      }
    }
  }

  /**
   * `_checked_execution`: the coroutine's value when the worker's loop runs,
   * the coroutine returns, and the result arrives within the timeout; None
   * for every exception and for a timeout.
   */
  function Checked<T>(loopRunning: bool, timedOut: bool, outcome: Outcome<T>): (r: Option<T>)
    ensures r.Some? <==> loopRunning && !timedOut && outcome.Done?
    ensures r.Some? ==> r.value == outcome.value
  {
    if loopRunning && !timedOut && outcome.Done? then Some(outcome.value) else None
  }

  /** The API factory of one client; its own state belongs to pytradfri. */
  class ApiFactory {
    constructor()
    {
    }
  }

  /** `ThreadedWorker`: whether its event loop is running. */
  class Worker {
    var running: bool

    /** A new worker, once `_get_worker` has waited for its loop to start. */
    constructor()
      ensures running
    {
      running := true;
    }

    /** `get_loop()`: raises (false here) when the loop is not running. */
    method GetLoop() returns (ok: bool)
      ensures ok <==> running
    {
      ok := running;
    }

    /** `close()`: stops the loop; exceptions inside are caught. */
    method Close()
      modifies this
      ensures !running
    {
      running := false;
    }
  }

  /** `TradfriClient`: connection arguments and the two lazily filled slots. */
  class Client {
    const hostIp: string
    const identity: string
    const psk: string
    var factory: ApiFactory?
    var worker: Worker?

    constructor(gwIp: string, identity: string, psk: string)
      ensures hostIp == gwIp && this.identity == identity && this.psk == psk
      ensures factory == null && worker == null
    {
      hostIp := gwIp;
      this.identity := identity;
      this.psk := psk;
      factory := null;
      worker := null;
    }

    /** `_get_worker`: create the worker once; later calls return the same one. */
    method GetWorker() returns (w: Worker)
      modifies this
      ensures worker == w && factory == old(factory)
      ensures old(worker) != null ==> w == old(worker)
      ensures old(worker) == null ==> fresh(w) && w.running
    {
      if worker == null {
        worker := new Worker();
      }
      w := worker;
    }

    /**
     * `_get_api_factory`: create the factory once; later calls return the
     * same one. When `APIFactory.init` fails (`initOk` false) nothing is
     * stored and the call raises (null here).
     */
    method GetApiFactory(initOk: bool) returns (f: ApiFactory?)
      modifies this
      ensures worker == old(worker)
      ensures old(factory) != null ==> f == old(factory) && factory == old(factory)
      ensures old(factory) == null && initOk ==> f != null && fresh(f) && factory == f
      ensures old(factory) == null && !initOk ==> f == null && factory == null
    {
      if factory == null && initOk {
        factory := new ApiFactory();
      }
      f := factory;
    }

    /**
     * `_call_api`: get the factory, send the request, and map AttributeError
     * to PytradfriError. An init failure is one opaque `InitFailed` and is
     * not passed through that mapping, although the `try` also covers
     * `_get_api_factory`; an AttributeError raised by `APIFactory.init` is
     * therefore not distinguished here.
     */
    method CallApi<T>(initOk: bool, reply: Outcome<T>) returns (r: Outcome<T>)
      modifies this
      ensures worker == old(worker)
      ensures old(factory) == null && !initOk ==> r == Raised(InitFailed)
      ensures old(factory) != null || initOk ==> r == MapAttributeError(reply) && factory != null
      ensures old(factory) != null || !initOk ==> factory == old(factory)
      ensures old(factory) == null && initOk ==> fresh(factory)
    {
      var f := GetApiFactory(initOk);
      if f == null {
        return Raised(InitFailed);
      }
      r := MapAttributeError(reply);
    }

    /**
     * `_checked_execution` of one `_call_api` request: the request runs
     * only on a running loop, and the result is `Checked` of its outcome.
     * The worker is created on first use and kept afterwards; the factory
     * is created by the first request that runs and whose init succeeds,
     * and kept afterwards.
     */
    method CheckedExecution<T>(initOk: bool, reply: Outcome<T>, timedOut: bool) returns (r: Option<T>)
      modifies this
      ensures worker != null
      ensures old(worker) != null ==> worker == old(worker)
      ensures old(worker) == null ==> fresh(worker) && worker.running
      ensures old(factory) != null || !worker.running || !initOk ==> factory == old(factory)
      ensures worker.running && old(factory) == null && initOk ==> factory != null && fresh(factory)
      ensures r == Checked(worker.running, timedOut,
                           if old(factory) == null && !initOk then Raised(InitFailed) else MapAttributeError(reply))
    {
      var w := GetWorker();
      var running := w.GetLoop();
      if !running {
        return None;
      }
      var outcome := CallApi(initOk, reply);
      r := Checked(true, timedOut, outcome);
    }

    /**
     * `list_devices`: wrap every device of a checked `_get_devices`; a None
     * from the bridge makes the comprehension raise a TypeError (None here).
     */
    method ListDevices(initOk: bool, reply: Outcome<seq<RawDevice>>, timedOut: bool)
      returns (r: Option<seq<DeviceWrapper>>)
      modifies this
      ensures worker != null
      ensures old(worker) != null ==> worker == old(worker)
      ensures old(worker) == null ==> fresh(worker) && worker.running
      ensures old(factory) != null || !worker.running || !initOk ==> factory == old(factory)
      ensures worker.running && old(factory) == null && initOk ==> factory != null && fresh(factory)
      ensures var devs := Checked(worker.running, timedOut,
                                  if old(factory) == null && !initOk then Raised(InitFailed) else MapAttributeError(reply));
        && (r.Some? <==> devs.Some?)
        && (r.Some? ==> Wraps(r.value, devs.value))
    {
      var devs := CheckedExecution(initOk, reply, timedOut);
      if devs.None? {
        return None;
      }
      var ws := WrapAll(devs.value);
      r := Some(ws);
    }

    /** `get_sockets`: as `list_devices`, over the devices `_get_sockets` keeps. */
    method GetSockets(initOk: bool, reply: Outcome<seq<RawDevice>>, timedOut: bool)
      returns (r: Option<seq<DeviceWrapper>>)
      modifies this
      ensures worker != null
      ensures old(worker) != null ==> worker == old(worker)
      ensures old(worker) == null ==> fresh(worker) && worker.running
      ensures old(factory) != null || !worker.running || !initOk ==> factory == old(factory)
      ensures worker.running && old(factory) == null && initOk ==> factory != null && fresh(factory)
      ensures var devs := Checked(worker.running, timedOut,
                                  if old(factory) == null && !initOk then Raised(InitFailed) else MapAttributeError(reply));
        && (r.Some? <==> devs.Some?)
        && (r.Some? ==> Wraps(r.value, Sockets(devs.value)))
    {
      var filtered := if reply.Done? then Done(Sockets(reply.value)) else reply;
      var devs := CheckedExecution(initOk, filtered, timedOut);
      if devs.None? {
        return None;
      }
      var ws := WrapAll(devs.value);
      r := Some(ws);
    }

    /** `get_by_id`: wrap the checked device; a None from the bridge makes the wrapper raise PytradfriError. */
    method GetById(initOk: bool, reply: Outcome<RawDevice>, timedOut: bool) returns (r: Option<DeviceWrapper>)
      modifies this
      ensures worker != null
      ensures old(worker) != null ==> worker == old(worker)
      ensures old(worker) == null ==> fresh(worker) && worker.running
      ensures old(factory) != null || !worker.running || !initOk ==> factory == old(factory)
      ensures worker.running && old(factory) == null && initOk ==> factory != null && fresh(factory)
      ensures var dev := Checked(worker.running, timedOut,
                                 if old(factory) == null && !initOk then Raised(InitFailed) else MapAttributeError(reply));
        && (r.Some? <==> dev.Some?)
        && (r.Some? ==> fresh(r.value) && r.value.deviceObj == dev.value && r.value.control == None)
    {
      var dev := CheckedExecution(initOk, reply, timedOut);
      r := Wrap(dev);
    }
  }

  /** `ws` holds one fresh wrapper per device, in order, each without a cached control. */
  ghost predicate Wraps(ws: seq<DeviceWrapper>, devs: seq<RawDevice>)
    reads set k | 0 <= k < |ws| :: ws[k]
  {
    |ws| == |devs| && forall k :: 0 <= k < |ws| ==> ws[k].deviceObj == devs[k] && ws[k].control == None
  }

  /** The comprehension `[CommonTradfriDeviceWrapper(dev) for dev in devs]`. */
  method WrapAll(devs: seq<RawDevice>) returns (ws: seq<DeviceWrapper>)
    ensures Wraps(ws, devs)
    ensures forall k :: 0 <= k < |ws| ==> fresh(ws[k])
  {
    ws := [];
    var i := 0;
    while i < |devs|
      invariant 0 <= i <= |devs|
      invariant |ws| == i
      invariant forall k :: 0 <= k < i ==> fresh(ws[k])
      invariant forall k :: 0 <= k < i ==> ws[k].deviceObj == devs[k] && ws[k].control == None
    {
      var w := new DeviceWrapper(devs[i]);
      ws := ws + [w];
      i := i + 1;
    }
  }

  /**
   * `TradfriClient(..., internal=...)`: the constructor refuses (null here,
   * a TradfriClientError) unless called with the module's private sentinel.
   */
  method Construct(gwIp: string, identity: string, psk: string, internal: bool) returns (c: Client?)
    ensures c != null <==> internal
    ensures c != null ==> fresh(c) && c.hostIp == gwIp && c.identity == identity && c.psk == psk
                          && c.factory == null && c.worker == null
  {
    if !internal {
      return null;
    }
    c := new Client(gwIp, identity, psk);
  }

  /** The class attribute `TradfriClient._instance`. */
  class Registry {
    var instance: Client?

    constructor()
      ensures instance == null
    {
      instance := null;
    }

    /** `instance()`: the stored client; a TradfriClientError (null here) before `setup`. */
    method Instance() returns (c: Client?)
      ensures c == instance
    {
      c := instance;
    }

    /** `setup`: the first call creates the client; later calls return it and ignore their arguments. */
    method Setup(gwIp: string, identity: string, psk: string) returns (c: Client)
      modifies this
      ensures instance == c
      ensures old(instance) != null ==> c == old(instance)
      ensures old(instance) == null ==> fresh(c) && c.hostIp == gwIp && c.identity == identity
                                        && c.psk == psk && c.factory == null && c.worker == null
    {
      if instance == null {
        var created := Construct(gwIp, identity, psk, true);
        instance := created;
      }
      c := instance;
    }

    /**
     * `shutdown` of client `c`. The factory's own shutdown is attempted and
     * any exception from it is swallowed. The `finally` clause then asks the
     * worker for its loop: with no worker, or a worker whose loop is not
     * running, that raises out of `shutdown` and nothing is reset (`raised`).
     * Otherwise the factory slot is cleared, the worker is closed and its
     * slot cleared, and the class's instance is cleared.
     */
    method Shutdown(c: Client) returns (raised: bool)
      modifies this, c, c.worker
      ensures raised <==> old(c.worker) == null || !old(c.worker.running)
      ensures raised ==> instance == old(instance) && c.factory == old(c.factory) && c.worker == old(c.worker)
      ensures raised && old(c.worker) != null ==> old(c.worker).running == old(c.worker.running)
      ensures !raised ==> instance == null && c.factory == null && c.worker == null && !old(c.worker).running
    {
      if c.worker == null {
        return true;
      }
      var w := c.worker;
      var running := w.GetLoop();
      if !running {
        return true;
      }
      c.factory := null;
      w.Close();
      c.worker := null;
      instance := null;
      raised := false;
    }

    /**
     * `shutdown` as its clauses evidently intend: the pending-task lookup in
     * the `finally` clause is only logging, so it cannot stop the reset. The
     * factory slot is cleared, a worker that exists is closed (closing a
     * missing worker raises inside the `try` and is swallowed), and the
     * worker slot and the class's instance are cleared on every call. Where
     * `Shutdown` does not raise it ends in exactly this state.
     */
    method ShutdownIntended(c: Client)
      modifies this, c, c.worker
      ensures instance == null && c.factory == null && c.worker == null
      ensures old(c.worker) != null ==> !old(c.worker).running
    {
      c.factory := null;
      if c.worker != null {
        c.worker.Close();
      }
      c.worker := null;
      instance := null;
    }
  }
}
