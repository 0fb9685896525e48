/**
 * The reconnect state machine that owns one device.
 *
 * The manager holds whether its polling interval is armed, the ordered
 * registry of reconnect callbacks, and (as ghost state) the trace of what
 * it has caused to happen: connect attempts, calls of the connected and
 * disconnected observers, and runs of the callbacks.  What the radio and
 * the callbacks do is not visible to it, so each outcome (the connect
 * succeeds or fails, the connected observer throws, which callbacks throw,
 * what `isConnected` answers) is a parameter of the call that meets it.
 * Every tick of the interval and every disconnect notification is one
 * sequential method call.
 */
module ConnectionManager {
  import opened Wrappers
  import Ble

  /** A registered reconnect callback, by identity. */
  type CallbackId = nat

  /** One thing the manager caused to happen. */
  datatype Event =
    | Attempted                                // `device.connect()` was called
    | Connected                                // `onDeviceConnected(device)` was called
    | Ran(callback: CallbackId, threw: bool)   // a reconnect callback was called, and whether it threw
    | Disconnected(device: Ble.Device)         // `onDeviceDisconnected(device)` was called

  /** The outcomes met by one connect attempt. */
  datatype Attempt = Attempt(
    connects: bool,          // `device.connect()` resolves
    observerThrows: bool,    // `onDeviceConnected` throws
    failing: set<nat>)       // positions in the registry whose callback throws or rejects

  /** What `device.isConnected()` does on one tick. */
  datatype Probe = Up | Down | ProbeThrew

  /** Every callback of the registry is run, in order, each one whatever the others did. */
  function CallbackRuns(callbacks: seq<CallbackId>, failing: set<nat>): (runs: seq<Event>)
    ensures |runs| == |callbacks|
    ensures forall e :: e in runs ==> e.Ran? && e.callback in callbacks
  {
    if callbacks == [] then []
    else
      var last := |callbacks| - 1;
      CallbackRuns(callbacks[..last], failing) + [Ran(callbacks[last], last in failing)]
  }

  /**
   * The effect of `connectToDevice`: one attempt; on success the connected
   * observer, if there is one, then the callbacks.  A throwing observer is
   * caught by the same handler as a failed connect, so the callbacks are
   * then skipped.
   */
  function ConnectEvents(hasObserver: bool, callbacks: seq<CallbackId>, a: Attempt): (events: seq<Event>)
    ensures |events| >= 1 && events[0] == Attempted
    ensures Connected in events ==> hasObserver && a.connects
    ensures forall e :: e in events && e.Ran? ==> e.callback in callbacks
    ensures forall e :: e in events ==> !e.Disconnected?
  {
    [Attempted] +
    if !a.connects then []
    else if !hasObserver then CallbackRuns(callbacks, a.failing)
    else if a.observerThrows then [Connected]
    else [Connected] + CallbackRuns(callbacks, a.failing)
  }

  /**
   * The runs follow registration order, one per registered callback, and
   * a callback that throws does not stop the ones after it.
   */
  lemma {:induction false} CallbackRunsInOrder(callbacks: seq<CallbackId>, failing: set<nat>)
    ensures |CallbackRuns(callbacks, failing)| == |callbacks|
    ensures forall i :: 0 <= i < |callbacks| ==>
      CallbackRuns(callbacks, failing)[i] == Ran(callbacks[i], i in failing)
  {
    if callbacks != [] {
      var last := |callbacks| - 1;
      var init := callbacks[..last];
      CallbackRunsInOrder(init, failing);
      var runs := CallbackRuns(callbacks, failing);
      assert runs == CallbackRuns(init, failing) + [Ran(callbacks[last], last in failing)];
      forall i | 0 <= i < |callbacks| ensures runs[i] == Ran(callbacks[i], i in failing) {
        if i < last {
          assert runs[i] == CallbackRuns(init, failing)[i];
          assert init[i] == callbacks[i];
        }
      }
    }
  }

  /** On a successful connect the trace gains `Connected` followed by every callback in registration order. */
  lemma ConnectSucceeded(callbacks: seq<CallbackId>, a: Attempt)
    requires a.connects && !a.observerThrows
    ensures var e := ConnectEvents(true, callbacks, a);
      |e| == |callbacks| + 2 && e[0] == Attempted && e[1] == Connected &&
      forall i :: 0 <= i < |callbacks| ==> e[i + 2] == Ran(callbacks[i], i in a.failing)
  {
    var runs := CallbackRuns(callbacks, a.failing);
    CallbackRunsInOrder(callbacks, a.failing);
    var e := ConnectEvents(true, callbacks, a);
    assert e == [Attempted, Connected] + runs;
    forall i | 0 <= i < |callbacks| ensures e[i + 2] == Ran(callbacks[i], i in a.failing) {
      assert e[i + 2] == runs[i];
    }
  }

  /** On a failed connect neither the connected observer nor any callback runs. */
  lemma {:induction false} ConnectFailedRunsNothing(hasObserver: bool, callbacks: seq<CallbackId>, a: Attempt)
    requires !a.connects
    ensures forall e :: e in ConnectEvents(hasObserver, callbacks, a) ==> e == Attempted
  {
  }

  /** The callbacks run exactly when the connect succeeds and no observer throws first. */
  lemma CallbacksRunIff(hasObserver: bool, callbacks: seq<CallbackId>, a: Attempt)
    requires callbacks != []
    ensures (exists e :: e in ConnectEvents(hasObserver, callbacks, a) && e.Ran?)
        <==> a.connects && !(hasObserver && a.observerThrows)
  {
    var e := ConnectEvents(hasObserver, callbacks, a);
    CallbackRunsInOrder(callbacks, a.failing);
    if a.connects && !(hasObserver && a.observerThrows) {
      var runs := CallbackRuns(callbacks, a.failing);
      assert runs[0].Ran?;
      assert e == [Attempted] + (if hasObserver then [Connected] + runs else runs);
      assert runs[0] in e;
    }
  }

  class BluetoothConnectionManager {
    const device: Ble.Device
    const checkInterval: int
    const hasOnDeviceConnected: bool
    const hasOnDeviceDisconnected: bool

    /** Stands for `connectionInterval !== null`: a polling interval is armed. */
    var armed: bool
    var callbacks: seq<CallbackId>
    ghost var trace: seq<Event>

    /**
     * The trace only mentions registered callbacks, and an observer the
     * manager was not given is never recorded as called.
     */
    ghost predicate Valid()
      reads this
    {
      && (forall k :: 0 <= k < |trace| && trace[k].Ran? ==> trace[k].callback in callbacks)
      && (!hasOnDeviceConnected ==> Connected !in trace)
      && (!hasOnDeviceDisconnected ==> forall k :: 0 <= k < |trace| ==> !trace[k].Disconnected?)
    }

    constructor (device: Ble.Device, checkInterval: int := 5000,
                 hasOnDeviceConnected: bool := false, hasOnDeviceDisconnected: bool := false)
      ensures Valid()
      ensures this.device == device && this.checkInterval == checkInterval
      ensures this.hasOnDeviceConnected == hasOnDeviceConnected
      ensures this.hasOnDeviceDisconnected == hasOnDeviceDisconnected
      ensures !armed && callbacks == [] && trace == []
    {
      this.device := device;
      this.checkInterval := checkInterval;
      this.hasOnDeviceConnected := hasOnDeviceConnected;
      this.hasOnDeviceDisconnected := hasOnDeviceDisconnected;
      armed := false;
      callbacks := [];
      trace := [];
    }

    /** Appends one callback; the earlier ones keep their places. */
    method AddOnReconnectCallback(callback: CallbackId)
      requires Valid()
      modifies this
      ensures Valid()
      ensures callbacks == old(callbacks) + [callback]
      ensures armed == old(armed) && trace == old(trace)
    {
      callbacks := callbacks + [callback];
    }

    /**
     * While armed, does nothing.  Otherwise attempts one connect and then
     * arms the interval whatever the outcome.
     */
    method StartMonitoringConnection(a: Attempt)
      requires Valid()
      modifies this
      ensures Valid()
      ensures armed
      ensures callbacks == old(callbacks)
      ensures trace == if old(armed) then old(trace)
                       else old(trace) + ConnectEvents(hasOnDeviceConnected, callbacks, a)
    {
      if armed {
        return;
      }
      ConnectToDevice(a);
      armed := true;
    }

    /**
     * One firing of the interval: reconnect only when the device reports
     * itself disconnected; a throwing check is caught, and the interval
     * stays armed in every case.
     */
    method Tick(probe: Probe, a: Attempt)
      requires Valid() && armed
      modifies this
      ensures Valid()
      ensures armed && callbacks == old(callbacks)
      ensures trace == if probe == Down then old(trace) + ConnectEvents(hasOnDeviceConnected, callbacks, a)
                       else old(trace)
    {
      match probe
      case Up =>
      case ProbeThrew =>
      case Down =>
        ConnectToDevice(a);
    }

    /** Disarms the interval; repeating it changes nothing. */
    method StopMonitoringConnection()
      requires Valid()
      modifies this
      ensures Valid()
      ensures !armed
      ensures callbacks == old(callbacks) && trace == old(trace)
    {
      if armed {
        armed := false;
      }
    }

    /** One connect attempt; every failure inside it is caught here. */
    method ConnectToDevice(a: Attempt)
      requires Valid()
      modifies this
      ensures Valid()
      ensures armed == old(armed) && callbacks == old(callbacks)
      ensures trace == old(trace) + ConnectEvents(hasOnDeviceConnected, callbacks, a)
    {
      trace := trace + [Attempted];
      if !a.connects {
        return;
      }
      if hasOnDeviceConnected {
        trace := trace + [Connected];
        if a.observerThrows {
          return;
        }
      }
      RunOnReconnectCallbacks(a.failing);
    }

    /** Runs every registered callback in order; a throw is caught and the loop goes on. */
    method RunOnReconnectCallbacks(failing: set<nat>)
      requires Valid()
      modifies this
      ensures Valid()
      ensures armed == old(armed) && callbacks == old(callbacks)
      ensures trace == old(trace) + CallbackRuns(callbacks, failing)
    {
      var i := 0;
      while i < |callbacks|
        invariant 0 <= i <= |callbacks|
        invariant Valid()
        invariant armed == old(armed) && callbacks == old(callbacks)
        invariant trace == old(trace) + CallbackRuns(callbacks[..i], failing)
      {
        assert callbacks[..i + 1][..i] == callbacks[..i];
        var threw := i in failing;
        trace := trace + [Ran(callbacks[i], threw)];
        i := i + 1;
      }
      assert callbacks[..i] == callbacks;
    }

    /** The listener registered on the device: a notification without a device is ignored. */
    method OnDisconnected(disconnectedDevice: Option<Ble.Device>)
      requires Valid()
      modifies this
      ensures Valid()
      ensures armed == old(armed) && callbacks == old(callbacks)
      ensures trace == if disconnectedDevice.Some? && hasOnDeviceDisconnected
                       then old(trace) + [Disconnected(disconnectedDevice.value)]
                       else old(trace)
    {
      if disconnectedDevice.Some? {
        HandleDeviceDisconnected(disconnectedDevice.value);
      }
    }

    /** Tells the disconnected observer, if there is one; the interval is left as it is. */
    method HandleDeviceDisconnected(disconnectedDevice: Ble.Device)
      requires Valid()
      modifies this
      ensures Valid()
      ensures armed == old(armed) && callbacks == old(callbacks)
      ensures trace == if hasOnDeviceDisconnected then old(trace) + [Disconnected(disconnectedDevice)]
                       else old(trace)
    {
      if hasOnDeviceDisconnected {
        trace := trace + [Disconnected(disconnectedDevice)];
      }
    }
  }

  /**
   * A client run: two callbacks, the first throws on the initial connect
   * and the second still runs; a second start is ignored and stop can be
   * repeated.
   */
  method StartStopScenario(d: Ble.Device)
  {
    var m := new BluetoothConnectionManager(d, 5000, true, false);
    m.AddOnReconnectCallback(1);
    m.AddOnReconnectCallback(2);
    assert m.callbacks == [1, 2];
    m.StartMonitoringConnection(Attempt(true, false, {0}));
    CallbackRunsInOrder([1, 2], {0});
    assert CallbackRuns([1, 2], {0}) == [Ran(1, true), Ran(2, false)];
    assert m.trace == [Attempted, Connected, Ran(1, true), Ran(2, false)];
    m.StartMonitoringConnection(Attempt(true, false, {}));
    assert m.trace == [Attempted, Connected, Ran(1, true), Ran(2, false)];
    m.StopMonitoringConnection();
    m.StopMonitoringConnection();
    assert !m.armed && |m.trace| == 4;
  }

  /**
   * A client run of the interval: a healthy or throwing check does
   * nothing, a disconnect notification reaches the observer without
   * disarming, and a tick that finds the device down attempts a connect.
   */
  method TickScenario(d: Ble.Device)
  {
    var m := new BluetoothConnectionManager(d, 5000, false, true);
    m.StartMonitoringConnection(Attempt(false, false, {}));
    assert m.armed && m.trace == [Attempted];
    m.Tick(Up, Attempt(true, false, {}));
    m.Tick(ProbeThrew, Attempt(true, false, {}));
    assert m.armed && m.trace == [Attempted];
    m.OnDisconnected(Some(d));
    m.OnDisconnected(None);
    assert m.armed && m.trace == [Attempted, Disconnected(d)];
    m.Tick(Down, Attempt(true, false, {}));
    assert m.trace == [Attempted, Disconnected(d), Attempted];
  }
}
