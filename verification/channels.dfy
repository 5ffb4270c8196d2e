/**
 * The characteristics of a Thingy:52 and what `Characteristic` does with them:
 * read and write through the board's transport, and the subscription table
 * that `subscribe` fills and `__notify` fans out over. The transport (a BLE
 * client) is reduced to a log of the calls made on it; a payload the board
 * returns is a parameter of the call that receives it.
 */
module Channels {
  import opened Wrappers
  import opened Py
  import opened Struct
  import Led
  import Sensors

  /** The characteristics with a decoder of integer fields, and the LED. */
  datatype Kind =
    | Temperature | Pressure | Humidity | AirQuality | Color | LedKind
    | Button | MotionConfig | Orientation | StepCounter | Raw | Euler | Heading

  /** The `name` class attribute: the event type a characteristic reports. */
  function Name(k: Kind): (r: string)
    ensures r != [] && forall j :: 0 <= j < |r| ==> r[j] == '_' || 'a' <= r[j] <= 'z'
  {
    match k
    case Temperature => "temperature"
    case Pressure => "pressure"
    case Humidity => "humidity"
    case AirQuality => "air_quality"
    case Color => "color"
    case LedKind => "led"
    case Button => "button"
    case MotionConfig => "motion_config"
    case Orientation => "orientation"
    case StepCounter => "step_counter"
    case Raw => "raw"
    case Euler => "euler"
    case Heading => "heading"
  }

  /** Events from different characteristics carry different `type` strings. */
  lemma NamesDistinct(k1: Kind, k2: Kind)
    requires k1 != k2
    ensures Name(k1) != Name(k2)
  {
    assert |Name(k1)| != |Name(k2)| || Name(k1)[0] != Name(k2)[0];
  }

  /** Every Thingy:52 characteristic UUID is `ef68xxxx-9b35-4933-9b10-52ffa9740042`. */
  const BaseSuffix: string := "-9b35-4933-9b10-52ffa9740042"

  /** The four hex digits that tell the characteristics' UUIDs apart. */
  function ShortId(k: Kind): (id: string)
    ensures |id| == 4
  {
    match k
    case Temperature => "0201"
    case Pressure => "0202"
    case Humidity => "0203"
    case AirQuality => "0204"
    case Color => "0205"
    case LedKind => "0301"
    case Button => "0302"
    case MotionConfig => "0401"
    case Orientation => "0403"
    case StepCounter => "0405"
    case Raw => "0406"
    case Euler => "0407"
    case Heading => "0409"
  }

  /** The `uuid` class attribute: the GATT characteristic the board exposes. */
  function Uuid(k: Kind): (u: string)
    ensures |u| == 36 && u[..4] == "ef68" && u[4..8] == ShortId(k) && u[8..] == BaseSuffix
  {
    "ef68" + ShortId(k) + BaseSuffix
  }

  /** No two characteristics share a UUID, so each read, write and subscription reaches its own. */
  lemma UuidsDistinct(k1: Kind, k2: Kind)
    requires k1 != k2
    ensures Uuid(k1) != Uuid(k2)
  {
    assert ShortId(k1) != ShortId(k2) by {
      assert ShortId(k1)[1] != ShortId(k2)[1] || ShortId(k1)[3] != ShortId(k2)[3];
    }
    assert Uuid(k1)[4..8] != Uuid(k2)[4..8];
  }

  /** The exact payload length each fixed-width decoder accepts. */
  function PayloadLength(k: Kind): nat
    requires k != LedKind
  {
    match k
    case Humidity | Button | Orientation => 1
    case Temperature => 2
    case AirQuality | Heading => 4
    case Pressure => 5
    case Color | StepCounter => 8
    case MotionConfig => 9
    case Euler => 12
    case Raw => 18
  }

  /** A decoded value, tagged by the characteristic it came from. */
  datatype Reading =
    | TemperatureReading(temperature: Sensors.Temperature)
    | PressureReading(pressure: Sensors.Pressure)
    | HumidityReading(humidity: int)
    | AirQualityReading(airQuality: Sensors.AirQuality)
    | ColorReading(color: Sensors.ColorReading)
    | LedReading(led: Option<Led.LedState>)
    | ButtonReading(pressed: bool)
    | MotionConfigReading(config: Sensors.MotionConfig)
    | OrientationReading(orientation: string)
    | StepCounterReading(steps: Sensors.StepCount)
    | RawReading(motion: Sensors.RawMotion)
    | EulerReading(angles: Sensors.EulerAngles)
    | HeadingReading(heading: int)

  /** `self.decode(data)`, dispatched on the characteristic's class. */
  function Decode(k: Kind, data: seq<byte>): (r: Result<Reading, Error>)
    ensures r.Err? ==> r.error == StructError || r.error == IndexError
  {
    match k
    case Temperature => var v :- Sensors.DecodeTemperature(data); Ok(TemperatureReading(v))
    case Pressure => var v :- Sensors.DecodePressure(data); Ok(PressureReading(v))
    case Humidity => var v :- Sensors.DecodeHumidity(data); Ok(HumidityReading(v))
    case AirQuality => var v :- Sensors.DecodeAirQuality(data); Ok(AirQualityReading(v))
    case Color => var v :- Sensors.DecodeColor(data); Ok(ColorReading(v))
    case LedKind => var v :- Led.Decode(data); Ok(LedReading(v))
    case Button => var v :- Sensors.DecodeButton(data); Ok(ButtonReading(v))
    case MotionConfig => var v :- Sensors.DecodeMotionConfig(data); Ok(MotionConfigReading(v))
    case Orientation => var v :- Sensors.DecodeOrientation(data); Ok(OrientationReading(v))
    case StepCounter => var v :- Sensors.DecodeStepCounter(data); Ok(StepCounterReading(v))
    case Raw => var v :- Sensors.DecodeRaw(data); Ok(RawReading(v))
    case Euler => var v :- Sensors.DecodeEuler(data); Ok(EulerReading(v))
    case Heading => var v :- Sensors.DecodeHeading(data); Ok(HeadingReading(v))
  }

  /** Which payloads each characteristic accepts, and the error it raises for the rest. */
  lemma DecodeAccepts(k: Kind, data: seq<byte>)
    ensures k != LedKind && k != Orientation ==> (Decode(k, data).Ok? <==> |data| == PayloadLength(k))
    ensures k == Orientation ==> (Decode(k, data).Ok? <==> |data| == 1 && data[0] < 4)
    ensures k == LedKind ==> (Decode(k, data).Ok? <==> Led.Decode(data).Ok?)
    ensures k != LedKind && |data| != PayloadLength(k) ==> Decode(k, data) == Err(StructError)
  {
    match k
    case Temperature =>
    case Pressure =>
    case Humidity =>
    case AirQuality =>
    case Color =>
    case LedKind =>
    case Button =>
    case MotionConfig =>
    case Orientation =>
    case StepCounter =>
    case Raw =>
    case Euler =>
    case Heading =>
  }

  /**
   * `self.encode(value)`: of the modelled characteristics only the LED defines
   * one, and for the others the lookup raises AttributeError (`Name.encode` is
   * not part of this model).
   */
  function Encode(k: Kind, x: Led.LedDict): (r: Result<seq<byte>, Error>)
    ensures k != LedKind ==> r == Err(AttributeError)
    ensures k == LedKind ==> r == Led.Encode(x)
  {
    if k == LedKind then Led.Encode(x) else Err(AttributeError)
  }

  // The transport.

  /** A call made on the board's BLE client. */
  datatype Call =
    | Connect
    | Disconnect
    | ReadChar(uuid: string)
    | WriteChar(uuid: string, data: seq<byte>, response: bool)
    | StartNotify(uuid: string)

  /** `Thingy52`: the board, reduced to the calls made on its client. */
  class Thingy52 {
    var log: seq<Call>

    constructor()
      ensures log == []
    {
      log := [];
    }

    method Connect()
      modifies this
      ensures log == old(log) + [Call.Connect]
    {
      log := log + [Call.Connect];
    }

    method Disconnect()
      modifies this
      ensures log == old(log) + [Call.Disconnect]
    {
      log := log + [Call.Disconnect];
    }

    /** `read(uuid)`: the bytes the board answers with are the parameter `reply`. */
    method Read(uuid: string, reply: seq<byte>) returns (data: seq<byte>)
      modifies this
      ensures data == reply
      ensures log == old(log) + [ReadChar(uuid)]
    {
      log := log + [ReadChar(uuid)];
      data := reply;
    }

    method Write(uuid: string, data: seq<byte>, response: bool)
      modifies this
      ensures log == old(log) + [WriteChar(uuid, data, response)]
    {
      log := log + [WriteChar(uuid, data, response)];
    }

    method StartNotify(uuid: string)
      modifies this
      ensures log == old(log) + [Call.StartNotify(uuid)]
    {
      log := log + [Call.StartNotify(uuid)];
    }
  }

  // The subscription table.

  /** The extra positional and keyword arguments a callback was subscribed with. */
  datatype Bound = Bound(args: seq<Value>, kwargs: map<string, Value>)

  /** One entry of the insertion-ordered subscriber dict: a callback (by identity) and its arguments. */
  datatype Entry = Entry(callback: nat, bound: Bound)

  /** Each callback appears at most once, as a dict key does. */
  predicate NoDup(subs: seq<Entry>)
  {
    forall i, j :: 0 <= i < j < |subs| ==> subs[i].callback != subs[j].callback
  }

  predicate Subscribed(subs: seq<Entry>, cb: nat)
  {
    exists i :: 0 <= i < |subs| && subs[i].callback == cb
  }

  /** Where the callback sits in the table, if it is there. */
  function Position(subs: seq<Entry>, cb: nat): (r: Option<nat>)
    ensures r.Some? ==> r.value < |subs| && subs[r.value].callback == cb
    ensures r.None? <==> !Subscribed(subs, cb)
  {
    if subs == [] then None
    else if subs[0].callback == cb then Some(0)
    else
      var rest := Position(subs[1..], cb);
      assert Subscribed(subs, cb) ==> Subscribed(subs[1..], cb) by {
        if Subscribed(subs, cb) {
          var i :| 0 <= i < |subs| && subs[i].callback == cb;
          assert subs[1..][i - 1].callback == cb;
        }
      }
      if rest.Some? then Some(rest.value + 1) else None
  }

  /**
   * `subscribers[cb] = bound`: an existing key keeps its position and takes the
   * new value; a new key goes at the end.
   */
  function Upsert(subs: seq<Entry>, cb: nat, bound: Bound): (r: seq<Entry>)
    requires NoDup(subs)
    ensures NoDup(r)
    ensures Subscribed(subs, cb) ==> |r| == |subs|
    ensures !Subscribed(subs, cb) ==> r == subs + [Entry(cb, bound)]
    ensures forall i :: 0 <= i < |subs| && subs[i].callback == cb ==> r[i] == Entry(cb, bound)
    ensures forall i :: 0 <= i < |subs| && subs[i].callback != cb ==> r[i] == subs[i]
  {
    match Position(subs, cb)
    case Some(k) => subs[k := Entry(cb, bound)]
    case None => subs + [Entry(cb, bound)]
  }

  /** After subscribing, the callback is present exactly once, with the new arguments. */
  lemma UpsertOnce(subs: seq<Entry>, cb: nat, bound: Bound)
    requires NoDup(subs)
    ensures exists i :: 0 <= i < |Upsert(subs, cb, bound)| && Upsert(subs, cb, bound)[i] == Entry(cb, bound)
    ensures forall i :: 0 <= i < |Upsert(subs, cb, bound)| && Upsert(subs, cb, bound)[i].callback == cb ==>
      Upsert(subs, cb, bound)[i].bound == bound
  {
    var r := Upsert(subs, cb, bound);
    if Subscribed(subs, cb) {
      var k :| 0 <= k < |subs| && subs[k].callback == cb;
      assert r[k] == Entry(cb, bound);
    } else {
      assert r[|subs|] == Entry(cb, bound);
    }
  }

  /** The number of `start_notify` calls one `subscribe` makes: one exactly when the table was empty. */
  function Starts(subs: seq<Entry>): nat
  {
    if |subs| == 0 then 1 else 0
  }

  /** `n` calls of `start_notify` on the characteristic's UUID. */
  function StartCalls(k: Kind, n: nat): (r: seq<Call>)
    ensures |r| == n && forall j :: 0 <= j < n ==> r[j] == Call.StartNotify(Uuid(k))
  {
    if n == 0 then [] else StartCalls(k, n - 1) + [Call.StartNotify(Uuid(k))]
  }

  /**
   * The table and the number of `start_notify` calls after a series of
   * `subscribe` calls, one step per call as `Characteristic.Subscribe` ensures;
   * `Characteristic.SubscribeEach` runs the method itself and is proved to follow it.
   */
  function SubscribeAll(subs: seq<Entry>, calls: seq<Entry>): (r: (seq<Entry>, nat))
    requires NoDup(subs)
    ensures NoDup(r.0) && |subs| <= |r.0| <= |subs| + |calls|
    decreases |calls|
  {
    if calls == [] then (subs, 0)
    else
      var next := SubscribeAll(Upsert(subs, calls[0].callback, calls[0].bound), calls[1..]);
      (next.0, Starts(subs) + next.1)
  }

  /** One more `subscribe` at position i of the series: the first step of `SubscribeAll` over the rest. */
  lemma SubscribeAllStep(subs: seq<Entry>, calls: seq<Entry>, i: nat)
    requires NoDup(subs) && i < |calls|
    ensures var rest := SubscribeAll(Upsert(subs, calls[i].callback, calls[i].bound), calls[i + 1..]);
      SubscribeAll(subs, calls[i..]) == (rest.0, Starts(subs) + rest.1)
  {
    assert calls[i..][1..] == calls[i + 1..];
  }

  /** Once a callback is registered, no later `subscribe` starts notification again. */
  lemma {:induction false} NoRestart(subs: seq<Entry>, calls: seq<Entry>)
    requires NoDup(subs) && |subs| > 0
    ensures SubscribeAll(subs, calls).1 == 0
    decreases |calls|
  {
    if calls != [] {
      NoRestart(Upsert(subs, calls[0].callback, calls[0].bound), calls[1..]);
    }
  }

  /** From a fresh characteristic, any nonempty series of `subscribe` calls starts notification exactly once. */
  lemma StartsOnce(calls: seq<Entry>)
    requires |calls| > 0
    ensures SubscribeAll([], calls).1 == 1
  {
    NoRestart(Upsert([], calls[0].callback, calls[0].bound), calls[1..]);
  }

  // Notification fan-out.

  /** The event `__notify` builds: `{'type': self.name, 'data': value}`. */
  datatype Event = Event(kind: string, data: Reading)

  /** One awaited callback: which callback, the event it got and its bound arguments. */
  datatype Delivery = Delivery(callback: nat, event: Event, bound: Bound)

  /** Whether the table holds a callback that raises. */
  predicate AnyFaulty(subs: seq<Entry>, faulty: set<nat>)
  {
    exists i :: 0 <= i < |subs| && subs[i].callback in faulty
  }

  /**
   * The callbacks `__notify` awaits, in dict order, each with the same event
   * and its own arguments; a callback that raises is awaited and ends the loop.
   */
  function FanOut(subs: seq<Entry>, ev: Event, faulty: set<nat>): (r: seq<Delivery>)
    ensures |r| <= |subs| && (r == [] <==> subs == [])
  {
    if subs == [] then []
    else
      var d := Delivery(subs[0].callback, ev, subs[0].bound);
      if subs[0].callback in faulty then [d] else [d] + FanOut(subs[1..], ev, faulty)
  }

  /** The first callback that raises, if any: its error is what `__notify` raises. */
  function FirstFault(subs: seq<Entry>, faulty: set<nat>): (r: Option<nat>)
    ensures r.Some? ==> r.value in faulty
  {
    if subs == [] then None
    else if subs[0].callback in faulty then Some(subs[0].callback)
    else FirstFault(subs[1..], faulty)
  }

  lemma AnyFaultyTail(subs: seq<Entry>, faulty: set<nat>)
    requires subs != [] && subs[0].callback !in faulty
    ensures AnyFaulty(subs, faulty) <==> AnyFaulty(subs[1..], faulty)
  {
    if AnyFaulty(subs, faulty) {
      var i :| 0 <= i < |subs| && subs[i].callback in faulty;
      assert subs[1..][i - 1].callback in faulty;
    }
    if AnyFaulty(subs[1..], faulty) {
      var i :| 0 <= i < |subs[1..]| && subs[1..][i].callback in faulty;
      assert subs[i + 1].callback in faulty;
    }
  }

  /**
   * The fan-out visits the table in order, giving each callback the one event
   * and its own arguments; it reaches every callback unless one raises, and
   * it stops right after the first that does.
   */
  lemma {:induction false} FanOutOrder(subs: seq<Entry>, ev: Event, faulty: set<nat>)
    ensures |FanOut(subs, ev, faulty)| <= |subs|
    ensures forall i :: 0 <= i < |FanOut(subs, ev, faulty)| ==>
      FanOut(subs, ev, faulty)[i] == Delivery(subs[i].callback, ev, subs[i].bound)
    ensures !AnyFaulty(subs, faulty) ==> |FanOut(subs, ev, faulty)| == |subs|
    ensures forall i :: 0 <= i < |FanOut(subs, ev, faulty)| - 1 ==> subs[i].callback !in faulty
    ensures |FanOut(subs, ev, faulty)| < |subs| ==>
      |FanOut(subs, ev, faulty)| > 0 && subs[|FanOut(subs, ev, faulty)| - 1].callback in faulty
  {
    if subs != [] && subs[0].callback !in faulty {
      FanOutOrder(subs[1..], ev, faulty);
      AnyFaultyTail(subs, faulty);
    }
  }

  /** `__notify` raises exactly when some subscriber raises, and the error is a raising callback's. */
  lemma {:induction false} FirstFaultRaises(subs: seq<Entry>, faulty: set<nat>)
    ensures FirstFault(subs, faulty).Some? <==> AnyFaulty(subs, faulty)
    ensures FirstFault(subs, faulty).Some? ==> FirstFault(subs, faulty).value in faulty
  {
    if subs != [] && subs[0].callback !in faulty {
      FirstFaultRaises(subs[1..], faulty);
      AnyFaultyTail(subs, faulty);
    }
  }

  /** One step of the fan-out: the head is awaited, and the rest follow unless it raised. */
  lemma FanOutStep(subs: seq<Entry>, ev: Event, faulty: set<nat>)
    requires subs != []
    ensures FanOut(subs, ev, faulty) == [Delivery(subs[0].callback, ev, subs[0].bound)] +
      (if subs[0].callback in faulty then [] else FanOut(subs[1..], ev, faulty))
    ensures FirstFault(subs, faulty) ==
      (if subs[0].callback in faulty then Some(subs[0].callback) else FirstFault(subs[1..], faulty))
  {
  }

  /** The k-th callback, the first that raises, is the last one awaited, and its error is the one raised. */
  lemma {:induction false} FanOutStops(subs: seq<Entry>, ev: Event, faulty: set<nat>, k: nat)
    requires k < |subs| && subs[k].callback in faulty
    requires forall i :: 0 <= i < k ==> subs[i].callback !in faulty
    ensures |FanOut(subs, ev, faulty)| == k + 1
    ensures FirstFault(subs, faulty) == Some(subs[k].callback)
  {
    if k > 0 {
      var tail := subs[1..];
      assert tail[k - 1] == subs[k];
      assert forall i :: 0 <= i < k - 1 ==> tail[i] == subs[i + 1];
      FanOutStops(tail, ev, faulty, k - 1);
    }
  }

  /** `Characteristic`: one characteristic of a board and its subscriber table. */
  class Characteristic {
    const kind: Kind
    const thingy: Thingy52
    var subscribers: seq<Entry>

    ghost predicate Valid()
      reads this
    {
      NoDup(subscribers)
    }

    constructor(kind: Kind, thingy: Thingy52)
      ensures this.kind == kind && this.thingy == thingy
      ensures subscribers == [] && Valid()
    {
      this.kind := kind;
      this.thingy := thingy;
      subscribers := [];
    }

    /** `read()`: one read of the characteristic, decoded. */
    method Read(reply: seq<byte>) returns (r: Result<Reading, Error>)
      modifies thingy
      ensures thingy.log == old(thingy.log) + [ReadChar(Uuid(kind))]
      ensures r == Decode(kind, reply)
    {
      var data := thingy.Read(Uuid(kind), reply);
      r := Decode(kind, data);
    }

    /** `write(value)`: encode, then one write with response; nothing is sent when encoding raises. */
    method Write(x: Led.LedDict) returns (r: Result<(), Error>)
      modifies thingy
      ensures r.Err? <==> Encode(kind, x).Err?
      ensures r.Err? ==> r.error == Encode(kind, x).error && thingy.log == old(thingy.log)
      ensures r.Ok? ==> thingy.log == old(thingy.log) + [WriteChar(Uuid(kind), Encode(kind, x).value, true)]
    {
      var encoded := Encode(kind, x);
      if encoded.Err? {
        return Err(encoded.error);
      }
      thingy.Write(Uuid(kind), encoded.value, true);
      r := Ok(());
    }

    /** `subscribe(callback, *args, **kwargs)`. */
    method Subscribe(cb: nat, bound: Bound)
      requires Valid()
      modifies this, thingy
      ensures Valid()
      ensures subscribers == Upsert(old(subscribers), cb, bound)
      ensures old(subscribers) == [] ==> thingy.log == old(thingy.log) + [Call.StartNotify(Uuid(kind))]
      ensures old(subscribers) != [] ==> thingy.log == old(thingy.log)
    {
      if |subscribers| == 0 {
        thingy.StartNotify(Uuid(kind));
      }
      UpsertOnce(subscribers, cb, bound);
      subscribers := Upsert(subscribers, cb, bound);
    }

    /**
     * A series of `subscribe` calls made one after another: the table and the
     * `start_notify` calls logged are those `SubscribeAll` gives.
     */
    method SubscribeEach(calls: seq<Entry>)
      requires Valid()
      modifies this, thingy
      ensures Valid()
      ensures subscribers == SubscribeAll(old(subscribers), calls).0
      ensures thingy.log == old(thingy.log) + StartCalls(kind, SubscribeAll(old(subscribers), calls).1)
    {
      ghost var total := SubscribeAll(subscribers, calls);
      ghost var log0 := thingy.log;
      var i := 0;
      ghost var started := 0;
      while i < |calls|
        invariant 0 <= i <= |calls| && Valid()
        invariant SubscribeAll(subscribers, calls[i..]).0 == total.0
        invariant started + SubscribeAll(subscribers, calls[i..]).1 == total.1
        invariant thingy.log == log0 + StartCalls(kind, started)
      {
        SubscribeAllStep(subscribers, calls, i);
        ghost var wasEmpty := subscribers == [];
        Subscribe(calls[i].callback, calls[i].bound);
        if wasEmpty {
          assert thingy.log == log0 + StartCalls(kind, started + 1);
          started := started + 1;
        }
        i := i + 1;
      }
      assert calls[i..] == [];
    }

    /**
     * The loop of `__notify`: await each subscriber in order with the same
     * event. The first callback in `faulty` raises, and the loop ends with its error.
     */
    method FanOutTo(ev: Event, faulty: set<nat>) returns (delivered: seq<Delivery>, r: Result<(), Error>)
      ensures delivered == FanOut(subscribers, ev, faulty)
      ensures r == match FirstFault(subscribers, faulty) case Some(cb) => Err(CallbackError(cb)) case None => Ok(())
    {
      var subs := subscribers;
      delivered := [];
      var i := 0;
      while i < |subs|
        invariant 0 <= i <= |subs|
        invariant FanOut(subs, ev, faulty) == delivered + FanOut(subs[i..], ev, faulty)
        invariant FirstFault(subs, faulty) == FirstFault(subs[i..], faulty)
      {
        var entry := subs[i];
        FanOutStep(subs[i..], ev, faulty);
        assert subs[i..][0] == entry && subs[i..][1..] == subs[i + 1..];
        var d := Delivery(entry.callback, ev, entry.bound);
        if entry.callback in faulty {
          assert FanOut(subs[i..], ev, faulty) == [d] + [];
          return delivered + [d], Err(CallbackError(entry.callback));
        }
        assert delivered + FanOut(subs[i..], ev, faulty) == (delivered + [d]) + FanOut(subs[i + 1..], ev, faulty);
        delivered := delivered + [d];
        i := i + 1;
      }
      assert subs[i..] == [];
      r := Ok(());
    }

    /**
     * `__notify(char, data)`: decode once, then fan the one event out. A decode
     * error is raised before any callback runs.
     */
    method Notify(data: seq<byte>, faulty: set<nat>) returns (delivered: seq<Delivery>, r: Result<(), Error>)
      ensures Decode(kind, data).Err? ==> delivered == [] && r == Err(Decode(kind, data).error)
      ensures Decode(kind, data).Ok? ==>
        delivered == FanOut(subscribers, Event(Name(kind), Decode(kind, data).value), faulty)
      ensures Decode(kind, data).Ok? ==>
        r == match FirstFault(subscribers, faulty) case Some(cb) => Err(CallbackError(cb)) case None => Ok(())
    {
      var value := Decode(kind, data);
      if value.Err? {
        return [], Err(value.error);
      }
      delivered, r := FanOutTo(Event(Name(kind), value.value), faulty);
    }
  }
}
