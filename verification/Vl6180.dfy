/** Address assignment of the VL6180 range sensors. All of them power up at the same I2C
    address; each driver raises its sensor's shutdown line and moves the sensor away. */
module Vl6180 {
  import opened CTypes

  const DEFAULT_ADDRESS: Byte := 0x29

  /** A sensor on the bus. Power-up resets its address. */
  datatype Device = Device(powered: bool, address: Byte)

  type Bus = seq<Device>

  /** The driver's cached address and its target. */
  datatype Driver = Driver(address: Byte, target: Byte)

  predicate Answers(d: Device, address: Byte) {
    d.powered && d.address == address
  }

  /** Writing the shutdown line of device i. */
  function SetLine(bus: Bus, i: nat, level: bool): Bus
    requires i < |bus|
  {
    if level && bus[i].powered then bus else bus[i := Device(level, DEFAULT_ADDRESS)]
  }

  /** A write to register 0x0212 reaches every device that answers at the address. */
  function WriteAddress(bus: Bus, at: Byte, to: Byte): Bus {
    seq(|bus|, i requires 0 <= i < |bus| => if Answers(bus[i], at) then bus[i].(address := to) else bus[i])
  }

  predicate SomeoneAnswers(bus: Bus, at: Byte) {
    exists i :: 0 <= i < |bus| && Answers(bus[i], at)
  }

  /** Reading register 0x0212 back: whoever answers returns its own address. When nobody
      does, the receive byte keeps whatever it held before. */
  function ReadAddress(bus: Bus, at: Byte, noise: Byte): Byte {
    if SomeoneAnswers(bus, at) then at else noise
  }

  datatype Outcome = Outcome(bus: Bus, driver: Driver, result: int32)

  /** vl6180_change_addr to the driver's target. */
  function ChangeAddress(bus: Bus, driver: Driver, noise: Byte): Outcome {
    if driver.address == driver.target then Outcome(bus, driver, 0)
    else
      var moved := WriteAddress(bus, driver.address, driver.target);
      if ReadAddress(moved, driver.target, noise) != driver.target then Outcome(moved, driver, -2)
      else Outcome(moved, driver.(address := driver.target), 0)
  }

  /** vl6180_enable, as far as it concerns addresses. */
  function Enable(bus: Bus, i: nat, driver: Driver, noise: Byte): Outcome
    requires i < |bus|
  {
    var out := ChangeAddress(SetLine(bus, i, true), driver, noise);
    out.(result := if out.result < 0 then -1 else 0)
  }

  /** vl6180_init: line low, cached address reset, next target from the table. */
  function InitDriver(target: Byte): Driver {
    Driver(DEFAULT_ADDRESS, target)
  }

  // ---- The objects ----

  class I2cBus {
    var devices: Bus

    constructor (devices: Bus)
      ensures this.devices == devices
    {
      this.devices := devices;
    }

    method Line(i: nat, level: bool)
      requires i < |devices|
      modifies this
      ensures devices == SetLine(old(devices), i, level)
    {
      if !(level && devices[i].powered) {
        devices := devices[i := Device(level, DEFAULT_ADDRESS)];
      }
    }

    method WriteRegister(at: Byte, to: Byte)
      modifies this
      ensures devices == WriteAddress(old(devices), at, to)
    {
      devices := WriteAddress(devices, at, to);
    }

    method ReadRegister(at: Byte, noise: Byte) returns (value: Byte)
      ensures value == ReadAddress(devices, at, noise)
    {
      value := ReadAddress(devices, at, noise);
    }
  }

  /** The static device_cnt of the driver file, and its table of addresses. */
  class Registry {
    var deviceCount: nat
    const addresses: seq<Byte>

    constructor (addresses: seq<Byte>)
      ensures this.addresses == addresses && deviceCount == 0
    {
      this.addresses, this.deviceCount := addresses, 0;
    }
  }

  class Sensor {
    const bus: I2cBus
    const line: nat
    var address: Byte
    var target: Byte

    function View(): Driver
      reads this
    {
      Driver(address, target)
    }

    constructor (bus: I2cBus, line: nat)
      ensures this.bus == bus && this.line == line && View() == Driver(0, 0)
    {
      this.bus, this.line, this.address, this.target := bus, line, 0, 0;
    }

    method ChangeAddr(noise: Byte) returns (result: int32)
      modifies this`address, bus
      ensures Outcome(bus.devices, View(), result) == ChangeAddress(old(bus.devices), old(View()), noise)
    {
      if address == target {
        return 0;
      }
      bus.WriteRegister(address, target);
      var received := bus.ReadRegister(target, noise);
      if received != target {
        return -2;
      }
      address := target;
      return 0;
    }

    method EnableSensor(noise: Byte) returns (result: int32)
      requires line < |bus.devices|
      modifies this`address, bus
      ensures Outcome(bus.devices, View(), result) == Enable(old(bus.devices), line, old(View()), noise)
    {
      bus.Line(line, true);
      result := ChangeAddr(noise);
      if result < 0 {
        result := -1;
      }
    }

    method DisableSensor()
      requires line < |bus.devices|
      modifies bus
      ensures bus.devices == SetLine(old(bus.devices), line, false)
      ensures View() == old(View())
    {
      bus.Line(line, false);
    }

    /** The table must have an entry for the device; a failed enable is only logged. */
    method InitSensor(registry: Registry, noise: Byte) returns (result: int32)
      requires line < |bus.devices| && registry.deviceCount + 1 < |registry.addresses|
      modifies this, bus, registry
      ensures registry.deviceCount == old(registry.deviceCount) + 1
      ensures result == 0
      ensures var out := Enable(SetLine(old(bus.devices), line, false), line,
                                InitDriver(registry.addresses[registry.deviceCount]), noise);
        bus.devices == out.bus && View() == out.driver
      ensures forall drivers: map<nat, Driver> ::
        World(bus.devices, drivers[line := View()])
        == BringUp(World(old(bus.devices), drivers), line, registry.addresses[registry.deviceCount], noise)
    {
      bus.Line(line, false);
      address := DEFAULT_ADDRESS;
      registry.deviceCount := registry.deviceCount + 1;
      target := registry.addresses[registry.deviceCount];
      var enabled := EnableSensor(noise);
      return 0;
    }
  }

  // ---- Bringing sensors up one after the other ----

  /** The bus, the drivers of the sensors brought up so far, and their number. */
  datatype World = World(bus: Bus, drivers: map<nat, Driver>)

  /** vl6180_init of the sensor on line i with the next target. */
  function BringUp(w: World, i: nat, target: Byte, noise: Byte): World
    requires i < |w.bus|
  {
    var out := Enable(SetLine(w.bus, i, false), i, InitDriver(target), noise);
    World(out.bus, w.drivers[i := out.driver])
  }

  /** The k-th bring-up takes line order[k], gets targets[k], and may read noise[k]. */
  function BringUpAll(w: World, order: seq<nat>, targets: seq<Byte>, noise: seq<Byte>): World
    requires |order| == |targets| == |noise|
    requires forall k :: 0 <= k < |order| ==> order[k] < |w.bus|
    ensures |BringUpAll(w, order, targets, noise).bus| == |w.bus|
  {
    if order == [] then w
    else
      var n := |order| - 1;
      var before := BringUpAll(w, order[..n], targets[..n], noise[..n]);
      BringUp(before, order[n], targets[n], noise[n])
  }

  predicate AllOff(bus: Bus) {
    forall i :: 0 <= i < |bus| ==> !bus[i].powered
  }

  predicate Distinct<T(==)>(s: seq<T>) {
    forall i, j :: 0 <= i < j < |s| ==> s[i] != s[j]
  }

  /** Exactly the drivers' sensors are on, each where its driver believes it to be, away
      from the default address and from each other. */
  ghost predicate Settled(w: World) {
    && (forall i :: 0 <= i < |w.bus| ==> (w.bus[i].powered <==> i in w.drivers))
    && (forall i :: i in w.drivers ==>
         && i < |w.bus|
         && w.bus[i].address == w.drivers[i].address == w.drivers[i].target != DEFAULT_ADDRESS)
    && (forall i, j :: i in w.drivers && j in w.drivers && i != j ==> w.drivers[i].address != w.drivers[j].address)
  }

  ghost predicate AtMostOneDefault(bus: Bus) {
    forall i, j | 0 <= i < |bus| && 0 <= j < |bus| ::
      Answers(bus[i], 0x29) && Answers(bus[j], 0x29) ==> i == j
  }

  /** One bring-up on a settled bus succeeds whatever the noise, keeps it settled, and at
      each of its steps at most one sensor answers at the default address. */
  lemma BringUpSettles(w: World, i: nat, target: Byte, noise: Byte)
    requires Settled(w) && i < |w.bus| && i !in w.drivers
    requires target != DEFAULT_ADDRESS
    requires forall j :: j in w.drivers ==> w.drivers[j].target != target
    ensures Settled(BringUp(w, i, target, noise))
    ensures BringUp(w, i, target, noise).drivers == w.drivers[i := Driver(target, target)]
    ensures AtMostOneDefault(SetLine(w.bus, i, false))
    ensures AtMostOneDefault(SetLine(SetLine(w.bus, i, false), i, true))
    ensures SetLine(SetLine(w.bus, i, false), i, true)[i] == Device(true, 0x29)
    ensures AtMostOneDefault(BringUp(w, i, target, noise).bus)
  {
    var up := SetLine(SetLine(w.bus, i, false), i, true);
    assert up == w.bus[i := Device(true, DEFAULT_ADDRESS)];
    var moved := WriteAddress(up, DEFAULT_ADDRESS, target);
    assert moved == w.bus[i := Device(true, target)];
    assert Answers(moved[i], target);
  }

  /** The drivers of lines order, each settled at its target. */
  function DriversOf(order: seq<nat>, targets: seq<Byte>): map<nat, Driver>
    requires |order| == |targets|
  {
    if order == [] then map[]
    else
      var n := |order| - 1;
      DriversOf(order[..n], targets[..n])[order[n] := Driver(targets[n], targets[n])]
  }

  lemma {:induction false} DriversOfEach(order: seq<nat>, targets: seq<Byte>)
    requires |order| == |targets| && Distinct(order)
    ensures forall k :: 0 <= k < |order| ==>
      order[k] in DriversOf(order, targets) && DriversOf(order, targets)[order[k]] == Driver(targets[k], targets[k])
    ensures forall i :: i in DriversOf(order, targets) ==> exists k :: 0 <= k < |order| && order[k] == i
  {
    if order != [] {
      var n := |order| - 1;
      DriversOfEach(order[..n], targets[..n]);
      var before := DriversOf(order[..n], targets[..n]);
      forall k | 0 <= k < n ensures order[k] in before && before[order[k]] == Driver(targets[k], targets[k]) {
        assert order[..n][k] == order[k] && targets[..n][k] == targets[k];
      }
      forall i | i in before ensures exists k :: 0 <= k < |order| && order[k] == i {
        var k :| 0 <= k < n && order[..n][k] == i;
        assert order[k] == i;
      }
    }
  }

  lemma {:induction false} BringUpAllSettles(bus: Bus, order: seq<nat>, targets: seq<Byte>, noise: seq<Byte>)
    requires |order| == |targets| == |noise|
    requires AllOff(bus) && Distinct(order) && Distinct(targets)
    requires forall k :: 0 <= k < |order| ==> order[k] < |bus| && targets[k] != DEFAULT_ADDRESS
    ensures var w := BringUpAll(World(bus, map[]), order, targets, noise);
      Settled(w) && w.drivers == DriversOf(order, targets)
  {
    if order != [] {
      var n := |order| - 1;
      BringUpAllSettles(bus, order[..n], targets[..n], noise[..n]);
      var before := BringUpAll(World(bus, map[]), order[..n], targets[..n], noise[..n]);
      DriversOfEach(order[..n], targets[..n]);
      forall j | j in before.drivers ensures j != order[n] && before.drivers[j].target != targets[n] {
        var k :| 0 <= k < n && order[..n][k] == j;
        assert order[k] == j && targets[..n][k] == targets[k];
      }
      BringUpSettles(before, order[n], targets[n], noise[n]);
    }
  }

  /** Any number of sensors with distinct targets, brought up in any order from a bus with
      all lines low: every one ends at its own target, its driver knows it, and whoever has
      not been brought up stays off. */
  lemma AllSensorsAddressed(bus: Bus, order: seq<nat>, targets: seq<Byte>, noise: seq<Byte>)
    requires |order| == |targets| == |noise|
    requires AllOff(bus) && Distinct(order) && Distinct(targets)
    requires forall k :: 0 <= k < |order| ==> order[k] < |bus| && targets[k] != DEFAULT_ADDRESS
    ensures var w := BringUpAll(World(bus, map[]), order, targets, noise);
      && (forall k :: 0 <= k < |order| ==>
           && w.bus[order[k]] == Device(true, targets[k])
           && order[k] in w.drivers && w.drivers[order[k]].address == targets[k])
      && (forall i :: 0 <= i < |bus| && i !in order ==> !w.bus[i].powered)
  {
    BringUpAllSettles(bus, order, targets, noise);
    DriversOfEach(order, targets);
    var w := BringUpAll(World(bus, map[]), order, targets, noise);
    assert forall k :: 0 <= k < |order| ==> order[k] in w.drivers && w.bus[order[k]].powered;
  }

  /** At every step of that, before, within and after the k-th bring-up for every k, at most
      one powered sensor answers at the default address. */
  lemma OneAtDefaultThroughout(bus: Bus, order: seq<nat>, targets: seq<Byte>, noise: seq<Byte>, k: nat)
    requires |order| == |targets| == |noise|
    requires AllOff(bus) && Distinct(order) && Distinct(targets)
    requires forall k :: 0 <= k < |order| ==> order[k] < |bus| && targets[k] != DEFAULT_ADDRESS
    requires k < |order|
    ensures var w := BringUpAll(World(bus, map[]), order[..k], targets[..k], noise[..k]);
      && AtMostOneDefault(w.bus)
      && AtMostOneDefault(SetLine(w.bus, order[k], false))
      && AtMostOneDefault(SetLine(SetLine(w.bus, order[k], false), order[k], true))
      && SetLine(SetLine(w.bus, order[k], false), order[k], true)[order[k]] == Device(true, 0x29)
      && AtMostOneDefault(BringUp(w, order[k], targets[k], noise[k]).bus)
  {
    BringUpAllSettles(bus, order[..k], targets[..k], noise[..k]);
    var w := BringUpAll(World(bus, map[]), order[..k], targets[..k], noise[..k]);
    DriversOfEach(order[..k], targets[..k]);
    forall j | j in w.drivers ensures j != order[k] && w.drivers[j].target != targets[k] {
      var n :| 0 <= n < k && order[..k][n] == j;
      assert order[n] == j && targets[..k][n] == targets[n];
    }
    BringUpSettles(w, order[k], targets[k], noise[k]);
  }

  const ADDRESSES: seq<Byte> := [0x29, 0x59, 0x5a]

  /** The two sensors of the stroller and the address table of the driver. */
  lemma StrollerSensors(bus: Bus, noise: seq<Byte>)
    requires |bus| == 2 && AllOff(bus) && |noise| == 2
    ensures BringUpAll(World(bus, map[]), [0, 1], ADDRESSES[1..], noise).bus
         == [Device(true, 0x59), Device(true, 0x5a)]
  {
    hide BringUpAll;
    var order, targets := [0, 1], ADDRESSES[1..];
    AllSensorsAddressed(bus, order, targets, noise);
    var w := BringUpAll(World(bus, map[]), order, targets, noise);
    assert w.bus[order[0]] == Device(true, targets[0]) && w.bus[order[1]] == Device(true, targets[1]);
  }

  // ---- What the protocol needs ----

  /** A move away from the default address tells the moved sensor from another one
      exactly when the other neither answered there too nor already sat at the target. */
  lemma MoveSeparates(bus: Bus, i: nat, j: nat, target: Byte)
    requires i < |bus| && j < |bus| && i != j && target != DEFAULT_ADDRESS
    requires Answers(bus[i], DEFAULT_ADDRESS)
    ensures var moved := WriteAddress(bus, DEFAULT_ADDRESS, target);
      Answers(moved[j], moved[i].address) <==> Answers(bus[j], DEFAULT_ADDRESS) || Answers(bus[j], target)
  {
  }

  /** The read-back proves nothing when no sensor answers: with nobody at either address,
      the change is reported done exactly when the stale receive byte equals the target. */
  lemma AbsentSensorReported(bus: Bus, driver: Driver, noise: Byte)
    requires driver.address != driver.target
    requires !SomeoneAnswers(bus, driver.address) && !SomeoneAnswers(bus, driver.target)
    ensures ChangeAddress(bus, driver, noise).bus == bus
    ensures ChangeAddress(bus, driver, noise).result == if noise == driver.target then 0 else -2
    ensures ChangeAddress(bus, driver, noise).driver
         == if noise == driver.target then driver.(address := driver.target) else driver
    ensures forall i :: 0 <= i < |bus| && bus[i].powered ==>
      Enable(bus, i, driver, noise).result == if noise == driver.target then 0 else -1
  {
    assert WriteAddress(bus, driver.address, driver.target) == bus;
  }

  /** Disabling and enabling a sensor that was brought up reports success but leaves it at
      the default address, which the driver does not know: the cached address is right
      after an enable exactly when the sensor had not been switched off. */
  lemma EnableAfterDisable(w: World, i: nat, disabled: bool, noise: Byte)
    requires Settled(w) && i in w.drivers
    ensures var bus := if disabled then SetLine(w.bus, i, false) else w.bus;
      var out := Enable(bus, i, w.drivers[i], noise);
      && out.result == 0
      && out.driver == w.drivers[i]
      && (Answers(out.bus[i], out.driver.address) <==> !disabled)
      && (Answers(out.bus[i], DEFAULT_ADDRESS) <==> disabled)
  {
  }
}
