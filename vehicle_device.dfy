/** The vehicle device. It extends the platform device directly: each
    telemetry signal sets one capability, converting a few of them, and each
    capability listener sends at most one vehicle command. */
module VehicleDevice {
  import opened Wrappers
  import opened Values
  import Catalog

  /** The capabilities the vehicle device sets or listens to. */
  datatype Capability =
    | MeasureBattery | MeasureRange | OnoffCharge | MeterPower | MeasurePower | MeasureVoltage | MeasureCurrent
    | LockedCap | SentryModeCap | ValetModeCap | LockedChargeCable
    | ThermostatMode | MeasureTemperature | MeasureTemperatureOutside | DefrostModeCap | SteeringWheelHeaterCap
    | SeatHeaterFrontLeft | SeatHeaterFrontRight
    | AlarmContactDoorFrontLeft | AlarmContactDoorFrontRight | AlarmContactDoorRearLeft | AlarmContactDoorRearRight
    | ChargePortDoor | Frunk | Trunk | WindowcoveringsState
    | ButtonFlashLights | ButtonHonkHorn | ButtonKeylessDriving | ButtonHomelink | ButtonWakeUp

  /** The capability's identifier. */
  function Name(c: Capability): string {
    match c
    case MeasureBattery => "measure_battery"
    case MeasureRange => "measure_range"
    case OnoffCharge => "onoff.charge"
    case MeterPower => "meter_power"
    case MeasurePower => "measure_power"
    case MeasureVoltage => "measure_voltage"
    case MeasureCurrent => "measure_current"
    case LockedCap => "locked"
    case SentryModeCap => "sentry_mode"
    case ValetModeCap => "valet_mode"
    case LockedChargeCable => "locked.charge_cable"
    case ThermostatMode => "thermostat_mode"
    case MeasureTemperature => "measure_temperature"
    case MeasureTemperatureOutside => "measure_temperature.outside"
    case DefrostModeCap => "defrost_mode"
    case SteeringWheelHeaterCap => "steering_wheel_heater"
    case SeatHeaterFrontLeft => "seat_heater_front_left"
    case SeatHeaterFrontRight => "seat_heater_front_right"
    case AlarmContactDoorFrontLeft => "alarm_contact.door_front_left"
    case AlarmContactDoorFrontRight => "alarm_contact.door_front_right"
    case AlarmContactDoorRearLeft => "alarm_contact.door_rear_left"
    case AlarmContactDoorRearRight => "alarm_contact.door_rear_right"
    case ChargePortDoor => "charge_port_door"
    case Frunk => "frunk"
    case Trunk => "trunk"
    case WindowcoveringsState => "windowcoverings_state"
    case ButtonFlashLights => "button.flash_lights"
    case ButtonHonkHorn => "button.honk_horn"
    case ButtonKeylessDriving => "button.keyless_driving"
    case ButtonHomelink => "button.homelink"
    case ButtonWakeUp => "button.wake_up"
  }

  /** The signals whose value is set unchanged. */
  datatype Forwarded =
    | BatteryLevel | BatteryRange | ChargeEnergyAdded | ChargerVoltage | ChargerActualCurrent
    | Locked | SentryMode | ValetMode | InsideTemp | OutsideTemp | DefrostMode | SteeringWheelHeater
    | DoorFrontLeft | DoorFrontRight | DoorRearLeft | DoorRearRight | ChargePortDoorOpen | FrontTrunk | RearTrunk

  /** The capability a forwarded signal sets. */
  function ForwardedCapability(s: Forwarded): Capability {
    match s
    case BatteryLevel => MeasureBattery
    case BatteryRange => MeasureRange
    case ChargeEnergyAdded => MeterPower
    case ChargerVoltage => MeasureVoltage
    case ChargerActualCurrent => MeasureCurrent
    case Locked => LockedCap
    case SentryMode => SentryModeCap
    case ValetMode => ValetModeCap
    case InsideTemp => MeasureTemperature
    case OutsideTemp => MeasureTemperatureOutside
    case DefrostMode => DefrostModeCap
    case SteeringWheelHeater => SteeringWheelHeaterCap
    case DoorFrontLeft => AlarmContactDoorFrontLeft
    case DoorFrontRight => AlarmContactDoorFrontRight
    case DoorRearLeft => AlarmContactDoorRearLeft
    case DoorRearRight => AlarmContactDoorRearRight
    case ChargePortDoorOpen => ChargePortDoor
    case FrontTrunk => Frunk
    case RearTrunk => Trunk
  }

  /** One signal event with its value. The charger power and the seat-heater
      levels are numbers. */
  datatype SignalEvent =
    | Forward(signal: Forwarded, value: Value)
    | ChargeState(state: Value)
    | ChargerPower(kw: real)
    | ChargePortLatch(latch: Value)
    | HvacACEnabled(enabled: Value)
    | SeatHeaterLeft(level: real)
    | SeatHeaterRight(level: real)

  /** The `setCapabilityValue` call a signal handler makes. */
  function SignalWrite(e: SignalEvent): (Capability, Value) {
    match e
    case Forward(s, v) => (ForwardedCapability(s), v)
    case ChargeState(v) => (OnoffCharge, Bool(v == Str("Charging")))
    case ChargerPower(kw) => (MeasurePower, Num(kw * 1000.0))
    case ChargePortLatch(v) => (LockedChargeCable, Bool(v == Str("Engaged")))
    case HvacACEnabled(v) => (ThermostatMode, Str(if Truthy(v) then "auto" else "off"))
    case SeatHeaterLeft(level) => (SeatHeaterFrontLeft, Bool(level > 0.0))
    case SeatHeaterRight(level) => (SeatHeaterFrontRight, Bool(level > 0.0))
  }

  /** `onInit`: the device's vehicle is the one of its VIN in the loaded
      catalog. Without one the device logs the failure and registers no
      signal handler and no listener, so it never sets a capability. */
  function Registered(products: Option<Catalog.Products>, vin: string): (r: bool)
    ensures r <==> products.Some? && exists v :: v in products.value.vehicles && v.vin == vin
  {
    Catalog.VehicleOf(products, vin).Some?
  }

  /** A vehicle command the listeners send. */
  datatype VehicleCommand =
    | LockDoors | UnlockDoors
    | StartAutoConditioning | StopAutoConditioning
    | SetPreconditioningMax(on: Value, manualOverride: bool)
    | SetSteeringWheelHeater(on: Value)
    | RemoteSeatHeaterRequest(seat: int, level: int)
    | StartCharging | StopCharging
    | OpenChargePortDoor | CloseChargePortDoor
    | SetSentryMode(on: Value) | SetValetMode(on: Value)
    | ActuateTrunk(which: string)
    | WindowControl(command: string, lat: real, lon: real)
    | FlashLights | HonkHorn | RemoteStart
    | TriggerHomelink(lat: real, lon: real)
    | WakeUp

  /** The capabilities that have a listener. */
  predicate HasListener(c: Capability) {
    match c
    case LockedCap | ThermostatMode | DefrostModeCap | SteeringWheelHeaterCap
       | SeatHeaterFrontLeft | SeatHeaterFrontRight | OnoffCharge | ChargePortDoor
       | LockedChargeCable | SentryModeCap | ValetModeCap | Frunk | Trunk | WindowcoveringsState
       | ButtonFlashLights | ButtonHonkHorn | ButtonKeylessDriving | ButtonHomelink | ButtonWakeUp => true
    case _ => false
  }

  /** The commands the listener of `c` sends for `value`. */
  function ListenerCommands(c: Capability, value: Value): seq<VehicleCommand> {
    match c
    case LockedCap => [if Truthy(value) then LockDoors else UnlockDoors]
    case ThermostatMode => [if value == Str("auto") then StartAutoConditioning else StopAutoConditioning]
    case DefrostModeCap => [SetPreconditioningMax(value, true)]
    case SteeringWheelHeaterCap => [SetSteeringWheelHeater(value)]
    case SeatHeaterFrontLeft => [RemoteSeatHeaterRequest(0, if Truthy(value) then 3 else 0)]
    case SeatHeaterFrontRight => [RemoteSeatHeaterRequest(1, if Truthy(value) then 3 else 0)]
    case OnoffCharge => [if Truthy(value) then StartCharging else StopCharging]
    case ChargePortDoor => [if Truthy(value) then OpenChargePortDoor else CloseChargePortDoor]
    case LockedChargeCable => if Truthy(value) then [] else [OpenChargePortDoor]
    case SentryModeCap => [SetSentryMode(value)]
    case ValetModeCap => [SetValetMode(value)]
    case Frunk => if Truthy(value) then [ActuateTrunk("front")] else []
    case Trunk => [ActuateTrunk("rear")]
    case WindowcoveringsState =>
      if value == Str("up") then [WindowControl("close", 0.0, 0.0)]
      else if value == Str("down") then [WindowControl("vent", 0.0, 0.0)]
      else []
    case ButtonFlashLights => [FlashLights]
    case ButtonHonkHorn => [HonkHorn]
    case ButtonKeylessDriving => [RemoteStart]
    case ButtonHomelink => [TriggerHomelink(0.0, 0.0)]
    case ButtonWakeUp => [WakeUp]
    case _ => []
  }

  /** Every listener sends at most one command. */
  lemma AtMostOneCommand(c: Capability, value: Value)
    ensures |ListenerCommands(c, value)| <= 1
  {
    match c
    case WindowcoveringsState =>
    case LockedChargeCable =>
    case Frunk =>
    case _ =>
  }

  /** A capability without a listener sends nothing; only the window,
      charge-cable and frunk listeners can send nothing, for the values they
      ignore. */
  lemma NoCommand(c: Capability, value: Value)
    ensures ListenerCommands(c, value) == [] <==>
      || !HasListener(c)
      || (c == WindowcoveringsState && value != Str("up") && value != Str("down"))
      || (c == LockedChargeCable && Truthy(value))
      || (c == Frunk && !Truthy(value))
  {
    match c
    case WindowcoveringsState =>
    case LockedChargeCable =>
    case Frunk =>
    case _ =>
  }

  /** The mode shown for the air-conditioning signal, when sent back, keeps
      conditioning as it is: on exactly when the signal was truthy. */
  lemma ThermostatRoundTrip(v: Value)
    ensures SignalWrite(HvacACEnabled(v)).1 == Str("auto") <==> Truthy(v)
    ensures ListenerCommands(ThermostatMode, SignalWrite(HvacACEnabled(v)).1) ==
            [if Truthy(v) then StartAutoConditioning else StopAutoConditioning]
  {
  }

  /** A seat heater shows on exactly at a positive level, and sending that
      back requests level 3 for on and 0 for off, on seat 0 for the left and
      seat 1 for the right. */
  lemma SeatHeaterRoundTrip(level: real)
    ensures SignalWrite(SeatHeaterLeft(level)) == (SeatHeaterFrontLeft, Bool(level > 0.0))
    ensures ListenerCommands(SeatHeaterFrontLeft, SignalWrite(SeatHeaterLeft(level)).1) ==
            [RemoteSeatHeaterRequest(0, if level > 0.0 then 3 else 0)]
    ensures ListenerCommands(SeatHeaterFrontRight, SignalWrite(SeatHeaterRight(level)).1) ==
            [RemoteSeatHeaterRequest(1, if level > 0.0 then 3 else 0)]
  {
  }

  /** Charging shows on only for the "Charging" state, the cable locked only
      for the "Engaged" latch, and the charger power is shown in watts. */
  lemma ConvertedSignals(v: Value, kw: real)
    ensures SignalWrite(ChargeState(v)) == (OnoffCharge, Bool(true)) <==> v == Str("Charging")
    ensures SignalWrite(ChargePortLatch(v)) == (LockedChargeCable, Bool(true)) <==> v == Str("Engaged")
    ensures SignalWrite(ChargerPower(kw)).1.Num? && SignalWrite(ChargerPower(kw)).1.n / 1000.0 == kw
  {
  }

  /** A charging state sent back starts charging exactly for "Charging", and
      stops it otherwise. */
  lemma ChargeStateRoundTrip(v: Value)
    ensures ListenerCommands(OnoffCharge, SignalWrite(ChargeState(v)).1) ==
            [if v == Str("Charging") then StartCharging else StopCharging]
  {
  }

  /** The lock listener locks on a truthy value and unlocks otherwise; the
      charge-cable listener acts only on a falsy value, by opening the port,
      so a latch that shows unlocked opens the port when sent back. */
  lemma LockListeners(v: Value)
    ensures ListenerCommands(LockedCap, v) == [if Truthy(v) then LockDoors else UnlockDoors]
    ensures ListenerCommands(LockedChargeCable, v) == if Truthy(v) then [] else [OpenChargePortDoor]
    ensures ListenerCommands(LockedChargeCable, SignalWrite(ChargePortLatch(v)).1) ==
            if v == Str("Engaged") then [] else [OpenChargePortDoor]
  {
  }

  /** Distinct forwarded signals set distinct capabilities. */
  lemma ForwardedDistinct(a: Forwarded, b: Forwarded)
    requires ForwardedCapability(a) == ForwardedCapability(b)
    ensures a == b
  {
  }

  /** The forwarded signals whose capability the user can also set: the
      lock, sentry and valet modes, defrost, the steering-wheel heater, the
      charge-port door, the frunk and the trunk. The others are measurements
      and door contacts. */
  lemma ForwardedWithListener(s: Forwarded)
    ensures HasListener(ForwardedCapability(s)) <==>
      s in {Locked, SentryMode, ValetMode, DefrostMode, SteeringWheelHeater, ChargePortDoorOpen, FrontTrunk, RearTrunk}
  {
  }

  /** A forwarded mode sent back by its listener asks for the state it shows. */
  lemma ForwardedEcho(v: Value)
    ensures ListenerCommands(SignalWrite(Forward(SentryMode, v)).0, v) == [SetSentryMode(v)]
    ensures ListenerCommands(SignalWrite(Forward(ValetMode, v)).0, v) == [SetValetMode(v)]
    ensures ListenerCommands(SignalWrite(Forward(SteeringWheelHeater, v)).0, v) == [SetSteeringWheelHeater(v)]
    ensures ListenerCommands(SignalWrite(Forward(DefrostMode, v)).0, v) == [SetPreconditioningMax(v, true)]
  {
  }

  /** A forwarded lock or door state sent back by its listener asks for the
      state it shows. */
  lemma ForwardedDoorEcho(v: Value)
    ensures ListenerCommands(SignalWrite(Forward(ChargePortDoorOpen, v)).0, v) ==
            [if Truthy(v) then OpenChargePortDoor else CloseChargePortDoor]
    ensures ListenerCommands(SignalWrite(Forward(Locked, v)).0, v) == [if Truthy(v) then LockDoors else UnlockDoors]
  {
  }

  /** "up" closes the windows, "down" vents them, and any other value sends nothing. */
  lemma WindowCoverings(v: Value)
    ensures ListenerCommands(WindowcoveringsState, v) ==
      if v == Str("up") then [WindowControl("close", 0.0, 0.0)]
      else if v == Str("down") then [WindowControl("vent", 0.0, 0.0)]
      else []
  {
  }
}
