/** The solar device: solar power from the live status and the generation
    meter from the energy history. */
module SolarDevice {
  import opened Wrappers
  import opened Values
  import opened Catalog
  import opened Device
  import opened History

  /** The updates of the `liveStatus` handler; a missing response makes none. */
  function LiveStatusUpdates(response: Option<LiveStatus>): seq<Update> {
    if response.None? then [] else [Update("measure_power", Literal(OfNum(response.value.solar_power)))]
  }

  /** After the `liveStatus` handler the device's power is the reported solar
      power, where the write is made; a missing response changes nothing. */
  lemma LiveStatusEffect(values: map<string, Value>, caps: seq<string>, response: Option<LiveStatus>, rejected: set<string>)
    ensures response.None? ==> Store(values, caps, LiveStatusUpdates(response), rejected) == values
    ensures response.Some? ==>
      Applied(values, Store(values, caps, LiveStatusUpdates(response), rejected), caps, rejected,
              "measure_power", OfNum(response.value.solar_power))
  {
    if response.Some? {
      StoreSoleUpdate(values, caps, LiveStatusUpdates(response), rejected, 0);
    }
  }

  /** The updates of the `energyHistory` handler: a missing or empty series
      makes none; otherwise the generation meter is written in kWh from its
      null-start total. */
  function EnergyHistoryUpdates(series: Option<seq<HistoryEvent>>): seq<Update> {
    if series.None? || series.value == [] then []
    else KWhMeter("meter_power", NullStartTotal(Readings(series.value, SolarGeneration)))
  }

  /** The `energyHistory` handler. */
  method EnergyHistory(series: Option<seq<HistoryEvent>>) returns (us: seq<Update>)
    ensures us == EnergyHistoryUpdates(series)
  {
    if series.None? || |series.value| == 0 {
      return [];
    }
    var generated := Generated(series.value);
    us := [];
    if generated.Some? {
      us := [Update("meter_power", Literal(Num(generated.value / 1000.0)))];
    }
  }

  /** The loop over `time_series`, with `generated` starting at null. */
  method Generated(ts: seq<HistoryEvent>) returns (generated: Option<real>)
    ensures generated == NullStartTotal(Readings(ts, SolarGeneration))
  {
    generated := None;
    var i := 0;
    while i < |ts|
      invariant 0 <= i <= |ts|
      invariant generated == NullStartTotal(Readings(ts[..i], SolarGeneration))
    {
      NullStartStep(ts, i, SolarGeneration);
      if ts[i].total_solar_generation.Some? {
        generated := Some(generated.GetOr(0.0) + ts[i].total_solar_generation.value);
      }
      i := i + 1;
    }
    assert ts[..i] == ts;
  }

  /** The meter is written exactly when some event reports generation, with
      the sum of the reported values in kWh. */
  lemma EnergyHistoryIsSumOfReadings(ts: seq<HistoryEvent>)
    requires ts != []
    ensures EnergyHistoryUpdates(Some(ts)) == KWhMeter("meter_power", SumOfPresent(ts, SolarGeneration))
  {
    NullStartIsSumOfReadings(ts, SolarGeneration);
  }

  /** A zero total is written too, as 0 kWh. */
  lemma ZeroGenerationIsWritten(ts: seq<HistoryEvent>)
    requires ts != []
    requires forall i :: 0 <= i < |ts| ==> ts[i].total_solar_generation == Some(0.0)
    ensures EnergyHistoryUpdates(Some(ts)) == [Update("meter_power", Literal(Num(0.0)))]
  {
    ZeroReadingsSumToZero(ts, SolarGeneration);
    EnergyHistoryIsSumOfReadings(ts);
  }
}
