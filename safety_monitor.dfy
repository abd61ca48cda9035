/**
  The MQTT safety monitor object: the fields the MQTT callbacks update in
  place, the connection flag with its getter and setter, and the safety
  query. Each callback is a method here; State() gives the object's value as
  a MonitorState.Snapshot, and every method is proved to take that value
  exactly where MonitorState.Step takes it.
 */
module SafetyMonitor {
  import opened MonitorState

  class MqttSafetyMonitor {
    // observing conditions values, starting at their fail-safe defaults
    var cloudCover: real
    var probabilityOfPrecipitation: real
    var forecastPrecipitation: real
    var rainInRegion: bool
    var rainRate: real
    var windSpeedAvg: real
    // cumulative rain counter history, for the rain rate
    var lastRainReading: real
    var currentRainReading: real
    var lastRainTime: real
    var currentRainTime: real
    // transport connection status
    var connected: bool

    /** The object's current value. */
    function State(): Snapshot
      reads this
    {
      Snapshot(cloudCover, probabilityOfPrecipitation, forecastPrecipitation,
               rainInRegion, rainRate, windSpeedAvg,
               lastRainReading, currentRainReading, lastRainTime, currentRainTime,
               connected)
    }

    /** A new monitor holds the fail-safe defaults and is not connected. The
        configured precipitation-probability limit is read into a local only,
        so it has no effect: the threshold stays LimitPrecipitationProbability. */
    constructor (configuredLimit: real)
      ensures State() == Initial
      ensures !Safe(State()) && !connected
    {
      var limit := configuredLimit;
      cloudCover := 100.0;
      probabilityOfPrecipitation := 100.0;
      forecastPrecipitation := 999.0;
      rainInRegion := true;
      rainRate := 1.0;
      windSpeedAvg := 100.0;
      lastRainReading := 0.0;
      currentRainReading := 0.0;
      lastRainTime := 0.0;
      currentRainTime := 0.0;
      connected := false;
    }

    /** The connection-status getter. */
    method Connected() returns (c: bool)
      ensures c == connected
    {
      c := connected;
    }

    /** The connection-status setter: stores the flag and nothing else. */
    method SetConnected(c: bool)
      modifies this
      ensures connected == c
      ensures State() == old(State()).(connected := c)
      ensures Safe(State()) == Safe(old(State()))
    {
      connected := c;
      SafeIgnoresConnected(old(State()), c);
    }

    /** The safety query over the current fields. */
    method IsSafe() returns (res: bool)
      ensures res == Safe(State())
      ensures res <==> forall t: Topic :: Satisfies(State(), t)
    {
      res := Safe(State());
    }

    /** Cloud cover topic: stores the reading. */
    method OnCloudCover(percent: real)
      modifies this
      ensures cloudCover == percent
      ensures State() == Step(old(State()), CloudCover(percent))
    {
      cloudCover := percent;
    }

    /** Probability of precipitation topic: stores the reading. */
    method OnProbabilityOfPrecipitation(percent: real)
      modifies this
      ensures probabilityOfPrecipitation == percent
      ensures State() == Step(old(State()), ProbabilityOfPrecipitation(percent))
    {
      probabilityOfPrecipitation := percent;
    }

    /** Rain event topic: shifts the current counter reading and time into
        the last ones, stores the new reading with the clock reading now, and
        derives the rain rate in mm/h from the two, a fall of the counter
        giving rate 0. The handler divides by the time gap, so the model
        takes now strictly later than the stored current rain time; the
        source raises on an equal time and divides by a negative gap on an
        earlier one. */
    method OnEventRain(reading: real, now: real)
      requires currentRainTime < now
      modifies this
      ensures lastRainReading == old(currentRainReading) && currentRainReading == reading
      ensures lastRainTime == old(currentRainTime) && currentRainTime == now
      ensures rainRate >= 0.0
      ensures reading >= lastRainReading ==>
        rainRate == (reading - lastRainReading) / (now - lastRainTime) * 3600.0
      ensures reading < lastRainReading ==> rainRate == 0.0
      ensures && cloudCover == old(cloudCover)
              && probabilityOfPrecipitation == old(probabilityOfPrecipitation)
              && forecastPrecipitation == old(forecastPrecipitation)
              && rainInRegion == old(rainInRegion)
              && windSpeedAvg == old(windSpeedAvg)
              && connected == old(connected)
      ensures State() == Step(old(State()), EventRain(reading, now))
    {
      lastRainReading := currentRainReading;
      currentRainReading := reading;
      lastRainTime := currentRainTime;
      currentRainTime := now;
      var rate := (currentRainReading - lastRainReading) / (currentRainTime - lastRainTime);
      if rate < 0.0 {
        rate := 0.0;
      }
      rainRate := rate * 3600.0;
      ghost var expected := RainRate(lastRainReading, lastRainTime, reading, now);
      assert rainRate == expected;
    }

    /** Forecast precipitation topic: stores the amount in mm. */
    method OnForecastPrecipitation(mm: real)
      modifies this
      ensures forecastPrecipitation == mm
      ensures State() == Step(old(State()), ForecastPrecipitation(mm))
    {
      forecastPrecipitation := mm;
    }

    /** Rain in region topic: the flag becomes true exactly for the text "true". */
    method OnRainInRegion(payload: string)
      modifies this
      ensures rainInRegion <==> payload == "true"
      ensures State() == Step(old(State()), RainInRegion(payload))
    {
      rainInRegion := RainInRegionFlag(payload);
    }

    /** Average wind speed topic: converts the km/h payload to m/s. */
    method OnWindSpeedAvg(kmh: real)
      modifies this
      ensures windSpeedAvg * 3.6 == kmh
      ensures State() == Step(old(State()), WindSpeedAvg(kmh))
    {
      windSpeedAvg := WindSpeedMps(kmh);
    }
  }

  /** A client of the object alone: a fresh monitor is unsafe; after every
      topic reports fair weather with a 30 % probability of precipitation it
      is still unsafe, although the monitor was configured with a limit of
      50 %, because the configured limit never reaches the object. */
  method ConfiguredLimitIgnored() returns (before: bool, after: bool, m: MqttSafetyMonitor)
    ensures !before && !after
    ensures !Satisfies(m.State(), ProbabilityOfPrecipitationTopic)
    ensures forall t: Topic :: t != ProbabilityOfPrecipitationTopic ==> Satisfies(m.State(), t)
  {
    m := new MqttSafetyMonitor(50.0);
    before := m.IsSafe();
    m.OnCloudCover(40.0);
    m.OnProbabilityOfPrecipitation(30.0);
    m.OnEventRain(0.0, 1.0);
    m.OnForecastPrecipitation(0.0);
    m.OnRainInRegion("false");
    m.OnWindSpeedAvg(5.0);
    m.SetConnected(true);
    after := m.IsSafe();
  }
}
