/**
  The observing-conditions snapshot of the MQTT safety monitor as a value:
  the six environmental readings, the rain-counter history used to derive
  the rain rate, and the connection flag. The update rule of each MQTT
  topic, the safety predicate, and the rain-rate derivation are functions
  over this value; the class in module SafetyMonitor is proved to follow them.
 */
module MonitorState {

  /** The whole state of one monitor, field for field. */
  datatype Snapshot = Snapshot(
    cloudCover: real,                 // percent
    probabilityOfPrecipitation: real, // percent
    forecastPrecipitation: real,      // mm
    rainInRegion: bool,
    rainRate: real,                   // mm/h, derived from the rain counter
    windSpeedAvg: real,               // m/s
    lastRainReading: real,            // previous cumulative rain counter (mm)
    currentRainReading: real,         // latest cumulative rain counter (mm)
    lastRainTime: real,               // seconds, time of lastRainReading
    currentRainTime: real,            // seconds, time of currentRainReading
    connected: bool)

  /** The precipitation-probability threshold the safety predicate compares
      against. The constructor reads a configured limit into a local variable
      only, so the class default is the one in force. */
  const LimitPrecipitationProbability: real := 5.0

  /** The fail-safe defaults a monitor starts with. */
  const Initial: Snapshot := Snapshot(
    cloudCover := 100.0,
    probabilityOfPrecipitation := 100.0,
    forecastPrecipitation := 999.0,
    rainInRegion := true,
    rainRate := 1.0,
    windSpeedAvg := 100.0,
    lastRainReading := 0.0,
    currentRainReading := 0.0,
    lastRainTime := 0.0,
    currentRainTime := 0.0,
    connected := false)

  /** The safety query: all six comparisons of the snapshot hold, that is,
      the conjunct of every topic holds. */
  predicate Safe(s: Snapshot)
    ensures Safe(s) <==> forall t: Topic :: Satisfies(s, t)
  {
    assert (forall t: Topic :: Satisfies(s, t)) ==>
      && Satisfies(s, CloudCoverTopic) && Satisfies(s, ProbabilityOfPrecipitationTopic)
      && Satisfies(s, EventRainTopic) && Satisfies(s, ForecastPrecipitationTopic)
      && Satisfies(s, RainInRegionTopic) && Satisfies(s, WindSpeedAvgTopic);
    && s.cloudCover != 100.0
    && s.probabilityOfPrecipitation <= LimitPrecipitationProbability
    && s.rainRate == 0.0
    && s.forecastPrecipitation == 0.0
    && !s.rainInRegion
    && s.windSpeedAvg < 10.0
  }

  /** The six subscribed topics; each feeds one conjunct of Safe. */
  datatype Topic =
    | CloudCoverTopic
    | ProbabilityOfPrecipitationTopic
    | EventRainTopic
    | ForecastPrecipitationTopic
    | RainInRegionTopic
    | WindSpeedAvgTopic

  /** The conjunct of Safe that reads the field topic t writes. */
  predicate Satisfies(s: Snapshot, t: Topic) {
    match t
    case CloudCoverTopic => s.cloudCover != 100.0
    case ProbabilityOfPrecipitationTopic => s.probabilityOfPrecipitation <= LimitPrecipitationProbability
    case EventRainTopic => s.rainRate == 0.0
    case ForecastPrecipitationTopic => s.forecastPrecipitation == 0.0
    case RainInRegionTopic => !s.rainInRegion
    case WindSpeedAvgTopic => s.windSpeedAvg < 10.0
  }

  /** Every fail-safe default falsifies its own conjunct, so a monitor that
      has heard nothing on any single topic cannot be safe. */
  lemma InitialFailsEveryTopic(t: Topic)
    ensures !Satisfies(Initial, t)
    ensures !Safe(Initial)
  {
  }

  /** Safe never looks at the connection flag. */
  lemma SafeIgnoresConnected(s: Snapshot, c: bool)
    ensures Safe(s.(connected := c)) == Safe(s)
  {
  }

  /** The rain rate in mm/h from two cumulative counter readings: the finite
      difference per second, a negative one (counter reset) clamped to 0,
      scaled by 3600. The caller guarantees a strictly later time. */
  function RainRate(lastReading: real, lastTime: real, reading: real, now: real): (r: real)
    requires lastTime < now
    ensures r >= 0.0
    ensures reading >= lastReading ==> r == (reading - lastReading) / (now - lastTime) * 3600.0
    ensures reading < lastReading ==> r == 0.0
  {
    var rate := (reading - lastReading) / (now - lastTime);
    (if rate < 0.0 then 0.0 else rate) * 3600.0
  }

  /** The rain conjunct holds after a rain event exactly when the counter did
      not rise: equal readings as well as a reset both give rate 0. */
  lemma RainRateZeroIffNoRise(lastReading: real, lastTime: real, reading: real, now: real)
    requires lastTime < now
    ensures RainRate(lastReading, lastTime, reading, now) == 0.0 <==> reading <= lastReading
  {
  }

  /** A worked rate: 0.5 mm in half an hour is 1 mm/h. */
  lemma RainRateExample()
    ensures RainRate(2.0, 100.0, 2.5, 1900.0) == 1.0
  {
  }

  /** The wind payload in km/h converted to m/s, by the factor 1000/3600. */
  function WindSpeedMps(kmh: real): (mps: real)
    ensures mps * 3.6 == kmh
  {
    kmh * (1000.0 / 3600.0)
  }

  /** The wind conjunct holds exactly below 36 km/h; 36 km/h is 10 m/s, which
      already fails the strict comparison. */
  lemma WindSafeIffBelow36(kmh: real)
    ensures WindSpeedMps(36.0) == 10.0
    ensures WindSpeedMps(kmh) < 10.0 <==> kmh < 36.0
  {
  }

  /** The rain-in-region payload is true only when it is literally "true". */
  function RainInRegionFlag(payload: string): (b: bool)
    ensures b <==> && |payload| == 4
                   && payload[0] == 't' && payload[1] == 'r'
                   && payload[2] == 'u' && payload[3] == 'e'
  {
    payload == "true"
  }

  /** No other spelling counts as rain in the region. */
  lemma RainInRegionIsCaseSensitive()
    ensures RainInRegionFlag("true")
    ensures !RainInRegionFlag("True") && !RainInRegionFlag("TRUE")
    ensures !RainInRegionFlag("true ") && !RainInRegionFlag("1") && !RainInRegionFlag("")
  {
  }

  /** One message delivered on one topic, with its payload already parsed
      (the rain-in-region payload stays text). A rain event carries the clock
      reading taken when it is handled. */
  datatype Message =
    | CloudCover(percent: real)
    | ProbabilityOfPrecipitation(percent: real)
    | EventRain(reading: real, time: real)
    | ForecastPrecipitation(mm: real)
    | RainInRegion(payload: string)
    | WindSpeedAvg(kmh: real)

  function TopicOf(m: Message): Topic {
    match m
    case CloudCover(_) => CloudCoverTopic
    case ProbabilityOfPrecipitation(_) => ProbabilityOfPrecipitationTopic
    case EventRain(_, _) => EventRainTopic
    case ForecastPrecipitation(_) => ForecastPrecipitationTopic
    case RainInRegion(_) => RainInRegionTopic
    case WindSpeedAvg(_) => WindSpeedAvgTopic
  }

  /** A message can be handled in state s: a rain event must come strictly
      after the stored current rain time. The handler divides by the time
      gap; an equal time raises and an earlier one yields a rate from a
      negative gap, and the model covers neither. */
  predicate Accepts(s: Snapshot, m: Message) {
    m.EventRain? ==> s.currentRainTime < m.time
  }

  /** The state after the callback of m's topic has run. A message changes
      only the conjunct of its own topic and never the connection flag; a
      rain event shifts the rain history and every other message leaves it
      and the rain rate alone; the invariant is kept. */
  function Step(s: Snapshot, m: Message): (r: Snapshot)
    requires Accepts(s, m)
    ensures forall t: Topic :: t != TopicOf(m) ==> Satisfies(r, t) == Satisfies(s, t)
    ensures r.connected == s.connected
    ensures m.EventRain? ==>
      && r.lastRainReading == s.currentRainReading && r.currentRainReading == m.reading
      && r.lastRainTime == s.currentRainTime && r.currentRainTime == m.time
    ensures !m.EventRain? ==>
      && r.rainRate == s.rainRate
      && r.lastRainReading == s.lastRainReading && r.currentRainReading == s.currentRainReading
      && r.lastRainTime == s.lastRainTime && r.currentRainTime == s.currentRainTime
    ensures Inv(s) ==> Inv(r)
  {
    match m
    case CloudCover(v) => s.(cloudCover := v)
    case ProbabilityOfPrecipitation(v) => s.(probabilityOfPrecipitation := v)
    case EventRain(reading, now) =>
      s.(lastRainReading := s.currentRainReading, currentRainReading := reading,
         lastRainTime := s.currentRainTime, currentRainTime := now,
         rainRate := RainRate(s.currentRainReading, s.currentRainTime, reading, now))
    case ForecastPrecipitation(v) => s.(forecastPrecipitation := v)
    case RainInRegion(p) => s.(rainInRegion := RainInRegionFlag(p))
    case WindSpeedAvg(v) => s.(windSpeedAvg := WindSpeedMps(v))
  }

  /** Every message of the sequence can be handled in the state its
      predecessors leave. */
  predicate Admissible(s: Snapshot, ms: seq<Message>)
    decreases |ms|
  {
    ms == [] || (Accepts(s, ms[0]) && Admissible(Step(s, ms[0]), ms[1..]))
  }

  /** The state after handling the messages in delivery order. */
  function Run(s: Snapshot, ms: seq<Message>): Snapshot
    requires Admissible(s, ms)
    decreases |ms|
  {
    if ms == [] then s else Run(Step(s, ms[0]), ms[1..])
  }

  /** Some message of ms was published on topic t. */
  predicate Delivered(ms: seq<Message>, t: Topic) {
    exists i :: 0 <= i < |ms| && TopicOf(ms[i]) == t
  }

  /** A topic that received no message leaves its conjunct as it was. */
  lemma {:induction false} SilentTopicUnchanged(s: Snapshot, ms: seq<Message>, t: Topic)
    requires Admissible(s, ms)
    ensures !Delivered(ms, t) ==> Satisfies(Run(s, ms), t) == Satisfies(s, t)
    decreases |ms|
  {
    if ms != [] && !Delivered(ms, t) {
      assert TopicOf(ms[0]) != t;
      assert !Delivered(ms[1..], t) by {
        forall i | 0 <= i < |ms[1..]| ensures TopicOf(ms[1..][i]) != t {
          assert ms[1..][i] == ms[i + 1];
        }
      }
      SilentTopicUnchanged(Step(s, ms[0]), ms[1..], t);
    }
  }

  /** Fail-safe: starting from the defaults, the monitor reports safe only
      after every one of the six topics has delivered at least one message. */
  lemma SafeNeedsEveryTopic(ms: seq<Message>)
    requires Admissible(Initial, ms)
    ensures Safe(Run(Initial, ms)) ==> forall t: Topic :: Delivered(ms, t)
  {
    forall t: Topic ensures Safe(Run(Initial, ms)) ==> Delivered(ms, t) {
      SilentTopicUnchanged(Initial, ms, t);
      InitialFailsEveryTopic(t);
    }
  }

  /** What every reachable state keeps: a non-negative rain rate and rain
      times that never run backwards. */
  predicate Inv(s: Snapshot) {
    s.rainRate >= 0.0 && s.lastRainTime <= s.currentRainTime
  }

  /** The defaults satisfy the invariant. */
  lemma InitialSatisfiesInv()
    ensures Inv(Initial)
  {
  }

  /** Handling any admissible sequence of messages preserves the invariant
      and leaves the connection flag alone. */
  lemma {:induction false} RunKeepsInv(s: Snapshot, ms: seq<Message>)
    requires Admissible(s, ms)
    requires Inv(s)
    ensures Inv(Run(s, ms))
    ensures Run(s, ms).connected == s.connected
    decreases |ms|
  {
    if ms != [] {
      RunKeepsInv(Step(s, ms[0]), ms[1..]);
    }
  }

  /** A dry, calm evening with a low probability of precipitation: safe once
      every topic has reported. */
  lemma CalmScenarioIsSafe()
    ensures var ms := [CloudCover(40.0), ProbabilityOfPrecipitation(3.0),
                       EventRain(0.0, 1.0), EventRain(0.0, 10.0),
                       ForecastPrecipitation(0.0), RainInRegion("false"), WindSpeedAvg(5.0)];
            Admissible(Initial, ms) && Safe(Run(Initial, ms))
  {
  }

  /** The same evening with 40 km/h of wind (about 11.1 m/s) is unsafe. */
  lemma WindyScenarioIsUnsafe()
    ensures var ms := [CloudCover(40.0), ProbabilityOfPrecipitation(3.0),
                       EventRain(0.0, 1.0), EventRain(0.0, 10.0),
                       ForecastPrecipitation(0.0), RainInRegion("false"), WindSpeedAvg(40.0)];
            Admissible(Initial, ms) && !Safe(Run(Initial, ms))
  {
  }
}
