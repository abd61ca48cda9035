# MQTT safety monitor — a Dafny model

The file's header calls it the low-level ASCOM Alpaca Observing Conditions
device, meant to be used from a higher-level `ObservingConditions` class. The
class it defines is `MQTTSafetyMonitor`, and its query is `issafe`. It subscribes to six MQTT topics: cloud cover,
probability of precipitation, rain-counter events, forecast precipitation,
rain in the region, and average wind speed. Each message is folded into the
monitor's state. `issafe` says whether it is safe to operate: it is a
conjunction of six comparisons over that state.

This project models the monitor's state and the rules that change and read it.
There are two modules:

- `MonitorState` (`monitor_state.dfy`) holds the state as a value.
  - `Snapshot` holds the six readings, the four-slot rain-counter history and
    the `connected` flag. `Initial` holds the fail-safe defaults.
  - `Safe` is the safety predicate. `Satisfies(s, t)` is the conjunct fed by
    topic `t`.
  - `RainRate` is the rain-rate derivation. `WindSpeedMps` is the km/h to m/s
    conversion. `RainInRegionFlag` is the literal comparison with `"true"`.
  - `Step` is the effect of one message and `Run` the effect of a sequence of
    them. The lemmas relate these to `Safe`.
- `SafetyMonitor` (`safety_monitor.dfy`) holds the class `MqttSafetyMonitor`.
  It has the source's fields, one method per MQTT callback, the `connected`
  getter and setter, and the safety query. `State()` maps the object to a
  `Snapshot`. Every callback method is proved to take it exactly where `Step`
  does, and to change no other field.

Numbers are Dafny `real`s. Payloads arrive already parsed. The one exception is
the rain-in-region payload, which stays text because the source compares it as a
string. The clock reading of a rain event is a parameter of the rain handler.

Two details of the source are kept as written:

- The constructor reads the configured precipitation-probability limit into a
  local variable, not into the object (`mqttsafetymonitor.py:44`). So the
  threshold in force is always the class default 5. `LimitPrecipitationProbability`
  is that 5. The constructor takes the configured limit and ignores it, and
  `ConfiguredLimitIgnored` shows the result.
- The rain handler divides by the gap between the new clock reading and the
  stored one, with no guard. `OnEventRain` and `Step` (through `Accepts`)
  therefore require the new time to be strictly later than the stored current
  rain time. The two cases this excludes are listed under "## Left out".
  - The stored times start at 0. So the first rain event compares its reading
    with a counter of 0 at time 0.

## Model

| member | source | states |
|---|---|---|
| `MonitorState.InitialFailsEveryTopic` | mqttsafetymonitor.py:19-25 | every fail-safe default of `Initial` (the class defaults of lines 19-31 and `connected` false from line 37) falsifies its own conjunct, so a fresh state is unsafe |
| `MonitorState.Safe` | mqttsafetymonitor.py:87-91 | the six comparisons of `issafe`, with the limit fixed at 5 (`LimitPrecipitationProbability`, line 24, because line 44 only binds a local); proved to hold iff every topic's conjunct holds: cloud cover not 100, probability at most 5, rain rate 0, forecast 0, no rain in region, wind below 10 m/s |
| `MonitorState.SafeIgnoresConnected` | mqttsafetymonitor.py:87-91 | the safety predicate does not depend on `connected` |
| `MonitorState.RainRate` | mqttsafetymonitor.py:123-126 | the rain rate is never negative; when the counter did not fall it is the reading difference over the time difference times 3600 (mm/s to mm/h); when the counter fell (a reset) it is 0 |
| `MonitorState.RainRateZeroIffNoRise` | mqttsafetymonitor.py:123-126 | the derived rate is 0 exactly when the new reading is not above the previous one, so equal readings keep the rain conjunct true |
| `MonitorState.RainRateExample` | mqttsafetymonitor.py:123-126 | 0.5 mm in 1800 s gives exactly 1 mm/h |
| `MonitorState.WindSpeedMps` | mqttsafetymonitor.py:144 | the stored speed in m/s times 3.6 is the km/h payload |
| `MonitorState.WindSafeIffBelow36` | mqttsafetymonitor.py:144 | 36 km/h is exactly 10 m/s, and the wind conjunct holds iff the payload is below 36 km/h |
| `MonitorState.RainInRegionFlag` | mqttsafetymonitor.py:138 | the flag is true iff the payload is exactly the four lower-case characters `t`, `r`, `u`, `e` |
| `MonitorState.RainInRegionIsCaseSensitive` | mqttsafetymonitor.py:138 | only the exact text `"true"` sets the flag; `"True"`, `"TRUE"`, `"true "`, `"1"` and the empty text clear it |
| `MonitorState.Step` | mqttsafetymonitor.py:105-146 | the effect of one callback: a message changes only its own topic's conjunct and never `connected`; a rain event moves current reading and time to last and stores the new ones; any other message leaves the rain history and rate alone; a non-negative rate and ordered rain times are kept |
| `MonitorState.SilentTopicUnchanged` | mqttsafetymonitor.py:105-146 | after any admissible message sequence, a topic that got no message has its conjunct unchanged |
| `MonitorState.SafeNeedsEveryTopic` | mqttsafetymonitor.py:19-25 | starting from the defaults, the monitor is safe only after every one of the six topics has delivered at least one message |
| `MonitorState.InitialSatisfiesInv` | mqttsafetymonitor.py:23-31 | the defaults have a non-negative rain rate and ordered rain times |
| `MonitorState.RunKeepsInv` | mqttsafetymonitor.py:117-128 | every admissible message sequence keeps the rain rate non-negative and the rain times ordered, and leaves `connected` alone |
| `MonitorState.CalmScenarioIsSafe` | mqttsafetymonitor.py:87-91 | cloud 40, probability 3, two dry rain events, forecast 0, region `"false"` and wind 5 km/h give a safe state |
| `MonitorState.WindyScenarioIsUnsafe` | mqttsafetymonitor.py:142-146 | the same sequence with wind 40 km/h gives an unsafe state |
| `SafetyMonitor.MqttSafetyMonitor.constructor` | mqttsafetymonitor.py:34-44 | a new monitor holds exactly the fail-safe defaults, is disconnected and is unsafe, whatever limit is configured |
| `SafetyMonitor.MqttSafetyMonitor.Connected` | mqttsafetymonitor.py:67-72 | the getter returns the stored flag |
| `SafetyMonitor.MqttSafetyMonitor.SetConnected` | mqttsafetymonitor.py:73-77 | the setter stores exactly the given flag, changes no other field and leaves the safety verdict as it was |
| `SafetyMonitor.MqttSafetyMonitor.IsSafe` | mqttsafetymonitor.py:84-96 | the query returns `Safe` of the current state, that is, whether every topic's conjunct holds |
| `SafetyMonitor.MqttSafetyMonitor.OnCloudCover` | mqttsafetymonitor.py:105-109 | stores the reading as cloud cover and changes nothing else |
| `SafetyMonitor.MqttSafetyMonitor.OnProbabilityOfPrecipitation` | mqttsafetymonitor.py:111-115 | stores the reading as probability of precipitation and changes nothing else |
| `SafetyMonitor.MqttSafetyMonitor.OnEventRain` | mqttsafetymonitor.py:117-128 | moves current reading and time to last, stores the new reading and time, and sets the rain rate: non-negative, the finite difference times 3600 when the counter did not fall, 0 on a reset; no other sensor field and not `connected` change |
| `SafetyMonitor.MqttSafetyMonitor.OnForecastPrecipitation` | mqttsafetymonitor.py:130-134 | stores the amount as forecast precipitation and changes nothing else |
| `SafetyMonitor.MqttSafetyMonitor.OnRainInRegion` | mqttsafetymonitor.py:136-140 | the flag becomes true iff the payload is exactly `"true"`; nothing else changes |
| `SafetyMonitor.MqttSafetyMonitor.OnWindSpeedAvg` | mqttsafetymonitor.py:142-146 | stores the km/h payload converted to m/s (times 1000/3600) and changes nothing else |
| `SafetyMonitor.ConfiguredLimitIgnored` | mqttsafetymonitor.py:43-44 | a monitor configured with a 50 % limit is unsafe at 30 % probability of precipitation with all else fair: every other topic's conjunct holds and only the probability conjunct fails, because the limit in force is 5 |

## Left out

- MQTT client plumbing (`mqttsafetymonitor.py:40-65`) is left out. This covers client
  construction, credentials, connect, callback registration, subscriptions,
  the liveness publish, `will_set` and `loop_start`. It all lives in an external library and does I/O.
- `Config` is left out: it is configuration only, and the `config` module is not
  part of this model. The precipitation limit matters to the model, but the
  line that reads it has no effect.
- Logging calls are left out. They are side effects with no logic.
- `on_connect` and `on_disconnect` (`mqttsafetymonitor.py:99-103`) only log. They do not change `connected`, so they are left out.
- The lock is left out. Concurrency is not modelled: each method is one sequential, atomic
  step, which is what the single coarse lock gives the source.
- Payload decoding and float parsing (`msg.payload.decode`, `float(...)`) are
  left out. They are foreign library calls, and each method takes the parsed value.
  The source has no handling for malformed input (a bad payload raises inside
  the callback), so the model has no error path for it either.
- `time.time()` is a wall-clock read. It becomes the `now` parameter of the rain handler.
- IEEE floating point is left out. Readings are exact reals, so `36 * (1000/3600)`
  is exactly 10, and rounding in the rate formula is not modelled.
- `OnEventRain`: a rain event whose time is not strictly later than the stored
  current rain time is excluded by precondition. The source does run in both excluded cases:
  - An equal time raises `ZeroDivisionError` at line 123. By then lines 119-122
    have overwritten all four rain-history fields, `rainRate` keeps its old value, and
    the release at line 128 is skipped, so the lock stays held.
  - An earlier time (the wall clock stepped back) divides by a negative gap and
    returns a value. A rising counter gives a negative rate, which lines 124-125
    set to 0: counter 5 to 6 mm with time 100 to 90 gives 0, so no rain is
    reported while the counter rises. A falling counter gives a positive rate:
    6 to 5 mm over the same times gives 360 mm/h.
