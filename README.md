# Smart-lighting node: energy accounting and simulated day

This project models the core of the firmware of a single-room smart-lighting
node (an ESP32 sketch). The node runs a simulated day in which one real second
is one simulated minute. On every simulated minute it generates a synthetic
presence and light reading from hour bands and a short presence memory. It
switches a 9 W lamp on the exact MQTT payloads `"ON"` and `"OFF"`. It folds the
lamp's on-time into a 32-bit millisecond counter and turns that counter into
kWh. At every simulated hour rollover it computes an hourly report: the
cumulative kWh, the Wh of the hour, the day's average and total in Wh, the
on-time in minutes and the lamp state. At midnight, once the report figures
are computed, it resets the day's total.

Layout:

- `base.dfy` (module `Base`): 32-bit `unsigned long` arithmetic (`U32`,
  `Sub32`, `Add32`) and `Option`.
- `environment.dfy` (module `Environment`): the simulated clock, the presence
  memory and the light/presence bands, as pure functions over `Env`.
- `lamp.dfy` (module `LampAccounting`): the lamp tracker and the kWh formula,
  as pure functions over `Lamp`. It also gives a reference definition of
  on-time over a history of commands, and proves that the tracker matches it.
- `reporting.dfy` (module `Reporting`): the numeric part of the hourly report
  and the day closeout. It proves that the hourly deltas of a day add up to the
  total published at midnight.
- `commands.dfy` (module `Commands`): decoding of the lamp-command messages.
- `node.dfy` (module `Node`): class `LightingNode`, which holds the firmware's
  globals as fields. Its methods follow the firmware's functions statement by
  statement. Each method is proved against the pure functions above.

`millis()` is the parameter `now: U32`. The calls to Arduino `random(lo, hi)`
made in one invocation become one parameter `rng: (int, int) -> int`, which is
required to satisfy `lo <= rng(lo, hi) < hi`. One invocation never makes two
calls with the same bounds, so this is faithful. Float quantities are `real`.

## Model

| member | source | states |
|---|---|---|
| `Base.Sub32` | main.cpp:57 | unsigned subtraction of two `unsigned long`s is the unique 32-bit value that, added back to the subtrahend, wraps to the minuend; it is the plain difference when there is no rollover |
| `Base.Add32` | main.cpp:106 | unsigned `+=` on the on-time counter is the plain sum without overflow and the sum minus 2^32 with it |
| `Base.ModAdd` | main.cpp:106 | adding an increment to the 32-bit on-time counter equals wrapping the unbounded sum, so the counter is always the unbounded on-time modulo 2^32 |
| `Base.AddSubInverse` | main.cpp:106 | the wrap-safe difference undoes a wrapping addition: adding d and then taking the difference from the old value gives d back |
| `Base.ElapsedExact` | main.cpp:106 | the wrap-safe difference of two wrapped clock readings is the true elapsed time whenever less than 2^32 ms pass between them, across a clock rollover too |
| `Environment.Tick` | main.cpp:57-68 | one tick keeps hour in [0,24) and minute in [0,60), advances the minute of the day by one modulo 1440, decrements the presence memory by one when it is positive and never below 0, and raises the report flag exactly when the minute wraps from 59 to 0 |
| `Environment.StepAdvancesClock` | main.cpp:57-68 | one ticking generator call advances the minute of the day by exactly one, modulo a day, and raises the report flag exactly when the minute was 59 or the flag was already up |
| `Environment.TicksAdvanceClock` | main.cpp:57-68 | n ticks advance the clock by n minutes modulo one day |
| `Environment.TicksDrainMemory` | main.cpp:61 | n ticks run the presence memory down by n, stopping at 0 |
| `Environment.Light` | main.cpp:75-79 | the light level is the draw `random(2500, 4095)` from 18h to 6h and the draw `random(0, 800)` otherwise, so it lies in [2500,4095) at night and in [0,800) by day |
| `Environment.Threshold` | main.cpp:86-88 | the presence chance is 35 from 18h to 23h, 10 from 6h to 17h and 5 otherwise; over a valid hour it is the day figure exactly when the light band is the day band |
| `Environment.LightBandBoundaries` | main.cpp:75-79 | the light level is below 800 at 17h and at least 2500 at 18h; it is dark at 5h and bright at 6h |
| `Environment.Sample` | main.cpp:71-99 | while the memory is positive, presence is 1 and the memory is left as it was; otherwise presence is 1 exactly when the draw is below the hour's threshold (35, 10 or 5), and then the new memory is the draw `random(15, 45)`, in [15,45); presence 0 leaves the memory at 0; hour, minute and flag are unchanged |
| `Environment.PresenceHeld` | main.cpp:57-97 | once the memory holds D, the next D-1 ticking samples report presence 1 whatever the draws, and the memory falls by exactly one per sample |
| `Environment.PresenceResumes` | main.cpp:82-97 | when the memory reaches 0 on a tick, presence is drawn again against the threshold of the new hour |
| `LampAccounting.Fold` | main.cpp:103-109 | the time since the last observation is added (mod 2^32) to the on-time only when the lamp is on; the observation instant always becomes `now` |
| `LampAccounting.SwitchOn` | main.cpp:111-117 | after an ON the lamp is on, no on-time has been added, and an ON while already on changes nothing |
| `LampAccounting.SwitchOff` | main.cpp:119-124 | after an OFF the lamp is off, the running interval has been folded in, and an OFF while already off changes nothing |
| `LampAccounting.KwhOf` | main.cpp:131-132 | kWh = 9 W × (ms / 3,600,000) / 1000 = ms / 400,000,000, never negative |
| `LampAccounting.Consumption` | main.cpp:126-133 | a query while lit is a fold at `now`, so the observation instant moves to `now`; a query while off changes nothing; the lamp state is kept and the result is the kWh of the folded on-time |
| `LampAccounting.ConsumptionIdempotent` | main.cpp:126-133 | two queries at the same instant give the same figure and leave the same state |
| `LampAccounting.OnOffScenario` | main.cpp:111-124 | ON at t, OFF at t+120000 adds exactly 120000 ms, even when the millisecond clock rolls over in between |
| `LampAccounting.KwhScenario` | main.cpp:131-132 | 120000 ms of on-time is 0.0003 kWh |
| `LampAccounting.OnTimeCounterWraps` | main.cpp:106 | the on-time counter wraps after 2^32 ms, and the cumulative kWh then falls |
| `LampAccounting.FoldAfterEvent` | main.cpp:103-133 | after a command or query that folds, the on-time read later grows by the time since the event exactly when the event leaves the lamp lit |
| `LampAccounting.RunMatchesOnTime` | main.cpp:103-133 | for any history of ON, OFF and query events spanning less than 2^32 ms, the lamp state is the last command's and the on-time read at the end is (initial on-time + the total length of the lit stretches) mod 2^32: each lit stretch counts once, and no time while off counts |
| `LampAccounting.StartupOnTime` | main.cpp:103-124 | from power-up, within 2^32 ms, the folded on-time equals the total length of the lit stretches exactly |
| `Reporting.HoursElapsed` | main.cpp:147 | the divisor lies in [1,24] and is congruent to the hour modulo 24, so a report at hour 0 counts 24 hours |
| `Reporting.Publish` | main.cpp:138-173 | the hourly Wh is (cumulative − last) × 1000; the day total includes this hour; average × hours = total; last and cumulative become the new figure; the day total is reset to 0 only at hour 0, after the figures have been computed |
| `Reporting.DeltasTelescope` | main.cpp:140-144 | within a day, the hourly deltas add up to the growth of the day total and to the growth of the cumulative figure |
| `Reporting.DayCloseout` | main.cpp:140-173 | from a closed day, the reports at hours 1..23 and 0 publish at midnight a total equal to the sum of the 24 hourly deltas and an average of that total over 24 hours, and leave the day total 0 |
| `Commands.Decode` | main.cpp:208-215 | a message is an ON (OFF) command exactly when its topic is the lamp-command topic and its payload is exactly "ON" ("OFF"); anything else is no command |
| `Commands.Handle` | main.cpp:208-215 | an unrecognised message leaves the lamp as it was; a command sets the lamp on or off as it names; the on-time changes only for an OFF of a lit lamp |
| `Commands.HandleSemantics` | main.cpp:204-217 | a command that repeats the current state changes nothing; an OFF of a lit lamp folds the running stretch in at `now`; an ON of a dark lamp starts a new stretch at `now` |
| `Commands.CaseSensitive` | main.cpp:208-215 | "on", "Off" and commands on other topics are ignored |
| `Node.LightingNode.constructor` | main.cpp:27-50 | power-up state: midnight, lamp off, all counters and accumulators zero |
| `Node.LightingNode.AdvanceClock` | main.cpp:57-69 | the clock ticks exactly when `now - lastSimUpdate >= 1000` (wrap-safe); the new clock, memory and flag are then `Tick` of the old ones and `lastSimUpdate` becomes `now`; otherwise nothing changes |
| `Node.LightingNode.SampleReading` | main.cpp:71-97 | the new presence memory and the reading are those of `Sample` of the current state |
| `Node.LightingNode.GenerateEnvironment` | main.cpp:53-100 | the clock ticks exactly when `now - lastSimUpdate >= 1000` (wrap-safe), and then the new state and reading are those of `Sample` |
| `Node.LightingNode.UpdateLedTime` | main.cpp:103-109 | the lamp becomes `Fold` of the old lamp; the unbounded on-time grows by the elapsed time when on and never decreases, and the counter stays its 32-bit image |
| `Node.LightingNode.RegisterLedOn` | main.cpp:111-117 | the lamp becomes `SwitchOn` of the old lamp; no on-time is added |
| `Node.LightingNode.RegisterLedOff` | main.cpp:119-124 | the lamp becomes `SwitchOff` of the old lamp; the on-time grows by the running interval only if the lamp was on |
| `Node.LightingNode.ConsumptionKwh` | main.cpp:126-133 | lamp state and result are those of `Consumption` |
| `Node.LightingNode.PublishHourlyReport` | main.cpp:136-174 | the report and accumulators are those of `Publish` applied to a forced consumption query at `now` and to the current hour |
| `Node.LightingNode.Callback` | main.cpp:204-217 | the lamp becomes `Handle` of the message; the on-time never decreases |
| `Node.LightingNode.SampleIfDue` | main.cpp:252-271 | a sample is taken exactly when `now - lastMsg > 1000` (wrap-safe); it is one ticking generator call (`Step`), and `lastMsg` becomes `now`; otherwise the clock and the presence memory are untouched |
| `Node.LightingNode.ReportIfHourChanged` | main.cpp:273-277 | a report is produced exactly when the hour has rolled over; the trigger is always down afterwards; the report and accumulators are `Publish` of a forced query at `now` |
| `Node.LightingNode.Loop` | main.cpp:245-278 | a sample is taken exactly when `now - lastMsg > 1000`; each sample ticks the clock by exactly one minute; a report is produced exactly when that minute completes an hour, with the flag cleared first; between passes the flag is down |

## Behaviour worth noting

- Presence memory: a trigger stores the draw D as the memory
  (main.cpp:93). Each later tick decrements the memory before it is tested
  (main.cpp:61, 82). So presence is forced on the D-1 samples after the
  trigger, which makes D samples counting the trigger.
  `Environment.PresenceHeld` states this.
- Night light level: `random(2500, 4095)` never returns 4095, so the night
  level lies in [2500,4095) (main.cpp:75-79).
- On-time counter: `tempoLedLigadoMs` is a 32-bit `unsigned long` and wraps
  after 2^32 ms of on-time. The cumulative kWh, and hence that hour's delta,
  then fall (`LampAccounting.OnTimeCounterWraps`). The model keeps the wrap.
  Monotonicity is proved of the unbounded on-time, which the class keeps as
  the ghost field `totalOnMs`.

## Left out

- Network: `setup_wifi`, `reconnect`, `setup`, and the MQTT client's connect,
  subscribe, publish and pump calls. They are I/O through libraries not shown,
  with blocking retries and a restart. Inbound commands are applied by calling
  `Callback` between passes of `Loop`.
- Serial debug output and the assembly of the JSON strings with
  `String(x, n)` decimal formatting. A report is the record `HourReport` of its
  six fields, and a sensor publication is the returned `Reading`.
- Pins: `digitalWrite`, `digitalRead`, `analogRead`, `pinMode` and the
  real-sensor `#else` branch of `loop`.
- IEEE `float` rounding: kWh and Wh figures are exact reals.
- `random`, `randomSeed` and `millis` themselves: draws and `now` are inputs.
- Node.LightingNode.Loop: each entry point reads `millis()` once, as one `now`.
  The firmware reads it again inside `gerarAmbienteSimulado`,
  `registrarLedLigado` and `calcularConsumoKwh`. So the model does not capture
  the milliseconds that may pass between two such reads. In the firmware, that
  can make a sample skip its clock tick, or drop a millisecond of on-time.
- Commands.Decode: payloads are taken as character strings. Neither the
  byte-to-`char` conversion that builds `message` from `length` raw bytes
  (main.cpp:205-206) nor the comparison semantics of the Arduino `String`
  class against a C string literal is modelled. If that comparison stops at
  a NUL byte, a payload such as "ON" followed by a NUL and more bytes would
  also switch the lamp, and the model does not capture that. The `String`
  class is not part of this model.
