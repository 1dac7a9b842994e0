/** The simulated environment: an accelerated minute/hour clock, the
    presence memory and the light and presence readings drawn from
    hour bands (main.cpp, gerarAmbienteSimulado). */
module Environment {

  /** Real milliseconds per simulated minute (VELOCIDADE_SIMULACAO). */
  const SimSpeedMs: int := 1000

  /** Minutes in a simulated day. */
  const MinutesPerDay: int := 1440

  /** The simulator's state: simulated hour and minute, the presence memory
      (tempoRestanteMovimento) and the hourly report flag (mudouDeHora). */
  datatype Env = Env(hour: int, minute: int, memory: int, hourChanged: bool)

  /** One synthetic sample: presence (0 or 1) and light level. */
  datatype Reading = Reading(presence: int, light: int)

  ghost predicate ValidEnv(e: Env)
  {
    0 <= e.hour < 24 && 0 <= e.minute < 60 && 0 <= e.memory < 45
  }

  /** Position of the simulated clock within the day, in minutes. */
  function MinuteOfDay(e: Env): int
  {
    e.hour * 60 + e.minute
  }

  /** Arduino's `random(lo, hi)` returns a value in [lo, hi). One invocation of
      the generator makes at most one call per argument pair, so the calls
      it makes are modelled by a single function of the bounds. */
  ghost predicate ArduinoRandom(rng: (int, int) -> int)
  {
    forall lo, hi :: lo < hi ==> lo <= rng(lo, hi) < hi
  }

  /** One simulated-minute tick: the minute advances, the presence memory
      counts down towards zero, and an hour rollover (wrapping to 0 after
      23) raises the report flag. */
  function Tick(e: Env): (r: Env)
    requires ValidEnv(e)
    ensures ValidEnv(r)
    ensures MinuteOfDay(r) == (MinuteOfDay(e) + 1) % MinutesPerDay
    ensures r.memory == if e.memory > 0 then e.memory - 1 else 0
    ensures r.hourChanged == (e.hourChanged || r.minute == 0)
    ensures r.minute == 0 <==> e.minute == 59
  {
    var minute := e.minute + 1;
    var memory := if e.memory > 0 then e.memory - 1 else e.memory;
    if minute >= 60 then
      var hour := if e.hour + 1 >= 24 then 0 else e.hour + 1;
      Env(hour, 0, memory, true)
    else
      Env(e.hour, minute, memory, e.hourChanged)
  }

  /** Night is 18h to 6h: dark readings. */
  predicate IsNight(hour: int)
  {
    hour >= 18 || hour < 6
  }

  /** The light level for an hour: dark at night, bright by day. */
  function Light(hour: int, rng: (int, int) -> int): (v: int)
    requires ArduinoRandom(rng)
    ensures IsNight(hour) ==> 2500 <= v < 4095
    ensures !IsNight(hour) ==> 0 <= v < 800
    ensures v == if IsNight(hour) then rng(2500, 4095) else rng(0, 800)
  {
    if IsNight(hour) then rng(2500, 4095) else rng(0, 800)
  }

  /** Percentage chance that someone enters: evening peak, day, small hours.
      Over a valid hour the day band of the chance is exactly the day band of
      the light level. */
  function Threshold(hour: int): (t: int)
    ensures 18 <= hour <= 23 ==> t == 35
    ensures 6 <= hour < 18 ==> t == 10
    ensures hour < 6 || 23 < hour ==> t == 5
    ensures 0 <= hour < 24 ==> (t == 10 <==> !IsNight(hour))
  {
    if hour >= 18 && hour <= 23 then 35
    else if hour >= 6 && hour < 18 then 10
    else 5
  }

  /** The sampling part of the generator: a light level and a presence value.
      While the presence memory runs, presence is 1 with no draw; otherwise a
      draw below the hour's threshold triggers presence and a fresh memory. */
  function Sample(e: Env, rng: (int, int) -> int): (r: (Env, Reading))
    requires ValidEnv(e) && ArduinoRandom(rng)
    ensures ValidEnv(r.0)
    ensures r.0.hour == e.hour && r.0.minute == e.minute && r.0.hourChanged == e.hourChanged
    ensures r.1.light == Light(e.hour, rng)
    ensures r.1.presence == 0 || r.1.presence == 1
    ensures e.memory > 0 ==> r.1.presence == 1 && r.0.memory == e.memory
    ensures e.memory == 0 ==> (r.1.presence == 1 <==> rng(0, 100) < Threshold(e.hour))
    ensures e.memory == 0 && r.1.presence == 1 ==> r.0.memory == rng(15, 45) && 15 <= r.0.memory < 45
    ensures r.1.presence == 0 ==> r.0.memory == 0
  {
    var light := Light(e.hour, rng);
    if e.memory > 0 then
      (e, Reading(1, light))
    else if rng(0, 100) < Threshold(e.hour) then
      (e.(memory := rng(15, 45)), Reading(1, light))
    else
      (e, Reading(0, light))
  }

  /** A generator call in which the clock ticks, then samples. */
  function Step(e: Env, rng: (int, int) -> int): (Env, Reading)
    requires ValidEnv(e) && ArduinoRandom(rng)
  {
    Sample(Tick(e), rng)
  }

  /** A ticking generator call advances the clock by exactly one minute of
      the day and raises the report flag when that minute completes an hour. */
  lemma StepAdvancesClock(e: Env, rng: (int, int) -> int)
    requires ValidEnv(e) && ArduinoRandom(rng)
    ensures MinuteOfDay(Step(e, rng).0) == (MinuteOfDay(e) + 1) % MinutesPerDay
    ensures Step(e, rng).0.hourChanged == (e.hourChanged || e.minute == 59)
  {
    var t := Tick(e);
    assert Step(e, rng).0.hour == t.hour && Step(e, rng).0.minute == t.minute;
  }

  ghost predicate AllRandom(rngs: seq<(int, int) -> int>)
  {
    forall i :: 0 <= i < |rngs| ==> ArduinoRandom(rngs[i])
  }

  /** The environment after one ticking generator call per draw source. */
  function Steps(e: Env, rngs: seq<(int, int) -> int>): (r: (Env, seq<Reading>))
    requires ValidEnv(e) && AllRandom(rngs)
    ensures ValidEnv(r.0) && |r.1| == |rngs|
    decreases |rngs|
  {
    if rngs == [] then (e, [])
    else
      var (e1, reading) := Step(e, rngs[0]);
      var (e2, rest) := Steps(e1, rngs[1..]);
      (e2, [reading] + rest)
  }

  /** n ticks advance the clock by n minutes modulo one day. */
  function Ticks(e: Env, n: nat): (r: Env)
    requires ValidEnv(e)
    ensures ValidEnv(r)
    decreases n
  {
    if n == 0 then e else Tick(Ticks(e, n - 1))
  }

  lemma {:induction false} TicksAdvanceClock(e: Env, n: nat)
    requires ValidEnv(e)
    ensures MinuteOfDay(Ticks(e, n)) == (MinuteOfDay(e) + n) % MinutesPerDay
    decreases n
  {
    if n > 0 {
      TicksAdvanceClock(e, n - 1);
      ClockStep(MinuteOfDay(e) + n - 1);
    }
  }

  /** n ticks run the presence memory down by n, stopping at 0. */
  lemma {:induction false} TicksDrainMemory(e: Env, n: nat)
    requires ValidEnv(e)
    ensures Ticks(e, n).memory == if e.memory > n then e.memory - n else 0
    decreases n
  {
    if n > 0 {
      TicksDrainMemory(e, n - 1);
    }
  }

  /** One more minute on a clock read modulo a day. */
  lemma ClockStep(a: nat)
    ensures (a % MinutesPerDay + 1) % MinutesPerDay == (a + 1) % MinutesPerDay
  {
    var q := a / MinutesPerDay;
    var r := a % MinutesPerDay;
    assert a == q * MinutesPerDay + r;
    if r + 1 == MinutesPerDay {
      assert a + 1 == (q + 1) * MinutesPerDay;
    } else {
      assert a + 1 == q * MinutesPerDay + (r + 1);
    }
  }

  /** The band boundaries: at 17h the light is always below 800, at 18h
      always at least 2500; at 5h it is still dark and at 6h bright. */
  lemma LightBandBoundaries(rng: (int, int) -> int)
    requires ArduinoRandom(rng)
    ensures 0 <= Light(17, rng) < 800
    ensures 2500 <= Light(18, rng) < 4095
    ensures 2500 <= Light(5, rng) < 4095
    ensures 0 <= Light(6, rng) < 800
  {
  }

  /** Presence memory: once a presence event sets the memory to D, the next
      D - 1 ticking generator calls report presence 1 whatever the draws
      (so presence holds for D samples counting the triggering one), and the
      memory counts down by exactly one per call. */
  lemma {:induction false} PresenceHeld(e: Env, rngs: seq<(int, int) -> int>)
    requires ValidEnv(e) && AllRandom(rngs)
    requires |rngs| < e.memory
    ensures forall i :: 0 <= i < |rngs| ==> Steps(e, rngs).1[i].presence == 1
    ensures Steps(e, rngs).0.memory == e.memory - |rngs|
    decreases |rngs|
  {
    if rngs != [] {
      var (e1, reading) := Step(e, rngs[0]);
      assert reading.presence == 1;
      assert e1.memory == e.memory - 1;
      PresenceHeld(e1, rngs[1..]);
      var rest := Steps(e1, rngs[1..]).1;
      assert Steps(e, rngs).1 == [reading] + rest;
      forall i | 0 <= i < |rngs|
        ensures Steps(e, rngs).1[i].presence == 1
      {
        if i > 0 {
          assert Steps(e, rngs).1[i] == rest[i - 1];
        }
      }
    }
  }

  /** When the memory runs out on a tick, the sample is drawn again. */
  lemma PresenceResumes(e: Env, rng: (int, int) -> int)
    requires ValidEnv(e) && ArduinoRandom(rng)
    requires e.memory <= 1
    ensures Step(e, rng).1.presence == (if rng(0, 100) < Threshold(Tick(e).hour) then 1 else 0)
  {
  }
}
