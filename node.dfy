/** The node's process-wide state and the operations of main.cpp that change
    it: the simulated environment step, the lamp tracker, the consumption
    query, the hourly report, the command callback and one pass of the
    control loop. `now` (millis()) and the random draws are parameters. */
module Node {
  import opened Base
  import opened Environment
  import opened LampAccounting
  import opened Reporting
  import opened Commands

  class LightingNode {
    /** horaSimulada, minutoSimulado */
    var hour: int
    var minute: int
    /** lastSimUpdate: instant of the last simulated-minute tick */
    var lastSimUpdate: U32
    /** mudouDeHora: the report trigger */
    var hourChanged: bool
    /** tempoRestanteMovimento: presence memory */
    var presenceMemory: int
    /** tempoLedLigadoMs, ultimoEstadoLedMs, ledEstaLigado */
    var ledOnMs: U32
    var ledLastMs: U32
    var ledOn: bool
    /** ultimoConsumoKwh, consumoAcumuladoKwh, consumoDiarioKwh */
    var lastKwh: real
    var cumulativeKwh: real
    var dailyKwh: real
    /** lastMsg: the control loop's static instant of the last sensor sample */
    var lastMsg: U32
    /** The on-time as an unbounded sum; ledOnMs is its 32-bit image. */
    ghost var totalOnMs: nat

    ghost predicate Valid()
      reads this
    {
      ValidEnv(EnvView()) && ledOnMs == totalOnMs % TWO_32
    }

    /** Between passes of the control loop the report flag is down and the
        simulated clock ticked at the last sensor sample. */
    ghost predicate Idle()
      reads this
    {
      !hourChanged && lastSimUpdate == lastMsg
    }

    function EnvView(): Env
      reads this
    {
      Env(hour, minute, presenceMemory, hourChanged)
    }

    function LampView(): Lamp
      reads this
    {
      Lamp(ledOn, ledOnMs, ledLastMs)
    }

    function AccView(): Accumulators
      reads this
    {
      Accumulators(lastKwh, cumulativeKwh, dailyKwh)
    }

    /** Power-up: midnight, lamp off, all accumulators zero. */
    constructor ()
      ensures Valid() && Idle()
      ensures EnvView() == Env(0, 0, 0, false)
      ensures LampView() == Startup && AccView() == Zero
      ensures lastMsg == 0 && totalOnMs == 0
    {
      hour, minute, lastSimUpdate, hourChanged, presenceMemory := 0, 0, 0, false, 0;
      ledOnMs, ledLastMs, ledOn := 0, 0, false;
      lastKwh, cumulativeKwh, dailyKwh := 0.0, 0.0, 0.0;
      lastMsg := 0;
      totalOnMs := 0;
    }

    /** gerarAmbienteSimulado: when a simulated minute of real time has
        elapsed the clock ticks; then a reading is sampled for the hour. */
    method GenerateEnvironment(now: U32, rng: (int, int) -> int) returns (reading: Reading)
      requires Valid() && ArduinoRandom(rng)
      modifies this`hour, this`minute, this`lastSimUpdate, this`hourChanged, this`presenceMemory
      ensures Valid()
      ensures var ticked := Sub32(now, old(lastSimUpdate)) >= SimSpeedMs;
              && lastSimUpdate == (if ticked then now else old(lastSimUpdate))
              && (EnvView(), reading) == Sample(if ticked then Tick(old(EnvView())) else old(EnvView()), rng)
    {
      AdvanceClock(now);
      reading := SampleReading(rng);
    }

    /** The accelerated clock of the generator: when at least a simulated
        minute of real time has passed, one tick. */
    method AdvanceClock(now: U32)
      requires Valid()
      modifies this`hour, this`minute, this`lastSimUpdate, this`hourChanged, this`presenceMemory
      ensures Valid()
      ensures var ticked := Sub32(now, old(lastSimUpdate)) >= SimSpeedMs;
              && lastSimUpdate == (if ticked then now else old(lastSimUpdate))
              && EnvView() == (if ticked then Tick(old(EnvView())) else old(EnvView()))
    {
      if Sub32(now, lastSimUpdate) >= SimSpeedMs {
        lastSimUpdate := now;
        minute := minute + 1;
        if presenceMemory > 0 {
          presenceMemory := presenceMemory - 1;
        }
        if minute >= 60 {
          minute := 0;
          hour := hour + 1;
          if hour >= 24 {
            hour := 0;
          }
          hourChanged := true;
        }
      }
    }

    /** The sampling part of the generator: the light level for the hour and
        the presence value, which may start a new presence memory. */
    method SampleReading(rng: (int, int) -> int) returns (reading: Reading)
      requires Valid() && ArduinoRandom(rng)
      modifies this`presenceMemory
      ensures Valid()
      ensures (EnvView(), reading) == Sample(old(EnvView()), rng)
    {
      var light := 0;
      if hour >= 18 || hour < 6 {
        light := rng(2500, 4095);
      } else {
        light := rng(0, 800);
      }
      var presence := 0;
      if presenceMemory > 0 {
        presence := 1;
      } else {
        var chance := Threshold(hour);
        if rng(0, 100) < chance {
          presence := 1;
          presenceMemory := rng(15, 45);
        } else {
          presence := 0;
        }
      }
      reading := Reading(presence, light);
    }

    /** atualizarTempoLed: fold the time since the last observation into the
        on-time when the lamp is on; the on-time as a sum never decreases. */
    method UpdateLedTime(now: U32)
      requires Valid()
      modifies this`ledOnMs, this`ledLastMs, this`totalOnMs
      ensures Valid()
      ensures LampView() == Fold(old(LampView()), now)
      ensures totalOnMs == old(totalOnMs) + (if ledOn then Sub32(now, old(ledLastMs)) else 0)
    {
      if ledOn {
        ModAdd(totalOnMs, Sub32(now, ledLastMs));
        totalOnMs := totalOnMs + Sub32(now, ledLastMs);
        ledOnMs := Add32(ledOnMs, Sub32(now, ledLastMs));
      }
      ledLastMs := now;
    }

    /** registrarLedLigado */
    method RegisterLedOn(now: U32)
      requires Valid()
      modifies this`ledOnMs, this`ledLastMs, this`ledOn, this`totalOnMs
      ensures Valid()
      ensures LampView() == SwitchOn(old(LampView()), now)
      ensures totalOnMs == old(totalOnMs)
    {
      if !ledOn {
        UpdateLedTime(now);
        ledOn := true;
        ledLastMs := now;
      }
    }

    /** registrarLedDesligado */
    method RegisterLedOff(now: U32)
      requires Valid()
      modifies this`ledOnMs, this`ledLastMs, this`ledOn, this`totalOnMs
      ensures Valid()
      ensures LampView() == SwitchOff(old(LampView()), now)
      ensures totalOnMs == old(totalOnMs) + (if old(ledOn) then Sub32(now, old(ledLastMs)) else 0)
    {
      if ledOn {
        UpdateLedTime(now);
        ledOn := false;
      }
    }

    /** calcularConsumoKwh */
    method ConsumptionKwh(now: U32) returns (kwh: real)
      requires Valid()
      modifies this`ledOnMs, this`ledLastMs, this`totalOnMs
      ensures Valid()
      ensures (LampView(), kwh) == Consumption(old(LampView()), now)
      ensures totalOnMs == old(totalOnMs) + (if ledOn then Sub32(now, old(ledLastMs)) else 0)
    {
      if ledOn {
        UpdateLedTime(now);
        ledLastMs := now;
      }
      kwh := KwhOf(ledOnMs);
    }

    /** publicarRelatorioHorario, numeric part: the report figures, then the
        day closeout at hour 0. */
    method PublishHourlyReport(now: U32) returns (report: HourReport)
      requires Valid()
      modifies this`ledOnMs, this`ledLastMs, this`totalOnMs, this`lastKwh, this`cumulativeKwh, this`dailyKwh
      ensures Valid()
      ensures var (l, kwh) := Consumption(old(LampView()), now);
              && LampView() == l
              && (report, AccView()) == Publish(old(AccView()), Observation(hour, kwh, l.onMs, l.on))
      ensures totalOnMs >= old(totalOnMs)
    {
      cumulativeKwh := ConsumptionKwh(now);
      var hourKwh := cumulativeKwh - lastKwh;
      var hourWh := hourKwh * 1000.0;
      lastKwh := cumulativeKwh;
      dailyKwh := dailyKwh + hourKwh;
      var hours := if hour == 0 then 24 else hour;
      var averageWh := (dailyKwh * 1000.0) / hours as real;
      var totalWh := dailyKwh * 1000.0;
      var onMinutes := (ledOnMs as real / 1000.0) / 60.0;
      report := HourReport(cumulativeKwh, hourWh, averageWh, totalWh, onMinutes, ledOn);
      if hour == 0 {
        dailyKwh := 0.0;
      }
    }

    /** callback: exact "ON"/"OFF" on the lamp-command topic switch the lamp. */
    method Callback(topic: string, payload: string, now: U32)
      requires Valid()
      modifies this`ledOnMs, this`ledLastMs, this`ledOn, this`totalOnMs
      ensures Valid()
      ensures LampView() == Handle(old(LampView()), topic, payload, now)
      ensures totalOnMs >= old(totalOnMs)
    {
      if topic == LedCmdTopic {
        if payload == "ON" {
          RegisterLedOn(now);
        } else if payload == "OFF" {
          RegisterLedOff(now);
        }
      }
    }

    /** The sensor step of loop(): when more than a simulated minute has
        passed since the last sample, the generator runs (so the clock
        ticks) and its reading is the sensor publication. */
    method SampleIfDue(now: U32, rng: (int, int) -> int) returns (sensor: Option<Reading>)
      requires Valid() && Idle() && ArduinoRandom(rng)
      modifies this`lastMsg, this`hour, this`minute, this`lastSimUpdate, this`hourChanged, this`presenceMemory
      ensures Valid() && lastSimUpdate == lastMsg
      ensures sensor.Some? <==> Sub32(now, old(lastMsg)) > SimSpeedMs
      ensures sensor.Some? ==> lastMsg == now && (EnvView(), sensor.value) == Step(old(EnvView()), rng)
      ensures sensor.None? ==> lastMsg == old(lastMsg) && EnvView() == old(EnvView())
    {
      sensor := None;
      if Sub32(now, lastMsg) > SimSpeedMs {
        lastMsg := now;
        var reading := GenerateEnvironment(now, rng);
        sensor := Some(reading);
      }
    }

    /** The report step of loop(): when the hour has rolled over, the
        trigger is cleared and then the hourly report is computed. */
    method ReportIfHourChanged(now: U32) returns (report: Option<HourReport>)
      requires Valid()
      modifies this`hourChanged, this`ledOnMs, this`ledLastMs, this`totalOnMs
      modifies this`lastKwh, this`cumulativeKwh, this`dailyKwh
      ensures Valid() && !hourChanged
      ensures report.Some? <==> old(hourChanged)
      ensures report.Some? ==>
                var (l, kwh) := Consumption(old(LampView()), now);
                && LampView() == l
                && (report.value, AccView()) == Publish(old(AccView()), Observation(hour, kwh, l.onMs, l.on))
      ensures report.None? ==> LampView() == old(LampView()) && AccView() == old(AccView())
      ensures totalOnMs >= old(totalOnMs)
    {
      report := None;
      if hourChanged {
        hourChanged := false;
        var figures := PublishHourlyReport(now);
        report := Some(figures);
      }
    }

    /** One pass of loop() after the transport pump: a sensor sample when more
        than a simulated minute has passed since the last one, then the report
        if the hour rolled over, with the trigger cleared first. Every sample
        advances the simulated clock by exactly one minute, and a report is
        produced exactly when that minute completes an hour. */
    method Loop(now: U32, rng: (int, int) -> int) returns (sensor: Option<Reading>, report: Option<HourReport>)
      requires Valid() && Idle() && ArduinoRandom(rng)
      modifies this
      ensures Valid() && Idle()
      ensures sensor.Some? <==> Sub32(now, old(lastMsg)) > SimSpeedMs
      ensures sensor.Some? ==> lastMsg == now
      ensures sensor.None? ==> lastMsg == old(lastMsg) && EnvView() == old(EnvView())
      ensures sensor.Some? ==>
                var (e, r) := Sample(Tick(old(EnvView())), rng);
                EnvView() == e.(hourChanged := false) && sensor.value == r
      ensures sensor.Some? ==> MinuteOfDay(EnvView()) == (MinuteOfDay(old(EnvView())) + 1) % MinutesPerDay
      ensures report.Some? <==> sensor.Some? && old(minute) == 59
      ensures report.Some? ==>
                var (l, kwh) := Consumption(old(LampView()), now);
                && LampView() == l
                && (report.value, AccView()) == Publish(old(AccView()), Observation(hour, kwh, l.onMs, l.on))
      ensures report.None? ==> LampView() == old(LampView()) && AccView() == old(AccView())
      ensures totalOnMs >= old(totalOnMs)
    {
      ghost var env0 := EnvView();
      sensor := SampleIfDue(now, rng);
      ghost var env1 := EnvView();
      if sensor.Some? {
        StepAdvancesClock(env0, rng);
        assert env1 == Step(env0, rng).0;
      }
      report := ReportIfHourChanged(now);
      assert EnvView() == env1.(hourChanged := false);
    }
  }
}
