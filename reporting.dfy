/** The numeric part of the hourly consumption report and the day closeout
    (main.cpp, publicarRelatorioHorario). Float quantities are reals. */
module Reporting {
  import opened Base

  /** Energy accumulators: the cumulative figure of the previous report
      (ultimoConsumoKwh), the latest cumulative figure (consumoAcumuladoKwh)
      and the running total of the current day (consumoDiarioKwh). */
  datatype Accumulators = Accumulators(lastKwh: real, cumulativeKwh: real, dailyKwh: real)

  const Zero: Accumulators := Accumulators(0.0, 0.0, 0.0)

  /** What a report is computed from: the simulated hour just reached, the
      cumulative consumption read at report time, the folded on-time and the
      lamp state. */
  datatype Observation = Observation(hour: int, kwh: real, onMs: U32, ledOn: bool)

  /** The six published figures: consumo_kwh, consumo_wh, media_dia_wh,
      total_dia_wh, tempo_ligado_min and led_estado. */
  datatype HourReport = HourReport(
    kwh: real, hourWh: real, dayAverageWh: real, dayTotalWh: real, onMinutes: real, ledOn: bool)

  /** Hours of the day completed when a report is due at `hour`: a report at
      hour 0 closes the day, so it counts 24. */
  function HoursElapsed(hour: int): (n: int)
    requires 0 <= hour < 24
    ensures 1 <= n <= 24 && n % 24 == hour
  {
    if hour == 0 then 24 else hour
  }

  /** One report: the delta since the previous report is added to the day,
      the day's total and hourly average are taken from the day including this
      hour, and only afterwards, at hour 0, the day total is reset. */
  function Publish(acc: Accumulators, o: Observation): (r: (HourReport, Accumulators))
    requires 0 <= o.hour < 24
    ensures r.0.kwh == o.kwh && r.0.ledOn == o.ledOn
    ensures r.0.hourWh == (o.kwh - acc.lastKwh) * 1000.0
    ensures r.0.dayTotalWh == acc.dailyKwh * 1000.0 + r.0.hourWh
    ensures r.0.dayAverageWh * HoursElapsed(o.hour) as real == r.0.dayTotalWh
    ensures r.0.onMinutes * 60000.0 == o.onMs as real
    ensures r.1.lastKwh == o.kwh && r.1.cumulativeKwh == o.kwh
    ensures o.hour == 0 ==> r.1.dailyKwh == 0.0
    ensures o.hour != 0 ==> r.1.dailyKwh * 1000.0 == r.0.dayTotalWh
  {
    var hourKwh := o.kwh - acc.lastKwh;
    var hourWh := hourKwh * 1000.0;
    var daily := acc.dailyKwh + hourKwh;
    var averageWh := (daily * 1000.0) / HoursElapsed(o.hour) as real;
    var totalWh := daily * 1000.0;
    var onMinutes := (o.onMs as real / 1000.0) / 60.0;
    var report := HourReport(o.kwh, hourWh, averageWh, totalWh, onMinutes, o.ledOn);
    (report, Accumulators(o.kwh, o.kwh, if o.hour == 0 then 0.0 else daily))
  }

  ghost predicate ValidHours(obs: seq<Observation>)
  {
    forall i :: 0 <= i < |obs| ==> 0 <= obs[i].hour < 24
  }

  /** The reports produced by a sequence of observations, and the final
      accumulators. */
  function RunReports(acc: Accumulators, obs: seq<Observation>): (r: (seq<HourReport>, Accumulators))
    requires ValidHours(obs)
    ensures |r.0| == |obs|
  {
    if obs == [] then ([], acc)
    else
      var (reps, acc') := RunReports(acc, obs[..|obs| - 1]);
      var (rep, acc'') := Publish(acc', obs[|obs| - 1]);
      (reps + [rep], acc'')
  }

  /** Sum of the hourly deltas (consumo_wh) of some reports. */
  function SumHourWh(reps: seq<HourReport>): real
  {
    if reps == [] then 0.0 else SumHourWh(reps[..|reps| - 1]) + reps[|reps| - 1].hourWh
  }

  /** Within a day (no report at hour 0), the hourly deltas add up to the
      growth of the day total, and they telescope: their sum is the growth
      of the cumulative figure between the first and the last report. */
  lemma {:induction false} DeltasTelescope(acc: Accumulators, obs: seq<Observation>)
    requires ValidHours(obs)
    requires forall i :: 0 <= i < |obs| ==> obs[i].hour != 0
    ensures var (reps, acc') := RunReports(acc, obs);
            SumHourWh(reps) == (acc'.dailyKwh - acc.dailyKwh) * 1000.0
            && SumHourWh(reps) == (acc'.lastKwh - acc.lastKwh) * 1000.0
  {
    if obs != [] {
      var prefix := obs[..|obs| - 1];
      assert ValidHours(prefix);
      DeltasTelescope(acc, prefix);
      var (reps, acc1) := RunReports(acc, prefix);
      var (rep, acc2) := Publish(acc1, obs[|obs| - 1]);
      assert RunReports(acc, obs) == (reps + [rep], acc2);
      assert (reps + [rep])[..|reps|] == reps;
    }
  }

  /** Conservation over a day: starting from a closed day, reports at hours
      1, 2, ..., 23 and then 0 publish at midnight a day total equal to the
      sum of the 24 hourly deltas, an average of that total over 24 hours, and
      leave the day total reset to zero. */
  lemma {:induction false} DayCloseout(acc: Accumulators, obs: seq<Observation>)
    requires |obs| == 24 && acc.dailyKwh == 0.0
    requires forall i :: 0 <= i < 24 ==> obs[i].hour == (i + 1) % 24
    ensures var (reps, acc') := RunReports(acc, obs);
            && reps[23].dayTotalWh == SumHourWh(reps)
            && reps[23].dayAverageWh == SumHourWh(reps) / 24.0
            && acc'.dailyKwh == 0.0
            && acc'.lastKwh == obs[23].kwh
  {
    assert ValidHours(obs);
    var day := obs[..23];
    assert ValidHours(day);
    DeltasTelescope(acc, day);
    var (reps, acc1) := RunReports(acc, day);
    var (rep, acc2) := Publish(acc1, obs[23]);
    assert obs[..|obs| - 1] == day;
    assert RunReports(acc, obs) == (reps + [rep], acc2);
    assert (reps + [rep])[..23] == reps;
    assert HoursElapsed(obs[23].hour) == 24;
  }
}
