/** Lamp on-time tracking and the consumption figure derived from it
    (main.cpp: atualizarTempoLed, registrarLedLigado, registrarLedDesligado,
    calcularConsumoKwh). */
module LampAccounting {
  import opened Base

  /** Rated power of the lamp (POTENCIA_LAMPADA_WATTS). */
  const LampWatts: real := 9.0

  /** Lamp state: whether it is on (ledEstaLigado), the folded on-time
      (tempoLedLigadoMs) and the instant of the last observation
      (ultimoEstadoLedMs). Both counters are 32-bit `unsigned long`s. */
  datatype Lamp = Lamp(on: bool, onMs: U32, lastMs: U32)

  /** The state at power-up. */
  const Startup: Lamp := Lamp(false, 0, 0)

  /** Folds the time since the last observation into the on-time when the
      lamp is on; the observation instant always moves to `now`. */
  function Fold(l: Lamp, now: U32): (r: Lamp)
    ensures r.on == l.on && r.lastMs == now
    ensures !l.on ==> r.onMs == l.onMs
    ensures l.on ==> (l.onMs + Sub32(now, l.lastMs)) % TWO_32 == r.onMs
  {
    if l.on then Lamp(l.on, Add32(l.onMs, Sub32(now, l.lastMs)), now)
    else Lamp(l.on, l.onMs, now)
  }

  /** The "ON" transition. Turning on adds no on-time (nothing accumulates
      while off), and an "ON" while already on changes nothing. */
  function SwitchOn(l: Lamp, now: U32): (r: Lamp)
    ensures r.on && r.onMs == l.onMs
    ensures l.on ==> r == l
    ensures !l.on ==> r.lastMs == now
  {
    if !l.on then Fold(l, now).(on := true, lastMs := now) else l
  }

  /** The "OFF" transition: the running interval is folded in before the lamp
      goes off; an "OFF" while already off changes nothing. */
  function SwitchOff(l: Lamp, now: U32): (r: Lamp)
    ensures !r.on
    ensures !l.on ==> r == l
    ensures l.on ==> r.onMs == Fold(l, now).onMs && r.lastMs == now
  {
    if l.on then Fold(l, now).(on := false) else l
  }

  /** Energy in kWh of an on-time in ms at the rated power:
      watts * (ms / 3,600,000 h) / 1000. */
  function KwhOf(onMs: U32): (kwh: real)
    ensures kwh == onMs as real / 400000000.0
    ensures 0.0 <= kwh
  {
    (LampWatts * (onMs as real / 3600000.0)) / 1000.0
  }

  /** A consumption query: when the lamp is on the running interval is folded
      in first, then the folded on-time is converted to kWh. */
  function Consumption(l: Lamp, now: U32): (r: (Lamp, real))
    ensures r.0.on == l.on
    ensures r.0.onMs == Fold(l, now).onMs
    ensures r.1 == KwhOf(r.0.onMs)
    ensures !l.on ==> r.0 == l
    ensures l.on ==> r.0 == Fold(l, now)
  {
    var l' := if l.on then Fold(l, now).(lastMs := now) else l;
    (l', KwhOf(l'.onMs))
  }

  /** Two queries at the same instant give the same figure and the same state. */
  lemma ConsumptionIdempotent(l: Lamp, now: U32)
    ensures Consumption(Consumption(l, now).0, now) == Consumption(l, now)
  {
    var l1 := Consumption(l, now).0;
    if l.on {
      assert Sub32(now, l1.lastMs) == 0;
    }
  }

  /** On at t, off 120 s later: exactly 120000 ms are added, even when the
      millisecond clock rolls over in between. */
  lemma OnOffScenario(l: Lamp, t: nat)
    requires !l.on
    ensures var r := SwitchOff(SwitchOn(l, t % TWO_32), (t + 120000) % TWO_32);
            !r.on && r.onMs == (l.onMs + 120000) % TWO_32
  {
    ElapsedExact(t, t + 120000);
  }

  /** 120000 ms at 9 W is 0.0003 kWh. */
  lemma KwhScenario()
    ensures KwhOf(120000) == 0.0003
  {
  }

  /** The folded on-time is a 32-bit counter: once the lamp has been on for
      2^32 ms (about 49.7 days) it wraps, and the consumption figure falls. */
  lemma OnTimeCounterWraps()
    ensures var l := Lamp(true, TWO_32 - 1000, 0);
            var (l', kwh) := Consumption(l, 2000);
            l'.onMs == 1000 && kwh < KwhOf(l.onMs)
  {
  }

  // ---- Reference definition of on-time over a command history ----

  /** What reaches the tracker: a command or a consumption query. */
  datatype Command = TurnOn | TurnOff | Query

  /** A command at an absolute (unwrapped) time in ms. */
  datatype Event = Event(cmd: Command, at: nat)

  /** Times never go backwards, start no earlier than `t0`, and the whole
      history spans less than 2^32 ms. */
  ghost predicate Chronological(t0: nat, trace: seq<Event>, tEnd: nat)
  {
    && (forall i :: 0 <= i < |trace| ==> t0 <= trace[i].at <= tEnd)
    && (forall i, j :: 0 <= i < j < |trace| ==> trace[i].at <= trace[j].at)
    && t0 <= tEnd < t0 + TWO_32
  }

  /** Whether the lamp is lit after the history: the last ON or OFF wins. */
  function LitAfter(lit0: bool, trace: seq<Event>): bool
  {
    if trace == [] then lit0
    else match trace[|trace| - 1].cmd
      case TurnOn => true
      case TurnOff => false
      case Query => LitAfter(lit0, trace[..|trace| - 1])
  }

  /** Reference on-time: the total length, up to `tEnd`, of the stretches
      between consecutive events in which the lamp was lit. */
  function OnTime(lit0: bool, t0: nat, trace: seq<Event>, tEnd: nat): int
  {
    if trace == [] then (if lit0 then tEnd - t0 else 0)
    else
      var last := trace[|trace| - 1];
      OnTime(lit0, t0, trace[..|trace| - 1], last.at)
        + (if LitAfter(lit0, trace) then tEnd - last.at else 0)
  }

  /** The tracker's reaction to one event, with the clock read modulo 2^32. */
  function Apply(l: Lamp, e: Event): Lamp
  {
    var now := e.at % TWO_32;
    match e.cmd
    case TurnOn => SwitchOn(l, now)
    case TurnOff => SwitchOff(l, now)
    case Query => Consumption(l, now).0
  }

  /** The tracker's state after a history. */
  function Run(l0: Lamp, trace: seq<Event>): Lamp
  {
    if trace == [] then l0 else Apply(Run(l0, trace[..|trace| - 1]), trace[|trace| - 1])
  }

  /** Over any stretch of time within one wrap of the clock, the reference
      on-time grows linearly while lit. */
  lemma OnTimeLinear(lit0: bool, t0: nat, trace: seq<Event>, t: nat, t': nat)
    requires trace != [] ==> trace[|trace| - 1].at <= t
    requires trace == [] ==> t0 <= t
    requires t <= t'
    ensures OnTime(lit0, t0, trace, t') ==
            OnTime(lit0, t0, trace, t) + (if LitAfter(lit0, trace) then t' - t else 0)
  {
  }

  /** One event seen by the tracker, when it folds: if the on-time read at the
      event was `acc` (mod 2^32), the on-time read at a later `tEnd` adds the
      time since the event exactly when the event leaves the lamp lit. */
  lemma FoldAfterEvent(l: Lamp, e: Event, acc: int, tEnd: nat)
    requires e.at <= tEnd < e.at + TWO_32
    requires Fold(l, e.at % TWO_32).onMs == acc % TWO_32
    requires !(e.cmd == TurnOn && l.on)
    ensures var r := Apply(l, e);
            Fold(r, tEnd % TWO_32).onMs == (acc + (if r.on then tEnd - e.at else 0)) % TWO_32
  {
    var r := Apply(l, e);
    if r.on {
      assert r.lastMs == e.at % TWO_32 && r.onMs == acc % TWO_32;
      ElapsedExact(e.at, tEnd);
      ModAdd(acc, tEnd - e.at);
    } else {
      assert r.onMs == acc % TWO_32;
    }
  }

  /** The tracker's on-time, as a consumption query at `tEnd` reads it, equals
      the reference on-time of the whole history modulo 2^32: every lit
      stretch is counted once and nothing else is, across clock rollovers. */
  lemma {:induction false} RunMatchesOnTime(l0: Lamp, t0: nat, trace: seq<Event>, tEnd: nat)
    requires Chronological(t0, trace, tEnd)
    requires trace != [] ==> trace[|trace| - 1].at <= tEnd
    requires l0.on ==> l0.lastMs == t0 % TWO_32
    ensures Run(l0, trace).on == LitAfter(l0.on, trace)
    ensures Fold(Run(l0, trace), tEnd % TWO_32).onMs == (l0.onMs + OnTime(l0.on, t0, trace, tEnd)) % TWO_32
    decreases |trace|
  {
    if trace == [] {
      if l0.on {
        ElapsedExact(t0, tEnd);
        ModAdd(l0.onMs, tEnd - t0);
      }
    } else {
      var prefix := trace[..|trace| - 1];
      var e := trace[|trace| - 1];
      assert Chronological(t0, prefix, e.at);
      RunMatchesOnTime(l0, t0, prefix, e.at);
      var l := Run(l0, prefix);
      var base := l0.onMs + OnTime(l0.on, t0, prefix, e.at);
      var baseEnd := base;
      if e.cmd == TurnOn && l.on {
        // No fold: the open interval keeps running from an earlier observation.
        assert Chronological(t0, prefix, tEnd);
        RunMatchesOnTime(l0, t0, prefix, tEnd);
        OnTimeLinear(l0.on, t0, prefix, e.at, tEnd);
        baseEnd := l0.onMs + OnTime(l0.on, t0, prefix, tEnd);
      }
      LastEvent(l, e, base, baseEnd, tEnd);
      assert Run(l0, trace) == Apply(l, e);
      assert OnTime(l0.on, t0, trace, tEnd) ==
             OnTime(l0.on, t0, prefix, e.at) + (if LitAfter(l0.on, trace) then tEnd - e.at else 0);
    }
  }

  /** The last event of a history: the lamp is lit afterwards as the event
      says, and the on-time read at `tEnd` is the on-time read at the event
      plus the time since, when lit. An ON while lit does not fold, so it is
      given the on-time read at `tEnd` directly. */
  lemma LastEvent(l: Lamp, e: Event, base: int, baseEnd: int, tEnd: nat)
    requires e.at <= tEnd < e.at + TWO_32
    requires Fold(l, e.at % TWO_32).onMs == base % TWO_32
    requires e.cmd == TurnOn && l.on ==>
               Fold(l, tEnd % TWO_32).onMs == baseEnd % TWO_32 && baseEnd == base + (tEnd - e.at)
    ensures Apply(l, e).on == (e.cmd == TurnOn || (e.cmd == Query && l.on))
    ensures Fold(Apply(l, e), tEnd % TWO_32).onMs ==
            (base + (if Apply(l, e).on then tEnd - e.at else 0)) % TWO_32
  {
    if e.cmd == TurnOn && l.on {
      assert Apply(l, e) == l;
    } else {
      FoldAfterEvent(l, e, base, tEnd);
    }
  }

  /** From power-up (lamp off, nothing folded), the folded on-time is the
      reference on-time itself as long as the history spans less than 2^32 ms. */
  lemma StartupOnTime(l0: Lamp, trace: seq<Event>, tEnd: nat)
    requires l0 == Startup
    requires Chronological(0, trace, tEnd)
    requires trace != [] ==> trace[|trace| - 1].at <= tEnd
    ensures 0 <= OnTime(false, 0, trace, tEnd) < TWO_32
    ensures Fold(Run(l0, trace), tEnd % TWO_32).onMs == OnTime(false, 0, trace, tEnd)
  {
    OnTimeBounds(false, 0, trace, tEnd);
    StartupFold(l0, trace, tEnd, OnTime(false, 0, trace, tEnd));
  }

  lemma StartupFold(l0: Lamp, trace: seq<Event>, tEnd: nat, onTime: int)
    requires !l0.on && l0.onMs == 0
    requires Chronological(0, trace, tEnd)
    requires trace != [] ==> trace[|trace| - 1].at <= tEnd
    requires onTime == OnTime(false, 0, trace, tEnd) && 0 <= onTime < TWO_32
    ensures Fold(Run(l0, trace), tEnd % TWO_32).onMs == onTime
  {
    RunMatchesOnTime(l0, 0, trace, tEnd);
    assert OnTime(l0.on, 0, trace, tEnd) == onTime;
    assert l0.onMs + onTime == onTime;
    SmallIsWrapped(onTime);
  }

  lemma SmallIsWrapped(x: int)
    requires 0 <= x < TWO_32
    ensures x % TWO_32 == x
  {
  }

  /** The reference on-time never exceeds the span of the history. */
  lemma {:induction false} OnTimeBounds(lit0: bool, t0: nat, trace: seq<Event>, tEnd: nat)
    requires Chronological(t0, trace, tEnd)
    requires trace != [] ==> trace[|trace| - 1].at <= tEnd
    ensures 0 <= OnTime(lit0, t0, trace, tEnd) <= tEnd - t0
    decreases |trace|
  {
    if trace != [] {
      var prefix := trace[..|trace| - 1];
      var e := trace[|trace| - 1];
      assert Chronological(t0, prefix, e.at);
      OnTimeBounds(lit0, t0, prefix, e.at);
      assert t0 <= e.at <= tEnd;
      assert OnTime(lit0, t0, trace, tEnd) ==
             OnTime(lit0, t0, prefix, e.at) + (if LitAfter(lit0, trace) then tEnd - e.at else 0);
    }
  }
}
