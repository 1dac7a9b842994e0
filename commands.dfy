/** Inbound lamp commands (main.cpp, callback): only the exact payloads
    "ON" and "OFF" on the lamp-command topic are recognised. */
module Commands {
  import opened Base
  import opened LampAccounting

  const SensorTopic: string := "nelson_iot/sensores"
  const LedCmdTopic: string := "nelson_iot/led_cmd"

  datatype Switch = On | Off

  /** The command a message carries, if any. Matching is exact and
      case-sensitive; anything else, or any other topic, is ignored. */
  function Decode(topic: string, payload: string): (c: Option<Switch>)
    ensures c == Some(On) <==> topic == LedCmdTopic && payload == "ON"
    ensures c == Some(Off) <==> topic == LedCmdTopic && payload == "OFF"
    ensures c == None <==> topic != LedCmdTopic || (payload != "ON" && payload != "OFF")
  {
    if topic == LedCmdTopic then
      if payload == "ON" then Some(On)
      else if payload == "OFF" then Some(Off)
      else None
    else None
  }

  /** The lamp tracker after a message arrives at `now`. */
  function Handle(l: Lamp, topic: string, payload: string, now: U32): (r: Lamp)
    ensures Decode(topic, payload) == None ==> r == l
    ensures Decode(topic, payload).Some? ==> r.on == (Decode(topic, payload) == Some(On))
    ensures !(Decode(topic, payload) == Some(Off) && l.on) ==> r.onMs == l.onMs
  {
    match Decode(topic, payload)
    case Some(On) => SwitchOn(l, now)
    case Some(Off) => SwitchOff(l, now)
    case None => l
  }

  /** A command that repeats the current state is a no-op; an OFF of a lit
      lamp folds the running stretch in; an ON of a dark lamp starts a new
      stretch at `now`. */
  lemma HandleSemantics(l: Lamp, topic: string, payload: string, now: U32)
    ensures l.on == (Decode(topic, payload) == Some(On)) && Decode(topic, payload).Some? ==>
              Handle(l, topic, payload, now) == l
    ensures Decode(topic, payload) == Some(Off) && l.on ==>
              Handle(l, topic, payload, now).onMs == Fold(l, now).onMs
              && Handle(l, topic, payload, now).lastMs == now
    ensures Decode(topic, payload) == Some(On) && !l.on ==>
              Handle(l, topic, payload, now).lastMs == now
  {
  }

  /** Payloads that differ from "ON" and "OFF" only in case are ignored. */
  lemma CaseSensitive(l: Lamp, now: U32)
    ensures Handle(l, LedCmdTopic, "on", now) == l
    ensures Handle(l, LedCmdTopic, "Off", now) == l
    ensures Handle(l, SensorTopic, "ON", now) == l
  {
  }
}
