/** The inline-button router of the bot: the table that maps a button's
    callback payload to the handler it triggers, the default handler for
    every other payload, and the payloads of the temperature menu.

    A temperature is counted in tenths throughout (5 stands for 0.5). */
module Callbacks {

  /** The handler a callback payload is routed to. */
  datatype Callback =
    | Reset                 // clear the caller's conversation history
    | ShowMenu              // show the temperature menu
    | SetTemp(tenths: int)  // set the caller's temperature to tenths / 10
    | Invalid               // the "Invalid option." acknowledgement

  /** The decimal digit of a number below ten. */
  function Digit(i: int): (c: char)
    requires 0 <= i < 10
    ensures '0' <= c <= '9'
    ensures (c as int) - ('0' as int) == i
  {
    ((i + '0' as int) as char)
  }

  /** The payload `temperature_<i>` carried by the button that sets the
      temperature to i tenths. */
  function TemperaturePayload(i: int): (p: string)
    requires 0 <= i < 10
    ensures |p| == 13 && p[12] == Digit(i)
  {
    "temperature_" + [Digit(i)]
  }

  /** Every temperature payload starts with "temperature_". */
  lemma TemperaturePayloadPrefix(i: int)
    requires 0 <= i < 10
    ensures TemperaturePayload(i)[..12] == "temperature_"
  {
  }

  /** Two different digits give two different payloads. */
  lemma TemperaturePayloadInjective(i: int, j: int)
    requires 0 <= i < 10 && 0 <= j < 10
    requires TemperaturePayload(i) == TemperaturePayload(j)
    ensures i == j
  {
    assert TemperaturePayload(i)[12] == TemperaturePayload(j)[12];
  }

  /** The ten payloads `temperature_0` .. `temperature_9`. */
  function TemperaturePayloads(): (ps: set<string>)
    ensures forall p :: p in ps ==> |p| == 13 && '0' <= p[12] <= '9'
  {
    set i | 0 <= i < 10 :: TemperaturePayload(i)
  }

  /** The value of a decimal digit. */
  function DigitValue(c: char): (i: int)
    requires '0' <= c <= '9'
    ensures 0 <= i < 10 && Digit(i) == c
  {
    (c as int) - ('0' as int)
  }

  /** The temperature part of the table: each of the ten payloads sets the
      temperature to the tenths its digit names. */
  function TemperatureCallbacks(): (t: map<string, Callback>)
    ensures forall i :: 0 <= i < 10 ==> TemperaturePayload(i) in t && t[TemperaturePayload(i)] == SetTemp(i)
    ensures forall p :: p in t ==> |p| == 13 && t[p].SetTemp? && 0 <= t[p].tenths < 10
    ensures t.Keys == TemperaturePayloads()
  {
    map p | p in TemperaturePayloads() :: SetTemp(DigitValue(p[12]))
  }

  /** The routing table: "reset", "temperature", and the temperature part
      merged over them. */
  function CallbackTable(): (t: map<string, Callback>)
    ensures "reset" in t && t["reset"] == Reset
    ensures "temperature" in t && t["temperature"] == ShowMenu
    ensures forall i :: 0 <= i < 10 ==> TemperaturePayload(i) in t && t[TemperaturePayload(i)] == SetTemp(i)
    ensures forall p :: p in t ==> !t[p].Invalid? && (t[p].SetTemp? ==> 0 <= t[p].tenths < 10)
  {
    var temperatures := TemperatureCallbacks();
    assert |"reset"| != 13 && |"temperature"| != 13;
    map["reset" := Reset, "temperature" := ShowMenu] + temperatures
  }

  /** Routing of a button press: the table's entry for the payload, and the
      invalid-option handler for any payload the table does not hold. Total:
      every string is routed somewhere. */
  function Dispatch(payload: string): (c: Callback)
    ensures c.SetTemp? ==> 0 <= c.tenths < 10
    ensures c.Invalid? <==> payload !in CallbackTable()
  {
    var table := CallbackTable();
    if payload in table then table[payload] else Invalid
  }

  /** An independent reading of the routing rule, by the shape of the
      payload string. */
  function Classify(payload: string): Callback
  {
    if payload == "reset" then Reset
    else if payload == "temperature" then ShowMenu
    else if |payload| == 13 && payload[..12] == "temperature_" && '0' <= payload[12] <= '9' then
      SetTemp((payload[12] as int) - ('0' as int))
    else Invalid
  }

  /** A 13-character string that starts with "temperature_" and ends in a
      digit is the payload of that digit. */
  lemma PayloadOfDigit(payload: string)
    requires |payload| == 13 && payload[..12] == "temperature_" && '0' <= payload[12] <= '9'
    ensures 0 <= (payload[12] as int) - ('0' as int) < 10
    ensures payload == TemperaturePayload((payload[12] as int) - ('0' as int))
  {
    var i := (payload[12] as int) - ('0' as int);
    assert payload == payload[..12] + [payload[12]];
    assert TemperaturePayload(i) == "temperature_" + [Digit(i)];
  }

  /** The table lookup and the shape-based reading route every payload to
      the same handler. */
  lemma DispatchIsClassify(payload: string)
    ensures Dispatch(payload) == Classify(payload)
  {
    if payload == "reset" || payload == "temperature" {
    } else if |payload| == 13 && payload[..12] == "temperature_" && '0' <= payload[12] <= '9' {
      PayloadOfDigit(payload);
    }
  }

  /** The handler is Reset exactly for "reset". */
  lemma DispatchReset(payload: string)
    ensures Dispatch(payload) == Reset <==> payload == "reset"
  {
    DispatchIsClassify(payload);
  }

  /** The handler is ShowMenu exactly for "temperature". */
  lemma DispatchShowMenu(payload: string)
    ensures Dispatch(payload) == ShowMenu <==> payload == "temperature"
  {
    DispatchIsClassify(payload);
  }

  /** The handler is SetTemp(i) exactly for the payload `temperature_<i>`
      of a digit i. */
  lemma DispatchSetTemp(payload: string, i: int)
    ensures Dispatch(payload) == SetTemp(i) <==> 0 <= i < 10 && payload == TemperaturePayload(i)
  {
    DispatchIsClassify(payload);
    if 0 <= i < 10 && payload == TemperaturePayload(i) {
      TemperaturePayloadPrefix(i);
    }
  }

  /** The payloads the router recognises. */
  function Recognised(): (r: set<string>)
  {
    {"reset", "temperature"} + TemperaturePayloads()
  }

  /** The table holds exactly the recognised payloads. */
  lemma CallbackTableKeys()
    ensures CallbackTable().Keys == Recognised()
  {
  }

  /** Every payload outside the twelve falls to the invalid-option handler,
      and none of the twelve does. */
  lemma DispatchInvalid(payload: string)
    ensures Dispatch(payload) == Invalid <==> payload !in Recognised()
  {
    CallbackTableKeys();
  }

  /** Each temperature payload, written out. */
  lemma TemperaturePayloadsSpelled()
    ensures TemperaturePayload(0) == "temperature_0" && TemperaturePayload(1) == "temperature_1"
    ensures TemperaturePayload(2) == "temperature_2" && TemperaturePayload(3) == "temperature_3"
    ensures TemperaturePayload(4) == "temperature_4" && TemperaturePayload(5) == "temperature_5"
    ensures TemperaturePayload(6) == "temperature_6" && TemperaturePayload(7) == "temperature_7"
    ensures TemperaturePayload(8) == "temperature_8" && TemperaturePayload(9) == "temperature_9"
  {
  }

  /** The payloads of the buttons `range(i, 10, 2)`: from i upwards in steps
      of two, below ten; the range holds ceil((10 - i) / 2) values. */
  function PayloadsFrom(i: nat): (ps: seq<string>)
    ensures |ps| == if i >= 10 then 0 else (11 - i) / 2
    decreases 10 - i
  {
    if i >= 10 then [] else [TemperaturePayload(i)] + PayloadsFrom(i + 2)
  }

  /** The k-th button from i carries the payload of i + 2k, and there are as
      many buttons as the range holds. */
  lemma {:induction false} PayloadsFromAt(i: nat, k: nat)
    requires i + 2 * k < 10
    ensures k < |PayloadsFrom(i)|
    ensures PayloadsFrom(i)[k] == TemperaturePayload(i + 2 * k)
    decreases k
  {
    if k > 0 {
      PayloadsFromAt(i + 2, k - 1);
    }
  }

  /** The payloads of the temperature menu: one button for each of
      0.1, 0.3, 0.5, 0.7 and 0.9. */
  function MenuPayloads(): (ps: seq<string>)
    ensures |ps| == 5
    ensures forall k :: 0 <= k < 5 ==> ps[k] == TemperaturePayload(2 * k + 1)
  {
    forall k | 0 <= k < 5
      ensures PayloadsFrom(1)[k] == TemperaturePayload(2 * k + 1)
    {
      PayloadsFromAt(1, k);
    }
    PayloadsFrom(1)
  }

  /** The menu offers exactly five buttons, for the odd tenths, and each of
      them is routed to setting its own temperature (never to the
      invalid-option handler). */
  lemma MenuPayloadsRouted(k: int)
    requires 0 <= k < |MenuPayloads()|
    ensures |MenuPayloads()| == 5
    ensures MenuPayloads()[k] == TemperaturePayload(2 * k + 1)
    ensures Dispatch(MenuPayloads()[k]) == SetTemp(2 * k + 1)
  {
    DispatchSetTemp(MenuPayloads()[k], 2 * k + 1);
  }

  /** The menu's payloads, written out. */
  lemma MenuPayloadsExact()
    ensures MenuPayloads() == ["temperature_1", "temperature_3", "temperature_5", "temperature_7", "temperature_9"]
  {
    TemperaturePayloadsSpelled();
  }

  /** How a number of tenths below ten is printed as a decimal: "0.0" to
      "0.9". */
  function TenthsText(i: int): (s: string)
    requires 0 <= i < 10
    ensures |s| == 3 && s[..2] == "0." && s[2] == Digit(i)
  {
    "0." + [Digit(i)]
  }
}
