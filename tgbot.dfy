/**
 * The alarm choice in the bot's own create_station_message
 * (app/erfiume/tgbot.py), a copy of the chain in Stazione's method without
 * the sentinel override.
 */
module TgBot {
  import Apis

  /** The alarm emoji of tgbot.create_station_message: red unless an earlier branch matches. */
  function AlarmFor(value: real, yellow: real, orange: real, red: real): (a: Apis.Alarm)
    ensures a != Apis.NoAlarm
    ensures a == Apis.Green <==> value <= yellow
    ensures a == Apis.Yellow <==> yellow < value <= orange
    ensures a == Apis.Orange <==> !(value <= yellow) && !(yellow < value <= orange) && orange <= value <= red
    ensures a == Apis.Red <==> !(value <= yellow) && !(yellow < value <= orange) && !(orange <= value <= red)
  {
    if value <= yellow then Apis.Green
    else if value > yellow && value <= orange then Apis.Yellow
    else if value >= orange && value <= red then Apis.Orange
    else Apis.Red
  }

  /**
   * The two copies agree on every value but the sentinel, which the bot's copy
   * still colours (green whenever yellow is not below -9999) while Stazione's
   * shows no alarm and "non disponibile".
   */
  lemma AlarmForMatchesStation(value: real, yellow: real, orange: real, red: real)
    ensures value != Apis.UNKNOWN_VALUE ==>
              Apis.Classify(value, yellow, orange, red) ==
              Apis.Classification(Apis.Value(value), AlarmFor(value, yellow, orange, red))
    ensures value == Apis.UNKNOWN_VALUE ==>
              && Apis.Classify(value, yellow, orange, red).alarm == Apis.NoAlarm
              && AlarmFor(value, yellow, orange, red) != Apis.NoAlarm
              && (Apis.UNKNOWN_VALUE <= yellow ==> AlarmFor(value, yellow, orange, red) == Apis.Green)
  {
    var c := Apis.Classify(value, yellow, orange, red);
    var a := AlarmFor(value, yellow, orange, red);
    if value != Apis.UNKNOWN_VALUE {
      assert c.alarm == a;
    }
  }
}
