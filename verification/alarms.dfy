/** The alarm helpers of logic.js: exact, case-sensitive membership of a
    move or the held item in two fixed sets. */
module Alarms {

  const AlarmMoves: set<string> := {
    "Sheer Cold", "Horn Drill", "Fissure", "Guillotine", "Reversal",
    "Swords Dance", "Dragon Dance", "Double Team",
    "Counter", "Mirror Coat", "Psych Up"
  }

  const AlarmItems: set<string> := {"BrightPowder", "Lax Incense", "Quick Claw"}

  const MoveLabel: string := "alarm move"
  const ItemLabel: string := "alarm item"

  predicate SomeAlarmMove(moves: seq<string>) {
    exists i :: 0 <= i < |moves| && moves[i] in AlarmMoves
  }

  /** `getAlarms(moves, item)`: at most the two labels, the move label
      first, each present exactly when its set is hit. */
  function GetAlarms(moves: seq<string>, item: string): (r: seq<string>)
    ensures |r| <= 2
    ensures MoveLabel in r <==> SomeAlarmMove(moves)
    ensures ItemLabel in r <==> item in AlarmItems
    ensures forall i :: 0 <= i < |r| ==> r[i] == MoveLabel || r[i] == ItemLabel
    ensures |r| == 2 ==> r == [MoveLabel, ItemLabel]
  {
    (if SomeAlarmMove(moves) then [MoveLabel] else []) + (if item in AlarmItems then [ItemLabel] else [])
  }

  /** `hasAlarm(moves, item)` agrees with `getAlarms`: it holds exactly
      when the label list is non-empty. */
  function HasAlarm(moves: seq<string>, item: string): (b: bool)
    ensures b <==> |GetAlarms(moves, item)| > 0
  {
    SomeAlarmMove(moves) || item in AlarmItems
  }

  /** Three sample sets: an alarm move, an alarm item, and neither. */
  lemma Examples()
    ensures HasAlarm(["Swords Dance", "Tackle", "-", "-"], "Leftovers")
    ensures HasAlarm(["Tackle"], "BrightPowder")
    ensures !HasAlarm(["Tackle"], "Leftovers")
  {
    assert ["Swords Dance", "Tackle", "-", "-"][0] in AlarmMoves;
  }
}
