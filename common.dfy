/** The Option wrapper used for JavaScript `null` and Python `None`. */
module Common {

  datatype Option<+T> = None | Some(value: T)
}

/**
 * The structure tree the client fetches once at start-up: for each subject,
 * its units in the order the server sent them, each with its ordered topics.
 */
module Catalog {

  /** One unit folder of a subject and the topic names listed for it. */
  datatype UnitEntry = UnitEntry(name: string, topics: seq<string>)

  /** Subject name to its units. */
  type Structure = map<string, seq<UnitEntry>>

  /** The units of a subject; a subject missing from the tree has none. */
  function UnitsOf(structure: Structure, subject: string): seq<UnitEntry>
  {
    if subject in structure then structure[subject] else []
  }

  /**
   * The topics of the first unit called `unit`, or no topics when the unit
   * is missing (the `|| []` fallback of the client).
   */
  function TopicsOf(units: seq<UnitEntry>, unit: string): (topics: seq<string>)
    ensures (forall k :: 0 <= k < |units| ==> units[k].name != unit) ==> topics == []
    ensures forall k ::
      (0 <= k < |units| && units[k].name == unit && forall j :: 0 <= j < k ==> units[j].name != unit)
      ==> topics == units[k].topics
  {
    if |units| == 0 then []
    else if units[0].name == unit then units[0].topics
    else TopicsOf(units[1..], unit)
  }
}
