/**
 * Classification of one dispatched line (processSerialData). The JSON
 * library is abstract: `readTree` yields the root object's fields, or None
 * where parsing throws; the coercions asText, asDouble and asInt are left
 * uninterpreted.
 */
module Decoding {
  import opened Wrappers
  import opened Strings

  datatype JsonReader<!N> = JsonReader(
    readTree: string -> Option<map<string, N>>,
    asText: N -> string,
    asDouble: N -> real,
    asInt: N -> int)

  /** The substring that marks a device error: the quoted word "error". */
  const ErrorMarker: string := "\"error\""
  const ErrorKey: string := "error"
  const TemperatureKey: string := "temperatureCelsius"
  const PeopleCountKey: string := "totalPeopleCount"

  /** The two values the serial path puts into a new CrowdDataDTO. */
  datatype Reading = Reading(temperatureCelsius: real, totalPeopleCount: int)

  datatype Decoded =
    | DeviceError(message: string)
    | Malformed
    | Parsed(reading: Reading)

  /**
   * What processSerialData makes of a line before any save: a line that
   * contains the marker is a device error (Malformed when it does not
   * parse or has no "error" field); any other line must parse and carry
   * both fields, and a missing field is Malformed.
   */
  function Decode<N>(line: string, json: JsonReader<N>): (d: Decoded)
    ensures d.Parsed? ==> !Contains(line, ErrorMarker)
    ensures d.DeviceError? ==> Contains(line, ErrorMarker)
  {
    if Contains(line, ErrorMarker) then
      match json.readTree(line)
      case None => Malformed
      case Some(root) =>
        if ErrorKey in root then DeviceError(json.asText(root[ErrorKey])) else Malformed
    else
      match json.readTree(line)
      case None => Malformed
      case Some(root) =>
        if TemperatureKey in root && PeopleCountKey in root
        then Parsed(Reading(json.asDouble(root[TemperatureKey]), json.asInt(root[PeopleCountKey])))
        else Malformed
  }

  /**
   * A line carrying the marker never yields a reading, whatever the JSON
   * library makes of it: with or without an "error" field, parsed or not.
   */
  lemma ErrorLineNeverParsed<N>(line: string, json: JsonReader<N>)
    requires Contains(line, ErrorMarker)
    ensures !Decode(line, json).Parsed?
    ensures json.readTree(line).Some? && ErrorKey in json.readTree(line).value
      <==> Decode(line, json).DeviceError?
  {
  }

  /**
   * A line without the marker yields a reading exactly when it parses and
   * both fields are present; the reading holds the coerced field values.
   */
  lemma ParsedIff<N>(line: string, json: JsonReader<N>)
    requires !Contains(line, ErrorMarker)
    ensures Decode(line, json).Parsed? <==>
      json.readTree(line).Some? &&
      TemperatureKey in json.readTree(line).value && PeopleCountKey in json.readTree(line).value
    ensures Decode(line, json).Parsed? ==>
      var root := json.readTree(line).value;
      Decode(line, json).reading == Reading(json.asDouble(root[TemperatureKey]), json.asInt(root[PeopleCountKey]))
  {
  }
}
