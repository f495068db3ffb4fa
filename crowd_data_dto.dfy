/**
 * CrowdDataDTO: the request body of the crowd-data endpoints and the value
 * the serial path builds. Its two fields are nullable; the Bean Validation
 * annotations on them are checked only where a caller asks for validation,
 * never by the constructor or the setters.
 */
module CrowdDataDto {
  import opened Wrappers

  /** @DecimalMin("-273.15"), inclusive. */
  const AbsoluteZeroCelsius: real := -273.15

  datatype Violation =
    | TemperatureNull
    | TemperatureBelowAbsoluteZero
    | PeopleCountNull
    | PeopleCountNegative

  /**
   * The constraint violations a validator reports for a DTO holding
   * `temperature` and `count`. As Bean Validation prescribes, @DecimalMin
   * and @Min accept null, so a null field is reported once, by @NotNull.
   */
  function Violations(temperature: Option<real>, count: Option<int>): (v: set<Violation>)
    ensures TemperatureNull in v <==> temperature.None?
    ensures PeopleCountNull in v <==> count.None?
    ensures TemperatureBelowAbsoluteZero in v ==> TemperatureNull !in v
    ensures PeopleCountNegative in v ==> PeopleCountNull !in v
  {
    (if temperature.None? then {TemperatureNull} else {})
    + (if temperature.Some? && temperature.value < AbsoluteZeroCelsius then {TemperatureBelowAbsoluteZero} else {})
    + (if count.None? then {PeopleCountNull} else {})
    + (if count.Some? && count.value < 0 then {PeopleCountNegative} else {})
  }

  predicate ConstraintsHold(temperature: Option<real>, count: Option<int>)
  {
    Violations(temperature, count) == {}
  }

  /**
   * A DTO is valid iff the temperature is present and at least -273.15
   * (the bound itself included) and the count is present and not negative.
   */
  lemma ConstraintsHoldIff(temperature: Option<real>, count: Option<int>)
    ensures ConstraintsHold(temperature, count) <==>
      && temperature.Some? && temperature.value >= AbsoluteZeroCelsius
      && count.Some? && count.value >= 0
  {
    if !ConstraintsHold(temperature, count) {
      assert exists x :: x in Violations(temperature, count);
    }
  }

  class CrowdDataDTO {
    var temperatureCelsius: Option<real>
    var totalPeopleCount: Option<int>

    /** The no-argument constructor leaves both fields null. */
    constructor ()
      ensures temperatureCelsius == None && totalPeopleCount == None
    {
      temperatureCelsius := None;
      totalPeopleCount := None;
    }

    /** Stores both values unchanged; nothing is validated. */
    constructor WithValues(temperatureCelsius: Option<real>, totalPeopleCount: Option<int>)
      ensures GetTemperatureCelsius() == temperatureCelsius
      ensures GetTotalPeopleCount() == totalPeopleCount
    {
      this.temperatureCelsius := temperatureCelsius;
      this.totalPeopleCount := totalPeopleCount;
    }

    /** The stored temperature, which a valid DTO holds and at or above absolute zero. */
    function GetTemperatureCelsius(): (temperature: Option<real>)
      reads this
      ensures IsValid() ==> temperature.Some? && temperature.value >= AbsoluteZeroCelsius
    {
      ConstraintsHoldIff(temperatureCelsius, totalPeopleCount);
      temperatureCelsius
    }

    /** The stored count, which a valid DTO holds and not negative. */
    function GetTotalPeopleCount(): (count: Option<int>)
      reads this
      ensures IsValid() ==> count.Some? && count.value >= 0
    {
      ConstraintsHoldIff(temperatureCelsius, totalPeopleCount);
      totalPeopleCount
    }

    method SetTemperatureCelsius(temperatureCelsius: Option<real>)
      modifies this`temperatureCelsius
      ensures GetTemperatureCelsius() == temperatureCelsius
      ensures GetTotalPeopleCount() == old(GetTotalPeopleCount())
    {
      this.temperatureCelsius := temperatureCelsius;
    }

    method SetTotalPeopleCount(totalPeopleCount: Option<int>)
      modifies this`totalPeopleCount
      ensures GetTotalPeopleCount() == totalPeopleCount
      ensures GetTemperatureCelsius() == old(GetTemperatureCelsius())
    {
      this.totalPeopleCount := totalPeopleCount;
    }

    /** What a validator would say of this DTO now. */
    predicate IsValid()
      reads this
      ensures IsValid() <==>
        && temperatureCelsius.Some? && temperatureCelsius.value >= AbsoluteZeroCelsius
        && totalPeopleCount.Some? && totalPeopleCount.value >= 0
    {
      ConstraintsHoldIff(temperatureCelsius, totalPeopleCount);
      ConstraintsHold(temperatureCelsius, totalPeopleCount)
    }
  }
}
