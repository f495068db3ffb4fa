/**
 * The plain logic inside the dashboard script: the occupancy percentage
 * and its status band, the room capacity taken from the settings form,
 * and the filter that keeps the detected people. Numbers are exact reals
 * and unbounded integers; JavaScript's doubles are not modelled.
 */
module Occupancy {
  import opened Wrappers

  const DefaultRoomCapacity: int := 60
  const CriticalPercentage: int := 90
  const HighLoadPercentage: int := 70
  const PersonClass: string := "person"

  /** count / capacity, as the script divides them. */
  function Ratio(count: int, capacity: int): real
    requires capacity != 0
  {
    (count as real) / (capacity as real)
  }

  /** Math.round: the nearest integer, a half rounded up. */
  function RoundHalfUp(x: real): (r: int)
    ensures (r as real) - 0.5 <= x < (r as real) + 0.5
  {
    (x + 0.5).Floor
  }

  /**
   * Math.min(100, Math.round(count / capacity * 100)): the rounded share of
   * the capacity in percent, capped at 100.
   */
  function OccupancyPercentage(count: int, capacity: int): (percentage: int)
    requires capacity != 0
    ensures percentage <= 100
    ensures percentage < 100 ==>
      (percentage as real) - 0.5 <= Ratio(count, capacity) * 100.0 < (percentage as real) + 0.5
    ensures percentage == 100 <==> Ratio(count, capacity) * 100.0 >= 99.5
  {
    var rounded := RoundHalfUp(Ratio(count, capacity) * 100.0);
    if rounded < 100 then rounded else 100
  }

  /** A non-negative count in a room of positive capacity is 0 to 100 percent full. */
  lemma OccupancyPercentageRange(count: int, capacity: int)
    requires count >= 0 && capacity > 0
    ensures 0 <= OccupancyPercentage(count, capacity) <= 100
  {
    assert Ratio(count, capacity) >= 0.0;
  }

  /** More people in the same room never show a smaller percentage. */
  lemma OccupancyPercentageMonotone(count: int, more: int, capacity: int)
    requires count <= more && capacity > 0
    ensures OccupancyPercentage(count, capacity) <= OccupancyPercentage(more, capacity)
  {
    var c := capacity as real;
    assert (count as real) / c <= (more as real) / c by {
      assert (count as real) / c * c == count as real;
      assert (more as real) / c * c == more as real;
    }
  }

  datatype CapacityStatus = Critical | HighLoad | Optimal

  /** The badge the percentage selects. */
  function StatusOf(percentage: int): (status: CapacityStatus)
    ensures status == Critical <==> percentage >= CriticalPercentage
    ensures status == HighLoad <==> HighLoadPercentage <= percentage < CriticalPercentage
    ensures status == Optimal <==> percentage < HighLoadPercentage
  {
    if percentage >= CriticalPercentage then Critical
    else if percentage >= HighLoadPercentage then HighLoad
    else Optimal
  }

  /**
   * The bands in terms of the occupancy itself: Critical from 89.5% of the
   * capacity, High Load from 69.5% below that, Optimal underneath, because
   * the percentage is rounded before it is compared.
   */
  lemma StatusBands(count: int, capacity: int)
    requires capacity != 0
    ensures var status := StatusOf(OccupancyPercentage(count, capacity));
      var share := Ratio(count, capacity) * 100.0;
      && (status == Critical <==> share >= 89.5)
      && (status == HighLoad <==> 69.5 <= share < 89.5)
      && (status == Optimal <==> share < 69.5)
  {
  }

  /** parseInt(value) || 60: a missing (NaN) or zero capacity falls back to 60. */
  function ModalCapacity(parsed: Option<int>): (capacity: int)
    ensures capacity != 0
    ensures parsed.Some? && parsed.value != 0 ==> capacity == parsed.value
    ensures parsed.None? || parsed.value == 0 ==> capacity == DefaultRoomCapacity
  {
    if parsed.Some? && parsed.value != 0 then parsed.value else DefaultRoomCapacity
  }

  /** One object the detector reports: its class name and confidence score. */
  datatype Prediction = Prediction(className: string, score: real)

  predicate IsCountedPerson(p: Prediction, threshold: real)
  {
    p.className == PersonClass && p.score >= threshold
  }

  /**
   * The filter in detect: the predictions of class "person" whose score
   * reaches the threshold, in the detector's order.
   */
  function DetectedPeople(predictions: seq<Prediction>, threshold: real): (people: seq<Prediction>)
    ensures forall p | p in people :: IsCountedPerson(p, threshold)
    ensures forall p | p in predictions && IsCountedPerson(p, threshold) :: p in people
    ensures multiset(people) <= multiset(predictions)
    ensures |people| <= |predictions|
  {
    if predictions == [] then []
    else
      var rest := DetectedPeople(predictions[1..], threshold);
      assert predictions == [predictions[0]] + predictions[1..];
      if IsCountedPerson(predictions[0], threshold) then [predictions[0]] + rest else rest
  }

  /**
   * The filter keeps each counted prediction as often as it occurs and
   * drops every other one, so the number of people is the number of
   * counted predictions.
   */
  lemma {:induction false} DetectedPeopleMultiplicity(predictions: seq<Prediction>, threshold: real)
    ensures forall q ::
      multiset(DetectedPeople(predictions, threshold))[q] == (if IsCountedPerson(q, threshold) then multiset(predictions)[q] else 0)
    decreases |predictions|
  {
    if predictions != [] {
      DetectedPeopleMultiplicity(predictions[1..], threshold);
      assert predictions == [predictions[0]] + predictions[1..];
    }
  }

  /** Raising the confidence threshold never counts more people. */
  lemma {:induction false} DetectedPeopleThresholdMonotone(predictions: seq<Prediction>, low: real, high: real)
    requires low <= high
    ensures |DetectedPeople(predictions, high)| <= |DetectedPeople(predictions, low)|
    decreases |predictions|
  {
    if predictions != [] {
      DetectedPeopleThresholdMonotone(predictions[1..], low, high);
    }
  }
}
