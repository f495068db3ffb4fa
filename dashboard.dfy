/**
 * The CrowdOracle dashboard object: the camera and detection flags, the
 * frame and FPS counters, the capacity display and the activity list.
 * Each method is one handler of the script; awaited browser calls (camera
 * permission, the detector, the model download) arrive as parameters.
 */
module Dashboard {
  import opened Wrappers
  import opened Strings
  import opened Occupancy

  const ActivityLimit: nat := 20
  const DefaultConfidenceThreshold: real := 0.5

  /** A child of the activity list: the "no recent activity" placeholder or an entry. */
  datatype ActivityEntry =
    | Placeholder
    | Item(success: bool, message: string, time: string)

  /**
   * The list without its first placeholder, as `emptyState.remove()` leaves
   * it: the selector finds the first match, if there is one.
   */
  function WithoutPlaceholder(entries: seq<ActivityEntry>): (rest: seq<ActivityEntry>)
    ensures Placeholder !in entries ==> rest == entries
    ensures Placeholder in entries ==> |rest| == |entries| - 1
    ensures Placeholder in entries ==>
      exists i | 0 <= i < |entries| ::
        && entries[i] == Placeholder
        && Placeholder !in entries[..i]
        && rest == entries[..i] + entries[i + 1..]
    ensures multiset(rest) == multiset(entries) - multiset{Placeholder}
  {
    var i := IndexOf(entries, Placeholder);
    if i == -1 then entries
    else
      assert entries == entries[..i] + [entries[i]] + entries[i + 1..];
      entries[..i] + entries[i + 1..]
  }

  /** The first ActivityLimit entries, the ones the trimming loop keeps. */
  function Newest(entries: seq<ActivityEntry>): (kept: seq<ActivityEntry>)
    ensures |kept| <= ActivityLimit
    ensures |kept| < ActivityLimit ==> kept == entries
    ensures |kept| <= |entries| && kept == entries[..|kept|]
  {
    if |entries| <= ActivityLimit then entries else entries[..ActivityLimit]
  }

  /** `kept` is `entries` with entries removed from the end, never below the limit. */
  predicate TrimmedFrom(kept: seq<ActivityEntry>, entries: seq<ActivityEntry>)
  {
    && |kept| <= |entries|
    && kept == entries[..|kept|]
    && (|kept| < |entries| ==> |kept| >= ActivityLimit)
  }

  lemma TrimStep(kept: seq<ActivityEntry>, entries: seq<ActivityEntry>)
    requires TrimmedFrom(kept, entries) && |kept| > ActivityLimit
    ensures TrimmedFrom(kept[..|kept| - 1], entries)
  {
  }

  lemma TrimmedIsNewest(kept: seq<ActivityEntry>, entries: seq<ActivityEntry>)
    requires TrimmedFrom(kept, entries) && |kept| <= ActivityLimit
    ensures kept == Newest(entries)
  {
  }

  class CrowdOracle {
    var modelLoaded: bool
    var isCameraActive: bool
    var isDetecting: bool
    var currentPeopleCount: nat
    var frameCount: nat
    var fps: nat
    var roomCapacity: int
    var confidenceThreshold: real
    /** What the capacity display shows. */
    var occupancyPercent: int
    var capacityStatus: CapacityStatus
    var activity: seq<ActivityEntry>

    /** The capacity can be divided by and the activity list is capped. */
    ghost predicate Configured()
      reads this
    {
      roomCapacity != 0 && |activity| <= ActivityLimit
    }

    /** Besides, detection runs only on a live camera with a loaded model. */
    ghost predicate Valid()
      reads this
    {
      Configured() && (isDetecting ==> isCameraActive && modelLoaded)
    }

    constructor ()
      ensures Valid()
      ensures !modelLoaded && !isCameraActive && !isDetecting
      ensures currentPeopleCount == 0 && frameCount == 0 && fps == 0
      ensures roomCapacity == DefaultRoomCapacity && confidenceThreshold == DefaultConfidenceThreshold
      ensures occupancyPercent == 0 && capacityStatus == Optimal
      ensures activity == [Placeholder]
    {
      modelLoaded := false;
      isCameraActive := false;
      isDetecting := false;
      currentPeopleCount := 0;
      frameCount := 0;
      fps := 0;
      roomCapacity := DefaultRoomCapacity;
      confidenceThreshold := DefaultConfidenceThreshold;
      occupancyPercent := 0;
      capacityStatus := Optimal;
      activity := [Placeholder];
    }

    /** The detector download either succeeds or is caught and logged. */
    method LoadModel(loaded: bool)
      requires Valid()
      modifies this`modelLoaded
      ensures Valid()
      ensures modelLoaded == (old(modelLoaded) || loaded)
    {
      if loaded {
        modelLoaded := true;
      }
    }

    /** Detection starts only with a loaded model on an active camera. */
    method StartDetection()
      requires Valid()
      modifies this`isDetecting
      ensures Valid()
      ensures isDetecting == (old(isDetecting) || (modelLoaded && isCameraActive))
    {
      if !modelLoaded || !isCameraActive {
        return;
      }
      isDetecting := true;
    }

    method StopDetection()
      requires Configured()
      modifies this`isDetecting
      ensures Valid()
      ensures !isDetecting
    {
      isDetecting := false;
    }

    /** With camera permission the feed goes live and detection starts. */
    method StartCamera(granted: bool)
      requires Valid()
      modifies this`isCameraActive, this`isDetecting
      ensures Valid()
      ensures isCameraActive == (old(isCameraActive) || granted)
      ensures isDetecting == (old(isDetecting) || (granted && modelLoaded))
    {
      if granted {
        isCameraActive := true;
        StartDetection();
      }
    }

    /** Stopping the camera also stops detection. */
    method StopCamera()
      requires Valid()
      modifies this`isCameraActive, this`isDetecting
      ensures Valid()
      ensures !isCameraActive && !isDetecting
    {
      isCameraActive := false;
      StopDetection();
    }

    method ToggleCamera(granted: bool)
      requires Valid()
      modifies this`isCameraActive, this`isDetecting
      ensures Valid()
      ensures old(isCameraActive) ==> !isCameraActive && !isDetecting
      ensures !old(isCameraActive) ==> isCameraActive == granted
      ensures !old(isCameraActive) ==> isDetecting == (granted && modelLoaded)
    {
      if isCameraActive {
        StopCamera();
      } else {
        StartCamera(granted);
      }
    }

    /** Pauses a running analysis, resumes it on an active camera, or does nothing. */
    method ToggleDetection()
      requires Valid()
      modifies this`isDetecting
      ensures Valid()
      ensures old(isDetecting) ==> !isDetecting
      ensures !old(isDetecting) ==> isDetecting == (isCameraActive && modelLoaded)
    {
      if isDetecting {
        StopDetection();
      } else if isCameraActive {
        StartDetection();
      }
    }

    /** Recomputes the percentage and the badge from the count and the capacity. */
    method UpdateCapacityDisplay()
      requires Valid()
      modifies this`occupancyPercent, this`capacityStatus
      ensures Valid()
      ensures occupancyPercent == OccupancyPercentage(currentPeopleCount, roomCapacity)
      ensures capacityStatus == StatusOf(occupancyPercent)
    {
      var count := currentPeopleCount;
      var capacity := roomCapacity;
      var percentage := OccupancyPercentage(count, capacity);
      occupancyPercent := percentage;
      capacityStatus := StatusOf(percentage);
    }

    /**
     * One animation frame. While detecting, a frame the detector answers
     * sets the count to the people it found and counts the frame; a
     * detector failure is caught and changes nothing.
     */
    method Detect(predictions: Option<seq<Prediction>>)
      requires Valid()
      modifies this`currentPeopleCount, this`frameCount, this`occupancyPercent, this`capacityStatus
      ensures Valid()
      ensures if isDetecting && modelLoaded && predictions.Some? then
          && currentPeopleCount == |DetectedPeople(predictions.value, confidenceThreshold)|
          && frameCount == old(frameCount) + 1
          && occupancyPercent == OccupancyPercentage(currentPeopleCount, roomCapacity)
          && capacityStatus == StatusOf(occupancyPercent)
        else
          && currentPeopleCount == old(currentPeopleCount)
          && frameCount == old(frameCount)
          && occupancyPercent == old(occupancyPercent)
          && capacityStatus == old(capacityStatus)
    {
      if !isDetecting || !modelLoaded {
        return;
      }
      match predictions {
        case None =>
        case Some(found) =>
          var people := DetectedPeople(found, confidenceThreshold);
          currentPeopleCount := |people|;
          frameCount := frameCount + 1;
          UpdateCapacityDisplay();
      }
    }

    /** The one-second timer: the frames counted since the last tick become the FPS. */
    method FpsTick()
      requires Valid()
      modifies this`fps, this`frameCount
      ensures Valid()
      ensures fps == old(frameCount) && frameCount == 0
    {
      fps := frameCount;
      frameCount := 0;
    }

    /**
     * Drops the placeholder, puts the new entry first, then removes the last
     * entry while more than ActivityLimit remain.
     */
    method AddActivityItem(success: bool, message: string, time: string)
      requires Valid()
      modifies this`activity
      ensures Valid()
      ensures activity == Newest([Item(success, message, time)] + WithoutPlaceholder(old(activity)))
    {
      var entries := [Item(success, message, time)] + WithoutPlaceholder(activity);
      var children := entries;
      while |children| > ActivityLimit
        invariant TrimmedFrom(children, entries)
        decreases |children|
      {
        TrimStep(children, entries);
        children := children[..|children| - 1];
      }
      TrimmedIsNewest(children, entries);
      activity := children;
    }

    method ClearActivity()
      requires Valid()
      modifies this`activity
      ensures Valid()
      ensures activity == [Placeholder]
    {
      activity := [Placeholder];
    }

    /**
     * Takes the threshold and the capacity from the settings form; a capacity
     * that does not parse, or parses to 0, becomes 60. The display is not
     * refreshed until the next frame.
     */
    method SaveSettingsFromModal(threshold: real, parsedCapacity: Option<int>)
      requires Valid()
      modifies this`confidenceThreshold, this`roomCapacity
      ensures Valid()
      ensures confidenceThreshold == threshold
      ensures roomCapacity == ModalCapacity(parsedCapacity)
    {
      confidenceThreshold := threshold;
      roomCapacity := ModalCapacity(parsedCapacity);
    }
  }

  /**
   * After AddActivityItem the new entry is first, and behind it come the
   * older entries, placeholder dropped, in their order, as many as fit: the
   * oldest are the ones trimmed. Without a placeholder and below the limit,
   * nothing is lost.
   */
  lemma NewestKeepsOrder(item: ActivityEntry, old_activity: seq<ActivityEntry>)
    ensures var kept := Newest([item] + WithoutPlaceholder(old_activity));
      && 1 <= |kept| <= ActivityLimit
      && kept[0] == item
      && kept[1..] == WithoutPlaceholder(old_activity)[..|kept| - 1]
      && (Placeholder !in old_activity && |old_activity| < ActivityLimit ==> kept == [item] + old_activity)
  {
    NewestOfCons(item, WithoutPlaceholder(old_activity));
  }

  /** Newest of an entry followed by `rest`: that entry, then a prefix of `rest`. */
  lemma NewestOfCons(item: ActivityEntry, rest: seq<ActivityEntry>)
    ensures var kept := Newest([item] + rest);
      && 1 <= |kept| <= ActivityLimit
      && kept[0] == item
      && kept[1..] == rest[..|kept| - 1]
      && (|rest| < ActivityLimit ==> kept == [item] + rest)
  {
    var entries := [item] + rest;
    var kept := Newest(entries);
    assert kept[1..] == rest[..|kept| - 1] by {
      assert kept == entries[..|kept|];
      forall k | 0 <= k < |kept| - 1 ensures kept[1..][k] == rest[k] {
        assert kept[1..][k] == entries[k + 1];
      }
    }
  }
}
