/**
 * CrowdDataController: the "latest", "stats" and "batch" endpoints. Each
 * builds a response map from the records the service returns (newest
 * first) or from the service's batch save. Timestamps are abstract
 * instants; LocalDateTime.now() is the parameter `now`.
 */
module CrowdDataController {
  import opened Wrappers
  import CrowdDataDto

  /** A stored row (the CrowdData entity). */
  datatype CrowdData = CrowdData(id: int, temperatureCelsius: real, totalPeopleCount: int, entryTime: int)

  /** The values a response map holds. */
  datatype Value =
    | Bool(b: bool)
    | Text(text: string)
    | Int(i: int)
    | Real(r: real)
    | Entry(entry: CrowdData)
    | Entries(entries: seq<CrowdData>)
    | Timestamp(instant: int)
    | Null

  datatype HttpStatus = Ok | Created | BadRequest | InternalServerError

  datatype Response = Response(status: HttpStatus, body: map<string, Value>)

  /** The records as the service lists them: newest entry first. */
  predicate NewestFirst(records: seq<CrowdData>)
  {
    forall i, j | 0 <= i < j < |records| :: records[i].entryTime >= records[j].entryTime
  }

  /** IntStream.max() over the people counts: empty exactly for no records. */
  function MaxPeopleCount(records: seq<CrowdData>): (m: Option<int>)
    ensures m.None? <==> records == []
    ensures m.Some? ==> forall k | 0 <= k < |records| :: records[k].totalPeopleCount <= m.value
    ensures m.Some? ==> exists k | 0 <= k < |records| :: records[k].totalPeopleCount == m.value
  {
    if records == [] then None
    else
      var first := records[0].totalPeopleCount;
      match MaxPeopleCount(records[1..])
      case None => Some(first)
      case Some(m) =>
        assert exists k | 0 <= k < |records[1..]| :: records[1..][k].totalPeopleCount == m;
        Some(if first > m then first else m)
  }

  /** IntStream.min() over the people counts: empty exactly for no records. */
  function MinPeopleCount(records: seq<CrowdData>): (m: Option<int>)
    ensures m.None? <==> records == []
    ensures m.Some? ==> forall k | 0 <= k < |records| :: m.value <= records[k].totalPeopleCount
    ensures m.Some? ==> exists k | 0 <= k < |records| :: records[k].totalPeopleCount == m.value
  {
    if records == [] then None
    else
      var first := records[0].totalPeopleCount;
      match MinPeopleCount(records[1..])
      case None => Some(first)
      case Some(m) =>
        assert exists k | 0 <= k < |records[1..]| :: records[1..][k].totalPeopleCount == m;
        Some(if first < m then first else m)
  }

  function SumPeopleCount(records: seq<CrowdData>): int
  {
    if records == [] then 0 else records[0].totalPeopleCount + SumPeopleCount(records[1..])
  }

  function SumTemperature(records: seq<CrowdData>): real
  {
    if records == [] then 0.0 else records[0].temperatureCelsius + SumTemperature(records[1..])
  }

  function OrElse(o: Option<int>, default: int): int
  {
    if o.Some? then o.value else default
  }

  /** Math.round(x * 100.0) / 100.0, where Math.round(y) is the floor of y + 0.5. */
  function RoundToHundredths(x: real): real
  {
    ((x * 100.0 + 0.5).Floor as real) / 100.0
  }

  function AveragePeopleCount(records: seq<CrowdData>): real
    requires records != []
  {
    (SumPeopleCount(records) as real) / (|records| as real)
  }

  function AverageTemperature(records: seq<CrowdData>): real
    requires records != []
  {
    SumTemperature(records) / (|records| as real)
  }

  /** The statistics endpoint. The aggregate keys appear only for a non-empty list. */
  function GetCrowdDataStats(allData: Result<seq<CrowdData>, string>, now: int): (r: Response)
    ensures r.status == Ok <==> allData.Success?
    ensures r.status == InternalServerError <==> allData.Failure?
    ensures "success" in r.body && r.body["success"] == Bool(allData.Success?)
    ensures "timestamp" in r.body && r.body["timestamp"] == Timestamp(now)
    ensures allData.Failure? ==>
      && r.body.Keys == {"success", "message", "timestamp"}
      && r.body["message"] == Text("Error retrieving statistics: " + allData.error)
  {
    match allData
    case Failure(e) =>
      Response(InternalServerError, map[
        "success" := Bool(false),
        "message" := Text("Error retrieving statistics: " + e),
        "timestamp" := Timestamp(now)])
    case Success(records) =>
      var response := map[
        "success" := Bool(true),
        "message" := Text("Statistics retrieved successfully"),
        "totalRecords" := Int(|records|)];
      var response := if records == [] then response else response + map[
        "averagePeopleCount" := Real(RoundToHundredths(AveragePeopleCount(records))),
        "maxPeopleCount" := Int(OrElse(MaxPeopleCount(records), 0)),
        "minPeopleCount" := Int(OrElse(MinPeopleCount(records), 0)),
        "averageTemperature" := Real(RoundToHundredths(AverageTemperature(records))),
        "latestEntry" := Entry(records[0])];
      Response(Ok, response["timestamp" := Timestamp(now)])
  }

  /** For no records, the statistics hold only success, message, totalRecords (0) and timestamp. */
  lemma StatsOfNoRecords(now: int)
    ensures var r := GetCrowdDataStats(Success([]), now);
      && r.status == Ok
      && r.body.Keys == {"success", "message", "totalRecords", "timestamp"}
      && r.body["totalRecords"] == Int(0)
  {
  }

  /**
   * For records, totalRecords is their number; maxPeopleCount is at least
   * every count and is one of them; minPeopleCount is at most every count
   * and is one of them; latestEntry is the first record, the newest when
   * the list is newest first.
   */
  lemma StatsOfRecords(records: seq<CrowdData>, now: int)
    requires records != []
    ensures var body := GetCrowdDataStats(Success(records), now).body;
      && body["totalRecords"] == Int(|records|)
      && body["maxPeopleCount"].Int?
      && (forall k | 0 <= k < |records| :: records[k].totalPeopleCount <= body["maxPeopleCount"].i)
      && (exists k | 0 <= k < |records| :: records[k].totalPeopleCount == body["maxPeopleCount"].i)
      && body["minPeopleCount"].Int?
      && (forall k | 0 <= k < |records| :: body["minPeopleCount"].i <= records[k].totalPeopleCount)
      && (exists k | 0 <= k < |records| :: records[k].totalPeopleCount == body["minPeopleCount"].i)
      && body["latestEntry"] == Entry(records[0])
      && (NewestFirst(records) ==> forall k | 0 <= k < |records| :: records[k].entryTime <= body["latestEntry"].entry.entryTime)
  {
    var body := GetCrowdDataStats(Success(records), now).body;
    var max, min := MaxPeopleCount(records).value, MinPeopleCount(records).value;
    assert body["maxPeopleCount"] == Int(max) && body["minPeopleCount"] == Int(min);
  }

  /** The counts add up to between |records| times the least and |records| times the greatest. */
  lemma {:induction false} SumPeopleCountBounds(records: seq<CrowdData>, low: int, high: int)
    requires forall k | 0 <= k < |records| :: low <= records[k].totalPeopleCount <= high
    ensures |records| * low <= SumPeopleCount(records) <= |records| * high
    decreases |records|
  {
    if records != [] {
      SumPeopleCountBounds(records[1..], low, high);
    }
  }

  /**
   * The reported average people count, rounded to hundredths, lies between
   * the reported minimum and maximum.
   */
  lemma AverageBetweenMinAndMax(records: seq<CrowdData>, now: int)
    requires records != []
    ensures var body := GetCrowdDataStats(Success(records), now).body;
      && body["averagePeopleCount"].Real?
      && body["minPeopleCount"].Int? && body["maxPeopleCount"].Int?
      && body["minPeopleCount"].i as real <= body["averagePeopleCount"].r <= body["maxPeopleCount"].i as real
  {
    var body := GetCrowdDataStats(Success(records), now).body;
    var min, max := MinPeopleCount(records).value, MaxPeopleCount(records).value;
    var n := |records|;
    SumPeopleCountBounds(records, min, max);
    var average := AveragePeopleCount(records);
    DivideBounds(SumPeopleCount(records), n, min, max);
    RoundToHundredthsBounds(average, min, max);
    assert body["averagePeopleCount"] == Real(RoundToHundredths(average));
    assert body["minPeopleCount"] == Int(min) && body["maxPeopleCount"] == Int(max);
  }

  lemma DivideBounds(sum: int, n: int, low: int, high: int)
    requires n > 0 && n * low <= sum <= n * high
    ensures low as real <= (sum as real) / (n as real) <= high as real
  {
    assert (n * low) as real == (n as real) * (low as real);
    assert (n * high) as real == (n as real) * (high as real);
  }

  /** Rounding to hundredths keeps a value within integer bounds. */
  lemma RoundToHundredthsBounds(x: real, low: int, high: int)
    requires low as real <= x <= high as real
    ensures low as real <= RoundToHundredths(x) <= high as real
  {
    var y := x * 100.0 + 0.5;
    assert (100 * low) as real <= y;
    assert y < (100 * high + 1) as real;
    assert 100 * low <= y.Floor <= 100 * high;
  }

  /**
   * The "latest" endpoint: the first record with its count and temperature,
   * or, for no records, success with data null and a current count of 0.
   */
  function GetLatestCrowdData(allData: Result<seq<CrowdData>, string>, now: int): (r: Response)
    ensures r.status == Ok <==> allData.Success?
    ensures r.status == InternalServerError <==> allData.Failure?
    ensures "success" in r.body && r.body["success"] == Bool(allData.Success?)
    ensures "timestamp" in r.body && r.body["timestamp"] == Timestamp(now)
    ensures allData.Failure? ==>
      && r.body.Keys == {"success", "message", "timestamp"}
      && r.body["message"] == Text("Error retrieving latest crowd data: " + allData.error)
  {
    match allData
    case Failure(e) =>
      Response(InternalServerError, map[
        "success" := Bool(false),
        "message" := Text("Error retrieving latest crowd data: " + e),
        "timestamp" := Timestamp(now)])
    case Success(records) =>
      if records != [] then
        var latest := records[0];
        Response(Ok, map[
          "success" := Bool(true),
          "message" := Text("Latest crowd data retrieved"),
          "data" := Entry(latest),
          "currentPeopleCount" := Int(latest.totalPeopleCount),
          "currentTemperature" := Real(latest.temperatureCelsius),
          "timestamp" := Timestamp(now)])
      else
        Response(Ok, map[
          "success" := Bool(true),
          "message" := Text("No crowd data available"),
          "data" := Null,
          "currentPeopleCount" := Int(0),
          "currentTemperature" := Null,
          "timestamp" := Timestamp(now)])
  }

  lemma LatestOfRecords(records: seq<CrowdData>, now: int)
    ensures var r := GetLatestCrowdData(Success(records), now);
      && r.status == Ok && r.body["success"] == Bool(true)
      && (records == [] ==>
            r.body["data"] == Null && r.body["currentPeopleCount"] == Int(0) && r.body["currentTemperature"] == Null)
      && (records != [] ==>
            && r.body["data"] == Entry(records[0])
            && r.body["currentPeopleCount"] == Int(records[0].totalPeopleCount)
            && (NewestFirst(records) ==> forall k | 0 <= k < |records| :: records[k].entryTime <= records[0].entryTime))
  {
  }

  /**
   * The batch endpoint: a missing or empty list is a bad request and the
   * service is not asked to save; otherwise the service saves the list.
   */
  function SaveMultipleCrowdData(
    crowdDataDTOs: Option<seq<CrowdDataDto.CrowdDataDTO>>,
    saveAll: seq<CrowdDataDto.CrowdDataDTO> -> Result<seq<CrowdData>, string>,
    now: int): (r: Response)
    ensures r.status == BadRequest <==> crowdDataDTOs.None? || crowdDataDTOs.value == []
    ensures r.status == InternalServerError <==>
      crowdDataDTOs.Some? && crowdDataDTOs.value != [] && saveAll(crowdDataDTOs.value).Failure?
    ensures "success" in r.body && r.body["success"] == Bool(r.status == Created)
    ensures "timestamp" in r.body && r.body["timestamp"] == Timestamp(now)
    ensures r.status == InternalServerError ==>
      "message" in r.body && r.body["message"] == Text("Error saving crowd data batch: " + saveAll(crowdDataDTOs.value).error)
  {
    if crowdDataDTOs.None? || crowdDataDTOs.value == [] then
      Response(BadRequest, map[
        "success" := Bool(false),
        "message" := Text("No data provided"),
        "timestamp" := Timestamp(now)])
    else
      match saveAll(crowdDataDTOs.value)
      case Success(savedData) =>
        Response(Created, map[
          "success" := Bool(true),
          "message" := Text("Crowd data batch saved successfully"),
          "data" := Entries(savedData),
          "recordsSaved" := Int(|savedData|),
          "timestamp" := Timestamp(now)])
      case Failure(e) =>
        Response(InternalServerError, map[
          "success" := Bool(false),
          "message" := Text("Error saving crowd data batch: " + e),
          "timestamp" := Timestamp(now)])
  }

  /**
   * A missing or empty batch is answered BAD_REQUEST whatever the service
   * would do, so the service plays no part; a non-empty batch is CREATED
   * exactly when the service saves it, reporting how many records it saved.
   */
  lemma BatchGuard(
    crowdDataDTOs: Option<seq<CrowdDataDto.CrowdDataDTO>>,
    saveAll: seq<CrowdDataDto.CrowdDataDTO> -> Result<seq<CrowdData>, string>,
    otherSaveAll: seq<CrowdDataDto.CrowdDataDTO> -> Result<seq<CrowdData>, string>,
    now: int)
    ensures crowdDataDTOs.None? || crowdDataDTOs.value == [] ==>
      && SaveMultipleCrowdData(crowdDataDTOs, saveAll, now).status == BadRequest
      && SaveMultipleCrowdData(crowdDataDTOs, saveAll, now) == SaveMultipleCrowdData(crowdDataDTOs, otherSaveAll, now)
    ensures crowdDataDTOs.Some? && crowdDataDTOs.value != [] ==>
      var r := SaveMultipleCrowdData(crowdDataDTOs, saveAll, now);
      && (r.status == Created <==> saveAll(crowdDataDTOs.value).Success?)
      && (r.status == Created ==> r.body["recordsSaved"] == Int(|saveAll(crowdDataDTOs.value).value|))
  {
  }
}
