# CrowdOracle serial link and dashboard logic, in Dafny

CrowdOracle counts the people in a room and records the room temperature.
An Arduino sends one JSON object per line over a serial port, and a Spring
Boot backend stores each reading. A REST controller reports the latest
reading and summary statistics. A browser dashboard runs a person detector
on a webcam feed and shows the room's occupancy.

This project models the core of that system and proves properties of the
model:

- **Serial link** (`SerialCommunicationService`):
  - the line framing over the `dataBuffer` field: text is appended, cut at
    every `'\n'`, each segment is trimmed and dispatched if non-empty, and
    the unterminated rest is kept;
  - the classification of each line: a device error when it contains the
    quoted marker `"error"`, otherwise a reading that is handed to
    `saveCrowdData`, with any failure caught per line;
  - the port lifecycle: `init`, `cleanup`, `reconnect`, `isConnected`,
    `getPortName`, and the `getAvailablePorts` labels.
- **CrowdDataDTO**: the validity predicate given by its field constraints,
  its constructors, getters and setters.
- **CrowdDataController**: the statistics endpoint, the "latest" endpoint
  and the empty-batch guard of the batch endpoint.
- **Dashboard** (`frontend/app.js`):
  - the occupancy percentage and its three status bands;
  - the people filter;
  - the activity list capped at 20 entries;
  - the camera and detection flags;
  - the frame counter and the FPS tick.

Files:

| file | module | content |
|---|---|---|
| `wrappers.dfy` | `Wrappers` | `Option` and `Result` |
| `strings.dfy` | `Strings` | `indexOf`, `trim` and `contains` as Java defines them |
| `framing.dfy` | `Framing` | how the text is cut into lines, and the reconstruction and dispatch properties |
| `decoding.dfy` | `Decoding` | classification of one line over an abstract JSON reader |
| `serial_service.dfy` | `SerialService` | the service class: port lifecycle, `SerialEvent` loop, `ProcessSerialData`, port labels |
| `crowd_data_dto.dfy` | `CrowdDataDto` | the DTO class and its constraints |
| `crowd_data_controller.dfy` | `CrowdDataController` | the response maps of the three endpoints |
| `occupancy.dfy` | `Occupancy` | percentage, status bands, modal capacity fallback, person filter |
| `dashboard.dfy` | `Dashboard` | the `CrowdOracle` dashboard class: flags, counters, capacity display, activity list |

Where the libraries come in:

- The serial library is replaced by parameters. `found: Option<PortIdentity>`
  stands for `getCommPort`, and `openSucceeds` for `openPort`.
- The JSON library is a `JsonReader` value. Its `readTree` gives the root
  object's fields, or `None` where parsing throws. The coercions `asText`,
  `asDouble` and `asInt` are left uninterpreted.
- `saveCrowdData` is a `sink` predicate on the reading; `false` means the
  call threw. The sink is fixed for one `SerialEvent`, so two identical
  readings in one event get the same answer, which the real
  `saveCrowdData` does not promise; the properties of which readings
  reach it hold whatever it answers.
- The service's logger is the `log` field, which records one outcome per
  processed line.
- In the controller, the list the repository returns is a
  `Result<seq<CrowdData>, string>`, where `Failure` means it threw.
  `LocalDateTime.now()` is the parameter `now`.
- In the dashboard, camera permission, detector results and the model
  download arrive as method parameters.

Two behaviours of the code worth knowing:

- **The buffer survives a reconnect.** `dataBuffer` is created once
  (SerialCommunicationService.java:30) and never cleared by `init`,
  `cleanup` or `reconnect`, so a partial line survives a reconnect:
  `SerialService.SerialCommunicationService.Reconnect` leaves `dataBuffer`
  unchanged.
- **The device-error marker is quoted.** The marker is the quoted word
  `"error"`, quotes included. A line that only mentions error without
  quotes goes down the reading path, and becomes a reading only if it
  parses with both fields.

## Model

| member | source | states |
|---|---|---|
| Strings.IndexOf | Backend/src/main/java/com/Cloud/CrowdOracle/services/SerialCommunicationService.java:110 | the result is -1 exactly when the character is absent; otherwise it is its first position |
| Strings.ContainsSingle | Backend/src/main/java/com/Cloud/CrowdOracle/services/SerialCommunicationService.java:132 | String.contains: every string contains the empty string and nothing longer than itself, and a one-character string exactly when that character occurs |
| Strings.Trim | Backend/src/main/java/com/Cloud/CrowdOracle/services/SerialCommunicationService.java:111 | the result is a contiguous piece of the input; it is empty iff every character is at most U+0020; otherwise its first and last characters are kept by trim() |
| Strings.TrimCutsOnlyEnds | Backend/src/main/java/com/Cloud/CrowdOracle/services/SerialCommunicationService.java:111 | trim() removes a run of characters at most U+0020 from the start and one from the end, and nothing else: the result is the input between those runs |
| Framing.Frame | Backend/src/main/java/com/Cloud/CrowdOracle/services/SerialCommunicationService.java:104-120 | the cut segments, each followed by '\n', and then the rest give back the whole text; no segment and not the rest contains '\n' |
| Framing.FrameUnique | Backend/src/main/java/com/Cloud/CrowdOracle/services/SerialCommunicationService.java:110-120 | any decomposition into newline-free segments, each followed by '\n', and a newline-free rest is the framing |
| Framing.CutStep | Backend/src/main/java/com/Cloud/CrowdOracle/services/SerialCommunicationService.java:110-112 | one loop round, cutting the pending text at its first '\n', keeps the reconstruction invariant |
| Framing.JoinLinesAppend | Backend/src/main/java/com/Cloud/CrowdOracle/services/SerialCommunicationService.java:104-120 | rejoining two runs of segments is rejoining each and concatenating, so order is kept |
| Framing.Dispatch | Backend/src/main/java/com/Cloud/CrowdOracle/services/SerialCommunicationService.java:111-116 | a segment yields at most one line, and none exactly when every character is at most U+0020 (space or a C0 control character); DEL, U+00A0 and other Unicode whitespace are kept; a dispatched line is non-empty and trimmed |
| Framing.DispatchedLines | Backend/src/main/java/com/Cloud/CrowdOracle/services/SerialCommunicationService.java:110-117 | at most one line per segment; every dispatched line is non-empty and already trimmed |
| Framing.DispatchedLinesAppend | Backend/src/main/java/com/Cloud/CrowdOracle/services/SerialCommunicationService.java:110-117 | the lines of earlier segments come before those of later ones: receipt order |
| Framing.DispatchedLinesSound | Backend/src/main/java/com/Cloud/CrowdOracle/services/SerialCommunicationService.java:111-116 | every dispatched line is the non-empty trim of some segment |
| Framing.DispatchedLinesComplete | Backend/src/main/java/com/Cloud/CrowdOracle/services/SerialCommunicationService.java:111-116 | every segment whose trim is non-empty is dispatched |
| Framing.DispatchedLinesMembership | Backend/src/main/java/com/Cloud/CrowdOracle/services/SerialCommunicationService.java:111-116 | a line is dispatched iff it is the non-empty trim of a segment; segments made only of characters at most U+0020 are dropped |
| Decoding.Decode | Backend/src/main/java/com/Cloud/CrowdOracle/services/SerialCommunicationService.java:127-155 | a reading is produced only for a line without the marker, and a device error only for a line with it |
| Decoding.ErrorLineNeverParsed | Backend/src/main/java/com/Cloud/CrowdOracle/services/SerialCommunicationService.java:132-137 | a line with the marker never yields a reading, whatever its JSON holds; it is a device error iff it parses with an "error" field |
| Decoding.ParsedIff | Backend/src/main/java/com/Cloud/CrowdOracle/services/SerialCommunicationService.java:140-143 | a line without the marker yields a reading iff it parses and has both fields; the reading holds the two coerced values |
| SerialService.Outcome | Backend/src/main/java/com/Cloud/CrowdOracle/services/SerialCommunicationService.java:127-155 | a line decoding to a device error is logged as that error with its message, and only such a line (which carries the marker); a line that is malformed or throws is logged as a caught failure of that line, and only such a line; a line becomes a save attempt iff it decodes to a reading, and the attempt succeeds iff saveCrowdData does |
| SerialService.OutcomesPointwise | Backend/src/main/java/com/Cloud/CrowdOracle/services/SerialCommunicationService.java:130-154 | the k-th line's outcome depends on that line and the sink's answer for its reading alone, so a failure on one line does not affect the next |
| SerialService.OutcomesAppend | Backend/src/main/java/com/Cloud/CrowdOracle/services/SerialCommunicationService.java:110-117 | the outcomes of two runs of lines are the outcomes of each, in order |
| SerialService.OutcomesStep | Backend/src/main/java/com/Cloud/CrowdOracle/services/SerialCommunicationService.java:110-117 | one loop round appends the outcomes of one segment |
| SerialService.SinkCallsAreDecodedReadings | Backend/src/main/java/com/Cloud/CrowdOracle/services/SerialCommunicationService.java:140-154 | saveCrowdData receives exactly the readings the lines decode to, in order, whether earlier saves failed or not |
| SerialService.DecodedReadingsBound | Backend/src/main/java/com/Cloud/CrowdOracle/services/SerialCommunicationService.java:132-146 | readings plus marked lines number at most the lines |
| SerialService.SinkCallBound | Backend/src/main/java/com/Cloud/CrowdOracle/services/SerialCommunicationService.java:132-154 | each line causes at most one save and a marked line none: the saves number at most the unmarked lines |
| SerialService.SerialPathSkipsValidation | Backend/src/main/java/com/Cloud/CrowdOracle/services/SerialCommunicationService.java:142-148 | a decoded negative count still reaches saveCrowdData, although the DTO constraints reject it |
| SerialService.PortNameReportsPortObject | Backend/src/main/java/com/Cloud/CrowdOracle/services/SerialCommunicationService.java:169-178 | getPortName is "Not connected" iff there is no port object; a port that failed to open is reported by name and is not connected |
| SerialService.SerialCommunicationService.constructor | Backend/src/main/java/com/Cloud/CrowdOracle/services/SerialCommunicationService.java:29-38 | no port, an empty buffer, nothing processed |
| SerialService.SerialCommunicationService.IsConnected | Backend/src/main/java/com/Cloud/CrowdOracle/services/SerialCommunicationService.java:169-171 | connected iff there is a port object and it is open; in a valid state a connected port has the data listener |
| SerialService.SerialCommunicationService.GetPortName | Backend/src/main/java/com/Cloud/CrowdOracle/services/SerialCommunicationService.java:176-178 | "Not connected" without a port object (and then not connected); otherwise the port's system name, whether it opened or not |
| SerialService.SerialCommunicationService.Init | Backend/src/main/java/com/Cloud/CrowdOracle/services/SerialCommunicationService.java:40-74 | no port object when the port is not found; otherwise the configured port, open and listening exactly when openPort succeeds; connected iff both |
| SerialService.SerialCommunicationService.StartListening | Backend/src/main/java/com/Cloud/CrowdOracle/services/SerialCommunicationService.java:87-88 | attaches the data listener to the port and changes nothing else |
| SerialService.SerialCommunicationService.Cleanup | Backend/src/main/java/com/Cloud/CrowdOracle/services/SerialCommunicationService.java:157-164 | an open port loses its listener and is closed; a missing or closed port is left as it is; the port name is unchanged |
| SerialService.SerialCommunicationService.Reconnect | Backend/src/main/java/com/Cloud/CrowdOracle/services/SerialCommunicationService.java:183-187 | returns exactly isConnected() afterwards, which holds iff the port is found and opens; buffer and processed lines are untouched |
| SerialService.SerialCommunicationService.SerialEvent | Backend/src/main/java/com/Cloud/CrowdOracle/services/SerialCommunicationService.java:95-121 | called only on a port with the data listener attached; other events change nothing; for data, old buffer plus chunk equals the cut segments, each followed by '\n', plus the new newline-free buffer, and each dispatched line is processed once, in order |
| SerialService.SerialCommunicationService.DispatchSegment | Backend/src/main/java/com/Cloud/CrowdOracle/services/SerialCommunicationService.java:111-116 | a segment is processed once if its trim is non-empty and not at all otherwise |
| SerialService.SerialCommunicationService.ProcessSerialData | Backend/src/main/java/com/Cloud/CrowdOracle/services/SerialCommunicationService.java:127-155 | records exactly one outcome for the line: device error, caught failure, saved, or failed save |
| SerialService.SerialCommunicationService.GetAvailablePorts | Backend/src/main/java/com/Cloud/CrowdOracle/services/SerialCommunicationService.java:192-199 | one "system name - description" entry per listed port, in the same order |
| CrowdDataDto.Violations | Backend/src/main/java/com/Cloud/CrowdOracle/dtos/CrowdDataDTO.java:9-15 | a null field is reported by @NotNull and only by it; the bound checks report only present values |
| CrowdDataDto.ConstraintsHoldIff | Backend/src/main/java/com/Cloud/CrowdOracle/dtos/CrowdDataDTO.java:9-15 | valid iff the temperature is present and at least -273.15, the bound included, and the count is present and at least 0 |
| CrowdDataDto.CrowdDataDTO.constructor | Backend/src/main/java/com/Cloud/CrowdOracle/dtos/CrowdDataDTO.java:18 | both fields null |
| CrowdDataDto.CrowdDataDTO.WithValues | Backend/src/main/java/com/Cloud/CrowdOracle/dtos/CrowdDataDTO.java:21-24 | the getters return both arguments unchanged, valid or not |
| CrowdDataDto.CrowdDataDTO.GetTemperatureCelsius | Backend/src/main/java/com/Cloud/CrowdOracle/dtos/CrowdDataDTO.java:27-29 | the stored temperature; a valid DTO holds one, at least -273.15 |
| CrowdDataDto.CrowdDataDTO.GetTotalPeopleCount | Backend/src/main/java/com/Cloud/CrowdOracle/dtos/CrowdDataDTO.java:35-37 | the stored count; a valid DTO holds one, not negative |
| CrowdDataDto.CrowdDataDTO.IsValid | Backend/src/main/java/com/Cloud/CrowdOracle/dtos/CrowdDataDTO.java:9-15 | the DTO passes its constraints iff the temperature is present and at least -273.15 and the count is present and not negative |
| CrowdDataDto.CrowdDataDTO.SetTemperatureCelsius | Backend/src/main/java/com/Cloud/CrowdOracle/dtos/CrowdDataDTO.java:31-33 | sets the temperature and leaves the count as it was |
| CrowdDataDto.CrowdDataDTO.SetTotalPeopleCount | Backend/src/main/java/com/Cloud/CrowdOracle/dtos/CrowdDataDTO.java:39-41 | sets the count and leaves the temperature as it was |
| CrowdDataController.MaxPeopleCount | Backend/src/main/java/com/Cloud/CrowdOracle/controller/CrowdDataController.java:277-280 | empty iff there are no records; otherwise at least every count and equal to one of them |
| CrowdDataController.MinPeopleCount | Backend/src/main/java/com/Cloud/CrowdOracle/controller/CrowdDataController.java:282-285 | empty iff there are no records; otherwise at most every count and equal to one of them |
| CrowdDataController.GetCrowdDataStats | Backend/src/main/java/com/Cloud/CrowdOracle/controller/CrowdDataController.java:261-310 | OK with success true iff the records are read; otherwise INTERNAL_SERVER_ERROR with only success false, the error message and the timestamp |
| CrowdDataController.StatsOfNoRecords | Backend/src/main/java/com/Cloud/CrowdOracle/controller/CrowdDataController.java:265-299 | with no records the response is OK and holds only success, message, totalRecords (0) and timestamp |
| CrowdDataController.StatsOfRecords | Backend/src/main/java/com/Cloud/CrowdOracle/controller/CrowdDataController.java:265-296 | totalRecords is the number of records; the reported maximum and minimum bound every count and occur among them; latestEntry is the first record, the newest when the list is newest first |
| CrowdDataController.SumPeopleCountBounds | Backend/src/main/java/com/Cloud/CrowdOracle/controller/CrowdDataController.java:272-275 | counts between two bounds add up to between n times each bound |
| CrowdDataController.RoundToHundredthsBounds | Backend/src/main/java/com/Cloud/CrowdOracle/controller/CrowdDataController.java:292 | rounding to hundredths keeps a value within integer bounds |
| CrowdDataController.AverageBetweenMinAndMax | Backend/src/main/java/com/Cloud/CrowdOracle/controller/CrowdDataController.java:272-294 | the reported average people count, rounded, lies between the reported minimum and maximum |
| CrowdDataController.GetLatestCrowdData | Backend/src/main/java/com/Cloud/CrowdOracle/controller/CrowdDataController.java:222-254 | OK with success true iff the records are read; otherwise INTERNAL_SERVER_ERROR with only success false, the error message and the timestamp |
| CrowdDataController.LatestOfRecords | Backend/src/main/java/com/Cloud/CrowdOracle/controller/CrowdDataController.java:228-244 | always OK with success true; with records, data and currentPeopleCount come from the first (newest) record; without, data and temperature are null and the count 0 |
| CrowdDataController.SaveMultipleCrowdData | Backend/src/main/java/com/Cloud/CrowdOracle/controller/CrowdDataController.java:63-94 | BAD_REQUEST iff the batch is null or empty; INTERNAL_SERVER_ERROR with the service's message iff a non-empty batch fails to save; success is true exactly for CREATED |
| CrowdDataController.BatchGuard | Backend/src/main/java/com/Cloud/CrowdOracle/controller/CrowdDataController.java:66-84 | a null or empty batch is BAD_REQUEST whatever the service would do; otherwise CREATED iff the service saves, with recordsSaved the number saved |
| Occupancy.RoundHalfUp | frontend/app.js:360 | Math.round: within one half of the argument, a half rounded up |
| Occupancy.OccupancyPercentage | frontend/app.js:360 | at most 100; below 100 it is count/capacity in percent rounded to the nearest integer; 100 iff the share is at least 99.5% |
| Occupancy.OccupancyPercentageRange | frontend/app.js:360 | for a non-negative count and a positive capacity the percentage is 0 to 100 |
| Occupancy.OccupancyPercentageMonotone | frontend/app.js:360 | more people in the same room never show a smaller percentage |
| Occupancy.StatusOf | frontend/app.js:373-385 | Critical iff at least 90, High Load iff 70 to 89, Optimal iff below 70 |
| Occupancy.StatusBands | frontend/app.js:357-386 | in terms of the share itself: Critical from 89.5%, High Load from 69.5% to below 89.5%, Optimal below 69.5% |
| Occupancy.ModalCapacity | frontend/app.js:539 | a parsed non-zero capacity is kept; NaN or 0 becomes 60; the result is never 0 |
| Occupancy.DetectedPeople | frontend/app.js:285-287 | every kept prediction is of class "person" with score at least the threshold, every such prediction of the input is kept, and nothing is kept more often than it occurs |
| Occupancy.DetectedPeopleMultiplicity | frontend/app.js:285-289 | each counted prediction is kept as often as it occurs and every other prediction is dropped, so the people count stored by detect is the number of counted predictions |
| Occupancy.DetectedPeopleThresholdMonotone | frontend/app.js:285-287 | raising the threshold never counts more people |
| Dashboard.WithoutPlaceholder | frontend/app.js:459-462 | without a placeholder the list is unchanged; with one, the first placeholder is removed and the other entries keep their order; as a multiset, one placeholder less |
| Dashboard.Newest | frontend/app.js:473-476 | at most 20 entries, a prefix of the list, the whole list when it is shorter |
| Dashboard.NewestKeepsOrder | frontend/app.js:458-477 | the new entry is first, followed by the older entries in order with the oldest trimmed; below the limit, without a placeholder, nothing is lost |
| Dashboard.NewestOfCons | frontend/app.js:464-476 | after prepending an entry and trimming to 20, that entry is first and a prefix of the older entries follows; below the limit nothing is trimmed |
| Dashboard.CrowdOracle.constructor | frontend/app.js:46-65 | flags off, counters zero, capacity 60, threshold 0.5 |
| Dashboard.CrowdOracle.LoadModel | frontend/app.js:157-175 | the model is loaded once a download succeeds and stays loaded |
| Dashboard.CrowdOracle.StartCamera | frontend/app.js:177-210 | with permission the camera becomes active and detection starts if the model is loaded; without it nothing changes |
| Dashboard.CrowdOracle.StopCamera | frontend/app.js:212-225 | camera and detection both off |
| Dashboard.CrowdOracle.ToggleCamera | frontend/app.js:227-234 | an active camera is stopped along with detection; otherwise the camera is started |
| Dashboard.CrowdOracle.StartDetection | frontend/app.js:243-251 | detection starts only with a loaded model and an active camera; the invariant "detecting implies camera active and model loaded" holds |
| Dashboard.CrowdOracle.StopDetection | frontend/app.js:253-264 | detection off |
| Dashboard.CrowdOracle.ToggleDetection | frontend/app.js:266-276 | running detection is paused; otherwise it resumes iff the camera is active |
| Dashboard.CrowdOracle.UpdateCapacityDisplay | frontend/app.js:357-386 | the display shows the occupancy percentage of the current count and its band |
| Dashboard.CrowdOracle.Detect | frontend/app.js:278-304 | while detecting, an answered frame sets the count to the filtered people, counts one frame and refreshes the display; otherwise nothing changes |
| Dashboard.CrowdOracle.FpsTick | frontend/app.js:487-493 | fps becomes the frames counted since the last tick and the frame counter restarts at 0 |
| Dashboard.CrowdOracle.AddActivityItem | frontend/app.js:458-477 | the list becomes the newest 20 of the new entry followed by the old entries without the placeholder |
| Dashboard.CrowdOracle.ClearActivity | frontend/app.js:479-485 | only the placeholder remains |
| Dashboard.CrowdOracle.SaveSettingsFromModal | frontend/app.js:533-551 | stores the threshold and the capacity, falling back to 60; the display is refreshed only by the next frame |

## Left out

- jSerialComm calls are replaced by parameters. `listAvailablePorts` only writes to the log, so it is not modelled. jSerialComm may throw from `getCommPort` instead of returning null; that is not modelled. The listener's event-type mask is not modelled either.
- SerialService.SerialCommunicationService.Init: the port settings are recorded as values in the port object. The library calls that apply them are not modelled.
- Decoding.Decode: Jackson's coercions (`asText`, `asDouble`, `asInt` on non-numeric or null nodes) are uninterpreted. So are the field lookups on a root that is not a JSON object: such a root is read as an object without fields.
- Byte-to-text decoding (`new String(bytes)` with the platform charset) is not modelled: chunks are character sequences. A multi-byte character split across chunks is not modelled.
- Threading is not modelled. The listener thread and `reconnect` are not synchronised in the code, and the model treats every call as atomic.
- Logging is not modelled: the service's log messages are abstracted into the `log` field's outcomes.
- Floating point: temperatures, averages and the dashboard's ratio are exact reals, not IEEE doubles. Java's 32-bit `int` counts and JavaScript's numbers are unbounded integers.
- CrowdDataController.AverageBetweenMinAndMax: proved for exact reals. A double rounding of the average is not covered.
- Occupancy.OccupancyPercentage: computed on exact reals. JavaScript's rounding of `count / capacity * 100` in binary floating point may differ at exact halves.
- CrowdDataDTO's `toString` is not modelled: it only formats text for logs.
- Spring Bean Validation of request bodies is not modelled: `@Valid` on the batch list belongs to the framework. The constraints are modelled as the `Violations` function.
- The CRUD endpoints other than "latest", "stats" and "batch" are not modelled. Neither are `CrowdDataService`, the repository, the `CrowdData` entity's generated ids and timestamps, `GlobalExceptionHandler`, the other controllers or the security configuration. The list source and the batch save are parameters.
- SerialPortConfig is not modelled apart from the nested port's name and baud rate, which the service's constructor takes as a parameter; its defaults ("COM3", 9600) are not modelled. The service never reads the top-level `portName`.
- Dashboard.CrowdOracle.constructor: the page markup in `index.html` is not part of this model. So the initial activity list is taken to be the single placeholder that `clearActivity` also writes, and the initial display to be 0% and Optimal.
- Dashboard.CrowdOracle.AddActivityItem: only element children of the list are modelled, not whitespace text nodes. The trimming loop removes entries from a local sequence, which is then stored, rather than removing nodes in place.
- Dashboard.CrowdOracle.Detect: the source tests `isDetecting` before awaiting the detector and updates the count and frame counter after it without testing again; the model makes the test and the update one step. A stop that arrives while the detector is busy is modelled as arriving just after the update, which reaches the same states.
- Dashboard.CrowdOracle.Detect: the animation-frame rescheduling, canvas drawing and exceptions from drawing are not modelled. A detector failure is the only caught error.
- Dashboard.CrowdOracle.StartDetection: the first `detect()` call and `startDataUpload` are asynchronous, so they are separate events here (`Detect`). Data upload, `fetch`, timers, toasts, screenshots, `localStorage`, the backend URL, the upload interval and the checkbox settings are not modelled.
- Dashboard.CrowdOracle.SaveSettingsFromModal: a confidence threshold that parses to NaN is not modelled (the threshold is a real). Settings loaded from `localStorage` are not modelled; they could carry a capacity of 0.
