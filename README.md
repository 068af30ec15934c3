# Sensor codec and message handlers of the vsomeip demo server

This project models the server side of a small SOME/IP demonstration: the
codec and the message handlers in `server/sensor_data.cpp`.

- The server receives three kinds of sensor readings: vehicle speed, engine
  temperature and ambient temperature.
- Each reading arrives as a payload of bytes, and each handler names its
  method id in what it reports: 0x0001, 0x0002 and 0x0003.
- A record is a 4-byte `float` followed by a 4-byte `uint32_t` timestamp.
  The C++ copies both out of the payload with `memcpy`.
- A payload shorter than eight bytes decodes to an all-zero record.
- Each handler decodes its payload and increments the shared
  `message_count`. It then prints a warning when the reading is out of range:
  speed above 100, engine temperature above 100, or ambient temperature
  below 0.

Files:

- `bytes.dfy` (module `Bytes`): `uint8_t` and `uint32_t` as integer
  newtypes, and the in-memory layout of a 32-bit word. Load and store are
  proved to be inverses.
- `float32.dfy` (module `Float32`): the IEEE-754 binary32 value of a
  `float` bit pattern, and the C++ comparisons `x > c` and `x < c` on it. A
  NaN compares false. The module proves that a larger magnitude field means
  a larger absolute value, and that on non-negative finite patterns the bit
  order is the value order; no order among negative patterns is stated. From that
  it derives the exact bit ranges for which `x > 100.0` and `x < 0.0`
  hold.
- `sensor_data.dfy` (module `SensorData`): the three record structs of
  `sensor_data.h` as one datatype with three constructors, and the shared
  decoding rule.
  - The three `deserialize_*` functions are defined through that rule.
  - A byte-level contract says the float's and the timestamp's in-memory
    bytes are payload bytes [0,4) and [4,8).
  - The tests' `create_payload` is modelled as the encoder.
  - Lemmas cover the round trips in both directions, trailing bytes being
    ignored, and the three deserialisers agreeing.
- `message_handlers.dfy` (module `MessageHandlers`): the global
  `message_count` as the field of class `SensorServer`, with one method for
  each `on_*_message` handler.
  - Each method returns a `Report` instead of printing. The report holds the
    counter value shown as `[#n]`, the decoded record, the alert flag and the
    method id.
  - Lemmas cover the alert ranges, the boundary readings and the tests'
    mixed six-message sequence.

Assumptions:

- Byte order is little-endian. The C++ uses the platform's native order and
  sends no tag.
- The float is kept as its raw 32 bits. Only its comparison with the
  thresholds is interpreted, through the exact IEEE-754 value. The C++
  promotes the float to `double` before comparing with `100.0` or `0.0`.
  That promotion is exact, so comparing the exact real value gives the same
  result.
- The received payload is a `seq<Byte>`. The handler's copy into a
  `std::vector` is a value copy, so it is modelled as binding the value.

## Model

| member | source | states |
|---|---|---|
| Bytes.StoreUint32 | server/sensor_data.cpp:15-17 | the in-memory bytes of a word, always four, least significant first (little-endian fixed); LoadOfStore, StoreOfLoad and StoreInjective make it a bijection with LoadUint32 |
| Bytes.LoadUint32 | server/sensor_data.cpp:15-17 | the word a `memcpy` of four bytes into a 4-byte field yields; it is the inverse of StoreUint32 in both directions by LoadOfStore and StoreOfLoad |
| Bytes.LoadOfStore | server/sensor_data.cpp:15-17 | reading a word back from the four bytes it is stored as gives the same word |
| Bytes.StoreOfLoad | server/sensor_data.cpp:15-17 | the word read from any four bytes is stored as those same four bytes, so `memcpy` into a word loses nothing |
| Bytes.StoreInjective | server/sensor_data.cpp:15-17 | two words with the same in-memory bytes are equal |
| Float32.Value | server/sensor_data.h:11 | a pattern is finite exactly when its magnitude is below 0x7F800000; it is infinite exactly at 0x7F800000/0xFF800000, and the infinity's sign is the sign bit; every other pattern is NaN |
| Float32.ScaledBounds | server/sensor_data.cpp:55 | a finite pattern with exponent field e has magnitude in [2^23 * 2^(e-1), 2^23 * 2^e) on the 2^-149 scale (the lower end for normal patterns, e ≥ 1, only) |
| Float32.ScaledIncreasing | server/sensor_data.cpp:55 | among finite patterns, a larger magnitude field means a strictly larger absolute value |
| Float32.FiniteSign | server/sensor_data.cpp:83 | a finite value is zero exactly for +0.0 and -0.0; it is negative exactly when the sign bit is set and it is not -0.0; it is positive exactly when the sign bit is clear and it is not +0.0 |
| Float32.NonNegativeOrder | server/sensor_data.cpp:55 | on non-negative finite patterns, the value order is the bit order (both directions) |
| Float32.GreaterThan | server/sensor_data.cpp:55-69 | the C++ `x > c` of a float against a double: for a finite value, the exact real comparison; true for +infinity, false for -infinity and every NaN; GreaterThanIff turns it into a bit range |
| Float32.LessThan | server/sensor_data.cpp:83 | the C++ `x < c`: for a finite value, the exact real comparison; true for -infinity, false for +infinity and every NaN; LessThanZeroIff turns it into a bit range for c = 0.0 |
| Float32.GreaterThanIff | server/sensor_data.cpp:55-69 | for every non-negative finite limit c, `x > c` holds exactly when c's pattern < x's pattern <= +infinity; it is false for c itself, for negatives, -0.0 and NaN |
| Float32.LessThanZeroIff | server/sensor_data.cpp:83 | `x < 0.0` holds exactly for patterns in (0x80000000, 0xFF800000]: false for +0.0, -0.0, positives and every NaN |
| Float32.HundredValue | server/tests/test_handlers.cpp:224-236 | the pattern 0x42C80000 (100.0f) has the value exactly 100 |
| Float32.GreaterThanHundredIff | server/sensor_data.cpp:55 | `x > 100.0` holds exactly for patterns in (0x42C80000, 0x7F800000] |
| SensorData.MakeRecord | server/sensor_data.h:10-23 | the record built for a kind has that kind, that value and that timestamp |
| SensorData.Deserialize | server/sensor_data.cpp:11-42 | the record has the requested kind; a payload shorter than 8 bytes gives value 0 and timestamp 0; otherwise the value's bytes are payload[0..4) and the timestamp's are payload[4..8) |
| SensorData.DeserializeSpeedData | server/sensor_data.cpp:11-20 | returns a SpeedData record; it is SpeedData(0, 0) below 8 bytes; otherwise speed's bytes are payload[0..4) and timestamp's are payload[4..8) |
| SensorData.DeserializeEngineTempData | server/sensor_data.cpp:22-31 | the same rule for EngineTemperatureData |
| SensorData.DeserializeAmbientTempData | server/sensor_data.cpp:33-42 | the same rule for AmbientTemperatureData |
| SensorData.CreatePayload | server/tests/test_server.cpp:10-15 | the payload is 8 bytes: the float's bytes, then the timestamp's |
| SensorData.RoundTrip | server/tests/test_server.cpp:115-124 | for every kind, float bit pattern and timestamp (UINT32_MAX included), decoding the created payload gives back exactly that value and timestamp |
| SensorData.ReencodeGivesPrefix | server/sensor_data.cpp:13-18 | for a payload of at least 8 bytes, re-encoding the decoded record gives its first 8 bytes |
| SensorData.TrailingBytesIgnored | server/sensor_data.cpp:13-18 | for a payload of at least 8 bytes, decoding gives the same record as decoding its first 8 bytes |
| SensorData.DeserializersAgree | server/tests/test_server.cpp:192-202 | on any payload the three deserialisers give the same float bits and the same timestamp |
| SensorData.LargeZeroPayload | server/tests/test_server.cpp:216-224 | a 1000-byte zero buffer decodes to value 0 and timestamp 0 |
| SensorData.AllOnesPayload | server/tests/test_server.cpp:192-202 | eight 0xFF bytes decode, for every kind, to the all-ones pattern (a NaN) and timestamp UINT32_MAX |
| MessageHandlers.SensorServer.constructor | server/sensor_data.cpp:8 | the counter starts at 0 |
| MessageHandlers.SensorServer.OnSpeedMessage | server/sensor_data.cpp:45-57 | the counter rises by exactly 1; the report holds the new count, the decoding of exactly the received bytes as SpeedData, the alert flag (`speed > 100`) and method 0x0001 |
| MessageHandlers.SensorServer.OnEngineTempMessage | server/sensor_data.cpp:59-71 | the same, for EngineTemperatureData decoding, the alert `temperature > 100` and method 0x0002 |
| MessageHandlers.SensorServer.OnAmbientTempMessage | server/sensor_data.cpp:73-85 | the same, for AmbientTemperatureData decoding, the alert `temperature < 0` and method 0x0003 |
| MessageHandlers.SensorServer.ResetMessageCount | server/tests/test_handlers.cpp:307-323 | the counter is 0 afterwards |
| MessageHandlers.IsAlert | server/sensor_data.cpp:55-83 | speed and engine records alert when the value is `> 100.0`, ambient records when it is `< 0.0`, through the IEEE value; AlertIff gives the bit ranges |
| MessageHandlers.AlertIff | server/sensor_data.cpp:55-83 | speed and engine records alert exactly for value patterns in (0x42C80000, 0x7F800000]; ambient records alert exactly for patterns in (0x80000000, 0xFF800000] |
| MessageHandlers.ShortPayloadNoAlert | server/sensor_data.cpp:12-18 | a payload shorter than 8 bytes never raises an alert, for any kind |
| MessageHandlers.BoundaryValues | server/tests/test_handlers.cpp:224-303 | 100.0f raises neither HIGH SPEED nor OVERHEAT and 100.1f raises both; 0.0f and -0.0f are not FREEZING and -0.1f is |
| MessageHandlers.MixedSequence | server/tests/test_handlers.cpp:327-356 | six mixed messages on a fresh server report counts 1..6, each decodes to its own value and timestamp and names its own method, and only the last three alert |

## Left out

- The middleware: creating the application, `init`, registering handlers,
  `offer_service`/`request_service`, `send` and `start` in
  `server/server.cpp` and `client/client.cpp`. These are foreign calls into
  vsomeip, so the model starts at the handler with the payload bytes.
- `server/server.cpp` `on_message`: it only increments its own
  `client_count` and prints, and it is reachable only through the middleware.
- `client/client.cpp`: the availability callback, which sends one request
  with the fixed three-byte payload `{0x01, 0x02, 0x03}` to method 0x0001,
  and the response callback, which prints the response payload in hex. The
  server binds method 0x0001 to `on_message` (`server/server.cpp:20`), not to
  a deserialiser; if that payload were given to one, it would decode to the
  zero record by `SensorData.Deserialize`.
- The client-side periodic sender of sensor readings is not modelled;
  `client/client.cpp` sends one fixed request when the service becomes
  available.
- Console output: `setprecision`, `setw`, the labels and emoji. A handler's
  output is the `Report`: count, record, alert flag and method id.
- Float arithmetic and formatting: the value is kept as its bit pattern.
  Only the two comparisons the handlers make are given meaning.
- Native byte order: fixed to little-endian. On a big-endian host the value
  and timestamp bytes would be reversed.
- MessageHandlers.SensorServer.OnSpeedMessage: `messageCount` is an unbounded
  integer. The C++ `int message_count` would overflow, which is undefined
  behaviour, after 2^31 - 1 messages. The same holds for
  OnEngineTempMessage and OnAmbientTempMessage.
- The header `message_handlers.h`, which declares `get_message_count` and
  `reset_message_count`, is not part of this model. `get_message_count` is
  read as the field `messageCount` itself, and reset is modelled as
  `MessageHandlers.SensorServer.ResetMessageCount` from its test at
  `server/tests/test_handlers.cpp:307-323`.
- Concurrency: the handlers are called one at a time. The C++ counter is an
  unsynchronised global.
