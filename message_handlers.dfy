/** The server's three message handlers. Each one takes the payload of a
    received request, decodes it with its kind's deserialiser, counts the
    message in the counter they all share, and decides whether the reading
    is out of range. What the C++ writes to the console is returned here as
    a Report instead. */
module MessageHandlers {
  import opened Bytes
  import opened SensorData
  import Float32

  /** `vsomeip::method_t`, a 16-bit identifier */
  newtype MethodId = x: int | 0 <= x < 0x1_0000

  const SpeedMethod: MethodId := 0x0001
  const EngineTempMethod: MethodId := 0x0002
  const AmbientTempMethod: MethodId := 0x0003

  /** Above this speed (km/h) a reading is "HIGH SPEED". */
  const SpeedLimit: real := 100.0
  /** Above this engine temperature (°C) a reading is "OVERHEAT". */
  const OverheatLimit: real := 100.0
  /** Below this ambient temperature (°C) a reading is "FREEZING". */
  const FreezingLimit: real := 0.0

  /** Whether the handler flags the reading: `x > 100.0` for speed and engine
      temperature, `x < 0.0` for ambient temperature, each a strict C++
      comparison of the decoded float. */
  predicate IsAlert(record: SensorRecord) {
    match record
    case SpeedData(v, _) => Float32.GreaterThan(v, SpeedLimit)
    case EngineTemperatureData(v, _) => Float32.GreaterThan(v, OverheatLimit)
    case AmbientTemperatureData(v, _) => Float32.LessThan(v, FreezingLimit)
  }

  /** What one handler call reports: the counter value it shows as `[#n]`,
      the decoded record, whether the warning is appended, and the method id
      it names. */
  datatype Report = Report(count: int, record: SensorRecord, alert: bool, methodId: MethodId)

  /** The server's handler state: the global `message_count`. */
  class SensorServer {
    var messageCount: int

    constructor ()
      ensures messageCount == 0
    {
      messageCount := 0;
    }

    /** `on_speed_message` */
    method OnSpeedMessage(payload: seq<Byte>) returns (report: Report)
      modifies this
      ensures messageCount == old(messageCount) + 1
      ensures report.record == DeserializeSpeedData(payload)
      ensures report == Report(messageCount, report.record, IsAlert(report.record), SpeedMethod)
    {
      var data := payload;
      var speedData := DeserializeSpeedData(data);
      messageCount := messageCount + 1;
      var alert := Float32.GreaterThan(speedData.speedKmh, SpeedLimit);
      report := Report(messageCount, speedData, alert, SpeedMethod);
    }

    /** `on_engine_temp_message` */
    method OnEngineTempMessage(payload: seq<Byte>) returns (report: Report)
      modifies this
      ensures messageCount == old(messageCount) + 1
      ensures report.record == DeserializeEngineTempData(payload)
      ensures report == Report(messageCount, report.record, IsAlert(report.record), EngineTempMethod)
    {
      var data := payload;
      var engineData := DeserializeEngineTempData(data);
      messageCount := messageCount + 1;
      var alert := Float32.GreaterThan(engineData.temperatureCelsius, OverheatLimit);
      report := Report(messageCount, engineData, alert, EngineTempMethod);
    }

    /** `on_ambient_temp_message` */
    method OnAmbientTempMessage(payload: seq<Byte>) returns (report: Report)
      modifies this
      ensures messageCount == old(messageCount) + 1
      ensures report.record == DeserializeAmbientTempData(payload)
      ensures report == Report(messageCount, report.record, IsAlert(report.record), AmbientTempMethod)
    {
      var data := payload;
      var ambientData := DeserializeAmbientTempData(data);
      messageCount := messageCount + 1;
      var alert := Float32.LessThan(ambientData.temperatureCelsius, FreezingLimit);
      report := Report(messageCount, ambientData, alert, AmbientTempMethod);
    }

    /** `reset_message_count` */
    method ResetMessageCount()
      modifies this
      ensures messageCount == 0
    {
      messageCount := 0;
    }
  }

  /** The alerts in terms of the bits of the decoded float: speed and engine
      temperature alert exactly for the patterns above that of 100.0f up to
      +infinity; ambient temperature alerts exactly for the negative patterns
      other than -0.0, up to -infinity. So 100.0 itself, 0.0, -0.0 and every
      NaN give no alert. */
  lemma AlertIff(record: SensorRecord)
    ensures !record.AmbientTemperatureData? ==>
      (IsAlert(record) <==> 0x42C8_0000 < record.ValueBits() as int <= 0x7F80_0000)
    ensures record.AmbientTemperatureData? ==>
      (IsAlert(record) <==> 0x8000_0000 < record.ValueBits() as int <= 0xFF80_0000)
  {
    Float32.GreaterThanHundredIff(record.ValueBits());
    Float32.LessThanZeroIff(record.ValueBits());
  }

  /** A payload too short to hold a record decodes to 0.0, which is not an
      alert for any kind. */
  lemma ShortPayloadNoAlert(kind: Kind, payload: seq<Byte>)
    requires |payload| < RecordSize
    ensures !IsAlert(Deserialize(kind, payload))
  {
    AlertIff(Deserialize(kind, payload));
  }

  /** The boundary readings: 100.0f (0x42C80000) gives neither HIGH SPEED nor
      OVERHEAT while 100.1f (0x42C83333) gives both; 0.0f and -0.0f give no
      FREEZING while -0.1f (0xBDCCCCCD) does. */
  lemma BoundaryValues(t: Uint32)
    ensures !IsAlert(SpeedData(0x42C8_0000, t)) && IsAlert(SpeedData(0x42C8_3333, t))
    ensures !IsAlert(EngineTemperatureData(0x42C8_0000, t)) && IsAlert(EngineTemperatureData(0x42C8_3333, t))
    ensures !IsAlert(AmbientTemperatureData(0, t)) && !IsAlert(AmbientTemperatureData(0x8000_0000, t))
    ensures IsAlert(AmbientTemperatureData(0xBDCC_CCCD, t))
  {
    AlertIff(SpeedData(0x42C8_0000, t));
    AlertIff(SpeedData(0x42C8_3333, t));
    AlertIff(EngineTemperatureData(0x42C8_0000, t));
    AlertIff(EngineTemperatureData(0x42C8_3333, t));
    AlertIff(AmbientTemperatureData(0, t));
    AlertIff(AmbientTemperatureData(0x8000_0000, t));
    AlertIff(AmbientTemperatureData(0xBDCC_CCCD, t));
  }

  /** The mixed sequence of six messages: speed 45.0, engine 85.0, ambient
      23.0, speed 110.0, engine 105.0, ambient -5.0, with timestamps 1000 to
      1005, sent to a fresh server. The counter reads 1 to 6, each report
      names its own method, and only the last three alert. */
  method MixedSequence() returns (reports: seq<Report>)
    ensures reports == [
      Report(1, SpeedData(0x4234_0000, 1000), false, SpeedMethod),
      Report(2, EngineTemperatureData(0x42AA_0000, 1001), false, EngineTempMethod),
      Report(3, AmbientTemperatureData(0x41B8_0000, 1002), false, AmbientTempMethod),
      Report(4, SpeedData(0x42DC_0000, 1003), true, SpeedMethod),
      Report(5, EngineTemperatureData(0x42D2_0000, 1004), true, EngineTempMethod),
      Report(6, AmbientTemperatureData(0xC0A0_0000, 1005), true, AmbientTempMethod)]
  {
    var server := new SensorServer();
    var r0 := server.OnSpeedMessage(CreatePayload(0x4234_0000, 1000));
    assert r0 == Report(1, SpeedData(0x4234_0000, 1000), false, SpeedMethod) by { Reading(r0, Speed, 0x4234_0000, 1000); }
    var r1 := server.OnEngineTempMessage(CreatePayload(0x42AA_0000, 1001));
    assert r1 == Report(2, EngineTemperatureData(0x42AA_0000, 1001), false, EngineTempMethod) by { Reading(r1, EngineTemperature, 0x42AA_0000, 1001); }
    var r2 := server.OnAmbientTempMessage(CreatePayload(0x41B8_0000, 1002));
    assert r2 == Report(3, AmbientTemperatureData(0x41B8_0000, 1002), false, AmbientTempMethod) by { Reading(r2, AmbientTemperature, 0x41B8_0000, 1002); }
    var r3 := server.OnSpeedMessage(CreatePayload(0x42DC_0000, 1003));
    assert r3 == Report(4, SpeedData(0x42DC_0000, 1003), true, SpeedMethod) by { Reading(r3, Speed, 0x42DC_0000, 1003); }
    var r4 := server.OnEngineTempMessage(CreatePayload(0x42D2_0000, 1004));
    assert r4 == Report(5, EngineTemperatureData(0x42D2_0000, 1004), true, EngineTempMethod) by { Reading(r4, EngineTemperature, 0x42D2_0000, 1004); }
    var r5 := server.OnAmbientTempMessage(CreatePayload(0xC0A0_0000, 1005));
    assert r5 == Report(6, AmbientTemperatureData(0xC0A0_0000, 1005), true, AmbientTempMethod) by { Reading(r5, AmbientTemperature, 0xC0A0_0000, 1005); }
    reports := [r0, r1, r2, r3, r4, r5];
  }

  /** What a report made from CreatePayload(value, timestamp) holds. */
  lemma Reading(r: Report, kind: Kind, value: Float32.Bits, timestamp: Uint32)
    requires r.record == Deserialize(kind, CreatePayload(value, timestamp))
    requires r.alert == IsAlert(r.record)
    ensures r.record == MakeRecord(kind, value, timestamp)
    ensures kind != AmbientTemperature ==> (r.alert <==> 0x42C8_0000 < value as int <= 0x7F80_0000)
    ensures kind == AmbientTemperature ==> (r.alert <==> 0x8000_0000 < value as int <= 0xFF80_0000)
  {
    RoundTrip(kind, value, timestamp);
    AlertIff(r.record);
  }
}
