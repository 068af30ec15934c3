/** The three sensor records of the server and their deserialisers.
    Every record is a 4-byte `float` followed by a 4-byte `uint32_t`
    timestamp, copied out of the payload as raw memory; the three kinds
    differ only in their names. */
module SensorData {
  import opened Bytes
  import Float32

  /** The wire size of every record. */
  const RecordSize: nat := 8

  datatype Kind = Speed | EngineTemperature | AmbientTemperature

  /** `SpeedData`, `EngineTemperatureData` and `AmbientTemperatureData`;
      the float fields hold the bit pattern of the `float`. */
  datatype SensorRecord =
    | SpeedData(speedKmh: Float32.Bits, timestamp: Uint32)
    | EngineTemperatureData(temperatureCelsius: Float32.Bits, timestamp: Uint32)
    | AmbientTemperatureData(temperatureCelsius: Float32.Bits, timestamp: Uint32)
  {
    function KindOf(): Kind {
      match this
      case SpeedData(_, _) => Speed
      case EngineTemperatureData(_, _) => EngineTemperature
      case AmbientTemperatureData(_, _) => AmbientTemperature
    }

    /** The first field, whatever it is called in this kind of record. */
    function ValueBits(): Float32.Bits {
      match this
      case SpeedData(v, _) => v
      case EngineTemperatureData(v, _) => v
      case AmbientTemperatureData(v, _) => v
    }
  }

  /** The record of the given kind with the given fields. */
  function MakeRecord(kind: Kind, value: Float32.Bits, timestamp: Uint32): (r: SensorRecord)
    ensures r.KindOf() == kind && r.ValueBits() == value && r.timestamp == timestamp
  {
    match kind
    case Speed => SpeedData(value, timestamp)
    case EngineTemperature => EngineTemperatureData(value, timestamp)
    case AmbientTemperature => AmbientTemperatureData(value, timestamp)
  }

  /** The rule all three deserialisers follow: a payload shorter than eight
      bytes gives the all-zero record (`= {0}`); otherwise bytes [0, 4) are
      the in-memory bytes of the float and bytes [4, 8) those of the
      timestamp, and anything after them is not read. */
  function Deserialize(kind: Kind, payload: seq<Byte>): (r: SensorRecord)
    ensures r.KindOf() == kind
    ensures |payload| < RecordSize ==> r.ValueBits() == 0 && r.timestamp == 0
    ensures |payload| >= RecordSize ==>
      StoreUint32(r.ValueBits()) == payload[0..4] && StoreUint32(r.timestamp) == payload[4..8]
  {
    if |payload| >= RecordSize then
      StoreOfLoad(payload[0..4]);
      StoreOfLoad(payload[4..8]);
      MakeRecord(kind, LoadUint32(payload[0..4]), LoadUint32(payload[4..8]))
    else
      MakeRecord(kind, 0, 0)
  }

  /** `deserialize_speed_data` */
  function DeserializeSpeedData(payload: seq<Byte>): (r: SensorRecord)
    ensures r.SpeedData?
    ensures |payload| < RecordSize ==> r == SpeedData(0, 0)
    ensures |payload| >= RecordSize ==>
      StoreUint32(r.speedKmh) == payload[0..4] && StoreUint32(r.timestamp) == payload[4..8]
  {
    Deserialize(Speed, payload)
  }

  /** `deserialize_engine_temp_data` */
  function DeserializeEngineTempData(payload: seq<Byte>): (r: SensorRecord)
    ensures r.EngineTemperatureData?
    ensures |payload| < RecordSize ==> r == EngineTemperatureData(0, 0)
    ensures |payload| >= RecordSize ==>
      StoreUint32(r.temperatureCelsius) == payload[0..4] && StoreUint32(r.timestamp) == payload[4..8]
  {
    Deserialize(EngineTemperature, payload)
  }

  /** `deserialize_ambient_temp_data` */
  function DeserializeAmbientTempData(payload: seq<Byte>): (r: SensorRecord)
    ensures r.AmbientTemperatureData?
    ensures |payload| < RecordSize ==> r == AmbientTemperatureData(0, 0)
    ensures |payload| >= RecordSize ==>
      StoreUint32(r.temperatureCelsius) == payload[0..4] && StoreUint32(r.timestamp) == payload[4..8]
  {
    Deserialize(AmbientTemperature, payload)
  }

  /** The sender's side of the layout (the tests' `create_payload`): the
      float's bytes, then the timestamp's. */
  function CreatePayload(value: Float32.Bits, timestamp: Uint32): (p: seq<Byte>)
    ensures |p| == RecordSize
    ensures p[0..4] == StoreUint32(value) && p[4..8] == StoreUint32(timestamp)
  {
    StoreUint32(value) + StoreUint32(timestamp)
  }

  /** Decoding exactly the bytes sent by CreatePayload gives back the float's
      bits and the timestamp, for every kind and every pair. */
  lemma RoundTrip(kind: Kind, value: Float32.Bits, timestamp: Uint32)
    ensures Deserialize(kind, CreatePayload(value, timestamp)) == MakeRecord(kind, value, timestamp)
  {
    var r := Deserialize(kind, CreatePayload(value, timestamp));
    StoreInjective(r.ValueBits(), value);
    StoreInjective(r.timestamp, timestamp);
  }

  /** The other direction: re-encoding a decoded record gives the first eight
      bytes of the payload, so the decoder loses nothing it reads. */
  lemma ReencodeGivesPrefix(kind: Kind, payload: seq<Byte>)
    requires |payload| >= RecordSize
    ensures CreatePayload(Deserialize(kind, payload).ValueBits(), Deserialize(kind, payload).timestamp)
            == payload[..RecordSize]
  {
    var r := Deserialize(kind, payload);
    var p := CreatePayload(r.ValueBits(), r.timestamp);
    assert p == p[0..4] + p[4..8];
    assert payload[..RecordSize] == payload[0..4] + payload[4..8];
  }

  /** Bytes after the eighth are ignored. */
  lemma TrailingBytesIgnored(kind: Kind, payload: seq<Byte>)
    requires |payload| >= RecordSize
    ensures Deserialize(kind, payload) == Deserialize(kind, payload[..RecordSize])
  {
    var r, s := Deserialize(kind, payload), Deserialize(kind, payload[..RecordSize]);
    assert payload[..RecordSize][0..4] == payload[0..4];
    assert payload[..RecordSize][4..8] == payload[4..8];
    StoreInjective(r.ValueBits(), s.ValueBits());
    StoreInjective(r.timestamp, s.timestamp);
  }

  /** The three deserialisers read the same fields from the same bytes. */
  lemma DeserializersAgree(payload: seq<Byte>)
    ensures DeserializeSpeedData(payload).speedKmh
         == DeserializeEngineTempData(payload).temperatureCelsius
         == DeserializeAmbientTempData(payload).temperatureCelsius
    ensures DeserializeSpeedData(payload).timestamp
         == DeserializeEngineTempData(payload).timestamp
         == DeserializeAmbientTempData(payload).timestamp
  {
    if |payload| >= RecordSize {
      var s, e, a := DeserializeSpeedData(payload), DeserializeEngineTempData(payload), DeserializeAmbientTempData(payload);
      StoreInjective(s.ValueBits(), e.ValueBits());
      StoreInjective(e.ValueBits(), a.ValueBits());
      StoreInjective(s.timestamp, e.timestamp);
      StoreInjective(e.timestamp, a.timestamp);
    }
  }

  /** A 1000-byte buffer of zeros decodes to the zero record. */
  lemma LargeZeroPayload(kind: Kind)
    ensures Deserialize(kind, seq(1000, _ => 0 as Byte)) == MakeRecord(kind, 0, 0)
  {
    var p: seq<Byte> := seq(1000, _ => 0);
    var r := Deserialize(kind, p);
    assert p[0..4] == StoreUint32(0) && p[4..8] == StoreUint32(0);
    StoreInjective(r.ValueBits(), 0);
    StoreInjective(r.timestamp, 0);
  }

  /** Eight bytes of 0xFF decode, for every kind, to the all-ones pattern,
      which is a NaN, and timestamp UINT32_MAX. */
  lemma AllOnesPayload(kind: Kind)
    ensures Deserialize(kind, seq(8, _ => 0xFF as Byte)) == MakeRecord(kind, 0xFFFF_FFFF, UINT32_MAX)
    ensures Float32.Value(0xFFFF_FFFF).NaN?
  {
    var p: seq<Byte> := seq(8, _ => 0xFF);
    var r := Deserialize(kind, p);
    assert p[0..4] == StoreUint32(0xFFFF_FFFF) && p[4..8] == StoreUint32(0xFFFF_FFFF);
    StoreInjective(r.ValueBits(), 0xFFFF_FFFF);
    StoreInjective(r.timestamp, 0xFFFF_FFFF);
  }
}
