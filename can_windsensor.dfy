/**
 * Decoding of the NMEA 2000 parameter groups the CAN wind sensor sends
 * (CANWindsensorNode.cpp): 130306 Wind Data, 130311 Environmental
 * Parameters, 130312 Temperature and 130314 Actual Pressure.
 *
 * Each parser reads fields out of the frame's data bytes with masks, shifts
 * and ors.  The fields are kept raw: the scaling to physical units (x 0.01,
 * x 0.0001, / 1000) is floating point and not part of this model.  The
 * contracts restate each field in plain arithmetic, so they say what the
 * bit operations amount to.
 */
module WindSensor {
  import opened Common

  const PGN_WIND_DATA: nat := 130306
  const PGN_ENVIRONMENTAL: nat := 130311
  const PGN_TEMPERATURE: nat := 130312
  const PGN_ACTUAL_PRESSURE: nat := 130314

  /** A received NMEA 2000 message: its parameter group number and its data bytes. */
  datatype N2kMsg = N2kMsg(pgn: nat, data: seq<bv8>)

  /** The raw fields a parser produces. */
  datatype Reading =
    | WindData(sid: bv8, rawSpeed: nat, rawAngle: nat, reference: nat)
    | Environmental(sid: bv8, temperatureInstance: nat, humidityInstance: nat,
                    rawTemperature: nat, humidity: nat, rawPressure: nat)
    | Temperature(sid: bv8, instance: bv8, source: bv8, rawActual: nat, rawSet: nat)
    | ActualPressure(sid: bv8, instance: bv8, source: bv8, rawPressure: nat)

  /** `lo | (hi << 8)` stored in a uint16_t: the little-endian 16-bit field. */
  function Le16(lo: bv8, hi: bv8): (r: nat)
    ensures r == lo as int + 256 * hi as int
    ensures r < 0x1_0000
  {
    ((lo as bv16) | ((hi as bv16) << 8)) as int
  }

  /** `b0 | (b1 << 8) | (b2 << 16) | (b3 << 24)` stored in a uint32_t: the little-endian 32-bit field. */
  function Le32(b0: bv8, b1: bv8, b2: bv8, b3: bv8): (r: nat)
    ensures r == b0 as int + 0x100 * b1 as int + 0x1_0000 * b2 as int + 0x100_0000 * b3 as int
    ensures r < 0x1_0000_0000
  {
    ((b0 as bv32) | ((b1 as bv32) << 8) | ((b2 as bv32) << 16) | ((b3 as bv32) << 24)) as int
  }

  /** parsePGN130306: SID, raw speed, raw angle and a 3-bit wind reference. */
  function ParseWindData(data: seq<bv8>): (r: Reading)
    requires |data| >= 6
    ensures r.WindData?
    ensures r.sid == data[0]
    ensures r.rawSpeed == data[1] as int + 256 * data[2] as int
    ensures r.rawAngle == data[3] as int + 256 * data[4] as int
    ensures r.reference == data[5] as int % 8 && r.reference < 8
  {
    WindData(data[0], Le16(data[1], data[2]), Le16(data[3], data[4]), (data[5] & 0x07) as int)
  }

  /**
   * parsePGN130311: byte 1 packs the temperature instance (low six bits) and
   * the humidity instance (top two bits).  The humidity is always 0, and the
   * pressure is left in hPa as read.
   */
  function ParseEnvironmental(data: seq<bv8>): (r: Reading)
    requires |data| >= 8
    ensures r.Environmental?
    ensures r.sid == data[0]
    ensures r.temperatureInstance == data[1] as int % 64 && r.temperatureInstance < 64
    ensures r.humidityInstance == data[1] as int / 64 && r.humidityInstance < 4
    ensures r.humidityInstance * 64 + r.temperatureInstance == data[1] as int
    ensures r.rawTemperature == data[2] as int + 256 * data[3] as int
    ensures r.humidity == 0
    ensures r.rawPressure == data[6] as int + 256 * data[7] as int
  {
    Environmental(data[0], (data[1] & 0x3f) as int, (data[1] >> 6) as int,
                  Le16(data[2], data[3]), 0, Le16(data[6], data[7]))
  }

  /** ParsePGN130312: SID, instance and source verbatim, then two raw temperatures. */
  function ParseTemperature(data: seq<bv8>): (r: Reading)
    requires |data| >= 7
    ensures r.Temperature?
    ensures r.sid == data[0] && r.instance == data[1] && r.source == data[2]
    ensures r.rawActual == data[3] as int + 256 * data[4] as int
    ensures r.rawSet == data[5] as int + 256 * data[6] as int
  {
    Temperature(data[0], data[1], data[2], Le16(data[3], data[4]), Le16(data[5], data[6]))
  }

  /** ParsePGN130314: SID, instance and source verbatim, then the raw 32-bit pressure. */
  function ParseActualPressure(data: seq<bv8>): (r: Reading)
    requires |data| >= 7
    ensures r.ActualPressure?
    ensures r.sid == data[0] && r.instance == data[1] && r.source == data[2]
    ensures r.rawPressure == data[3] as int + 0x100 * data[4] as int + 0x1_0000 * data[5] as int + 0x100_0000 * data[6] as int
    ensures r.rawPressure < 0x1_0000_0000
  {
    ActualPressure(data[0], data[1], data[2], Le32(data[3], data[4], data[5], data[6]))
  }

  /** The parameter groups processPGN decodes. */
  predicate Known(pgn: nat)
  {
    pgn == PGN_WIND_DATA || pgn == PGN_ENVIRONMENTAL || pgn == PGN_TEMPERATURE || pgn == PGN_ACTUAL_PRESSURE
  }

  /**
   * processPGN: decodes the four known parameter groups of a single-frame
   * (8-byte) message by the message's own PGN; any other PGN yields nothing.
   */
  function ProcessPgn(msg: N2kMsg): (r: Option<Reading>)
    requires |msg.data| >= 8
    ensures r.Some? <==> Known(msg.pgn)
    ensures msg.pgn == PGN_WIND_DATA ==> r == Some(ParseWindData(msg.data))
    ensures msg.pgn == PGN_ENVIRONMENTAL ==> r == Some(ParseEnvironmental(msg.data))
    ensures msg.pgn == PGN_TEMPERATURE ==> r == Some(ParseTemperature(msg.data))
    ensures msg.pgn == PGN_ACTUAL_PRESSURE ==> r == Some(ParseActualPressure(msg.data))
  {
    if msg.pgn == PGN_WIND_DATA then Some(ParseWindData(msg.data))
    else if msg.pgn == PGN_ENVIRONMENTAL then Some(ParseEnvironmental(msg.data))
    else if msg.pgn == PGN_TEMPERATURE then Some(ParseTemperature(msg.data))
    else if msg.pgn == PGN_ACTUAL_PRESSURE then Some(ParseActualPressure(msg.data))
    else None
  }

  /** Each parser reads only the leading bytes it names: bytes beyond the eighth never matter. */
  lemma DecodingIgnoresTrailingBytes(msg: N2kMsg, extra: seq<bv8>)
    requires |msg.data| >= 8
    ensures ProcessPgn(msg.(data := msg.data + extra)) == ProcessPgn(msg)
  {
    var d := msg.data + extra;
    assert d[..8] == msg.data[..8];
  }
}
