/**
 * What a sample means: seven 16-bit words as the device stores them, taken apart by the kernel driver
 * on a little-endian host and once more by the viewer.
 */
module Readout {
  import opened Words

  type s16 = x: int | -0x8000 <= x < 0x8000

  datatype Readings = Readings(ax: s16, ay: s16, az: s16, temp: s16, gx: s16, gy: s16, gz: s16)

  /** A 16-bit load: the byte at the lower address is the lower one. */
  function Load(first: byte, second: byte): s16 {
    var word := first + 0x100 * second;
    if word < 0x8000 then word else word - 0x1_0000
  }

  function Swapped(v: s16): s16 {
    var word := if v < 0 then v + 0x1_0000 else v;
    Load(word / 0x100, word % 0x100)
  }

  /** The decoders' explicit inversion of two's complement. */
  function Inverted(v: s16): s16 {
    if v < 0 then v % 0x8000 - 0x8000 else v
  }

  function Motion(data: seq<byte>, at: nat): s16
    requires at + 1 < |data|
  {
    Inverted(Swapped(Load(data[at], data[at + 1])))
  }

  /** i2c_mpu6050_device_extract_data: the temperature is not swapped. */
  function Extract(data: seq<byte>): Readings
    requires |data| == 14
  {
    Readings(Motion(data, 0), Motion(data, 2), Motion(data, 4), Load(data[6], data[7]),
             Motion(data, 8), Motion(data, 10), Motion(data, 12))
  }

  /** extract_data of the viewer, before it scales the values: the temperature is swapped. */
  function ViewerExtract(data: seq<byte>): Readings
    requires |data| == 14
  {
    Extract(data).(temp := Swapped(Load(data[6], data[7])))
  }

  // ----- What the device means ----------------------------------------------------------------

  /** A value in 16-bit two's complement, its upper byte first. */
  predicate Stands(v: int, upper: byte, lower: byte) {
    -0x8000 <= v < 0x8000 && (v - (0x100 * upper + lower)) % 0x1_0000 == 0
  }

  function Bytes(v: s16): seq<byte> {
    var word := if v < 0 then v + 0x1_0000 else v;
    [word / 0x100, word % 0x100]
  }

  /** The device's side: the words in the order of its registers. */
  function Encode(r: Readings): (data: seq<byte>)
    ensures |data| == 14
  {
    Bytes(r.ax) + Bytes(r.ay) + Bytes(r.az) + Bytes(r.temp) + Bytes(r.gx) + Bytes(r.gy) + Bytes(r.gz)
  }

  lemma SwappedStands(first: byte, second: byte)
    ensures var v := Swapped(Load(first, second));
            Stands(v, first, second) && Inverted(v) == v && Bytes(v) == [first, second]
  {
    SwappedLoad(first, second);
    BytesOf(second + 0x100 * first, first, second);
    InvertedIsSame(Load(second, first));
    hide Swapped, Inverted;
  }

  lemma SwappedLoad(first: byte, second: byte)
    ensures Swapped(Load(first, second)) == Load(second, first)
  {
    BytesOf(first + 0x100 * second, second, first);
  }

  lemma BytesOf(word: nat, upper: byte, lower: byte)
    requires word == lower + 0x100 * upper
    ensures word / 0x100 == upper && word % 0x100 == lower
  {
  }

  lemma InvertedIsSame(v: s16)
    ensures Inverted(v) == v
  {
  }

  lemma StandsOnce(v: int, w: int, upper: byte, lower: byte)
    requires Stands(v, upper, lower) && Stands(w, upper, lower)
    ensures v == w
  {
  }

  lemma BytesStand(v: s16)
    ensures |Bytes(v)| == 2 && Stands(v, Bytes(v)[0], Bytes(v)[1])
  {
  }

  /** What the encoding means: every word stands in its place, upper byte first. */
  lemma EncodeIsBigEndian(r: Readings)
    ensures var d := Encode(r);
            && Stands(r.ax, d[0], d[1]) && Stands(r.ay, d[2], d[3]) && Stands(r.az, d[4], d[5])
            && Stands(r.temp, d[6], d[7])
            && Stands(r.gx, d[8], d[9]) && Stands(r.gy, d[10], d[11]) && Stands(r.gz, d[12], d[13])
  {
    BytesStand(r.ax);
    BytesStand(r.ay);
    BytesStand(r.az);
    BytesStand(r.temp);
    BytesStand(r.gx);
    BytesStand(r.gy);
    BytesStand(r.gz);
    hide Stands, Bytes;
  }

  /** All six motion channels are read as the device stores them. */
  lemma MotionIsBigEndian(data: seq<byte>)
    requires |data| == 14
    ensures var r := Extract(data);
            && Stands(r.ax, data[0], data[1]) && Stands(r.ay, data[2], data[3]) && Stands(r.az, data[4], data[5])
            && Stands(r.gx, data[8], data[9]) && Stands(r.gy, data[10], data[11]) && Stands(r.gz, data[12], data[13])
  {
    hide Stands, Swapped, Load, Inverted, Bytes;
    SwappedStands(data[0], data[1]);
    SwappedStands(data[2], data[3]);
    SwappedStands(data[4], data[5]);
    SwappedStands(data[8], data[9]);
    SwappedStands(data[10], data[11]);
    SwappedStands(data[12], data[13]);
  }

  /** The kernel's temperature is the device's exactly when both its bytes are equal. */
  lemma TemperatureIsRightExactly(data: seq<byte>)
    requires |data| == 14
    ensures Stands(Extract(data).temp, data[6], data[7]) <==> data[6] == data[7]
    ensures Stands(ViewerExtract(data).temp, data[6], data[7])
    ensures Extract(data) == ViewerExtract(data) <==> data[6] == data[7]
  {
    SwappedStands(data[6], data[7]);
    var v, w := Load(data[6], data[7]), Swapped(Load(data[6], data[7]));
    assert Stands(v, data[7], data[6]);
    if Stands(v, data[6], data[7]) {
      StandsOnce(v, w, data[6], data[7]);
    }
  }

  /** The decoder takes back what the device stores, up to the order of the temperature's bytes. */
  lemma ExtractUndoesEncode(r: Readings)
    ensures ViewerExtract(Encode(r)) == r
    ensures Extract(Encode(r)) == r.(temp := Swapped(r.temp))
  {
    hide Swapped, Load, Inverted, Bytes;
    WordComesBack(r.ax);
    WordComesBack(r.ay);
    WordComesBack(r.az);
    WordComesBack(r.temp);
    WordComesBack(r.gx);
    WordComesBack(r.gy);
    WordComesBack(r.gz);
  }

  lemma WordComesBack(v: s16)
    ensures |Bytes(v)| == 2
    ensures var loaded := Load(Bytes(v)[0], Bytes(v)[1]);
            Swapped(loaded) == v && Inverted(v) == v && loaded == Swapped(v)
  {
    SwappedLoad(Bytes(v)[0], Bytes(v)[1]);
    InvertedIsSame(v);
    assert Load(Bytes(v)[1], Bytes(v)[0]) == v;
    assert Load(Bytes(v)[0], Bytes(v)[1]) == Swapped(v);
    hide Swapped, Inverted, Load;
  }

  /** And no two samples are confused: the readings determine every byte. */
  lemma EncodeUndoesExtract(data: seq<byte>)
    requires |data| == 14
    ensures Encode(ViewerExtract(data)) == data
    ensures Encode(Extract(data)) == data[6 := data[7]][7 := data[6]]
  {
    hide Swapped, Load, Inverted, Bytes, Stands;
    SwappedStands(data[0], data[1]);
    SwappedStands(data[2], data[3]);
    SwappedStands(data[4], data[5]);
    SwappedStands(data[6], data[7]);
    LoadReverses(data[6], data[7]);
    SwappedStands(data[8], data[9]);
    SwappedStands(data[10], data[11]);
    SwappedStands(data[12], data[13]);
  }

  lemma LoadReverses(first: byte, second: byte)
    ensures Bytes(Load(first, second)) == [second, first]
  {
  }

  /** The decoder as it is written, a pointer moving over the block. */
  method ExtractData(data: seq<byte>)
    returns (ax: s16, ay: s16, az: s16, temp: s16, gx: s16, gy: s16, gz: s16)
    requires |data| == 14
    ensures Readings(ax, ay, az, temp, gx, gy, gz) == Extract(data)
  {
    hide Swapped, Load, Inverted;
    var at := 0;
    ax := Load(data[at], data[at + 1]);
    ax := Swapped(ax);
    ax := Inverted(ax);
    at := at + 2;
    ay := Load(data[at], data[at + 1]);
    ay := Swapped(ay);
    ay := Inverted(ay);
    at := at + 2;
    az := Load(data[at], data[at + 1]);
    az := Swapped(az);
    az := Inverted(az);
    at := at + 2;
    temp := Load(data[at], data[at + 1]);
    at := at + 2;
    gx := Load(data[at], data[at + 1]);
    gx := Swapped(gx);
    gx := Inverted(gx);
    at := at + 2;
    gy := Load(data[at], data[at + 1]);
    gy := Swapped(gy);
    gy := Inverted(gy);
    at := at + 2;
    gz := Load(data[at], data[at + 1]);
    gz := Swapped(gz);
    gz := Inverted(gz);
  }
}
