/** `EfiPartitionGptGuid`: the partition UUID of the booted EFI loader, read from
    the `LoaderDevicePartUUID` variable (src/mount.rs). The variable's bytes are
    a parameter; UTF-16 and UUID decoding are supplied by the caller. */
module EfiVars {
  import opened Text
  import opened MountSource

  /** A value of the given number of bytes, least significant byte first. */
  function LittleEndian(bytes: seq<Byte>): (v: nat)
    ensures v < Pow256(|bytes|)
  {
    if |bytes| == 0 then 0 else bytes[0] + 256 * LittleEndian(bytes[1..])
  }

  function Pow256(n: nat): (p: nat)
    ensures p >= 1
  {
    if n == 0 then 1 else 256 * Pow256(n - 1)
  }

  /** The little-endian bytes of `v`, `n` of them. */
  function LittleEndianBytes(v: nat, n: nat): (bytes: seq<Byte>)
    ensures |bytes| == n
  {
    if n == 0 then [] else [v % 256] + LittleEndianBytes(v / 256, n - 1)
  }

  /** Encoding a value that fits and reading it back gives the value. */
  lemma {:induction false} LittleEndianRoundTrip(v: nat, n: nat)
    requires v < Pow256(n)
    ensures LittleEndian(LittleEndianBytes(v, n)) == v
  {
    if n > 0 {
      LittleEndianRoundTrip(v / 256, n - 1);
      assert LittleEndianBytes(v, n)[1..] == LittleEndianBytes(v / 256, n - 1);
    }
  }

  /** What `read_efi_var` gives for the bytes of a variable: its attribute word
      and its payload, or a panic when there are fewer than four bytes. */
  datatype EfiVar = EfiVar(attr: nat, payload: seq<Byte>) | ShortPanic

  /** `read_efi_var`, after the file has been read. */
  function ReadEfiVar(data: seq<Byte>): (r: EfiVar)
    ensures r.ShortPanic? <==> |data| < 4
    ensures r.EfiVar? ==> r.attr < 0x1_0000_0000 && data == LittleEndianBytes(r.attr, 4) + r.payload
  {
    if |data| < 4 then ShortPanic
    else
      LittleEndianRoundTrip(LittleEndian(data[..4]), 4);
      LittleEndianBytesOf(data[..4]);
      assert data == data[..4] + data[4..];
      EfiVar(LittleEndian(data[..4]), data[4..])
  }

  /** Four bytes are the little-endian encoding of their own value. */
  lemma {:induction false} LittleEndianBytesOf(bytes: seq<Byte>)
    ensures LittleEndianBytes(LittleEndian(bytes), |bytes|) == bytes
  {
    if |bytes| > 0 {
      LittleEndianBytesOf(bytes[1..]);
      var v := LittleEndian(bytes);
      assert v % 256 == bytes[0] && v / 256 == LittleEndian(bytes[1..]);
    }
  }

  /** A variable written as its attribute word and payload is read back as both. */
  lemma ReadEfiVarRoundTrip(attr: nat, payload: seq<Byte>)
    requires attr < 0x1_0000_0000
    ensures ReadEfiVar(LittleEndianBytes(attr, 4) + payload) == EfiVar(attr, payload)
  {
    var data := LittleEndianBytes(attr, 4) + payload;
    assert data[..4] == LittleEndianBytes(attr, 4);
    assert data[4..] == payload;
    assert Pow256(4) == 0x1_0000_0000;
    LittleEndianRoundTrip(attr, 4);
  }

  /** The UTF-16 code units of a payload: bytes paired little-endian, and a
      trailing odd byte taken on its own, zero-extended. */
  function UnitsOf(data: seq<Byte>): (units: seq<nat>)
    ensures |units| == (|data| + 1) / 2
    ensures forall i :: 0 <= i < |units| ==> units[i] < 0x1_0000
  {
    if |data| == 0 then []
    else if |data| == 1 then [data[0] as nat]
    else [data[0] as nat + 256 * (data[1] as nat)] + UnitsOf(data[2..])
  }

  /** Each code unit as two little-endian bytes. */
  function UnitsBytes(units: seq<nat>): (data: seq<Byte>)
    requires forall i :: 0 <= i < |units| ==> units[i] < 0x1_0000
    ensures |data| == 2 * |units|
  {
    if |units| == 0 then [] else [units[0] % 256, units[0] / 256] + UnitsBytes(units[1..])
  }

  /** Code units written out as bytes are paired back into the same units, and
      one extra byte at the end becomes one extra unit of the same value. */
  lemma {:induction false} UnitsRoundTrip(units: seq<nat>, tail: seq<Byte>)
    requires forall i :: 0 <= i < |units| ==> units[i] < 0x1_0000
    requires |tail| <= 1
    ensures UnitsOf(UnitsBytes(units) + tail) == units + (if |tail| == 1 then [tail[0] as nat] else [])
  {
    if |units| > 0 {
      UnitsRoundTrip(units[1..], tail);
      var data := UnitsBytes(units) + tail;
      assert data[2..] == UnitsBytes(units[1..]) + tail;
      assert units == [units[0]] + units[1..];
    } else {
      assert UnitsBytes(units) + tail == tail;
    }
  }

  /** The byte-to-unit loop of `get_current`: `chunks(2)` over the payload,
      each full chunk read as a little-endian `u16`, a short last chunk as its
      one byte. */
  method Utf16Units(payload: seq<Byte>) returns (units: seq<nat>)
    ensures units == UnitsOf(payload)
  {
    units := [];
    var i := 0;
    while i + 1 < |payload|
      invariant 0 <= i <= |payload|
      invariant units + UnitsOf(payload[i..]) == UnitsOf(payload)
    {
      var rest := payload[i..];
      var unit := payload[i] as nat + 256 * (payload[i + 1] as nat);
      assert rest[0] == payload[i] && rest[1] == payload[i + 1];
      assert rest[2..] == payload[i + 2..];
      assert UnitsOf(rest) == [unit] + UnitsOf(payload[i + 2..]);
      assert units + [unit] + UnitsOf(payload[i + 2..]) == units + UnitsOf(rest);
      units := units + [unit];
      i := i + 2;
    }
    if i < |payload| {
      assert UnitsOf(payload[i..]) == [payload[i] as nat];
      units := units + [payload[i] as nat];
    } else {
      assert UnitsOf(payload[i..]) == [];
      assert units + [] == units;
    }
  }

  /** `String::from_utf16`, which this model does not define. */
  type Utf16Decoder = seq<nat> -> Option<string>

  datatype EfiError = ShortVariable | InvalidUtf16 | InvalidUuid

  /** `EfiPartitionGptGuid::get_current` once the variable's bytes are read:
      the payload's code units are decoded to text and the text read as a
      UUID. A variable shorter than four bytes panics in the source; here it is
      the `ShortVariable` error. */
  method GetCurrent(data: seq<Byte>, utf16: Utf16Decoder, uuid: UuidParser) returns (r: Result<Guid, EfiError>)
    ensures |data| < 4 ==> r == Err(ShortVariable)
    ensures |data| >= 4 && utf16(UnitsOf(data[4..])).None? ==> r == Err(InvalidUtf16)
    ensures |data| >= 4 && utf16(UnitsOf(data[4..])).Some? ==>
      r == (match uuid(utf16(UnitsOf(data[4..])).value)
            case None => Err(InvalidUuid)
            case Some(g) => Ok(g))
  {
    var v := ReadEfiVar(data);
    if v.ShortPanic? {
      return Err(ShortVariable);
    }
    assert v.payload == data[4..];
    var units := Utf16Units(v.payload);
    match utf16(units)
    case None =>
      return Err(InvalidUtf16);
    case Some(text) =>
      match uuid(text)
      case None =>
        return Err(InvalidUuid);
      case Some(g) =>
        return Ok(g);
  }
}
