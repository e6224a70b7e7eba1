/** `InitramfsTimer`: the wall-clock and monotonic times at which the
    initramfs started, in microseconds, handed to a systemd-style init as an
    `initrd-timestamp=` record (src/time.rs). The clocks and the destination
    file are supplied by the caller. */
module Timer {
  import opened Text
  import opened EarlyLogging

  /** 2^64: `u64` arithmetic wraps modulo this (the release build). */
  const U64Modulus: nat := 0x1_0000_0000_0000_0000

  /** `x as u64` for an `i64`: the two's-complement bits read unsigned. */
  function AsU64(x: int): (r: nat)
    ensures r < U64Modulus
    ensures 0 <= x < U64Modulus ==> r == x
    ensures x < 0 && -(U64Modulus as int) <= x ==> r == x + U64Modulus as int
  {
    x % U64Modulus
  }

  /** `read_clock`'s arithmetic: seconds to microseconds, nanoseconds
      truncated to microseconds, in wrapping `u64` arithmetic. */
  function Micros(sec: int, nsec: int): (r: nat)
    ensures r < U64Modulus
  {
    ((AsU64(sec) * 1_000_000) % U64Modulus + AsU64(nsec) / 1000) % U64Modulus
  }

  /** For a clock within range the conversion does not wrap: the result is
      whole microseconds, its seconds are `sec` and its sub-second part is
      the nanoseconds truncated to microseconds. */
  lemma MicrosInRange(sec: int, nsec: int)
    requires 0 <= sec && 0 <= nsec < 1_000_000_000
    requires sec * 1_000_000 + nsec / 1000 < U64Modulus
    ensures Micros(sec, nsec) == sec * 1_000_000 + nsec / 1000
    ensures Micros(sec, nsec) / 1_000_000 == sec
    ensures Micros(sec, nsec) % 1_000_000 == nsec / 1000
  {
    var m := sec * 1_000_000 + nsec / 1000;
    assert sec * 1_000_000 < U64Modulus;
    assert nsec / 1000 < 1_000_000;
    assert m == sec * 1_000_000 + nsec / 1000;
  }

  /** Every microsecond count is the reading of some in-range clock. */
  lemma MicrosOnto(m: nat)
    requires m < U64Modulus
    ensures Micros(m / 1_000_000, (m % 1_000_000) * 1000) == m
  {
    var sec := m / 1_000_000;
    var nsec := (m % 1_000_000) * 1000;
    assert nsec / 1000 == m % 1_000_000;
    MicrosInRange(sec, nsec);
  }

  /** What `clock_gettime` gave: a time, or an error message. */
  datatype ClockReading = ClockValue(sec: int, nsec: int) | ClockFailure(msg: string)

  /** `read_clock`. */
  function ReadClock(c: ClockReading): (r: Result<nat, string>)
    ensures r.Err? <==> c.ClockFailure?
    ensures r.Err? ==> r.error == c.msg
    ensures r.Ok? ==> r.value < U64Modulus
  {
    match c
    case ClockValue(sec, nsec) => Ok(Micros(sec, nsec))
    case ClockFailure(msg) => Result.Err(msg)
  }

  /** `InitramfsTimer`: both readings, kept with their errors. */
  datatype InitramfsTimer = InitramfsTimer(realtime: Result<nat, string>, monotonic: Result<nat, string>)

  /** `InitramfsTimer::start`. */
  function Start(realtime: ClockReading, monotonic: ClockReading): InitramfsTimer {
    InitramfsTimer(ReadClock(realtime), ReadClock(monotonic))
  }

  /** `unwrap_or_default`: a failed reading counts as 0. */
  function Stamp(reading: Result<nat, string>): (r: nat)
    ensures reading.Err? ==> r == 0
    ensures reading.Ok? ==> r == reading.value
  {
    if reading.Ok? then reading.value else 0
  }

  /** The critical lines `InitramfsTimer::log` writes: one per failed
      reading, the wall clock first. */
  function ClockErrors(t: InitramfsTimer): seq<Entry> {
    (if t.realtime.Err? then [Entry(Crit, t.realtime.error)] else [])
    + (if t.monotonic.Err? then [Entry(Crit, t.monotonic.error)] else [])
  }

  /** `Crit` passes every threshold. */
  lemma CritAlwaysEmitted(entries: seq<Entry>, t: Level)
    requires forall i :: 0 <= i < |entries| ==> entries[i].level == Crit
    ensures |Emit(entries, t)| == |entries|
  {
    if |entries| > 0 {
      CritAlwaysEmitted(entries[1..], t);
    }
  }

  /** `InitramfsTimer::log`: each failed reading is reported at `Crit`, which
      no threshold filters out; a timer whose clocks both worked writes nothing. */
  method Log(t: InitramfsTimer, kcon: KConsole)
    modifies kcon`output
    ensures kcon.output == old(kcon.output) + Emit(ClockErrors(t), kcon.level)
    ensures |kcon.output| == |old(kcon.output)| + |ClockErrors(t)|
  {
    var errors := ClockErrors(t);
    CritAlwaysEmitted(errors, kcon.level);
    if t.realtime.Err? {
      kcon.Println(Crit, t.realtime.error);
    }
    if t.monotonic.Err? {
      kcon.Println(Crit, t.monotonic.error);
    }
    assert errors == ClockErrors(t);
    if t.realtime.Err? && t.monotonic.Err? {
      assert errors[1..] == [errors[1]];
    }
  }

  // ---------------------------------------------------------------------------
  // The record

  const RecordPrefix: string := "initrd-timestamp="

  /** The line `write` emits. */
  function Record(realtime: nat, monotonic: nat): string {
    RecordPrefix + ShowNat(realtime) + " " + ShowNat(monotonic) + "\n"
  }

  /** The record read back: prefix, two decimal numbers separated by one
      space, and a final newline. */
  function ParseRecord(s: string): (r: Option<(nat, nat)>)
    ensures r.Some? ==> StartsWith(s, RecordPrefix) && EndsWith(s, "\n")
  {
    match StripPrefix(s, RecordPrefix)
    case None => None
    case Some(rest) =>
      match StripSuffix(rest, "\n")
      case None => None
      case Some(body) =>
        match SplitOnce(body, ' ')
        case None => None
        case Some((a, b)) =>
          match (ParseNat(a), ParseNat(b))
          case (Some(x), Some(y)) =>
            assert s == RecordPrefix + (body + "\n");
            Some((x, y))
          case _ => None
  }

  /** A digit string holds no space. */
  lemma DigitsNoSpace(s: string)
    requires AllDigits(s)
    ensures ' ' !in s
  {
  }

  /** The record names both times and nothing else: reading it back gives them. */
  lemma RecordRoundTrip(realtime: nat, monotonic: nat)
    ensures ParseRecord(Record(realtime, monotonic)) == Some((realtime, monotonic))
  {
    var a := ShowNat(realtime);
    var b := ShowNat(monotonic);
    var body := a + " " + b;
    assert Record(realtime, monotonic) == RecordPrefix + (body + "\n");
    StripPrefixOfConcat(RecordPrefix, body + "\n");
    assert StripSuffix(body + "\n", "\n") == Some(body);
    DigitsNoSpace(a);
    SplitOnceUnique(a, ' ', b);
    ParseShowNat(realtime);
    ParseShowNat(monotonic);
  }

  /** The text as bytes: every character of a record is ASCII. */
  function AsciiBytes(s: string): (r: seq<Byte>)
    requires forall i :: 0 <= i < |s| ==> s[i] as int < 256
    ensures |r| == |s| && forall i :: 0 <= i < |s| ==> r[i] == s[i] as int
  {
    seq(|s|, i requires 0 <= i < |s| => s[i] as int)
  }

  /** Bytes read back as text, one character per byte. */
  function AsciiText(b: seq<Byte>): (r: string)
    ensures |r| == |b| && forall i :: 0 <= i < |b| ==> r[i] as int == b[i]
  {
    seq(|b|, i requires 0 <= i < |b| => b[i] as char)
  }

  lemma RecordAscii(realtime: nat, monotonic: nat)
    ensures forall i :: 0 <= i < |Record(realtime, monotonic)| ==> Record(realtime, monotonic)[i] as int < 256
  {
    var a := ShowNat(realtime);
    var b := ShowNat(monotonic);
    assert forall i :: 0 <= i < |a| ==> IsDigit(a[i]);
    assert forall i :: 0 <= i < |b| ==> IsDigit(b[i]);
    var s := Record(realtime, monotonic);
    assert s == RecordPrefix + a + " " + b + "\n";
    forall i | 0 <= i < |s|
      ensures s[i] as int < 256
    {
      if i < |RecordPrefix| {
        assert s[i] == RecordPrefix[i];
      } else if i < |RecordPrefix| + |a| {
        assert s[i] == a[i - |RecordPrefix|];
      } else if i < |RecordPrefix| + |a| + 1 {
        assert s[i] == ' ';
      } else if i < |RecordPrefix| + |a| + 1 + |b| {
        assert s[i] == b[i - |RecordPrefix| - |a| - 1];
      } else {
        assert s[i] == '\n';
      }
    }
  }

  /** The bytes `write` hands to the destination for a timer. */
  function RecordBytes(t: InitramfsTimer): (r: seq<Byte>)
    ensures |r| == |Record(Stamp(t.realtime), Stamp(t.monotonic))|
    ensures forall i :: 0 <= i < |r| ==> r[i] == Record(Stamp(t.realtime), Stamp(t.monotonic))[i] as int
    ensures AsciiText(r) == Record(Stamp(t.realtime), Stamp(t.monotonic))
  {
    RecordAscii(Stamp(t.realtime), Stamp(t.monotonic));
    AsciiBytes(Record(Stamp(t.realtime), Stamp(t.monotonic)))
  }

  // ---------------------------------------------------------------------------
  // The destination: a seekable file of bytes

  function Zeros(n: nat): (r: seq<Byte>)
    ensures |r| == n && forall i :: 0 <= i < n ==> r[i] == 0
  {
    seq(n, _ => 0)
  }

  /** Writing `bytes` at `pos`: they replace what was there, the file grows as
      needed, and a gap before `pos` reads as zeros. */
  function WriteAt(data: seq<Byte>, pos: nat, bytes: seq<Byte>): (r: seq<Byte>)
    ensures |r| == if pos + |bytes| <= |data| then |data| else pos + |bytes|
    ensures r[pos..pos + |bytes|] == bytes
    ensures forall i :: 0 <= i < |data| && !(pos <= i < pos + |bytes|) ==> r[i] == data[i]
    ensures forall i :: |data| <= i < pos ==> r[i] == 0
  {
    var padded := if pos <= |data| then data else data + Zeros(pos - |data|);
    var end := pos + |bytes|;
    var r := padded[..pos] + bytes + (if end <= |padded| then padded[end..] else []);
    assert r[pos..pos + |bytes|] == bytes;
    r
  }

  /** The file `write` is given. Whether its write and its seek fail is
      decided by the system; here they are fixed when the file is opened. */
  class Destination {
    var data: seq<Byte>
    var pos: nat
    const writeFails: bool
    const seekFails: bool

    constructor (data: seq<Byte>, pos: nat, writeFails: bool, seekFails: bool)
      ensures this.data == data && this.pos == pos
      ensures this.writeFails == writeFails && this.seekFails == seekFails
    {
      this.data := data;
      this.pos := pos;
      this.writeFails := writeFails;
      this.seekFails := seekFails;
    }

    /** `Write::write`: on success every byte is written at the cursor, which
        moves past them; on failure nothing changes. */
    method Write(bytes: seq<Byte>) returns (ok: bool)
      modifies this
      ensures ok <==> !writeFails
      ensures ok ==> data == WriteAt(old(data), old(pos), bytes) && pos == old(pos) + |bytes|
      ensures !ok ==> data == old(data) && pos == old(pos)
    {
      if writeFails {
        return false;
      }
      data := WriteAt(data, pos, bytes);
      pos := pos + |bytes|;
      return true;
    }

    /** `Seek::seek(SeekFrom::Start(0))`. */
    method Rewind() returns (ok: bool)
      modifies this`pos
      ensures ok <==> !seekFails
      ensures ok ==> pos == 0
      ensures !ok ==> pos == old(pos)
    {
      if seekFails {
        return false;
      }
      pos := 0;
      return true;
    }
  }

  datatype TimerError = WriteFailed | SeekFailed

  /** `InitramfsTimer::write`: the record goes out at the cursor, then the
      cursor goes back to the start so init reads the record from there. A
      failed write is reported and nothing is sought; a failed seek is
      reported after the record was written. */
  method WriteTimer(t: InitramfsTimer, dest: Destination) returns (r: Result<(), TimerError>)
    modifies dest
    ensures dest.writeFails ==> r == Result.Err(WriteFailed) && dest.data == old(dest.data) && dest.pos == old(dest.pos)
    ensures !dest.writeFails ==> dest.data == WriteAt(old(dest.data), old(dest.pos), RecordBytes(t))
    ensures !dest.writeFails && dest.seekFails ==>
      r == Result.Err(SeekFailed) && dest.pos == old(dest.pos) + |RecordBytes(t)|
    ensures !dest.writeFails && !dest.seekFails ==> r == Ok(()) && dest.pos == 0
  {
    var ok := dest.Write(RecordBytes(t));
    if !ok {
      return Result.Err(WriteFailed);
    }
    ok := dest.Rewind();
    if !ok {
      return Result.Err(SeekFailed);
    }
    return Ok(());
  }

  /** The boot-time use: a fresh, empty file ends up holding exactly the
      record, with the cursor at its start, and the record reads back as the
      two readings (0 for a clock that failed). */
  method WriteFresh(realtime: ClockReading, monotonic: ClockReading) returns (contents: seq<Byte>, pos: nat)
    ensures contents == RecordBytes(Start(realtime, monotonic)) && pos == 0
    ensures ParseRecord(AsciiText(contents)) ==
      Some((if realtime.ClockValue? then Micros(realtime.sec, realtime.nsec) else 0,
            if monotonic.ClockValue? then Micros(monotonic.sec, monotonic.nsec) else 0))
  {
    var t := Start(realtime, monotonic);
    var dest := new Destination([], 0, false, false);
    var r := WriteTimer(t, dest);
    assert dest.data == WriteAt([], 0, RecordBytes(t));
    assert dest.data == dest.data[0..|RecordBytes(t)|];
    RecordRoundTrip(Stamp(t.realtime), Stamp(t.monotonic));
    contents, pos := dest.data, dest.pos;
  }
}
