/** `KmsgBuf`: log entries held back until the verbosity threshold is known,
    then written through the console in arrival order (src/early_logging/buf.rs). */
module KmsgBuffer {
  import opened Text
  import opened EarlyLogging

  class KmsgBuf {
    /** The console the buffer writes to (the `&mut KConsole` it borrows). */
    const con: KConsole
    /** `inner_buf`: entries not yet written. */
    var pending: seq<Entry>
    var flushed: bool

    /** Once flushed, nothing is held back any more. */
    ghost predicate Valid()
      reads this
    {
      flushed ==> pending == []
    }

    /** `KmsgBuf::new`: an empty, unflushed buffer. */
    constructor (con: KConsole)
      ensures Valid() && this.con == con
      ensures pending == [] && !flushed
    {
      this.con := con;
      pending := [];
      flushed := false;
    }

    /** `KmsgBuf::_kany`: before the flush the entry is queued and the console
        is left alone; after it, the entry goes straight to the console. */
    method KAny(level: Level, msg: string)
      requires Valid()
      modifies this, con
      ensures Valid() && flushed == old(flushed)
      ensures con.level == old(con.level)
      ensures !old(flushed) ==> pending == old(pending) + [Entry(level, msg)] && unchanged(con)
      ensures old(flushed) ==> pending == [] && con.output == old(con.output) + Emit([Entry(level, msg)], con.level)
    {
      if flushed {
        con.Println(level, msg);
      } else {
        pending := pending + [Entry(level, msg)];
      }
    }

    /** `KmsgBuf::kdebug`. */
    method KDebug(msg: string)
      requires Valid()
      modifies this, con
      ensures Valid() && flushed == old(flushed)
      ensures con.level == old(con.level)
      ensures !old(flushed) ==> pending == old(pending) + [Entry(Debug, msg)] && unchanged(con)
      ensures old(flushed) ==> pending == [] && con.output == old(con.output) + Emit([Entry(Debug, msg)], con.level)
    {
      KAny(Debug, msg);
    }

    /** `KmsgBuf::kwarn`. */
    method KWarn(msg: string)
      requires Valid()
      modifies this, con
      ensures Valid() && flushed == old(flushed)
      ensures con.level == old(con.level)
      ensures !old(flushed) ==> pending == old(pending) + [Entry(Warn, msg)] && unchanged(con)
      ensures old(flushed) ==> pending == [] && con.output == old(con.output) + Emit([Entry(Warn, msg)], con.level)
    {
      KAny(Warn, msg);
    }

    /** `KmsgBuf::flush_with_level`: the threshold is set first, then every
        queued entry is written through it, oldest first. */
    method FlushWithLevel(level: Level)
      requires Valid()
      modifies this, con
      ensures Valid() && flushed && pending == []
      ensures con.level == level
      ensures con.output == old(con.output) + Emit(old(pending), level)
    {
      con.ChangeVerbosity(level);
      flushed := true;
      var drained := pending;
      pending := [];
      var i := 0;
      while i < |drained|
        invariant 0 <= i <= |drained|
        invariant con.level == level && pending == [] && flushed
        invariant con.output == old(con.output) + Emit(drained[..i], level)
      {
        EmitAppend(drained[..i], [drained[i]], level);
        assert drained[..i + 1] == drained[..i] + [drained[i]];
        con.Println(drained[i].level, drained[i].msg);
        i := i + 1;
      }
      assert drained[..i] == drained;
    }
  }

  /** A boot-time sequence on a fresh console: a warning and a debug note are
      queued, the buffer is flushed at `Info`, and one more debug note follows.
      Only the warning reaches the log; the debug notes fall below the threshold
      whether they were queued or logged after the flush. */
  method FlushScenario(warning: string, note: string, lateNote: string) returns (log: seq<string>, level: Level)
    ensures log == [FormatLine(Warn, warning)]
    ensures level == Info
  {
    var kcon := new KConsole();
    var buf := new KmsgBuf(kcon);
    buf.KWarn(warning);
    buf.KDebug(note);
    var queued := [Entry(Warn, warning), Entry(Debug, note)];
    assert kcon.output == [] && buf.pending == queued;
    assert queued[1..] == [Entry(Debug, note)] && queued[1..][1..] == [];
    assert Emit(queued[1..], Info) == [];
    assert Emit(queued, Info) == [FormatLine(Warn, warning)];
    buf.FlushWithLevel(DefaultLevel);
    buf.KDebug(lateNote);
    log, level := kcon.output, kcon.level;
  }
}
