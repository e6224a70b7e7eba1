/** Kernel log levels and the console that writes `<N>ignited: msg` lines,
    dropping those above its verbosity threshold (src/early_logging/mod.rs). */
module EarlyLogging {
  import opened Text

  const ProgramName: string := "ignited"

  /** `VerbosityLevel`: a syslog priority, from critical to debug. */
  datatype Level = Crit | Err | Warn | Notice | Info | Debug {
    /** The `repr(u8)` discriminant, which is also the priority written in `<N>`. */
    function Value(): (v: nat)
      ensures 2 <= v <= 7
    {
      match this
      case Crit => 2
      case Err => 3
      case Warn => 4
      case Notice => 5
      case Info => 6
      case Debug => 7
    }
  }

  /** The derived ordering: a level is at most another when its discriminant is. */
  predicate AtMost(a: Level, b: Level) {
    a.Value() <= b.Value()
  }

  /** Distinct levels have distinct numbers, so `AtMost` is a total order. */
  lemma LevelOrder(a: Level, b: Level, c: Level)
    ensures a.Value() == b.Value() ==> a == b
    ensures AtMost(a, b) || AtMost(b, a)
    ensures AtMost(a, b) && AtMost(b, a) ==> a == b
    ensures AtMost(a, b) && AtMost(b, c) ==> AtMost(a, c)
  {
  }

  /** The threshold a console starts with. */
  const DefaultLevel: Level := Info

  /** `VerbosityLevel::try_from(&str)`. */
  function LevelFromStr(s: string): (r: Option<Level>)
  {
    if s == "debug" then Some(Debug)
    else if s == "info" then Some(Info)
    else if s == "notice" then Some(Notice)
    else if s == "warn" || s == "warning" then Some(Warn)
    else if s == "err" || s == "error" then Some(Level.Err)
    else None
  }

  /** The spellings accepted for each level; `Crit` has none. */
  function Names(l: Level): set<string> {
    match l
    case Debug => {"debug"}
    case Info => {"info"}
    case Notice => {"notice"}
    case Warn => {"warn", "warning"}
    case Err => {"err", "error"}
    case Crit => {}
  }

  /** A string names a level exactly when it is one of that level's spellings,
      so `Crit` is never produced and every other string is rejected. */
  lemma LevelFromStrNames(s: string, l: Level)
    ensures LevelFromStr(s) == Some(l) <==> s in Names(l)
    ensures LevelFromStr(s) != Some(Crit)
    ensures LevelFromStr(s).None? <==>
      s !in {"debug", "info", "notice", "warn", "warning", "err", "error"}
  {
  }

  /** The line the console writes for a message at level `l`. */
  function FormatLine(l: Level, msg: string): string {
    "<" + ShowNat(l.Value()) + ">" + ProgramName + ": " + msg + "\n"
  }

  /** A console line is `<`, the level's number as one digit, `>`, the
      program name, `: `, the message and a newline. */
  lemma FormatLineLayout(l: Level, msg: string)
    ensures var r := FormatLine(l, msg);
      && |r| == 13 + |msg|
      && r[0] == '<' && IsDigit(r[1]) && DigitValue(r[1]) == l.Value() && r[2] == '>'
      && r[3..12] == ProgramName + ": " && r[12..|r| - 1] == msg && r[|r| - 1] == '\n'
  {
    var d := DigitChar(l.Value());
    assert ShowNat(l.Value()) == [d];
    assert FormatLine(l, msg) == "<" + [d] + ">" + ProgramName + ": " + msg + "\n";
  }

  function LevelOfValue(v: nat): (r: Option<Level>)
    ensures r.Some? ==> r.value.Value() == v
    ensures 2 <= v <= 7 ==> r.Some?
  {
    if v == 2 then Some(Crit)
    else if v == 3 then Some(Level.Err)
    else if v == 4 then Some(Warn)
    else if v == 5 then Some(Notice)
    else if v == 6 then Some(Info)
    else if v == 7 then Some(Debug)
    else None
  }

  /** Reads a console line back into its level and message. */
  function ParseLine(line: string): Option<(Level, string)> {
    if |line| < 3 || line[0] != '<' || !IsDigit(line[1]) || line[2] != '>' then None
    else
      match LevelOfValue(DigitValue(line[1]))
      case None => None
      case Some(l) =>
        match StripPrefix(line[3..], ProgramName + ": ")
        case None => None
        case Some(rest) =>
          match StripSuffix(rest, "\n")
          case None => None
          case Some(msg) => Some((l, msg))
  }

  /** Every console line can be read back: the level and the message are recovered. */
  lemma ParseFormatLine(l: Level, msg: string)
    ensures ParseLine(FormatLine(l, msg)) == Some((l, msg))
  {
    var line := FormatLine(l, msg);
    var d := DigitChar(l.Value());
    assert ShowNat(l.Value()) == [d];
    assert DigitValue(d) == l.Value();
    assert line == "<" + [d] + ">" + (ProgramName + ": " + msg + "\n");
    assert line[3..] == ProgramName + ": " + (msg + "\n");
    StripPrefixOfConcat(ProgramName + ": ", msg + "\n");
    assert StripSuffix(msg + "\n", "\n") == Some(msg) by {
      assert (msg + "\n")[|msg|..] == "\n";
      assert (msg + "\n")[..|msg|] == msg;
    }
  }

  /** A message waiting to be written, with its level. */
  datatype Entry = Entry(level: Level, msg: string)

  /** The lines a console at threshold `t` writes for `entries`, in order. */
  function Emit(entries: seq<Entry>, t: Level): seq<string> {
    if |entries| == 0 then []
    else
      (if AtMost(entries[0].level, t) then [FormatLine(entries[0].level, entries[0].msg)] else [])
      + Emit(entries[1..], t)
  }

  /** At most one line per entry, and one line per entry exactly when no
      entry falls above the threshold. */
  lemma {:induction false} EmitAll(entries: seq<Entry>, t: Level)
    ensures |Emit(entries, t)| <= |entries|
    ensures |Emit(entries, t)| == |entries| <==> forall i :: 0 <= i < |entries| ==> AtMost(entries[i].level, t)
  {
    if |entries| > 0 {
      EmitAll(entries[1..], t);
      assert forall i :: 1 <= i < |entries| ==> entries[1..][i - 1] == entries[i];
    }
  }

  /** Writing two batches one after the other writes the lines of both, in order. */
  lemma {:induction false} EmitAppend(a: seq<Entry>, b: seq<Entry>, t: Level)
    ensures Emit(a + b, t) == Emit(a, t) + Emit(b, t)
  {
    if |a| > 0 {
      EmitAppend(a[1..], b, t);
      assert (a + b)[1..] == a[1..] + b;
    } else {
      assert a + b == b;
    }
  }

  /** Each entry formatted as a console line, in order. */
  function FormatAll(entries: seq<Entry>): (r: seq<string>)
    ensures |r| == |entries|
  {
    if |entries| == 0 then [] else [FormatLine(entries[0].level, entries[0].msg)] + FormatAll(entries[1..])
  }

  /** The written lines are exactly the entries at or below the threshold,
      formatted, in their original order. */
  lemma {:induction false} EmitIsFilter(entries: seq<Entry>, t: Level)
    ensures Emit(entries, t) == FormatAll(Filter(entries, (e: Entry) => AtMost(e.level, t)))
  {
    if |entries| > 0 {
      EmitIsFilter(entries[1..], t);
      var keep := (e: Entry) => AtMost(e.level, t);
      if keep(entries[0]) {
        assert Filter(entries, keep) == [entries[0]] + Filter(entries[1..], keep);
        assert FormatAll(Filter(entries, keep))[1..] == FormatAll(Filter(entries[1..], keep));
      } else {
        assert Filter(entries, keep) == Filter(entries[1..], keep);
      }
    }
  }

  /** At the `Debug` threshold nothing is dropped. */
  lemma {:induction false} EmitAllAtDebug(entries: seq<Entry>)
    ensures |Emit(entries, Debug)| == |entries|
  {
    if |entries| > 0 {
      EmitAllAtDebug(entries[1..]);
    }
  }

  /** `KConsole`: the handle on the kernel log and its verbosity threshold.
      The log is modelled as the sequence of lines written so far. */
  class KConsole {
    var level: Level
    var output: seq<string>

    /** `KConsole::new`: the threshold starts at the default level. */
    constructor ()
      ensures level == DefaultLevel && output == []
    {
      level := DefaultLevel;
      output := [];
    }

    /** `KConsole::println`: writes the line only when its level is at most the threshold. */
    method Println(req: Level, msg: string)
      modifies this`output
      ensures AtMost(req, level) ==> output == old(output) + [FormatLine(req, msg)]
      ensures !AtMost(req, level) ==> output == old(output)
    {
      if AtMost(req, level) {
        output := output + [FormatLine(req, msg)];
      }
    }

    /** `KConsole::change_verbosity`: sets the threshold and writes nothing. */
    method ChangeVerbosity(newLevel: Level)
      modifies this`level
      ensures level == newLevel
    {
      level := newLevel;
    }
  }
}
