/** `CmdlineArgs::parse_inner`: the kernel command line, read token by token
    into the log threshold, the init path, the root and resume partitions,
    the root mount options and the module parameters (src/config.rs). */
module Cmdline {
  import opened Text
  import opened EarlyLogging
  import opened KmsgBuffer
  import opened KernelModules
  import opened MountSource
  import opened RootOptions

  /** `INIT_DEFAULT_PATH`. */
  const DefaultInit: string := "/sbin/init"

  const BoosterDebugNote: string := "booster.debug is deprecated: use ignited.log=debug instead."

  /** Why reading the command line stops. `rd.luks.*` is not implemented in
      the source (it panics); here it is an error of its own. */
  datatype CmdlineError =
    | UnparseableRoot
    | UnparseableResume
    | InitContainsNul(path: string)
    | LuksUnimplemented(key: string)

  /** A token split at its first `=` into key and value; without `=` the
      whole token is the key and there is no value. */
  function SplitArg(arg: string): (r: (string, Option<string>))
    ensures '=' !in arg ==> r == (arg, None)
    ensures '=' in arg ==> r.1.Some? && arg == r.0 + "=" + r.1.value && '=' !in r.0
  {
    match SplitOnce(arg, '=')
    case None => (arg, None)
    case Some((k, v)) => (k, Some(v))
  }

  /** A key without `=` followed by `=` and any value is read back as the two. */
  lemma SplitArgRoundTrip(key: string, value: string)
    requires '=' !in key
    ensures SplitArg(key + "=" + value) == (key, Some(value))
  {
    SplitOnceUnique(key, '=', value);
  }

  /** `Option::get_or_insert`: a value already present is kept. */
  function GetOrInsert<T>(o: Option<T>, v: T): (r: Option<T>)
    ensures r.Some?
    ensures o.Some? ==> r == o
    ensures o.None? ==> r == Some(v)
  {
    if o.Some? then o else Some(v)
  }

  // ---------------------------------------------------------------------------
  // Log threshold: `ignited.log`, `booster.log`, `booster.debug`, `quiet`

  /** The threshold chosen so far and the messages held back. */
  datatype LogState = LogState(verbosity: Option<Level>, queued: seq<Entry>)

  predicate NonEmpty(s: string) {
    |s| > 0
  }

  /** The values an `ignited.log` or (`compat`) `booster.log` value holds:
      `booster.log` is split at `,` and empty pieces are dropped; every other
      piece is kept, in its order. */
  function LogPieces(value: string, compat: bool): (r: seq<string>)
    ensures compat ==> forall i :: 0 <= i < |r| ==> |r[i]| > 0 && ',' !in r[i]
    ensures compat ==> exists idx :: Picks(Split(value, ','), r, NonEmpty, idx)
    ensures !compat ==> r == [value]
  {
    FilterPicks(Split(value, ','), NonEmpty);
    if compat then Filter(Split(value, ','), NonEmpty) else [value]
  }

  /** One value: a level name sets the threshold if none is set yet,
      `console` is noted and ignored, anything else is warned about. */
  function LogValue(ls: LogState, key: string, v: string): LogState {
    match LevelFromStr(v)
    case Some(l) => ls.(verbosity := GetOrInsert(ls.verbosity, l))
    case None =>
      if v == "console" then ls.(queued := ls.queued + [Entry(Debug, key + "=console is ignored in ignited")])
      else ls.(queued := ls.queued + [Entry(Warn, "unknown " + key + " key " + v)])
  }

  function LogValues(ls: LogState, key: string, vs: seq<string>): LogState {
    if |vs| == 0 then ls
    else LogValue(LogValues(ls, key, vs[..|vs| - 1]), key, vs[|vs| - 1])
  }

  function LogKey(compat: bool): string {
    if compat then "booster.log" else "ignited.log"
  }

  /** `parse_ignited_log`. */
  function LogStep(ls: LogState, value: Option<string>, compat: bool): LogState {
    match value
    case None => ls.(queued := ls.queued + [Entry(Warn, "unknown " + LogKey(compat) + " key <EMPTY>")])
    case Some(v) => LogValues(ls, LogKey(compat), LogPieces(v, compat))
  }

  /** The levels named among some values, in order. */
  function PieceLevels(vs: seq<string>): seq<Level> {
    if |vs| == 0 then []
    else
      var l := LevelFromStr(vs[|vs| - 1]);
      PieceLevels(vs[..|vs| - 1]) + (if l.Some? then [l.value] else [])
  }

  /** The notes and warnings some values give rise to, in order. */
  function PieceMessages(key: string, vs: seq<string>): seq<Entry> {
    if |vs| == 0 then []
    else
      var v := vs[|vs| - 1];
      PieceMessages(key, vs[..|vs| - 1])
      + (if LevelFromStr(v).Some? then []
         else if v == "console" then [Entry(Debug, key + "=console is ignored in ignited")]
         else [Entry(Warn, "unknown " + key + " key " + v)])
  }

  /** The first of the levels, unless one is already chosen. */
  function FirstOpt<T>(o: Option<T>, xs: seq<T>): (r: Option<T>)
    ensures o.Some? ==> r == o
    ensures o.None? && |xs| > 0 ==> r == Some(xs[0])
    ensures o.None? && |xs| == 0 ==> r.None?
  {
    if o.Some? then o else if |xs| > 0 then Some(xs[0]) else None
  }

  lemma FirstOptConcat<T>(o: Option<T>, xs: seq<T>, ys: seq<T>)
    ensures FirstOpt(FirstOpt(o, xs), ys) == FirstOpt(o, xs + ys)
  {
    if o.None? && |xs| > 0 {
      assert (xs + ys)[0] == xs[0];
    }
  }

  /** Reading several values keeps the first level named among them (unless
      one was already set) and queues one message per value that names none. */
  lemma {:induction false} LogValuesSpec(ls: LogState, key: string, vs: seq<string>)
    ensures LogValues(ls, key, vs) ==
      LogState(FirstOpt(ls.verbosity, PieceLevels(vs)), ls.queued + PieceMessages(key, vs))
  {
    if |vs| > 0 {
      var init := vs[..|vs| - 1];
      var v := vs[|vs| - 1];
      LogValuesSpec(ls, key, init);
      var l := LevelFromStr(v);
      FirstOptConcat(ls.verbosity, PieceLevels(init), if l.Some? then [l.value] else []);
    } else {
      assert ls.queued + [] == ls.queued;
    }
  }

  /** An empty `booster.log` value names nothing and warns about nothing. */
  lemma EmptyBoosterLog(ls: LogState)
    ensures LogStep(ls, Some(""), true) == ls
  {
    assert Split("", ',') == [""];
    assert LogPieces("", true) == [];
  }

  // ---------------------------------------------------------------------------
  // The whole command line

  /** Everything `parse_inner` has gathered so far. */
  datatype Acc = Acc(
    verbosity: Option<Level>,
    init: Option<string>,
    root: RootState,
    resume: Option<PartitionSource>,
    params: map<string, seq<string>>,
    queued: seq<Entry>)

  const Start: Acc := Acc(None, None, DefaultRoot, None, map[], [])

  function WithLog(acc: Acc, ls: LogState): Acc {
    acc.(verbosity := ls.verbosity, queued := ls.queued)
  }

  function Warned(acc: Acc, msg: string): Acc {
    acc.(queued := acc.queued + [Entry(Warn, msg)])
  }

  function EmptyWarning(key: string): string {
    key + " key is empty, ignoring"
  }

  /** The keys `parse_inner` dispatches on; every other key is `Other`. */
  datatype Key =
    | IgnitedLog | BoosterLog | BoosterDebug | Quiet
    | RootKey | ResumeKey | InitKey | RootFsType | RootFlags | Ro | Rw
    | LuksKey | Other

  /** The dispatch table of `parse_inner`. */
  function KeyKind(key: string): Key {
    match key
    case "ignited.log" => IgnitedLog
    case "booster.log" => BoosterLog
    case "booster.debug" => BoosterDebug
    case "quiet" => Quiet
    case "root" => RootKey
    case "resume" => ResumeKey
    case "init" => InitKey
    case "rootfstype" => RootFsType
    case "rootflags" => RootFlags
    case "ro" => Ro
    case "rw" => Rw
    case "rd.luks.options" => LuksKey
    case "rd.luks.name" => LuksKey
    case "rd.luks.uuid" => LuksKey
    case _ => Other
  }

  /** Each known key has a kind of its own; the three `rd.luks.*` keys share
      one, and every other key is a module parameter. */
  lemma KeyKindTable(key: string)
    ensures KeyKind(key) == IgnitedLog <==> key == "ignited.log"
    ensures KeyKind(key) == BoosterLog <==> key == "booster.log"
    ensures KeyKind(key) == BoosterDebug <==> key == "booster.debug"
    ensures KeyKind(key) == Quiet <==> key == "quiet"
    ensures KeyKind(key) == RootKey <==> key == "root"
    ensures KeyKind(key) == ResumeKey <==> key == "resume"
    ensures KeyKind(key) == InitKey <==> key == "init"
    ensures KeyKind(key) == RootFsType <==> key == "rootfstype"
    ensures KeyKind(key) == RootFlags <==> key == "rootflags"
    ensures KeyKind(key) == Ro <==> key == "ro"
    ensures KeyKind(key) == Rw <==> key == "rw"
    ensures KeyKind(key) == LuksKey <==> key == "rd.luks.options" || key == "rd.luks.name" || key == "rd.luks.uuid"
  {
  }

  /** The kind of a token's key. */
  function KindOf(arg: string): Key {
    KeyKind(SplitArg(arg).0)
  }

  /** `parse_mod_param`: `module.param=value` is recorded; a key without a
      value or without a `.` is only warned about. */
  function ModParamStep(acc: Acc, key: string, value: Option<string>): Acc {
    if value.None? || SplitOnce(key, '.').None? then Warned(acc, "invalid key " + key)
    else
      var (m, p) := SplitOnce(key, '.').value;
      acc.(params := Inserted(acc.params, m, p, value.value))
  }

  /** `parse_rootflags` with a value: `RootOptsBuilder::add_opts`. */
  function RootFlagsStep(root: RootState, value: string): RootState {
    var opts := Split(value, ',');
    root.(flags := ApplyFlags(root.flags, opts), options := AppendOptions(root.options, Residual(opts)))
  }

  /** One token of the command line (the body of the `parse_inner` loop). */
  function Step(acc: Acc, arg: string, uuid: UuidParser): Result<Acc, CmdlineError> {
    var (key, value) := SplitArg(arg);
    match KeyKind(key)
    case IgnitedLog => Ok(WithLog(acc, LogStep(LogState(acc.verbosity, acc.queued), value, false)))
    case BoosterLog => Ok(WithLog(acc, LogStep(LogState(acc.verbosity, acc.queued), value, true)))
    case BoosterDebug =>
      Ok(acc.(verbosity := GetOrInsert(acc.verbosity, Debug), queued := acc.queued + [Entry(Debug, BoosterDebugNote)]))
    case Quiet => Ok(acc.(verbosity := GetOrInsert(acc.verbosity, Level.Err)))
    case RootKey =>
      if value.None? then Ok(Warned(acc, EmptyWarning(key)))
      else if Parse(value.value, uuid).None? then Result.Err(UnparseableRoot)
      else Ok(acc.(root := acc.root.(source := GetOrInsert(acc.root.source, Parse(value.value, uuid).value))))
    case ResumeKey =>
      if value.None? then Ok(Warned(acc, EmptyWarning(key)))
      else if Parse(value.value, uuid).None? then Result.Err(UnparseableResume)
      else Ok(acc.(resume := GetOrInsert(acc.resume, Parse(value.value, uuid).value)))
    case InitKey =>
      if value.None? then Ok(Warned(acc, EmptyWarning(key)))
      else if '\0' in value.value then Result.Err(InitContainsNul(value.value))
      else Ok(acc.(init := GetOrInsert(acc.init, value.value)))
    case RootFsType =>
      if value.None? then Ok(Warned(acc, EmptyWarning(key)))
      else Ok(acc.(root := acc.root.(fstype := GetOrInsert(acc.root.fstype, value.value))))
    case RootFlags =>
      if value.None? then Ok(Warned(acc, EmptyWarning(key)))
      else Ok(acc.(root := RootFlagsStep(acc.root, value.value)))
    case Ro => Ok(acc.(root := acc.root.(rw := false)))
    case Rw => Ok(acc.(root := acc.root.(rw := true)))
    case LuksKey => Result.Err(LuksUnimplemented(key))
    case Other => Ok(ModParamStep(acc, key, value))
  }

  /** The tokens read one after the other from the start; the first error
      ends the reading. */
  function Interpret(args: seq<string>, uuid: UuidParser): Result<Acc, CmdlineError> {
    if |args| == 0 then Ok(Start)
    else
      match Interpret(args[..|args| - 1], uuid)
      case Err(e) => Result.Err(e)
      case Ok(acc) => Step(acc, args[|args| - 1], uuid)
  }

  /** An error once reached stays the outcome, whatever follows. */
  lemma {:induction false} InterpretErrSticky(args: seq<string>, n: nat, uuid: UuidParser)
    requires n <= |args| && Interpret(args[..n], uuid).Err?
    ensures Interpret(args, uuid) == Interpret(args[..n], uuid)
  {
    if n < |args| {
      var init := args[..|args| - 1];
      assert init[..n] == args[..n];
      InterpretErrSticky(init, n, uuid);
    } else {
      assert args[..n] == args;
    }
  }

  // ---------------------------------------------------------------------------
  // What each token contributes, stated independently of `Step`

  /** The error a token causes, whatever came before it. */
  function ArgError(arg: string, uuid: UuidParser): Option<CmdlineError> {
    var (key, value) := SplitArg(arg);
    match KeyKind(key)
    case RootKey => if value.Some? && Parse(value.value, uuid).None? then Some(UnparseableRoot) else None
    case ResumeKey => if value.Some? && Parse(value.value, uuid).None? then Some(UnparseableResume) else None
    case InitKey => if value.Some? && '\0' in value.value then Some(InitContainsNul(value.value)) else None
    case LuksKey => Some(LuksUnimplemented(key))
    case _ => None
  }

  /** A token fails exactly when `ArgError` names an error, and with that error. */
  lemma StepError(acc: Acc, arg: string, uuid: UuidParser)
    ensures Step(acc, arg, uuid).Err? <==> ArgError(arg, uuid).Some?
    ensures Step(acc, arg, uuid).Err? ==> Step(acc, arg, uuid).error == ArgError(arg, uuid).value
  {
  }

  /** The error each token causes, in order. */
  function ArgErrors(args: seq<string>, uuid: UuidParser): (r: seq<Option<CmdlineError>>)
    ensures |r| == |args| && forall i :: 0 <= i < |args| ==> r[i] == ArgError(args[i], uuid)
  {
    seq(|args|, i requires 0 <= i < |args| => ArgError(args[i], uuid))
  }

  /** The first value present, if any. */
  function FirstSome<T>(xs: seq<Option<T>>): Option<T> {
    if |xs| == 0 then None else OrElse(FirstSome(xs[..|xs| - 1]), xs[|xs| - 1])
  }

  /** `FirstSome` is the value at the earliest position that has one. */
  lemma {:induction false} FirstSomeSpec<T>(xs: seq<Option<T>>)
    ensures FirstSome(xs).Some? <==> exists i :: 0 <= i < |xs| && xs[i].Some?
    ensures FirstSome(xs).Some? ==>
      exists k :: 0 <= k < |xs| && xs[k] == FirstSome(xs) && forall j :: 0 <= j < k ==> xs[j].None?
  {
    if |xs| > 0 {
      var n := |xs| - 1;
      var init := xs[..n];
      FirstSomeSpec(init);
      assert forall j :: 0 <= j < n ==> xs[j] == init[j];
      if FirstSome(init).None? {
        if xs[n].Some? {
          assert xs[n] == FirstSome(xs);
        }
      } else {
        var k :| 0 <= k < n && init[k] == FirstSome(init) && forall j :: 0 <= j < k ==> init[j].None?;
        assert xs[k] == FirstSome(xs);
      }
    }
  }

  lemma {:induction false} InterpretFirstError(args: seq<string>, uuid: UuidParser)
    ensures Interpret(args, uuid).Err? <==> FirstSome(ArgErrors(args, uuid)).Some?
    ensures Interpret(args, uuid).Err? ==> Interpret(args, uuid).error == FirstSome(ArgErrors(args, uuid)).value
  {
    if |args| > 0 {
      var n := |args| - 1;
      var init := args[..n];
      InterpretFirstError(init, uuid);
      var errs := ArgErrors(args, uuid);
      assert errs[..n] == ArgErrors(init, uuid) && errs[n] == ArgError(args[n], uuid);
      if Interpret(init, uuid).Ok? {
        StepError(Interpret(init, uuid).value, args[n], uuid);
      }
    }
  }

  /** Reading fails exactly when some token fails (`ArgErrors` holds the
      error of each token), and the error is that of the
      first failing token. */
  lemma InterpretError(args: seq<string>, uuid: UuidParser)
    ensures Interpret(args, uuid).Err? <==> exists i :: 0 <= i < |args| && ArgErrors(args, uuid)[i].Some?
    ensures Interpret(args, uuid).Err? ==>
      exists k :: 0 <= k < |args| && ArgErrors(args, uuid)[k] == Some(Interpret(args, uuid).error)
        && forall j :: 0 <= j < k ==> ArgErrors(args, uuid)[j].None?
  {
    InterpretFirstError(args, uuid);
    FirstSomeSpec(ArgErrors(args, uuid));
  }

  /** The levels a token names, in order. */
  function LevelsOf(arg: string): seq<Level> {
    var value := SplitArg(arg).1;
    match KindOf(arg)
    case IgnitedLog => if value.Some? then PieceLevels(LogPieces(value.value, false)) else []
    case BoosterLog => if value.Some? then PieceLevels(LogPieces(value.value, true)) else []
    case BoosterDebug => [Debug]
    case Quiet => [Level.Err]
    case _ => []
  }

  /** The levels named across the whole command line, in order. */
  function AllLevels(args: seq<string>): seq<Level> {
    if |args| == 0 then [] else AllLevels(args[..|args| - 1]) + LevelsOf(args[|args| - 1])
  }

  lemma StepVerbosityLog(acc: Acc, arg: string, uuid: UuidParser)
    requires KindOf(arg) == IgnitedLog || KindOf(arg) == BoosterLog
    ensures Step(acc, arg, uuid).Ok?
    ensures Step(acc, arg, uuid).value.verbosity == FirstOpt(acc.verbosity, LevelsOf(arg))
  {
    var value := SplitArg(arg).1;
    var compat := KindOf(arg) == BoosterLog;
    if value.Some? {
      LogValuesSpec(LogState(acc.verbosity, acc.queued), LogKey(compat), LogPieces(value.value, compat));
    }
  }

  lemma StepVerbosity(acc: Acc, arg: string, uuid: UuidParser)
    requires Step(acc, arg, uuid).Ok?
    ensures Step(acc, arg, uuid).value.verbosity == FirstOpt(acc.verbosity, LevelsOf(arg))
  {
    if KindOf(arg) == IgnitedLog || KindOf(arg) == BoosterLog {
      StepVerbosityLog(acc, arg, uuid);
    }
  }

  /** The threshold is the first level named anywhere on the command line,
      whether by `ignited.log`, `booster.log`, `booster.debug` or `quiet`. */
  lemma {:induction false} InterpretVerbosity(args: seq<string>, uuid: UuidParser)
    requires Interpret(args, uuid).Ok?
    ensures Interpret(args, uuid).value.verbosity == FirstOpt(None, AllLevels(args))
  {
    if |args| > 0 {
      var init := args[..|args| - 1];
      InterpretVerbosity(init, uuid);
      StepVerbosity(Interpret(init, uuid).value, args[|args| - 1], uuid);
      FirstOptConcat(None, AllLevels(init), LevelsOf(args[|args| - 1]));
    }
  }

  /** The value of a token with key `key`, if it has one. */
  function ValueOf(arg: string, kind: Key): seq<string> {
    var value := SplitArg(arg).1;
    if KindOf(arg) == kind && value.Some? then [value.value] else []
  }

  /** The values given to `key` across the command line, in order. */
  function ValuesOf(args: seq<string>, kind: Key): seq<string> {
    if |args| == 0 then [] else ValuesOf(args[..|args| - 1], kind) + ValueOf(args[|args| - 1], kind)
  }

  /** The partitions a token names under `key`, where its value parses. */
  function SourceOf(arg: string, kind: Key, uuid: UuidParser): seq<PartitionSource> {
    var value := SplitArg(arg).1;
    if KindOf(arg) == kind && value.Some? && Parse(value.value, uuid).Some? then [Parse(value.value, uuid).value] else []
  }

  function SourcesOf(args: seq<string>, kind: Key, uuid: UuidParser): seq<PartitionSource> {
    if |args| == 0 then [] else SourcesOf(args[..|args| - 1], kind, uuid) + SourceOf(args[|args| - 1], kind, uuid)
  }

  lemma StepFirstWins(acc: Acc, arg: string, uuid: UuidParser)
    requires Step(acc, arg, uuid).Ok?
    ensures Step(acc, arg, uuid).value.init == FirstOpt(acc.init, ValueOf(arg, InitKey))
    ensures Step(acc, arg, uuid).value.root.fstype == FirstOpt(acc.root.fstype, ValueOf(arg, RootFsType))
    ensures Step(acc, arg, uuid).value.root.source == FirstOpt(acc.root.source, SourceOf(arg, RootKey, uuid))
    ensures Step(acc, arg, uuid).value.resume == FirstOpt(acc.resume, SourceOf(arg, ResumeKey, uuid))
  {
    StepInit(acc, arg, uuid);
    StepFsType(acc, arg, uuid);
    StepRootSource(acc, arg, uuid);
    StepResume(acc, arg, uuid);
  }

  lemma StepInit(acc: Acc, arg: string, uuid: UuidParser)
    requires Step(acc, arg, uuid).Ok?
    ensures Step(acc, arg, uuid).value.init == FirstOpt(acc.init, ValueOf(arg, InitKey))
  {
  }

  lemma StepFsType(acc: Acc, arg: string, uuid: UuidParser)
    requires Step(acc, arg, uuid).Ok?
    ensures Step(acc, arg, uuid).value.root.fstype == FirstOpt(acc.root.fstype, ValueOf(arg, RootFsType))
  {
  }

  lemma StepRootSource(acc: Acc, arg: string, uuid: UuidParser)
    requires Step(acc, arg, uuid).Ok?
    ensures Step(acc, arg, uuid).value.root.source == FirstOpt(acc.root.source, SourceOf(arg, RootKey, uuid))
  {
  }

  lemma StepResume(acc: Acc, arg: string, uuid: UuidParser)
    requires Step(acc, arg, uuid).Ok?
    ensures Step(acc, arg, uuid).value.resume == FirstOpt(acc.resume, SourceOf(arg, ResumeKey, uuid))
  {
  }

  /** `init`, `rootfstype`, `root` and `resume` are first-wins: each holds the
      first value given for it on the command line (for `root` and `resume`,
      the first that parses; one that does not is an error). */
  lemma {:induction false} InterpretFirstWins(args: seq<string>, uuid: UuidParser)
    requires Interpret(args, uuid).Ok?
    ensures Interpret(args, uuid).value.init == FirstOpt(None, ValuesOf(args, InitKey))
    ensures Interpret(args, uuid).value.root.fstype == FirstOpt(None, ValuesOf(args, RootFsType))
    ensures Interpret(args, uuid).value.root.source == FirstOpt(None, SourcesOf(args, RootKey, uuid))
    ensures Interpret(args, uuid).value.resume == FirstOpt(None, SourcesOf(args, ResumeKey, uuid))
  {
    if |args| > 0 {
      var init := args[..|args| - 1];
      var last := args[|args| - 1];
      InterpretFirstWins(init, uuid);
      StepFirstWins(Interpret(init, uuid).value, last, uuid);
      FirstOptConcat(None, ValuesOf(init, InitKey), ValueOf(last, InitKey));
      FirstOptConcat(None, ValuesOf(init, RootFsType), ValueOf(last, RootFsType));
      FirstOptConcat(None, SourcesOf(init, RootKey, uuid), SourceOf(last, RootKey, uuid));
      FirstOptConcat(None, SourcesOf(init, ResumeKey, uuid), SourceOf(last, ResumeKey, uuid));
    }
  }

  lemma StepRootMode(acc: Acc, arg: string, uuid: UuidParser)
    requires Step(acc, arg, uuid).Ok?
    ensures KindOf(arg) == Rw ==> Step(acc, arg, uuid).value.root.rw
    ensures KindOf(arg) == Ro ==> !Step(acc, arg, uuid).value.root.rw
    ensures !IsMode(KindOf(arg)) ==> Step(acc, arg, uuid).value.root.rw == acc.root.rw
  {
  }

  /** The kinds of the tokens' keys, in order. */
  function KindsOf(args: seq<string>): (kinds: seq<Key>)
    ensures |kinds| == |args| && forall i :: 0 <= i < |args| ==> kinds[i] == KindOf(args[i])
  {
    seq(|args|, i requires 0 <= i < |args| => KindOf(args[i]))
  }

  predicate IsMode(k: Key) {
    k == Ro || k == Rw
  }

  /** Whether the last `ro` or `rw` among the kinds is `rw`. */
  function LastModeRw(kinds: seq<Key>): bool {
    if |kinds| == 0 then false
    else if IsMode(kinds[|kinds| - 1]) then kinds[|kinds| - 1] == Rw
    else LastModeRw(kinds[..|kinds| - 1])
  }

  lemma {:induction false} InterpretLastMode(args: seq<string>, uuid: UuidParser)
    requires Interpret(args, uuid).Ok?
    ensures Interpret(args, uuid).value.root.rw == LastModeRw(KindsOf(args))
  {
    if |args| > 0 {
      var init := args[..|args| - 1];
      InterpretLastMode(init, uuid);
      StepRootMode(Interpret(init, uuid).value, args[|args| - 1], uuid);
      assert KindsOf(args)[..|args| - 1] == KindsOf(init);
    }
  }

  /** The `rw` at `k` is followed by no `ro` or `rw`. */
  predicate RwAt(kinds: seq<Key>, k: int) {
    0 <= k < |kinds| && kinds[k] == Rw && forall j :: k < j < |kinds| ==> !IsMode(kinds[j])
  }

  /** `LastModeRw` holds exactly when some `rw` has no `ro` or `rw` after it. */
  lemma {:induction false} LastModeRwSpec(kinds: seq<Key>)
    ensures LastModeRw(kinds) <==> exists k :: RwAt(kinds, k)
  {
    if |kinds| > 0 {
      var n := |kinds| - 1;
      var init := kinds[..n];
      LastModeRwSpec(init);
      if !IsMode(kinds[n]) {
        if LastModeRw(init) {
          var k :| RwAt(init, k);
          assert RwAt(kinds, k);
        }
        if exists k :: RwAt(kinds, k) {
          var k :| RwAt(kinds, k);
          assert RwAt(init, k);
        }
      } else if kinds[n] == Rw {
        assert RwAt(kinds, n);
      } else {
        forall k | 0 <= k < |kinds|
          ensures !RwAt(kinds, k)
        {
          if k < n {
            assert IsMode(kinds[n]);
          }
        }
      }
    }
  }

  /** `ro` and `rw` are last-wins: the root is writable exactly when some
      token has key `rw` and no `ro` or `rw` token follows it. */
  lemma InterpretRootMode(args: seq<string>, uuid: UuidParser)
    requires Interpret(args, uuid).Ok?
    ensures Interpret(args, uuid).value.root.rw <==> exists k :: RwAt(KindsOf(args), k)
  {
    InterpretLastMode(args, uuid);
    LastModeRwSpec(KindsOf(args));
  }

  /** The mount options a token contributes through `rootflags`. */
  function FlagOptsOf(arg: string): seq<string> {
    var value := SplitArg(arg).1;
    if KindOf(arg) == RootFlags && value.Some? then Split(value.value, ',') else []
  }

  function AllFlagOpts(args: seq<string>): seq<string> {
    if |args| == 0 then [] else AllFlagOpts(args[..|args| - 1]) + FlagOptsOf(args[|args| - 1])
  }

  lemma StepRootFlags(acc: Acc, arg: string, uuid: UuidParser)
    requires Step(acc, arg, uuid).Ok?
    ensures Step(acc, arg, uuid).value.root.flags == ApplyFlags(acc.root.flags, FlagOptsOf(arg))
    ensures Step(acc, arg, uuid).value.root.options == AppendOptions(acc.root.options, Residual(FlagOptsOf(arg)))
  {
    if KindOf(arg) != RootFlags {
      StepRootFlagsKept(acc, arg, uuid);
      assert FlagOptsOf(arg) == [];
    }
  }

  lemma StepRootFlagsKept(acc: Acc, arg: string, uuid: UuidParser)
    requires KindOf(arg) != RootFlags && Step(acc, arg, uuid).Ok?
    ensures Step(acc, arg, uuid).value.root.flags == acc.root.flags
    ensures Step(acc, arg, uuid).value.root.options == acc.root.options
  {
  }

  /** All `rootflags` values act as one comma-separated list of options read
      in order: the flags are those the options set and clear, and the option
      string holds exactly the options the flag table does not know. */
  lemma {:induction false} InterpretRootFlags(args: seq<string>, uuid: UuidParser)
    requires Interpret(args, uuid).Ok?
    ensures Interpret(args, uuid).value.root.flags == ApplyFlags({}, AllFlagOpts(args))
    ensures Interpret(args, uuid).value.root.options == AppendOptions(None, Residual(AllFlagOpts(args)))
  {
    if |args| > 0 {
      var init := args[..|args| - 1];
      var last := args[|args| - 1];
      InterpretRootFlags(init, uuid);
      StepRootFlags(Interpret(init, uuid).value, last, uuid);
      var opts := FlagOptsOf(last);
      ApplyFlagsConcat({}, AllFlagOpts(init), opts);
      ResidualConcat(AllFlagOpts(init), opts);
      AppendOptionsConcat(None, Residual(AllFlagOpts(init)), Residual(opts));
    }
  }

  /** The module parameter a token sets: a key the interpreter does not know,
      with a value, and with a `.` separating module from parameter. */
  function ParamOf(arg: string): seq<ParamInsert> {
    var (key, value) := SplitArg(arg);
    if KeyKind(key) == Other && value.Some? && SplitOnce(key, '.').Some? then
      [ParamInsert(SplitOnce(key, '.').value.0, SplitOnce(key, '.').value.1, value.value)]
    else []
  }

  function AllParams(args: seq<string>): seq<ParamInsert> {
    if |args| == 0 then [] else AllParams(args[..|args| - 1]) + ParamOf(args[|args| - 1])
  }

  lemma {:induction false} InsertAllSnoc(inserts: seq<ParamInsert>, more: seq<ParamInsert>)
    requires |more| <= 1
    ensures |more| == 0 ==> InsertAll(inserts + more) == InsertAll(inserts)
    ensures |more| == 1 ==>
      InsertAll(inserts + more) == Inserted(InsertAll(inserts), more[0].moduleName, more[0].param, more[0].args)
  {
    if |more| == 0 {
      assert inserts + more == inserts;
    } else {
      assert (inserts + more)[..|inserts|] == inserts;
    }
  }

  lemma StepParams(acc: Acc, arg: string, uuid: UuidParser)
    requires Step(acc, arg, uuid).Ok?
    ensures |ParamOf(arg)| == 0 ==> Step(acc, arg, uuid).value.params == acc.params
    ensures |ParamOf(arg)| == 1 ==>
      Step(acc, arg, uuid).value.params == Inserted(acc.params, ParamOf(arg)[0].moduleName, ParamOf(arg)[0].param, ParamOf(arg)[0].args)
  {
    if KindOf(arg) == Other {
      StepParamsOther(acc, arg, uuid);
    } else {
      StepParamsKnown(acc, arg, uuid);
    }
  }

  lemma StepParamsOther(acc: Acc, arg: string, uuid: UuidParser)
    requires KindOf(arg) == Other
    ensures Step(acc, arg, uuid).Ok?
    ensures |ParamOf(arg)| == 0 ==> Step(acc, arg, uuid).value.params == acc.params
    ensures |ParamOf(arg)| == 1 ==>
      Step(acc, arg, uuid).value.params == Inserted(acc.params, ParamOf(arg)[0].moduleName, ParamOf(arg)[0].param, ParamOf(arg)[0].args)
  {
    var (key, value) := SplitArg(arg);
    assert Step(acc, arg, uuid) == Ok(ModParamStep(acc, key, value));
  }

  lemma StepParamsKnown(acc: Acc, arg: string, uuid: UuidParser)
    requires KindOf(arg) != Other && Step(acc, arg, uuid).Ok?
    ensures ParamOf(arg) == [] && Step(acc, arg, uuid).value.params == acc.params
  {
  }

  /** The module parameter table holds exactly the `module.param=value`
      tokens, in order; so a module's list is the parameters given for any
      spelling of its name (see `InsertAllLookup`). */
  lemma {:induction false} InterpretParams(args: seq<string>, uuid: UuidParser)
    requires Interpret(args, uuid).Ok?
    ensures Interpret(args, uuid).value.params == InsertAll(AllParams(args))
  {
    if |args| > 0 {
      var init := args[..|args| - 1];
      var last := args[|args| - 1];
      InterpretParams(init, uuid);
      StepParams(Interpret(init, uuid).value, last, uuid);
      InsertAllSnoc(AllParams(init), ParamOf(last));
    }
  }

  /** The messages an `ignited.log` or (`compat`) `booster.log` token queues. */
  function LogMessages(value: Option<string>, compat: bool): seq<Entry> {
    if value.None? then [Entry(Warn, "unknown " + LogKey(compat) + " key <EMPTY>")]
    else PieceMessages(LogKey(compat), LogPieces(value.value, compat))
  }

  /** The messages a token queues, in order. */
  function MessagesOf(arg: string): seq<Entry> {
    var (key, value) := SplitArg(arg);
    match KeyKind(key)
    case IgnitedLog => LogMessages(value, false)
    case BoosterLog => LogMessages(value, true)
    case BoosterDebug => [Entry(Debug, BoosterDebugNote)]
    case Other => if value.None? || SplitOnce(key, '.').None? then [Entry(Warn, "invalid key " + key)] else []
    case RootKey | ResumeKey | InitKey | RootFsType | RootFlags =>
      if value.None? then [Entry(Warn, EmptyWarning(key))] else []
    case _ => []
  }

  function AllMessages(args: seq<string>): seq<Entry> {
    if |args| == 0 then [] else AllMessages(args[..|args| - 1]) + MessagesOf(args[|args| - 1])
  }

  lemma StepMessagesLog(acc: Acc, arg: string, uuid: UuidParser)
    requires KindOf(arg) == IgnitedLog || KindOf(arg) == BoosterLog
    ensures Step(acc, arg, uuid).Ok? && Step(acc, arg, uuid).value.queued == acc.queued + MessagesOf(arg)
  {
    var value := SplitArg(arg).1;
    var compat := KindOf(arg) == BoosterLog;
    if value.Some? {
      LogValuesSpec(LogState(acc.verbosity, acc.queued), LogKey(compat), LogPieces(value.value, compat));
    }
  }

  lemma StepMessagesOther(acc: Acc, arg: string, uuid: UuidParser)
    requires KindOf(arg) != IgnitedLog && KindOf(arg) != BoosterLog
    requires Step(acc, arg, uuid).Ok?
    ensures Step(acc, arg, uuid).value.queued == acc.queued + MessagesOf(arg)
  {
    assert acc.queued + [] == acc.queued;
  }

  lemma StepMessages(acc: Acc, arg: string, uuid: UuidParser)
    requires Step(acc, arg, uuid).Ok?
    ensures Step(acc, arg, uuid).value.queued == acc.queued + MessagesOf(arg)
  {
    if KindOf(arg) == IgnitedLog || KindOf(arg) == BoosterLog {
      StepMessagesLog(acc, arg, uuid);
    } else {
      StepMessagesOther(acc, arg, uuid);
    }
  }

  /** The messages held back are those of every token, in command-line order. */
  lemma {:induction false} InterpretMessages(args: seq<string>, uuid: UuidParser)
    requires Interpret(args, uuid).Ok?
    ensures Interpret(args, uuid).value.queued == AllMessages(args)
  {
    if |args| > 0 {
      var init := args[..|args| - 1];
      InterpretMessages(init, uuid);
      StepMessages(Interpret(init, uuid).value, args[|args| - 1], uuid);
    }
  }

  /** A key that needs a value and has none only warns and changes nothing else. */
  lemma MissingValueWarns(acc: Acc, key: string, uuid: UuidParser)
    requires KeyKind(key) in {RootKey, ResumeKey, InitKey, RootFsType, RootFlags}
    requires '=' !in key
    ensures Step(acc, key, uuid) == Ok(acc.(queued := acc.queued + [Entry(Warn, key + " key is empty, ignoring")]))
  {
  }

  // ---------------------------------------------------------------------------
  // The result

  /** What `parse_inner` returns: the init path (the default when none was
      given), the root mount settings, the resume partition and the module
      parameters. */
  datatype CmdlineArgs = CmdlineArgs(
    init: string, root: RootState, resume: Option<PartitionSource>, params: map<string, seq<string>>)

  /** The threshold the buffer is flushed with. */
  function FinalLevel(acc: Acc): (l: Level)
    ensures acc.verbosity.None? ==> l == Info
    ensures acc.verbosity.Some? ==> l == acc.verbosity.value
  {
    acc.verbosity.GetOr(DefaultLevel)
  }

  function Finish(acc: Acc): (r: CmdlineArgs)
    ensures acc.init.None? ==> r.init == "/sbin/init"
    ensures acc.init.Some? ==> r.init == acc.init.value
    ensures r.root == acc.root && r.resume == acc.resume && r.params == acc.params
  {
    CmdlineArgs(acc.init.GetOr(DefaultInit), acc.root, acc.resume, acc.params)
  }

  /** `IgnitedConfig::get_mount_timeout`: only a positive timeout is one. */
  function MountTimeout(configured: Option<int>): (r: Option<int>)
    ensures r.Some? <==> configured.Some? && configured.value > 0
    ensures r.Some? ==> r.value == configured.value
  {
    match configured
    case Some(m) => if m > 0 then Some(m) else None
    case None => None
  }

  // ---------------------------------------------------------------------------
  // The parser itself: the same reading, on the buffer, the builder and the
  // parameter table, updated in place

  /** The parser's locals seen as the value `Step` works on. */
  ghost function Snapshot(verbosity: Option<Level>, init: Option<string>, rootB: RootOptsBuilder,
      resume: Option<PartitionSource>, params: ModParams, buf: KmsgBuf): Acc
    reads rootB, params, buf
  {
    Acc(verbosity, init, rootB.State(), resume, params.table, buf.pending)
  }

  /** One value of `parse_ignited_log`'s loop. */
  method ReadLogValue(buf: KmsgBuf, v: Option<Level>, key: string, piece: string) returns (v': Option<Level>)
    requires buf.Valid() && !buf.flushed
    modifies buf, buf.con
    ensures buf.Valid() && !buf.flushed && unchanged(buf.con)
    ensures LogState(v', buf.pending) == LogValue(LogState(v, old(buf.pending)), key, piece)
  {
    v' := v;
    var level := LevelFromStr(piece);
    if level.Some? {
      v' := GetOrInsert(v, level.value);
    } else if piece == "console" {
      buf.KDebug(key + "=console is ignored in ignited");
    } else {
      buf.KWarn("unknown " + key + " key " + piece);
    }
  }

  /** The loop of `parse_ignited_log` over the values. */
  method ReadLogValues(buf: KmsgBuf, verbosity: Option<Level>, key: string, pieces: seq<string>)
      returns (v: Option<Level>)
    requires buf.Valid() && !buf.flushed
    modifies buf, buf.con
    ensures buf.Valid() && !buf.flushed && unchanged(buf.con)
    ensures LogState(v, buf.pending) == LogValues(LogState(verbosity, old(buf.pending)), key, pieces)
  {
    v := verbosity;
    var i := 0;
    while i < |pieces|
      invariant 0 <= i <= |pieces|
      invariant buf.Valid() && !buf.flushed && unchanged(buf.con)
      invariant LogState(v, buf.pending) == LogValues(LogState(verbosity, old(buf.pending)), key, pieces[..i])
    {
      assert pieces[..i + 1][..i] == pieces[..i];
      v := ReadLogValue(buf, v, key, pieces[i]);
      i := i + 1;
    }
    assert pieces[..i] == pieces;
  }

  /** `parse_ignited_log`: every value is read in turn; a level is kept only
      if none was chosen before, anything else is queued as a message. */
  method ParseIgnitedLog(buf: KmsgBuf, verbosity: Option<Level>, value: Option<string>, compat: bool)
      returns (v: Option<Level>)
    requires buf.Valid() && !buf.flushed
    modifies buf, buf.con
    ensures buf.Valid() && !buf.flushed && unchanged(buf.con)
    ensures LogState(v, buf.pending) == LogStep(LogState(verbosity, old(buf.pending)), value, compat)
  {
    var key := LogKey(compat);
    if value.None? {
      v := verbosity;
      buf.KWarn("unknown " + key + " key <EMPTY>");
    } else {
      v := ReadLogValues(buf, verbosity, key, LogPieces(value.value, compat));
    }
  }

  /** `parse_mod_param`. */
  method ParseModParam(buf: KmsgBuf, params: ModParams, key: string, value: Option<string>)
    requires buf.Valid() && !buf.flushed && params.Valid()
    modifies buf, buf.con, params
    ensures buf.Valid() && !buf.flushed && params.Valid() && unchanged(buf.con)
    ensures var acc := ModParamStep(Acc(None, None, DefaultRoot, None, old(params.table), old(buf.pending)), key, value);
      params.table == acc.params && buf.pending == acc.queued
  {
    if value.Some? {
      match SplitOnce(key, '.')
      case Some((m, p)) =>
        params.Insert(m, p, value.value);
      case None =>
        buf.KWarn("invalid key " + key);
    } else {
      buf.KWarn("invalid key " + key);
    }
  }

  /** `parse_root`, `parse_resume`: the value names a partition; one that does
      not parse is an error, whether or not a partition was already chosen. */
  method ParseSource(buf: KmsgBuf, key: string, value: Option<string>, uuid: UuidParser)
      returns (src: Option<PartitionSource>)
    requires buf.Valid() && !buf.flushed
    modifies buf, buf.con
    ensures buf.Valid() && !buf.flushed && unchanged(buf.con)
    ensures value.None? ==> src.None? && buf.pending == old(buf.pending) + [Entry(Warn, EmptyWarning(key))]
    ensures value.Some? ==> src == Parse(value.value, uuid) && buf.pending == old(buf.pending)
  {
    if value.None? {
      buf.KWarn(EmptyWarning(key));
      return None;
    }
    src := Parse(value.value, uuid);
  }

  /** A key that needs a value: without one it is warned about. */
  method RequireValue(buf: KmsgBuf, key: string, value: Option<string>)
    requires buf.Valid() && !buf.flushed
    modifies buf, buf.con
    ensures buf.Valid() && !buf.flushed && unchanged(buf.con)
    ensures value.None? ==> buf.pending == old(buf.pending) + [Entry(Warn, EmptyWarning(key))]
    ensures value.Some? ==> buf.pending == old(buf.pending)
  {
    if value.None? {
      buf.KWarn(EmptyWarning(key));
    }
  }

  /** `Step` takes `before` to `after`, or fails with `err`. */
  ghost predicate StepsTo(before: Acc, arg: string, uuid: UuidParser, err: Option<CmdlineError>, after: Acc) {
    match Step(before, arg, uuid)
    case Err(e) => err == Some(e)
    case Ok(acc) => err.None? && acc == after
  }

  /** The handlers of the log keys: `parse_ignited_log`, `parse_booster_debug`, `parse_quiet`. */
  method ParseLogArg(arg: string, uuid: UuidParser, buf: KmsgBuf, rootB: RootOptsBuilder, params: ModParams,
      verbosity: Option<Level>, init: Option<string>, resume: Option<PartitionSource>)
      returns (verbosity': Option<Level>)
    requires KindOf(arg) in {IgnitedLog, BoosterLog, BoosterDebug, Quiet}
    requires buf.Valid() && !buf.flushed
    modifies buf, buf.con
    ensures buf.Valid() && !buf.flushed && unchanged(buf.con)
    ensures StepsTo(old(Snapshot(verbosity, init, rootB, resume, params, buf)), arg, uuid,
      None, Snapshot(verbosity', init, rootB, resume, params, buf))
  {
    var (key, value) := SplitArg(arg);
    match KeyKind(key)
    case IgnitedLog =>
      verbosity' := ParseIgnitedLog(buf, verbosity, value, false);
    case BoosterLog =>
      verbosity' := ParseIgnitedLog(buf, verbosity, value, true);
    case BoosterDebug =>
      verbosity' := GetOrInsert(verbosity, Debug);
      buf.KDebug(BoosterDebugNote);
    case Quiet =>
      verbosity' := GetOrInsert(verbosity, Level.Err);
  }

  /** `parse_root`. */
  method ParseRootSource(arg: string, uuid: UuidParser, buf: KmsgBuf, rootB: RootOptsBuilder, params: ModParams,
      verbosity: Option<Level>, init: Option<string>, resume: Option<PartitionSource>)
      returns (err: Option<CmdlineError>)
    requires KindOf(arg) == RootKey
    requires buf.Valid() && !buf.flushed
    modifies buf, buf.con, rootB
    ensures buf.Valid() && !buf.flushed && unchanged(buf.con)
    ensures StepsTo(old(Snapshot(verbosity, init, rootB, resume, params, buf)), arg, uuid,
      err, Snapshot(verbosity, init, rootB, resume, params, buf))
  {
    var (key, value) := SplitArg(arg);
    err := None;
    var src := ParseSource(buf, key, value, uuid);
    if value.Some? {
      if src.None? {
        err := Some(UnparseableRoot);
      } else {
        rootB.Source(src.value);
      }
    }
  }

  /** `parse_rootfstype`. */
  method ParseRootFsType(arg: string, uuid: UuidParser, buf: KmsgBuf, rootB: RootOptsBuilder, params: ModParams,
      verbosity: Option<Level>, init: Option<string>, resume: Option<PartitionSource>)
    requires KindOf(arg) == RootFsType
    requires buf.Valid() && !buf.flushed
    modifies buf, buf.con, rootB
    ensures buf.Valid() && !buf.flushed && unchanged(buf.con)
    ensures StepsTo(old(Snapshot(verbosity, init, rootB, resume, params, buf)), arg, uuid,
      None, Snapshot(verbosity, init, rootB, resume, params, buf))
  {
    var (key, value) := SplitArg(arg);
    RequireValue(buf, key, value);
    if value.Some? {
      rootB.FsType(value.value);
    }
  }

  /** `parse_rootflags`. */
  method ParseRootFlags(arg: string, uuid: UuidParser, buf: KmsgBuf, rootB: RootOptsBuilder, params: ModParams,
      verbosity: Option<Level>, init: Option<string>, resume: Option<PartitionSource>)
    requires KindOf(arg) == RootFlags
    requires buf.Valid() && !buf.flushed
    modifies buf, buf.con, rootB
    ensures buf.Valid() && !buf.flushed && unchanged(buf.con)
    ensures StepsTo(old(Snapshot(verbosity, init, rootB, resume, params, buf)), arg, uuid,
      None, Snapshot(verbosity, init, rootB, resume, params, buf))
  {
    var (key, value) := SplitArg(arg);
    RequireValue(buf, key, value);
    if value.Some? {
      rootB.AddOpts(value.value);
    }
  }

  /** `parse_rootmode`: `rw` makes the root writable, `ro` read-only. */
  method ParseRootMode(arg: string, uuid: UuidParser, buf: KmsgBuf, rootB: RootOptsBuilder, params: ModParams,
      verbosity: Option<Level>, init: Option<string>, resume: Option<PartitionSource>)
    requires KindOf(arg) == Ro || KindOf(arg) == Rw
    modifies rootB
    ensures StepsTo(old(Snapshot(verbosity, init, rootB, resume, params, buf)), arg, uuid,
      None, Snapshot(verbosity, init, rootB, resume, params, buf))
  {
    if KindOf(arg) == Rw {
      rootB.Rw();
    } else {
      rootB.Ro();
    }
  }

  /** `parse_resume` and `parse_init`. */
  method ParseStartArg(arg: string, uuid: UuidParser, buf: KmsgBuf, rootB: RootOptsBuilder, params: ModParams,
      verbosity: Option<Level>, init: Option<string>, resume: Option<PartitionSource>)
      returns (err: Option<CmdlineError>, init': Option<string>, resume': Option<PartitionSource>)
    requires KindOf(arg) == ResumeKey || KindOf(arg) == InitKey
    requires buf.Valid() && !buf.flushed
    modifies buf, buf.con
    ensures buf.Valid() && !buf.flushed && unchanged(buf.con)
    ensures StepsTo(old(Snapshot(verbosity, init, rootB, resume, params, buf)), arg, uuid,
      err, Snapshot(verbosity, init', rootB, resume', params, buf))
  {
    var (key, value) := SplitArg(arg);
    err, init', resume' := None, init, resume;
    if KeyKind(key) == ResumeKey {
      var src := ParseSource(buf, key, value, uuid);
      if value.Some? {
        if src.None? {
          err := Some(UnparseableResume);
        } else {
          resume' := GetOrInsert(resume, src.value);
        }
      }
    } else {
      RequireValue(buf, key, value);
      if value.Some? {
        if '\0' in value.value {
          err := Some(InitContainsNul(value.value));
        } else {
          init' := GetOrInsert(init, value.value);
        }
      }
    }
  }

  /** The `rd.luks.*` keys and `parse_mod_param`. */
  method ParseModuleArg(arg: string, uuid: UuidParser, buf: KmsgBuf, rootB: RootOptsBuilder, params: ModParams,
      verbosity: Option<Level>, init: Option<string>, resume: Option<PartitionSource>)
      returns (err: Option<CmdlineError>)
    requires KindOf(arg) == LuksKey || KindOf(arg) == Other
    requires buf.Valid() && !buf.flushed && params.Valid()
    modifies buf, buf.con, params
    ensures buf.Valid() && !buf.flushed && params.Valid() && unchanged(buf.con)
    ensures StepsTo(old(Snapshot(verbosity, init, rootB, resume, params, buf)), arg, uuid,
      err, Snapshot(verbosity, init, rootB, resume, params, buf))
  {
    var (key, value) := SplitArg(arg);
    err := None;
    if KeyKind(key) == LuksKey {
      err := Some(LuksUnimplemented(key));
    } else {
      ParseModParam(buf, params, key, value);
    }
  }

  /** One token of the `parse_inner` loop: the key is dispatched to its
      handler, which updates the parser's locals exactly as `Step` says, or
      fails with `Step`'s error. */
  method ParseArg(arg: string, uuid: UuidParser, buf: KmsgBuf, rootB: RootOptsBuilder, params: ModParams,
      verbosity: Option<Level>, init: Option<string>, resume: Option<PartitionSource>)
      returns (err: Option<CmdlineError>, verbosity': Option<Level>, init': Option<string>, resume': Option<PartitionSource>)
    requires buf.Valid() && !buf.flushed && params.Valid()
    modifies buf, buf.con, rootB, params
    ensures buf.Valid() && !buf.flushed && params.Valid() && unchanged(buf.con)
    ensures StepsTo(old(Snapshot(verbosity, init, rootB, resume, params, buf)), arg, uuid,
      err, Snapshot(verbosity', init', rootB, resume', params, buf))
  {
    err, verbosity', init', resume' := None, verbosity, init, resume;
    var kind := KindOf(arg);
    if kind in {IgnitedLog, BoosterLog, BoosterDebug, Quiet} {
      verbosity' := ParseLogArg(arg, uuid, buf, rootB, params, verbosity, init, resume);
    } else if kind == RootKey {
      err := ParseRootSource(arg, uuid, buf, rootB, params, verbosity, init, resume);
    } else if kind == RootFsType {
      ParseRootFsType(arg, uuid, buf, rootB, params, verbosity, init, resume);
    } else if kind == RootFlags {
      ParseRootFlags(arg, uuid, buf, rootB, params, verbosity, init, resume);
    } else if kind == Ro || kind == Rw {
      ParseRootMode(arg, uuid, buf, rootB, params, verbosity, init, resume);
    } else if kind == ResumeKey || kind == InitKey {
      err, init', resume' := ParseStartArg(arg, uuid, buf, rootB, params, verbosity, init, resume);
    } else {
      err := ParseModuleArg(arg, uuid, buf, rootB, params, verbosity, init, resume);
    }
  }

  /** `CmdlineArgs::parse_inner`: the tokens are read in order with the
      messages held back; the first error ends the reading and discards them
      (the console is left as it was); otherwise the buffer is flushed at the
      chosen threshold and the gathered settings are returned. */
  method ParseInner(kcon: KConsole, args: seq<string>, uuid: UuidParser) returns (r: Result<CmdlineArgs, CmdlineError>)
    modifies kcon
    ensures Interpret(args, uuid).Err? ==> r == Result.Err(Interpret(args, uuid).error) && unchanged(kcon)
    ensures Interpret(args, uuid).Ok? ==>
      var acc := Interpret(args, uuid).value;
      r == Ok(Finish(acc)) && kcon.level == FinalLevel(acc)
      && kcon.output == old(kcon.output) + Emit(acc.queued, FinalLevel(acc))
  {
    var buf := new KmsgBuf(kcon);
    var rootB := new RootOptsBuilder();
    var params := new ModParams();
    var verbosity: Option<Level> := None;
    var init: Option<string> := None;
    var resume: Option<PartitionSource> := None;
    var i := 0;
    while i < |args|
      invariant 0 <= i <= |args|
      invariant fresh(buf) && fresh(rootB) && fresh(params) && buf.con == kcon
      invariant buf.Valid() && !buf.flushed && params.Valid() && unchanged(kcon)
      invariant Interpret(args[..i], uuid) == Ok(Snapshot(verbosity, init, rootB, resume, params, buf))
    {
      assert args[..i + 1][..i] == args[..i];
      var err;
      err, verbosity, init, resume := ParseArg(args[i], uuid, buf, rootB, params, verbosity, init, resume);
      if err.Some? {
        assert Interpret(args[..i + 1], uuid).Err?;
        InterpretErrSticky(args, i + 1, uuid);
        return Result.Err(err.value);
      }
      i := i + 1;
    }
    assert args[..i] == args;
    buf.FlushWithLevel(verbosity.GetOr(DefaultLevel));
    r := Ok(CmdlineArgs(init.GetOr(DefaultInit), rootB.State(), resume, params.table));
  }
}
