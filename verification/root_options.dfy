/** `RootOptsBuilder`: the settings for mounting the new root filesystem,
    gathered from the command line and turned into `RootOpts` (src/mount.rs). */
module RootOptions {
  import opened Text
  import opened MountSource

  /** The `MsFlags` bits this builder touches. */
  datatype MsFlag =
    | RdOnly | DirSync | LazyTime | NoAtime | NoDev | NoDirAtime
    | NoExec | NoSuid | RelAtime | Silent | StrictAtime | Synchronous

  /** What one comma-separated mount option does to the builder. */
  datatype OptEffect = Insert(flag: MsFlag) | Remove(flag: MsFlag) | Ignore | Extra

  /** The option table of `_add_opts`. */
  function EffectOf(opt: string): OptEffect {
    match opt
    case "dirsync" => Insert(DirSync)
    case "nolazytime" => Remove(LazyTime)
    case "lazytime" => Insert(LazyTime)
    case "noatime" => Insert(NoAtime)
    case "atime" => Remove(NoAtime)
    case "nodev" => Insert(NoDev)
    case "dev" => Remove(NoDev)
    case "nodiratime" => Insert(NoDirAtime)
    case "diratime" => Remove(NoDirAtime)
    case "noexec" => Insert(NoExec)
    case "exec" => Remove(NoExec)
    case "nosuid" => Insert(NoSuid)
    case "suid" => Remove(NoSuid)
    case "norelatime" => Remove(RelAtime)
    case "relatime" => Insert(RelAtime)
    case "silent" => Insert(Silent)
    case "nostrictatime" => Remove(StrictAtime)
    case "strictatime" => Insert(StrictAtime)
    case "async" => Remove(Synchronous)
    case "sync" => Insert(Synchronous)
    case "nosymfollow" => Ignore
    case _ => Extra
  }

  /** The mount(8) spelling that sets each flag, where there is one. */
  function SetterName(f: MsFlag): Option<string> {
    match f
    case RdOnly => None
    case DirSync => Some("dirsync")
    case LazyTime => Some("lazytime")
    case NoAtime => Some("noatime")
    case NoDev => Some("nodev")
    case NoDirAtime => Some("nodiratime")
    case NoExec => Some("noexec")
    case NoSuid => Some("nosuid")
    case RelAtime => Some("relatime")
    case Silent => Some("silent")
    case StrictAtime => Some("strictatime")
    case Synchronous => Some("sync")
  }

  /** The mount(8) spelling that clears each flag, where there is one. */
  function ClearerName(f: MsFlag): Option<string> {
    match f
    case LazyTime => Some("nolazytime")
    case NoAtime => Some("atime")
    case NoDev => Some("dev")
    case NoDirAtime => Some("diratime")
    case NoExec => Some("exec")
    case NoSuid => Some("suid")
    case RelAtime => Some("norelatime")
    case StrictAtime => Some("nostrictatime")
    case Synchronous => Some("async")
    case _ => None
  }

  /** The option table agrees with the mount(8) spellings in both directions:
      an option inserts (removes) a flag exactly when it is that flag's setter
      (clearer); `RdOnly` is never touched; only `nosymfollow` is ignored. */
  lemma EffectOfNames(opt: string, f: MsFlag)
    ensures EffectOf(opt) == Insert(f) <==> SetterName(f) == Some(opt)
    ensures EffectOf(opt) == Remove(f) <==> ClearerName(f) == Some(opt)
    ensures EffectOf(opt) != Insert(RdOnly) && EffectOf(opt) != Remove(RdOnly)
    ensures EffectOf(opt) == Ignore <==> opt == "nosymfollow"
  {
  }

  /** The flag set after one option. */
  function ApplyEffect(flags: set<MsFlag>, opt: string): set<MsFlag> {
    match EffectOf(opt)
    case Insert(f) => flags + {f}
    case Remove(f) => flags - {f}
    case _ => flags
  }

  /** The flag set after a series of options, the last applied last. */
  function ApplyFlags(flags: set<MsFlag>, opts: seq<string>): set<MsFlag> {
    if |opts| == 0 then flags
    else ApplyEffect(ApplyFlags(flags, opts[..|opts| - 1]), opts[|opts| - 1])
  }

  /** Whether `opt` inserts or removes `f`. */
  predicate Names(opt: string, f: MsFlag) {
    EffectOf(opt) == Insert(f) || EffectOf(opt) == Remove(f)
  }

  /** A flag named by no option keeps its state. */
  lemma {:induction false} ApplyFlagsUntouched(flags: set<MsFlag>, opts: seq<string>, f: MsFlag)
    requires forall i :: 0 <= i < |opts| ==> !Names(opts[i], f)
    ensures f in ApplyFlags(flags, opts) <==> f in flags
  {
    if |opts| > 0 {
      ApplyFlagsUntouched(flags, opts[..|opts| - 1], f);
    }
  }

  /** The last option naming a flag decides it, whatever came before. */
  lemma {:induction false} ApplyFlagsLastWins(flags: set<MsFlag>, opts: seq<string>, k: nat, f: MsFlag)
    requires k < |opts| && Names(opts[k], f)
    requires forall i :: k < i < |opts| ==> !Names(opts[i], f)
    ensures f in ApplyFlags(flags, opts) <==> EffectOf(opts[k]) == Insert(f)
  {
    if k < |opts| - 1 {
      ApplyFlagsLastWins(flags, opts[..|opts| - 1], k, f);
    }
  }

  /** The options the flag table does not know, in order. */
  function Residual(opts: seq<string>): seq<string> {
    if |opts| == 0 then []
    else
      Residual(opts[..|opts| - 1]) + ExtraOf(opts[|opts| - 1])
  }

  /** The option itself when the flag table does not know it, else nothing. */
  function ExtraOf(opt: string): (r: seq<string>)
    ensures EffectOf(opt) == Extra ==> r == [opt]
    ensures EffectOf(opt) != Extra ==> r == []
  {
    if EffectOf(opt) == Extra then [opt] else []
  }

  /** One option appended to the option string, after a `,` when it is not empty. */
  function AppendOption(options: Option<string>, opt: string): Option<string> {
    match options
    case None => Some(opt)
    case Some(o) => Some(o + "," + opt)
  }

  /** Several options appended in order. */
  function AppendOptions(options: Option<string>, opts: seq<string>): Option<string> {
    if |opts| == 0 then options
    else AppendOption(AppendOptions(options, opts[..|opts| - 1]), opts[|opts| - 1])
  }

  lemma {:induction false} AppendOptionsConcat(options: Option<string>, xs: seq<string>, ys: seq<string>)
    ensures AppendOptions(options, xs + ys) == AppendOptions(AppendOptions(options, xs), ys)
  {
    if |ys| > 0 {
      AppendOptionsConcat(options, xs, ys[..|ys| - 1]);
      assert (xs + ys)[..|xs + ys| - 1] == xs + ys[..|ys| - 1];
    } else {
      assert xs + ys == xs;
    }
  }

  /** The option string is the existing one and the new options joined by `,`. */
  lemma {:induction false} AppendOptionsJoin(options: Option<string>, opts: seq<string>)
    requires |opts| >= 1
    ensures options.None? ==> AppendOptions(options, opts) == Some(Join(opts, ','))
    ensures options.Some? ==> AppendOptions(options, opts) == Some(Join([options.value] + opts, ','))
  {
    if |opts| == 1 {
      assert opts[..0] == [];
      if options.Some? {
        assert ([options.value] + opts)[1..] == opts;
      }
    } else {
      var init := opts[..|opts| - 1];
      AppendOptionsJoin(options, init);
      JoinSnoc(init, opts[|opts| - 1], ',');
      assert init + [opts[|opts| - 1]] == opts;
      if options.Some? {
        JoinSnoc([options.value] + init, opts[|opts| - 1], ',');
        assert [options.value] + init + [opts[|opts| - 1]] == [options.value] + opts;
      }
    }
  }

  lemma {:induction false} JoinSnoc(parts: seq<string>, x: string, c: char)
    requires |parts| >= 1
    ensures Join(parts + [x], c) == Join(parts, c) + [c] + x
  {
    if |parts| > 1 {
      JoinSnoc(parts[1..], x, c);
      assert (parts + [x])[1..] == parts[1..] + [x];
    } else {
      assert (parts + [x])[1..] == [x];
    }
  }

  /** Options added to an empty option string can be split back apart at the
      commas into exactly the unknown options, in order. */
  lemma ResidualRoundTrip(opts: string)
    requires |Residual(Split(opts, ','))| >= 1
    ensures var extra := Residual(Split(opts, ','));
      AppendOptions(None, extra).Some? && Split(AppendOptions(None, extra).value, ',') == extra
  {
    var extra := Residual(Split(opts, ','));
    AppendOptionsJoin(None, extra);
    ResidualSubset(Split(opts, ','));
    SplitJoin(extra, ',');
  }

  /** The residual options are options given, each one the flag table does not know. */
  lemma {:induction false} ResidualSubset(opts: seq<string>)
    ensures forall i :: 0 <= i < |Residual(opts)| ==> Residual(opts)[i] in opts
    ensures forall i :: 0 <= i < |Residual(opts)| ==> EffectOf(Residual(opts)[i]) == Extra
  {
    if |opts| > 0 {
      var init := opts[..|opts| - 1];
      ResidualSubset(init);
      assert forall x :: x in init ==> x in opts;
    }
  }

  /** Options given in two batches act as the two batches one after the other. */
  lemma {:induction false} ApplyFlagsConcat(flags: set<MsFlag>, xs: seq<string>, ys: seq<string>)
    ensures ApplyFlags(flags, xs + ys) == ApplyFlags(ApplyFlags(flags, xs), ys)
  {
    if |ys| > 0 {
      ApplyFlagsConcat(flags, xs, ys[..|ys| - 1]);
      assert (xs + ys)[..|xs + ys| - 1] == xs + ys[..|ys| - 1];
    } else {
      assert xs + ys == xs;
    }
  }

  lemma {:induction false} ResidualConcat(xs: seq<string>, ys: seq<string>)
    ensures Residual(xs + ys) == Residual(xs) + Residual(ys)
  {
    if |ys| > 0 {
      ResidualConcat(xs, ys[..|ys| - 1]);
      assert (xs + ys)[..|xs + ys| - 1] == xs + ys[..|ys| - 1];
    } else {
      assert xs + ys == xs;
    }
  }

  /** Whether the root mount is writable, and the final flag set: `MS_RDONLY`
      follows `rw` and every other flag passes through. */
  function FinalFlags(flags: set<MsFlag>, rw: bool): (r: set<MsFlag>)
    ensures RdOnly in r <==> !rw
    ensures forall f :: f != RdOnly ==> (f in r <==> f in flags)
  {
    if rw then flags - {RdOnly} else flags + {RdOnly}
  }

  /** The fields of a `RootOptsBuilder`, as a value. */
  datatype RootState = RootState(
    source: Option<PartitionSource>, fstype: Option<string>, rw: bool,
    flags: set<MsFlag>, options: Option<string>)

  /** `RootOptsBuilder::default`, as a value. */
  const DefaultRoot: RootState := RootState(None, None, false, {}, None)

  /** `RootOpts`: what the root filesystem is mounted with. */
  datatype RootOpts = RootOpts(source: string, fstype: string, flags: set<MsFlag>, options: Option<string>)

  /** `PartitionSourceBuilder::build`, which this model does not define. */
  type SourceBuilder = PartitionSource -> string

  class RootOptsBuilder {
    var source: Option<PartitionSource>
    var fstype: Option<string>
    var rw: bool
    var flags: set<MsFlag>
    var options: Option<string>

    /** The builder's fields as a value. */
    function State(): RootState
      reads this
    {
      RootState(source, fstype, rw, flags, options)
    }

    /** `RootOptsBuilder::default`: nothing set, read-only, no flags, no options. */
    constructor ()
      ensures State() == DefaultRoot
    {
      source := None;
      fstype := None;
      rw := false;
      flags := {};
      options := None;
    }

    /** `source`: the first source given is kept. */
    method Source(s: PartitionSource)
      modifies this`source
      ensures old(source).Some? ==> source == old(source)
      ensures old(source).None? ==> source == Some(s)
    {
      if source.None? {
        source := Some(s);
      }
    }

    /** `_fstype`: the first filesystem type given is kept. */
    method FsType(t: string)
      modifies this`fstype
      ensures old(fstype).Some? ==> fstype == old(fstype)
      ensures old(fstype).None? ==> fstype == Some(t)
    {
      if fstype.None? {
        fstype := Some(t);
      }
    }

    /** `ro`: the last of `ro` and `rw` decides. */
    method Ro()
      modifies this`rw
      ensures !rw
    {
      rw := false;
    }

    /** `rw`. */
    method Rw()
      modifies this`rw
      ensures rw
    {
      rw := true;
    }

    /** One pass of the `_add_opts` loop: the option sets or clears its flag,
        is ignored, or is appended to the option string. */
    method AddOpt(opt: string)
      modifies this`flags, this`options
      ensures flags == ApplyEffect(old(flags), opt)
      ensures options == AppendOptions(old(options), ExtraOf(opt))
    {
      assert [opt][..0] == [];
      match EffectOf(opt)
      case Insert(f) =>
        flags := flags + {f};
      case Remove(f) =>
        flags := flags - {f};
      case Ignore =>
      case Extra =>
        match options
        case Some(o) =>
          options := Some(o + "," + opt);
        case None =>
          options := Some(opt);
    }

    /** `_add_opts`: the options are taken one by one, in order. */
    method AddOpts(opts: string)
      modifies this`flags, this`options
      ensures flags == ApplyFlags(old(flags), Split(opts, ','))
      ensures options == AppendOptions(old(options), Residual(Split(opts, ',')))
    {
      var parts := Split(opts, ',');
      var i := 0;
      while i < |parts|
        invariant 0 <= i <= |parts|
        invariant flags == ApplyFlags(old(flags), parts[..i])
        invariant options == AppendOptions(old(options), Residual(parts[..i]))
      {
        var opt := parts[i];
        ghost var prefix := parts[..i + 1];
        assert prefix[..i] == parts[..i] && prefix[i] == opt;
        assert ApplyFlags(old(flags), prefix) == ApplyEffect(ApplyFlags(old(flags), parts[..i]), opt);
        assert Residual(prefix) == Residual(parts[..i]) + ExtraOf(opt);
        AppendOptionsConcat(old(options), Residual(parts[..i]), ExtraOf(opt));
        AddOpt(opt);
        i := i + 1;
      }
      assert parts[..i] == parts;
    }

    /** `try_build`: without both a source and a filesystem type the builder
        is handed back unchanged; otherwise the options carry the built
        source, the type, the final flags and the option string. */
    method TryBuild(build: SourceBuilder) returns (r: Result<RootOpts, RootOptsBuilder>)
      ensures r.Err? <==> source.None? || fstype.None?
      ensures r.Err? ==> r.error == this
      ensures r.Ok? ==> r.value == RootOpts(build(source.value), fstype.value, FinalFlags(flags, rw), options)
    {
      if source.None? || fstype.None? {
        return Err(this);
      }
      var f := flags;
      if rw {
        f := f - {RdOnly};
      } else {
        f := f + {RdOnly};
      }
      r := Ok(RootOpts(build(source.value), fstype.value, f, options));
    }

    /** `build`: as `try_build`, for a builder known to be complete (the
        source panics otherwise). */
    method Build(build: SourceBuilder) returns (r: RootOpts)
      requires source.Some? && fstype.Some?
      ensures r == RootOpts(build(source.value), fstype.value, FinalFlags(flags, rw), options)
    {
      var f := flags;
      if rw {
        f := f - {RdOnly};
      } else {
        f := f + {RdOnly};
      }
      r := RootOpts(build(source.value), fstype.value, f, options);
    }
  }
}
