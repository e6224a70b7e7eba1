# ignited boot-time configuration front end, in Dafny

`ignited` is an initramfs for Linux written in Rust. Before it can mount the
real root filesystem and hand over to `init`, it has to work out what to do.
This project models the part of the program that makes those decisions:

- **Reading the kernel command line** (`src/config.rs`). `CmdlineArgs::parse_inner`
  reads the tokens one by one and gathers these settings:
  - the log threshold (`ignited.log`, `booster.log`, `booster.debug`, `quiet`);
  - the init path;
  - the root and resume partitions;
  - the root mount mode, flags and options;
  - the kernel module parameters.

  Warnings are held in a buffer until the threshold is known.
- **Partition sources and root mount options** (`src/mount.rs`):
  - `PartitionSourceBuilder::_parse` turns a `root=`/`resume=` value into a
    UUID, label, PARTUUID (with or without `PARTNROFF`), PARTLABEL or raw
    `/dev/` path;
  - `RootOptsBuilder` gathers the root mount settings;
  - `read_efi_var` and `EfiPartitionGptGuid::get_current` decode the bytes of
    the EFI loader's partition variable;
  - the `Mount` tables give each fixed mount's source, target, type, flags and
    options.
- **Module parameters and aliases** (`src/module.rs`). The `ModParams` table
  has module names normalised from `-` to `_`. The `ModAliases` parser reads
  lines of the form `PATTERN MODULE`.
- **Early logging** (`src/early_logging/mod.rs`, `src/early_logging/buf.rs`):
  - `VerbosityLevel` and its order;
  - the console, which writes `<N>ignited: msg` lines at or below its
    threshold;
  - `KmsgBuf`, which holds messages back until it is flushed with a threshold.
- **The initramfs timer** (`src/time.rs`). It converts clock readings to
  microseconds, writes an `initrd-timestamp=` record to a seekable
  destination and reports clock failures.

Each Rust file becomes one or more Dafny modules:

| file | modules |
|---|---|
| `text.dfy` | `Text`: the `str` operations the parsers rely on (`strip_prefix`, `split_once`, `split`, decimal numbers and `i64::from_str`) |
| `early_logging.dfy` | `EarlyLogging` |
| `kmsg_buf.dfy` | `KmsgBuffer` |
| `kernel_modules.dfy` | `KernelModules` |
| `mount_source.dfy`, `root_options.dfy`, `efi_vars.dfy`, `mounts.dfy` | `MountSource`, `RootOptions`, `EfiVars`, `Mounts` |
| `cmdline.dfy` | `Cmdline` |
| `timer.dfy` | `Timer` |

Objects the source updates in place are Dafny classes with `modifies`
clauses:

- `KConsole`, whose output is a sequence of lines;
- `KmsgBuf`;
- `ModParams` and `ModAliases`;
- `RootOptsBuilder`;
- the timer's `Destination`, a byte buffer with a cursor.

`parse_inner` is a method that loops over the tokens and updates the buffer,
the builder and the parameter table in place. Its specification is the
function `Interpret`, which folds `Step` over the tokens. Separate lemmas state
what `Interpret` yields, each against a definition that does not mention
`Step`:

- the first error;
- the first-wins settings;
- the last-wins `ro`/`rw`;
- the combined `rootflags`;
- the module parameters;
- the queued messages.

Calls into code the model cannot see are parameters:

- UUID parsing is a `UuidParser`;
- UTF-16 decoding is a `Utf16Decoder`;
- `PartitionSourceBuilder::build` is a `SourceBuilder`;
- clock readings are `ClockReading` values;
- whether the destination's write and seek fail is fixed when the
  `Destination` is built.

Integer arithmetic in `read_clock` wraps modulo 2^64, as `u64` does in a
release build.

## Model

| member | source | states |
|---|---|---|
| Text.StripPrefix | src/mount.rs:196-198 | `strip_prefix` succeeds exactly when the text starts with the prefix, and the prefix followed by the result is the text |
| Text.StripSuffix | src/mount.rs:255-258 | `strip_suffix` succeeds exactly when the text ends with the suffix, and the result followed by the suffix is the text |
| Text.SplitOnce | src/config.rs:452-455 | `split_once` on a character fails exactly when the character is absent; otherwise the text is the part before, the character and the part after, and the part before does not contain the character |
| Text.SplitOnceUnique | src/config.rs:572 | a split at `c` is found at the first `c`: text free of `c`, then `c`, then anything, splits back into those two parts |
| Text.SplitOnceStr | src/mount.rs:235 | `split_once` on a separator splits at its first occurrence: on success the text is the part before, the separator and the part after, and the separator starts nowhere inside the part before; on failure it occurs nowhere |
| Text.Find | src/mount.rs:235 | the position found is the first one at which the separator occurs, and no position at all when it occurs nowhere |
| Text.Split | src/mount.rs:326 | `split(',')` gives at least one piece, and no piece contains the separator |
| Text.JoinSplit | src/mount.rs:326 | joining the pieces of a split with the separator gives back the original text |
| Text.SplitJoin | src/mount.rs:326 | splitting pieces that are free of the separator, after joining them, gives back the same pieces |
| Text.FilterAppend | src/config.rs:518-519 | filtering two sequences one after the other gives the same result as filtering their concatenation |
| Text.FilterPicks | src/config.rs:518-519 | filtering keeps every element that passes the test, each taken from the input at strictly increasing positions: nothing wanted is lost and the order is kept |
| Text.ShowNat | src/time.rs:39 | the decimal rendering of a number is a non-empty string of digits |
| Text.ParseNat | src/time.rs:39 | a string is read as a number exactly when it is a non-empty string of decimal digits |
| Text.ParseShowNat | src/time.rs:39 | every number is read back from its own decimal rendering |
| Text.ParseI64 | src/mount.rs:236 | `i64::from_str` only yields values in the signed 64-bit range |
| Text.ParseI64Accepts | src/mount.rs:236 | a text is accepted only when it is an optional `+` or `-` followed by at least one decimal digit |
| Text.ParseShowI64 | src/mount.rs:236 | every signed 64-bit integer is read back from its decimal rendering |
| Text.ParseI64Forms | src/mount.rs:236 | a sign (`+`, `-` or none) followed by at least one digit is read as the digits' value, negated for `-`, when that fits in 64 signed bits, and is rejected otherwise |
| Text.ParseI64Examples | src/mount.rs:236 | `+5`, `-0` and `007` are read as 5, 0 and 7 |
| Text.ParseI64Rejects | src/mount.rs:236 | the empty text, a lone sign, `+-1`, ` 1` and `1x` are rejected |
| EarlyLogging.Level.Value | src/early_logging/mod.rs:106-126 | the discriminants run from Crit = 2 to Debug = 7 |
| EarlyLogging.LevelOrder | src/early_logging/mod.rs:106-126 | the derived ordering by discriminant is a total order, and distinct levels have distinct numbers |
| EarlyLogging.LevelFromStrNames | src/early_logging/mod.rs:130-139 | `try_from` accepts exactly `debug`, `info`, `notice`, `warn`/`warning` and `err`/`error`, each for its level; every other string is rejected, and Crit is never produced |
| EarlyLogging.LevelOfValue | src/early_logging/mod.rs:106-126 | each number from 2 to 7 belongs to exactly the level with that discriminant |
| EarlyLogging.ParseFormatLine | src/early_logging/mod.rs:52 | every console line `<N>ignited: msg\n` can be read back into its level and message |
| EarlyLogging.FormatLineLayout | src/early_logging/mod.rs:52 | a console line is `<`, the level's discriminant as one digit, `>`, `ignited: `, the message and a newline, and nothing else |
| EarlyLogging.EmitAppend | src/early_logging/buf.rs:46-48 | writing two batches one after the other writes the lines of both, in order |
| EarlyLogging.EmitAll | src/early_logging/mod.rs:49-55 | at most one line is written per entry, and every entry gets its line exactly when no entry's level is above the threshold |
| EarlyLogging.EmitIsFilter | src/early_logging/mod.rs:49-55 | the lines written are exactly the entries whose level is at most the threshold, formatted and in order |
| EarlyLogging.EmitAllAtDebug | src/early_logging/mod.rs:49-55 | at the Debug threshold no entry is dropped |
| EarlyLogging.FormatAll | src/early_logging/mod.rs:52 | formatting gives one line per entry |
| EarlyLogging.KConsole.constructor | src/early_logging/mod.rs:38-43 | a new console has the default threshold (Info) and has written nothing |
| EarlyLogging.KConsole.Println | src/early_logging/mod.rs:49-55 | the line is appended when its level is at most the threshold; otherwise the output is unchanged; the threshold is kept |
| EarlyLogging.KConsole.ChangeVerbosity | src/early_logging/mod.rs:58-60 | the threshold becomes exactly the new level, and nothing is written |
| KmsgBuffer.KmsgBuf.constructor | src/early_logging/buf.rs:21-27 | a new buffer is empty, not flushed, and writes to the console it was given |
| KmsgBuffer.KmsgBuf.KAny | src/early_logging/buf.rs:52-58 | before the flush the entry is queued after the others and the console is untouched; after the flush the buffer stays empty and the entry goes straight through the console's filter |
| KmsgBuffer.KmsgBuf.KDebug | src/early_logging/buf.rs:31-33 | as `KAny`, with level Debug |
| KmsgBuffer.KmsgBuf.KWarn | src/early_logging/buf.rs:37-39 | as `KAny`, with level Warn |
| KmsgBuffer.KmsgBuf.FlushWithLevel | src/early_logging/buf.rs:42-50 | the threshold is set to the given level before the queue is drained; the queued entries are written in FIFO order through that threshold; afterwards the buffer is empty and flushed |
| KmsgBuffer.FlushScenario | src/early_logging/buf.rs:21-58 | on a fresh console, a queued warning is written at the default threshold, a queued debug note is filtered out, and a debug note after the flush is dropped too |
| KernelModules.NormalizeModule | src/module.rs:116-118 | the normalised name has the same length and no `-`; every `-` becomes `_`, and every other character is kept |
| KernelModules.NormalizeIdempotent | src/module.rs:116-118 | normalising twice is the same as normalising once |
| KernelModules.InsertedLookup | src/module.rs:127-132 | an insert appends `param=args` to the end of the list of exactly the names that normalise like the given one; every other list is unchanged |
| KernelModules.InsertAllLookup | src/module.rs:127-132 | after any series of inserts, a name's list holds the `param=args` of exactly the inserts aimed at it, oldest first |
| KernelModules.ModParams.constructor | src/module.rs:90-92 | `ModParams::default` is the empty table |
| KernelModules.ModParams.GetParams | src/module.rs:120-125 | a name never inserted gets the empty list, and two names that normalise alike (`foo-bar`, `foo_bar`) get the same list |
| KernelModules.ModParams.Insert | src/module.rs:127-132 | the table after the insert is `Inserted` of the old table, and the keys stay normalised |
| KernelModules.AliasOfLine | src/module.rs:65-71 | a line without a space is rejected; otherwise the pattern is the text before the first space, which holds no space, and the module is the whole rest |
| KernelModules.AliasLineRoundTrip | src/module.rs:65-71 | an alias written as `PATTERN MODULE`, with a space-free pattern, is read back as the same alias |
| KernelModules.ParseAliases | src/module.rs:52-75 | the parse fails exactly when some line has no space; otherwise it gives one alias per line, in line order |
| KernelModules.ModAliases.constructor | src/module.rs:43 | the alias list holds the aliases given |
| KernelModules.ModAliases.Extend | src/module.rs:44-48 | the new aliases come after the existing ones, in order |
| MountSource.Unquote | src/mount.rs:254-261 | one pair of surrounding double quotes is removed only when both are there; any other text is handed to the UUID parser unchanged |
| MountSource.UnquoteQuoted | src/mount.rs:254-261 | quoting a text and then unquoting it gives the text back |
| MountSource.UuidFromStrForms | src/mount.rs:254-261 | a quoted text is handed to the UUID parser without its quotes, and any other text (a lone `"`, a quote on one side only) is handed over as it is |
| MountSource.Parse | src/mount.rs:194-220 | a raw device holds the whole value and is only produced for `/dev/` paths; `_parse` never yields a partition-type source |
| MountSource.ParseUuidForm | src/mount.rs:196-200 | a `UUID=` or `/dev/disk/by-uuid` value is read as a UUID or not at all; it never falls through to a later form |
| MountSource.ParseByUuidPath | src/mount.rs:196-200 | as the `by-uuid` prefix has no trailing `/`, the UUID parser sees `/` and the rest, so `/dev/disk/by-uuid/x` is rejected unless the parser accepts that text, and it is never a raw device |
| MountSource.ParseLabelForms | src/mount.rs:201-205 | the label forms always succeed and keep the rest verbatim; after `/dev/disk/by-label` a leading `/` is kept |
| MountSource.PartUuidPartnroffResult | src/mount.rs:234-243 | the result is a PARTUUID, only when the value has no `/PARTNROFF=` and reads as a UUID, or a PARTUUID with offset, whose offset is a signed 64-bit integer and whose UUID is read from the text before a `/PARTNROFF=` |
| MountSource.NoSlashSeparatorFirst | src/mount.rs:235 | a text free of `/`, as every UUID is, has the first `/PARTNROFF=` right after it |
| MountSource.ParsePartLabelForms | src/mount.rs:210-214 | the partition-label forms always succeed and keep the rest verbatim |
| MountSource.ParseByPartUuidForm | src/mount.rs:207-208 | a `/dev/disk/by-partuuid` value is a plain PARTUUID read from the rest, or is rejected; it never carries a partition offset |
| MountSource.ParsePartnroffForm | src/mount.rs:234-240 | `PARTUUID=u/PARTNROFF=n`, with that separator the first one in the value, is `PartUuidPartnroff` exactly when `n` is an `i64` and `u` a UUID, and is rejected otherwise |
| MountSource.ParsePartUuidForm | src/mount.rs:240-242 | a `PARTUUID=` value without `/PARTNROFF=` is a plain PARTUUID, or is rejected |
| MountSource.ParseRawDevice | src/mount.rs:215-217 | a value is a raw device exactly when it starts with `/dev/` and has none of the typed prefixes |
| MountSource.ParseUnknown | src/mount.rs:218-219 | a value with none of the prefixes and outside `/dev/` is rejected |
| RootOptions.EffectOfNames | src/mount.rs:327-348 | the option table agrees with the mount(8) names in both directions: an option sets a flag exactly when it is that flag's setter name, and clears it exactly when it is its clearer name; `MS_RDONLY` is never named, and only `nosymfollow` is ignored |
| RootOptions.ApplyFlagsUntouched | src/mount.rs:325-362 | a flag that no option names keeps its state |
| RootOptions.ApplyFlagsLastWins | src/mount.rs:325-362 | the last option that names a flag decides whether the flag is set, whatever came before |
| RootOptions.ApplyFlagsConcat | src/mount.rs:325-362 | options given in two batches act as the batches one after the other |
| RootOptions.ResidualConcat | src/mount.rs:349-358 | the unknown options of two batches are those of each batch, in order |
| RootOptions.ResidualSubset | src/mount.rs:349-358 | every residual option is one of the options given, and the flag table does not know it |
| RootOptions.AppendOptionsConcat | src/mount.rs:349-358 | appending two batches of options is appending their concatenation |
| RootOptions.AppendOptionsJoin | src/mount.rs:349-358 | the option string is the existing string followed by the new options, all joined by `,` |
| RootOptions.ResidualRoundTrip | src/mount.rs:349-358 | options appended to an empty option string split back at `,` into exactly the unknown options, in order (empty ones included) |
| RootOptions.FinalFlags | src/mount.rs:373-374 | `MS_RDONLY` is set exactly when the root is not writable, and every other flag passes through |
| RootOptions.RootOptsBuilder.constructor | src/mount.rs:405-415 | the default builder has no source and no type, is read-only, and has no flags and no options |
| RootOptions.RootOptsBuilder.Source | src/mount.rs:280-283 | first-wins: a source already set is kept, otherwise the new one is stored; nothing else changes |
| RootOptions.RootOptsBuilder.FsType | src/mount.rs:292-298 | first-wins for the filesystem type; nothing else changes |
| RootOptions.RootOptsBuilder.Ro | src/mount.rs:306-309 | the root becomes read-only, whatever it was; nothing else changes |
| RootOptions.RootOptsBuilder.Rw | src/mount.rs:312-315 | the root becomes writable, whatever it was; nothing else changes |
| RootOptions.RootOptsBuilder.AddOpt | src/mount.rs:327-358 | one option sets or clears its own flag, or is appended to the option string when the table does not know it |
| RootOptions.RootOptsBuilder.AddOpts | src/mount.rs:325-362 | after `add_opts`, the flags are the old flags with the `,`-separated options applied in order, and the unknown options are appended in order |
| RootOptions.RootOptsBuilder.TryBuild | src/mount.rs:367-383 | the build fails, giving back the builder itself, exactly when the source or the type is missing; otherwise it gives the built source, the type, the final flags and the options |
| RootOptions.RootOptsBuilder.Build | src/mount.rs:388-403 | for a complete builder, the same options as `try_build` |
| EfiVars.LittleEndianRoundTrip | src/mount.rs:110 | a value below 256^n, written as n little-endian bytes, is read back as itself |
| EfiVars.LittleEndianBytesOf | src/mount.rs:110 | bytes are the little-endian encoding of the value they are read as |
| EfiVars.ReadEfiVar | src/mount.rs:100-117 | data shorter than four bytes panics; otherwise the data is the attribute word (below 2^32) in little-endian order, followed by the payload |
| EfiVars.ReadEfiVarRoundTrip | src/mount.rs:110-117 | an attribute word and a payload, written out, are read back as the same two |
| EfiVars.UnitsOf | src/mount.rs:75-82 | the payload gives one 16-bit code unit per two bytes, rounded up |
| EfiVars.UnitsRoundTrip | src/mount.rs:75-82 | code units written as little-endian byte pairs are paired back into the same units, and one trailing odd byte becomes one more unit of the same value (zero-extended) |
| EfiVars.Utf16Units | src/mount.rs:75-82 | the `chunks(2)` loop computes exactly `UnitsOf` of the payload |
| EfiVars.GetCurrent | src/mount.rs:67-98 | a short variable is an error; otherwise the payload's code units are decoded as UTF-16 and the text is read as a UUID, and each decoding step that fails gives its own error |
| Mounts.FixedMountsHardened | src/mount.rs:472-506 | the kernel's own filesystems are mounted `nosuid` and never read-only; `/dev` has exactly `nosuid` and `mode=0755`; the others also have `noexec` and `nodev` and no options |
| Mounts.FixedTargetsDistinct | src/mount.rs:460-470 | distinct fixed mounts go to distinct targets |
| Mounts.Source | src/mount.rs:448-458 | a tmpfs or root mount reports the source it was built with |
| Mounts.Target | src/mount.rs:460-470 | a tmpfs mount reports its own target, and every fixed mount's target is an absolute path |
| Mounts.FsType | src/mount.rs:472-482 | a root mount reports the built filesystem type, and every tmpfs mount has type `tmpfs` |
| Mounts.Flags | src/mount.rs:484-494 | a tmpfs or root mount reports the flags it was built with |
| Mounts.Options | src/mount.rs:496-506 | a tmpfs or root mount reports the option string it was built with |
| Cmdline.SplitArg | src/config.rs:452-455 | a token without `=` is all key and has no value; otherwise the key is the text before the first `=` (free of `=`) and the value is the whole rest |
| Cmdline.SplitArgRoundTrip | src/config.rs:452-455 | `key=value`, with an `=`-free key, is split back into that key and value |
| Cmdline.GetOrInsert | src/config.rs:494 | `get_or_insert` keeps a value already present and otherwise stores the new one |
| Cmdline.LogPieces | src/config.rs:513-524 | the `booster.log` pieces are exactly the non-empty pieces of the value split at `,`, in their order, and none contains `,`; `ignited.log` takes its value whole |
| Cmdline.LogValuesSpec | src/config.rs:526-537 | reading the values keeps the first level named among them, unless a level was already chosen, and queues one note or warning per value that names no level, in order |
| Cmdline.EmptyBoosterLog | src/config.rs:513-537 | an empty `booster.log` value names no level and queues nothing |
| Cmdline.KeyKindTable | src/config.rs:457-479 | the dispatch table sends each known key to its own handler, the three `rd.luks.*` keys to the unimplemented one, and every other key to `parse_mod_param` |
| Cmdline.InterpretErrSticky | src/config.rs:466-468 | once a token has failed, the outcome stays that error, whatever tokens follow |
| Cmdline.StepError | src/config.rs:545-618 | a token fails exactly when it is an unparseable `root`/`resume` value, an `init` value containing NUL, or an `rd.luks.*` key; the error is the one for that case, and earlier tokens do not matter |
| Cmdline.FirstSomeSpec | src/config.rs:451-479 | the first entry present is the one at the earliest position that has one, and there is one exactly when some entry is present |
| Cmdline.InterpretFirstError | src/config.rs:451-479 | reading fails exactly when some token fails, with the error of the first failing token |
| Cmdline.InterpretError | src/config.rs:451-479 | reading fails exactly when some token has an error; the error is that of a token with no failing token before it |
| Cmdline.StepVerbosity | src/config.rs:457-465 | a token that names levels sets the threshold to the first of them, unless one is already set |
| Cmdline.InterpretVerbosity | src/config.rs:457-465 | the threshold is the first level named anywhere on the command line, through `ignited.log`, `booster.log`, `booster.debug` or `quiet` |
| Cmdline.StepFirstWins | src/config.rs:545-633 | an `init`, `rootfstype`, `root` or `resume` value is stored only when none is stored yet |
| Cmdline.InterpretFirstWins | src/config.rs:545-633 | init, the root filesystem type, the root source and the resume source are each the first value given (for `root`/`resume`, the first that parses) |
| Cmdline.StepRootMode | src/config.rs:654-660 | `rw` makes the root writable, `ro` read-only, and every other token leaves the mode alone |
| Cmdline.InterpretLastMode | src/config.rs:471-472 | the root is writable exactly when the last `ro`/`rw` token is `rw` |
| Cmdline.LastModeRwSpec | src/config.rs:471-472 | "the last mode token is `rw`" holds exactly when some `rw` token has no `ro` or `rw` token after it |
| Cmdline.InterpretRootMode | src/config.rs:471-472 | the root is writable exactly when some `rw` token is followed by no `ro` or `rw` token; with neither, the root stays read-only |
| Cmdline.StepRootFlags | src/config.rs:638-648 | a `rootflags` value is applied to the flags and the option string, and every other token leaves both alone |
| Cmdline.InterpretRootFlags | src/config.rs:638-648 | all `rootflags` values together act as one `,`-separated list of options applied in order to an empty builder |
| Cmdline.InsertAllSnoc | src/config.rs:565-580 | inserting one more parameter after a series is the series followed by that insert |
| Cmdline.StepParams | src/config.rs:565-580 | an unknown key with a value and a `.` inserts `param=value` for the module before the first `.`; every other token leaves the table alone |
| Cmdline.InterpretParams | src/config.rs:476-478 | the module parameter table holds exactly the `module.param=value` tokens, inserted in command-line order |
| Cmdline.StepMessages | src/config.rs:493-580 | each token queues its own messages after those already queued |
| Cmdline.InterpretMessages | src/config.rs:493-580 | the messages held back are those of every token, in command-line order |
| Cmdline.MissingValueWarns | src/config.rs:556-633 | `root`, `resume`, `init`, `rootfstype` or `rootflags` without a value only queues the warning "`key` key is empty, ignoring" and changes nothing else |
| Cmdline.FinalLevel | src/config.rs:481 | the buffer is flushed at the chosen threshold, or at Info when none was chosen |
| Cmdline.Finish | src/config.rs:482-487 | init defaults to `/sbin/init` when none was given; the root settings, resume source and parameters are returned as gathered |
| Cmdline.MountTimeout | src/config.rs:173-175 | a configured timeout is kept only when it is positive |
| Cmdline.ReadLogValue | src/config.rs:527-536 | one value of the `parse_ignited_log` loop acts on the threshold and the buffer as `LogValue` says |
| Cmdline.ParseIgnitedLog | src/config.rs:508-541 | `parse_ignited_log` acts on the threshold and the buffer as `LogStep` says; a missing value queues the `<EMPTY>` warning |
| Cmdline.ParseModParam | src/config.rs:565-580 | `parse_mod_param` acts on the table and the buffer as `ModParamStep` says |
| Cmdline.ParseSource | src/config.rs:585-618 | a missing value is warned about and gives no source; otherwise the result is the value's parse |
| Cmdline.RequireValue | src/config.rs:623-633 | a key without a value queues the warning "`key` key is empty, ignoring"; with a value nothing is queued; the console is untouched |
| Cmdline.ParseLogArg | src/config.rs:457-465 | the log-key handlers change the threshold and the queue exactly as `Step` does, and never fail |
| Cmdline.ParseRootSource | src/config.rs:604-618 | `parse_root` changes the builder and the queue exactly as `Step` does, or fails with `Step`'s error for an unparseable value |
| Cmdline.ParseRootFsType | src/config.rs:623-633 | `parse_rootfstype` changes the builder and the queue exactly as `Step` does |
| Cmdline.ParseRootFlags | src/config.rs:638-648 | `parse_rootflags` changes the builder and the queue exactly as `Step` does |
| Cmdline.ParseRootMode | src/config.rs:654-660 | `parse_rootmode` changes the builder exactly as `Step` does |
| Cmdline.ParseStartArg | src/config.rs:545-599 | `parse_resume` and `parse_init` change the resume source, the init path and the queue exactly as `Step` does, or fail with `Step`'s error |
| Cmdline.ParseModuleArg | src/config.rs:473-478 | the `rd.luks.*` keys fail with `Step`'s error; every other key changes the parameter table and the queue exactly as `Step` does |
| Cmdline.ParseArg | src/config.rs:452-479 | one token of the loop takes the parser's locals exactly where `Step` takes them, or fails with `Step`'s error |
| Cmdline.ParseInner | src/config.rs:441-488 | when some token fails, the result is the first token's error and the console is untouched; otherwise the buffer is flushed at the final threshold, writing exactly the queued messages that pass it, and the gathered settings are returned |
| Timer.AsU64 | src/time.rs:60-61 | `as u64` keeps values in range and adds 2^64 to negative ones |
| Timer.Micros | src/time.rs:60-62 | the conversion's result is a `u64` |
| Timer.MicrosInRange | src/time.rs:60-62 | for an in-range clock the result is `sec * 1_000_000 + nsec / 1000` with no wrap-around; divided by 1_000_000 it gives back the seconds, and the remainder is the whole microseconds of `nsec` |
| Timer.MicrosOnto | src/time.rs:60-62 | every `u64` microsecond count is the conversion of some in-range clock reading |
| Timer.ReadClock | src/time.rs:57-63 | a failed clock reading is an error carrying the clock's message; otherwise the result is a `u64` |
| Timer.Stamp | src/time.rs:37-38 | a failed reading is written as 0, and a good one as its value |
| Timer.CritAlwaysEmitted | src/time.rs:26-33 | critical messages pass every threshold |
| Timer.Log | src/time.rs:26-33 | one critical line is written per failed reading, realtime first, whatever the console's threshold |
| Timer.ParseRecord | src/time.rs:39 | a readable record starts with `initrd-timestamp=` and ends with a newline |
| Timer.RecordRoundTrip | src/time.rs:39 | the record `initrd-timestamp=<realtime> <monotonic>\n` names both times and nothing else: reading it back gives both |
| Timer.RecordAscii | src/time.rs:39 | every character of a record is a single byte |
| Timer.AsciiBytes | src/time.rs:39 | the bytes of an ASCII text are its characters, one byte each |
| Timer.RecordBytes | src/time.rs:37-39 | the bytes written are the record's characters, one byte each and in order, and read back as the record |
| Timer.WriteAt | src/time.rs:39 | writing at the cursor replaces the bytes there and leaves the others alone; the file grows when needed, and a gap before the cursor is zero-filled |
| Timer.Destination.Write | src/time.rs:39-45 | a write that succeeds puts every byte at the cursor and advances it; a failed write changes nothing |
| Timer.Destination.Rewind | src/time.rs:46-53 | a seek that succeeds puts the cursor at 0; a failed seek leaves it |
| Timer.WriteTimer | src/time.rs:36-54 | a failed write is an error and no seek follows; otherwise the record is written at the cursor, and the result is the seek's outcome, with the cursor at 0 on success |
| Timer.WriteFresh | src/time.rs:15-54 | on a fresh, empty file, the timer leaves exactly the record's bytes with the cursor at 0, and those bytes, read as text, parse back as the two readings (0 for a failed one) |

## Left out

- File and device I/O is not modelled:
  - reading `/proc/cmdline` (`parse_current`);
  - the EFI variable file read in `read_efi_var`;
  - the `BufReader` of the alias file, so a read error while reading aliases is not modelled;
  - writes to `/dev/kmsg` (they are an append to the console's list of lines, and write errors are ignored as in the source);
  - `disable_throttling_on_verbose`.
- `autodiscover_root`, `Mount::mount`, `mkdirall`, `move_mount` and `move_mount_currdir` are system calls and are not modelled.
- UUID parsing, `String::from_utf16` and `PartitionSourceBuilder::build` (a `todo!()` in the source) are function parameters. No property of them is assumed.
- The TOML configuration file is not modelled. `get_mount_timeout` takes the configured value as an argument.
- src/udev.rs, src/sysfs.rs, src/vconsole.rs, src/main.rs, src/util.rs, src/common.rs and src/early_logging/kmsg.rs are not part of this model. They hold threads, sockets, ioctls and the boot sequence. Their handlers are mostly `todo!()`.
- Cmdline.Step: the source panics on the three `rd.luks.*` keys (`todo!()`); the model makes them the error `LuksUnimplemented`. The console is then left as it was, as on the other errors.
- EfiVars.ReadEfiVar: the source panics on a variable shorter than four bytes; the model returns `ShortPanic`, and `GetCurrent` turns it into the error `ShortVariable`.
- Mounts.Target: the root mount's target is a `todo!()` in the source, so the function requires a mount other than the root.
- Mounts.Flags: the `devpts` flags are a `todo!()` in the source, so the function requires a mount other than `devpts`.
- Mounts.Options: the `devpts` options are a `todo!()` in the source, so the function requires a mount other than `devpts`.
- Error values are modelled as datatype constructors (`CmdlineError`, `EfiError`, `TimerError`, `AliasError`). The text of `PrintableErrno` messages is not modelled; neither are the clock's error text nor the I/O error text.
- Timer.Destination.Write: `Write::write` may write fewer bytes than asked. The model writes all or nothing, because the source ignores the count returned.
- Timer.Micros: overflow panics of a debug build are not modelled. The arithmetic wraps as in a release build.
- `CString::new` is modelled by its one failure, a NUL byte in the value. The init path is kept as a string without the terminating NUL.
- `MsFlags` is a set of the flags `_add_opts` and the `Mount` tables name. Their bit values are not modelled.
- Cmdline.InterpretError: the error is stated through the per-token errors `ArgErrors`. Cmdline.InterpretRootMode is stated through the token kinds `KindsOf`, not directly over the token strings; Cmdline.KeyKindTable ties each kind to its key names.
