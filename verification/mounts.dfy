/** `Mount`: the filesystems set up during boot and the source, target, type,
    flags and options each is mounted with (src/mount.rs). */
module Mounts {
  import opened Text
  import opened RootOptions

  /** `TmpfsOpts`: a named `tmpfs` instance and how to mount it. */
  datatype TmpfsOpts = TmpfsOpts(source: string, target: string, flags: set<MsFlag>, options: Option<string>)

  datatype Mount =
    | DevTmpfs
    | DevPts
    | Proc
    | Sysfs
    | Tmpfs(tmpfs: TmpfsOpts)
    | Efivarfs
    | Root(root: RootOpts)

  /** The mounts whose settings are fixed by the program. */
  predicate Fixed(m: Mount) {
    m.DevTmpfs? || m.DevPts? || m.Proc? || m.Sysfs? || m.Efivarfs?
  }

  /** `Mount::source`. */
  function Source(m: Mount): (r: string)
    ensures m.Tmpfs? ==> r == m.tmpfs.source
    ensures m.Root? ==> r == m.root.source
  {
    match m
    case DevTmpfs => "dev"
    case DevPts => "devpts"
    case Proc => "proc"
    case Sysfs => "sys"
    case Tmpfs(t) => t.source
    case Efivarfs => "efivarfs"
    case Root(o) => o.source
  }

  /** `Mount::target`; the root's target is not yet decided (the source
      stops with `todo!()`). */
  function Target(m: Mount): (r: string)
    requires !m.Root?
    ensures m.Tmpfs? ==> r == m.tmpfs.target
    ensures Fixed(m) ==> StartsWith(r, "/")
  {
    match m
    case DevTmpfs => "/dev"
    case DevPts => "/dev/pts"
    case Proc => "/proc"
    case Sysfs => "/sys"
    case Tmpfs(t) => t.target
    case Efivarfs => "/sys/firmware/efi/efivars"
  }

  /** `Mount::fstype`. */
  function FsType(m: Mount): (r: string)
    ensures m.Root? ==> r == m.root.fstype
    ensures m.Tmpfs? ==> r == "tmpfs"
  {
    match m
    case DevTmpfs => "devtmpfs"
    case DevPts => "devpts"
    case Proc => "proc"
    case Sysfs => "sysfs"
    case Tmpfs(_) => "tmpfs"
    case Efivarfs => "efivarfs"
    case Root(o) => o.fstype
  }

  /** `Mount::flags`; those of `devpts` are not yet decided. */
  function Flags(m: Mount): (r: set<MsFlag>)
    requires !m.DevPts?
    ensures m.Tmpfs? ==> r == m.tmpfs.flags
    ensures m.Root? ==> r == m.root.flags
  {
    match m
    case DevTmpfs => {NoSuid}
    case Proc => {NoSuid, NoExec, NoDev}
    case Sysfs => {NoSuid, NoExec, NoDev}
    case Tmpfs(t) => t.flags
    case Efivarfs => {NoSuid, NoExec, NoDev}
    case Root(o) => o.flags
  }

  /** `Mount::options`; those of `devpts` are not yet decided. */
  function Options(m: Mount): (r: Option<string>)
    requires !m.DevPts?
    ensures m.Tmpfs? ==> r == m.tmpfs.options
    ensures m.Root? ==> r == m.root.options
  {
    match m
    case DevTmpfs => Some("mode=0755")
    case Proc => None
    case Sysfs => None
    case Tmpfs(t) => t.options
    case Efivarfs => None
    case Root(o) => o.options
  }

  /** The kernel's own filesystems are mounted without set-user-ID programs,
      never read-only, and only `/dev` takes an option string; those other
      than `/dev` also forbid executables and device nodes. */
  lemma FixedMountsHardened(m: Mount)
    requires Fixed(m) && !m.DevPts?
    ensures NoSuid in Flags(m) && RdOnly !in Flags(m)
    ensures !m.DevTmpfs? ==> NoExec in Flags(m) && NoDev in Flags(m) && Options(m).None?
    ensures m.DevTmpfs? ==> Flags(m) == {NoSuid} && Options(m) == Some("mode=0755")
  {
  }

  /** Distinct fixed mounts go to distinct targets. */
  lemma FixedTargetsDistinct(a: Mount, b: Mount)
    requires Fixed(a) && Fixed(b) && a != b
    ensures Target(a) != Target(b)
  {
  }
}
