/** `PartitionSourceBuilder`: the typed form of a `root=` or `resume=` value
    (src/mount.rs). UUID text is read by a parser supplied by the caller. */
module MountSource {
  import opened Text

  /** A 128-bit UUID, as its sixteen bytes. */
  datatype Guid = Guid(bytes: seq<Byte>)

  /** `uuid::Uuid::from_str`, which this model does not define. */
  type UuidParser = string -> Option<Guid>

  datatype PartitionSource =
    | Uuid(uuid: Guid)
    | Label(name: string)
    | PartUuid(partuuid: Guid)
    | PartUuidPartnroff(partuuid: Guid, partnroff: int)
    | PartType(typeUuid: Guid, efiPartUuid: Guid)
    | PartLabel(partName: string)
    | RawDevice(path: string)

  const UuidPrefix: string := "UUID="
  const ByUuidPrefix: string := "/dev/disk/by-uuid"
  const LabelPrefix: string := "LABEL="
  const ByLabelPrefix: string := "/dev/disk/by-label"
  const PartUuidPrefix: string := "PARTUUID="
  const ByPartUuidPrefix: string := "/dev/disk/by-partuuid"
  const PartLabelPrefix: string := "PARTLABEL="
  const ByPartLabelPrefix: string := "/dev/disk/by-partlabel"
  const DevPrefix: string := "/dev/"
  const PartnroffSeparator: string := "/PARTNROFF="

  /** `Option::or_else`. */
  function OrElse<T>(first: Option<T>, second: Option<T>): Option<T> {
    if first.Some? then first else second
  }

  /** The text handed to the UUID parser: one pair of surrounding double quotes
      is removed when both are present, otherwise the text is kept as it is. */
  function Unquote(s: string): (r: string)
    ensures |s| >= 2 && s[0] == '"' && s[|s| - 1] == '"' ==> s == "\"" + r + "\""
    ensures !(|s| >= 2 && s[0] == '"' && s[|s| - 1] == '"') ==> r == s
  {
    match StripPrefix(s, "\"")
    case None => s
    case Some(u) =>
      match StripSuffix(u, "\"")
      case None => s
      case Some(v) => v
  }

  /** Quoting a text and unquoting it gives the text back. */
  lemma UnquoteQuoted(x: string)
    ensures Unquote("\"" + x + "\"") == x
  {
    var s := "\"" + x + "\"";
    assert s[1..|s| - 1] == x;
  }

  /** `uuid_from_str`. */
  function UuidFromStr(s: string, uuid: UuidParser): Option<Guid> {
    uuid(Unquote(s))
  }

  /** A quoted UUID is read without its quotes; any other text (including a
      lone `"` or a text quoted on one side only) is read as it is. */
  lemma UuidFromStrForms(x: string, s: string, uuid: UuidParser)
    requires !(|s| >= 2 && s[0] == '"' && s[|s| - 1] == '"')
    ensures UuidFromStr("\"" + x + "\"", uuid) == uuid(x)
    ensures UuidFromStr(s, uuid) == uuid(s)
  {
    UnquoteQuoted(x);
  }

  function ParseUuid(s: string, uuid: UuidParser): Option<PartitionSource> {
    match UuidFromStr(s, uuid)
    case None => None
    case Some(g) => Some(Uuid(g))
  }

  function ParsePartUuid(s: string, uuid: UuidParser): Option<PartitionSource> {
    match UuidFromStr(s, uuid)
    case None => None
    case Some(g) => Some(PartUuid(g))
  }

  /** `parse_partuuid_partnroff`: the offset after the first `/PARTNROFF=` must
      be a 64-bit integer and the text before it a UUID; without the separator
      the whole text is a plain PARTUUID. */
  function ParsePartUuidPartnroff(s: string, uuid: UuidParser): Option<PartitionSource> {
    match SplitOnceStr(s, PartnroffSeparator)
    case None => ParsePartUuid(s, uuid)
    case Some((partuuid, partnroff)) =>
      match ParseI64(partnroff)
      case None => None
      case Some(n) =>
        match UuidFromStr(partuuid, uuid)
        case None => None
        case Some(g) => Some(PartUuidPartnroff(g, n))
  }

  /** A `PARTUUID=` value gives a plain PARTUUID only when it has no
      separator, and otherwise one with an `i64` offset whose UUID is read
      from the text before a separator. */
  lemma PartUuidPartnroffResult(s: string, uuid: UuidParser)
    ensures var r := ParsePartUuidPartnroff(s, uuid);
      && (r.Some? ==> r.value.PartUuid? || r.value.PartUuidPartnroff?)
      && (r.Some? && r.value.PartUuid? ==>
            SplitOnceStr(s, PartnroffSeparator).None? && uuid(Unquote(s)) == Some(r.value.partuuid))
      && (r.Some? && r.value.PartUuidPartnroff? ==>
            I64Min <= r.value.partnroff <= I64Max &&
            exists a, b :: s == a + PartnroffSeparator + b && uuid(Unquote(a)) == Some(r.value.partuuid))
  {
  }

  /** `PartitionSourceBuilder::_parse`: the prefixes are tried in a fixed order
      and the first one present decides the form. */
  function Parse(root: string, uuid: UuidParser): (r: Option<PartitionSource>)
    ensures r.Some? && r.value.RawDevice? ==> r.value.path == root && StartsWith(root, DevPrefix)
    ensures !r.Some? || !r.value.PartType?
  {
    match OrElse(StripPrefix(root, UuidPrefix), StripPrefix(root, ByUuidPrefix))
    case Some(u) => ParseUuid(u, uuid)
    case None =>
      match OrElse(StripPrefix(root, LabelPrefix), StripPrefix(root, ByLabelPrefix))
      case Some(l) => Some(Label(l))
      case None =>
        match StripPrefix(root, PartUuidPrefix)
        case Some(p) => ParsePartUuidPartnroff(p, uuid)
        case None =>
          match StripPrefix(root, ByPartUuidPrefix)
          case Some(p) => ParsePartUuid(p, uuid)
          case None =>
            match OrElse(StripPrefix(root, PartLabelPrefix), StripPrefix(root, ByPartLabelPrefix))
            case Some(l) => Some(PartLabel(l))
            case None =>
              if StartsWith(root, DevPrefix) then Some(RawDevice(root)) else None
  }

  /** Whether `root` starts with one of the prefixes naming a typed form. */
  predicate HasTypedPrefix(root: string) {
    StartsWith(root, UuidPrefix) || StartsWith(root, ByUuidPrefix)
    || StartsWith(root, LabelPrefix) || StartsWith(root, ByLabelPrefix)
    || StartsWith(root, PartUuidPrefix) || StartsWith(root, ByPartUuidPrefix)
    || StartsWith(root, PartLabelPrefix) || StartsWith(root, ByPartLabelPrefix)
  }

  /** A `UUID=` or `/dev/disk/by-uuid` value is read as a UUID and nothing else:
      when the UUID does not parse, the result is None, never a raw device. */
  lemma ParseUuidForm(root: string, uuid: UuidParser)
    requires StartsWith(root, UuidPrefix) || StartsWith(root, ByUuidPrefix)
    ensures var rest := if StartsWith(root, UuidPrefix) then root[|UuidPrefix|..] else root[|ByUuidPrefix|..];
      Parse(root, uuid) == (if uuid(Unquote(rest)).Some? then Some(Uuid(uuid(Unquote(rest)).value)) else None)
  {
  }

  /** As the `by-uuid` prefix has no trailing `/` either, the path
      `/dev/disk/by-uuid/x` hands `/x`, slash included, to the UUID parser. */
  lemma ParseByUuidPath(x: string, uuid: UuidParser)
    ensures Parse(ByUuidPrefix + "/" + x, uuid) ==
      if uuid("/" + x).Some? then Some(Uuid(uuid("/" + x).value)) else None
  {
    var root := ByUuidPrefix + ("/" + x);
    assert ByUuidPrefix + "/" + x == root;
    StripPrefixOfConcat(ByUuidPrefix, "/" + x);
    assert root[0] == '/';
    assert Unquote("/" + x) == "/" + x;
  }

  /** The label forms always succeed and keep the text after the prefix
      verbatim; as the `by-label` prefix has no trailing `/`, a path
      `/dev/disk/by-label/x` gives the label `/x`. */
  lemma ParseLabelForms(x: string, uuid: UuidParser)
    ensures Parse(LabelPrefix + x, uuid) == Some(Label(x))
    ensures Parse(ByLabelPrefix + x, uuid) == Some(Label(x))
    ensures Parse(ByLabelPrefix + "/" + x, uuid) == Some(Label("/" + x))
  {
    StripPrefixOfConcat(LabelPrefix, x);
    StripPrefixOfConcat(ByLabelPrefix, x);
    assert !StartsWith(LabelPrefix + x, UuidPrefix) by {
      assert (LabelPrefix + x)[0] == 'L';
    }
    assert !StartsWith(ByLabelPrefix + x, UuidPrefix) by {
      assert (ByLabelPrefix + x)[0] == '/';
    }
    assert !StartsWith(ByLabelPrefix + x, ByUuidPrefix) by {
      assert (ByLabelPrefix + x)[13] == 'l';
    }
    assert !StartsWith(LabelPrefix + x, ByUuidPrefix) by {
      assert (LabelPrefix + x)[0] == 'L';
    }
    assert ByLabelPrefix + "/" + x == ByLabelPrefix + ("/" + x);
    StripPrefixOfConcat(ByLabelPrefix, "/" + x);
    assert !StartsWith(ByLabelPrefix + ("/" + x), ByUuidPrefix) by {
      assert (ByLabelPrefix + ("/" + x))[13] == 'l';
    }
    assert !StartsWith(ByLabelPrefix + ("/" + x), UuidPrefix) by {
      assert (ByLabelPrefix + ("/" + x))[0] == '/';
    }
  }

  /** The partition-label forms always succeed and keep the rest verbatim. */
  lemma ParsePartLabelForms(x: string, uuid: UuidParser)
    ensures Parse(PartLabelPrefix + x, uuid) == Some(PartLabel(x))
    ensures Parse(ByPartLabelPrefix + x, uuid) == Some(PartLabel(x))
  {
    ParsePartLabelPrefix(x, uuid);
    ParseByPartLabelPrefix(x, uuid);
  }

  lemma ParsePartLabelPrefix(x: string, uuid: UuidParser)
    ensures Parse(PartLabelPrefix + x, uuid) == Some(PartLabel(x))
  {
    StripPrefixOfConcat(PartLabelPrefix, x);
    var a := PartLabelPrefix + x;
    assert a[0] == 'P' && a[4] == 'L';
    assert !StartsWith(a, UuidPrefix) && !StartsWith(a, ByUuidPrefix) && !StartsWith(a, LabelPrefix)
      && !StartsWith(a, ByLabelPrefix) && !StartsWith(a, PartUuidPrefix) && !StartsWith(a, ByPartUuidPrefix);
  }

  lemma ParseByPartLabelPrefix(x: string, uuid: UuidParser)
    ensures Parse(ByPartLabelPrefix + x, uuid) == Some(PartLabel(x))
  {
    StripPrefixOfConcat(ByPartLabelPrefix, x);
    var b := ByPartLabelPrefix + x;
    assert b[0] == '/' && b[13] == 'p' && b[17] == 'l';
    assert !StartsWith(b, UuidPrefix) && !StartsWith(b, ByUuidPrefix) && !StartsWith(b, LabelPrefix)
      && !StartsWith(b, ByLabelPrefix) && !StartsWith(b, PartUuidPrefix) && !StartsWith(b, ByPartUuidPrefix);
  }

  /** The first position of `pat` in `s` is `i` when `pat` occurs there and
      nowhere before. */
  lemma FindFirst(s: string, pat: string, i: nat)
    requires i <= |s| && StartsWith(s[i..], pat)
    requires forall j :: 0 <= j < i ==> !StartsWith(s[j..], pat)
    ensures Find(s, pat) == Some(i)
  {
  }

  /** `/PARTNROFF=` occurs first right after `u` in `u + "/PARTNROFF=" + n`. */
  predicate SeparatorFirstAfter(u: string, n: string) {
    forall j :: 0 <= j < |u| ==> !StartsWith((u + PartnroffSeparator + n)[j..], PartnroffSeparator)
  }

  /** UUIDs hold no `/`, so the separator after one is always the first. */
  lemma NoSlashSeparatorFirst(u: string, n: string)
    requires '/' !in u
    ensures SeparatorFirstAfter(u, n)
  {
    var p := u + PartnroffSeparator + n;
    forall j | 0 <= j < |u|
      ensures !StartsWith(p[j..], PartnroffSeparator)
    {
      assert p[j..][0] == u[j];
    }
  }

  /** `PARTUUID=u/PARTNROFF=n`, where the separator is the first one, yields
      the partition with offset exactly when `n` is a 64-bit integer and `u`
      a UUID. */
  lemma ParsePartnroffForm(u: string, n: string, uuid: UuidParser)
    requires SeparatorFirstAfter(u, n)
    ensures Parse(PartUuidPrefix + u + PartnroffSeparator + n, uuid) ==
      if ParseI64(n).Some? && uuid(Unquote(u)).Some? then
        Some(PartUuidPartnroff(uuid(Unquote(u)).value, ParseI64(n).value))
      else None
  {
    var p := u + PartnroffSeparator + n;
    var root := PartUuidPrefix + p;
    assert root == PartUuidPrefix + u + PartnroffSeparator + n;
    StripPrefixOfConcat(PartUuidPrefix, p);
    PartUuidNotEarlier(root);
    SplitSeparator(u, n);
    assert Parse(root, uuid) == ParsePartUuidPartnroff(p, uuid);
  }

  /** A `PARTUUID=` value has none of the prefixes tried before it. */
  lemma PartUuidNotEarlier(root: string)
    requires StartsWith(root, PartUuidPrefix)
    ensures !StartsWith(root, UuidPrefix) && !StartsWith(root, ByUuidPrefix)
    ensures !StartsWith(root, LabelPrefix) && !StartsWith(root, ByLabelPrefix)
  {
    assert root[0] == 'P' && root[4] == 'U';
  }

  /** Splitting at the first `/PARTNROFF=` gives back the two parts. */
  lemma SplitSeparator(u: string, n: string)
    requires SeparatorFirstAfter(u, n)
    ensures SplitOnceStr(u + PartnroffSeparator + n, PartnroffSeparator) == Some((u, n))
  {
    var p := u + PartnroffSeparator + n;
    FindSeparator(u, n);
    assert p[..|u|] == u;
    assert p[|u| + |PartnroffSeparator|..] == n;
  }

  /** The first `/PARTNROFF=` is found right after `u`. */
  lemma FindSeparator(u: string, n: string)
    requires SeparatorFirstAfter(u, n)
    ensures Find(u + PartnroffSeparator + n, PartnroffSeparator) == Some(|u|)
  {
    var p := u + PartnroffSeparator + n;
    assert p[|u|..][..|PartnroffSeparator|] == PartnroffSeparator;
    FindFirst(p, PartnroffSeparator, |u|);
  }

  /** A `/dev/disk/by-partuuid` value is read as a plain PARTUUID: it never
      carries a partition offset. */
  lemma ParseByPartUuidForm(x: string, uuid: UuidParser)
    ensures Parse(ByPartUuidPrefix + x, uuid) ==
      if uuid(Unquote(x)).Some? then Some(PartUuid(uuid(Unquote(x)).value)) else None
  {
    StripPrefixOfConcat(ByPartUuidPrefix, x);
    var b := ByPartUuidPrefix + x;
    assert b[0] == '/' && b[13] == 'p' && b[17] == 'u';
    assert !StartsWith(b, UuidPrefix) && !StartsWith(b, ByUuidPrefix) && !StartsWith(b, LabelPrefix)
      && !StartsWith(b, ByLabelPrefix) && !StartsWith(b, PartUuidPrefix);
  }

  /** Without a `/PARTNROFF=` separator a `PARTUUID=` value is a plain PARTUUID. */
  lemma ParsePartUuidForm(p: string, uuid: UuidParser)
    requires forall j :: 0 <= j <= |p| ==> !StartsWith(p[j..], PartnroffSeparator)
    ensures Parse(PartUuidPrefix + p, uuid) ==
      if uuid(Unquote(p)).Some? then Some(PartUuid(uuid(Unquote(p)).value)) else None
  {
    var root := PartUuidPrefix + p;
    StripPrefixOfConcat(PartUuidPrefix, p);
    PartUuidNotEarlier(root);
  }

  /** A raw device is the whole value, produced exactly for `/dev/` paths
      that match none of the typed `/dev/disk/by-*` prefixes. */
  lemma ParseRawDevice(root: string, uuid: UuidParser)
    ensures (Parse(root, uuid).Some? && Parse(root, uuid).value.RawDevice?) <==>
      (StartsWith(root, DevPrefix) && !HasTypedPrefix(root))
  {
  }

  /** A value with none of the prefixes and not under `/dev/` is rejected. */
  lemma ParseUnknown(root: string, uuid: UuidParser)
    requires !StartsWith(root, DevPrefix) && !HasTypedPrefix(root)
    ensures Parse(root, uuid).None?
  {
  }
}
