/** Kernel module parameters gathered from the command line and the module
    alias list read from the image (src/module.rs). */
module KernelModules {
  import opened Text

  /** `ModParams::normalize_module`: every `-` becomes `_`. */
  function NormalizeModule(m: string): (r: string)
    ensures |r| == |m|
    ensures '-' !in r
    ensures forall i :: 0 <= i < |m| && m[i] != '-' ==> r[i] == m[i]
    ensures forall i :: 0 <= i < |m| && m[i] == '-' ==> r[i] == '_'
  {
    if |m| == 0 then ""
    else [if m[0] == '-' then '_' else m[0]] + NormalizeModule(m[1..])
  }

  /** Normalising a normalised name changes nothing. */
  lemma NormalizeIdempotent(m: string)
    ensures NormalizeModule(NormalizeModule(m)) == NormalizeModule(m)
  {
    var n := NormalizeModule(m);
    var nn := NormalizeModule(n);
    assert forall i :: 0 <= i < |n| ==> nn[i] == n[i];
  }

  /** Two spellings that differ only in `-` versus `_` normalise alike. */
  lemma NormalizeDashUnderscore(a: string, b: string)
    requires |a| == |b|
    requires forall i :: 0 <= i < |a| ==>
      a[i] == b[i] || ((a[i] == '-' || a[i] == '_') && (b[i] == '-' || b[i] == '_'))
    ensures NormalizeModule(a) == NormalizeModule(b)
  {
    var na, nb := NormalizeModule(a), NormalizeModule(b);
    assert forall i :: 0 <= i < |a| ==> na[i] == nb[i];
  }

  /** The table entry for the module `name`, or the empty list. */
  function Lookup(table: map<string, seq<string>>, name: string): seq<string> {
    var key := NormalizeModule(name);
    if key in table then table[key] else []
  }

  /** The table after `insert(name, param, args)`. */
  function Inserted(table: map<string, seq<string>>, name: string, param: string, args: string)
    : map<string, seq<string>>
  {
    table[NormalizeModule(name) := Lookup(table, name) + [param + "=" + args]]
  }

  /** An insertion appends `param=args` to the list of exactly the modules whose
      names normalise like `name`; every other name keeps its list. */
  lemma InsertedLookup(table: map<string, seq<string>>, name: string, param: string, args: string, other: string)
    ensures NormalizeModule(other) == NormalizeModule(name) ==>
      Lookup(Inserted(table, name, param, args), other) == Lookup(table, other) + [param + "=" + args]
    ensures NormalizeModule(other) != NormalizeModule(name) ==>
      Lookup(Inserted(table, name, param, args), other) == Lookup(table, other)
  {
  }

  /** One `insert` call: name, parameter and value. */
  datatype ParamInsert = ParamInsert(moduleName: string, param: string, args: string)

  /** The table after a series of inserts into an empty table. */
  function InsertAll(inserts: seq<ParamInsert>): map<string, seq<string>>
  {
    if |inserts| == 0 then map[]
    else
      var last := inserts[|inserts| - 1];
      Inserted(InsertAll(inserts[..|inserts| - 1]), last.moduleName, last.param, last.args)
  }

  /** The `param=args` strings of the inserts aimed at `name`, oldest first. */
  function ParamsFor(inserts: seq<ParamInsert>, name: string): seq<string>
  {
    if |inserts| == 0 then []
    else
      var last := inserts[|inserts| - 1];
      ParamsFor(inserts[..|inserts| - 1], name)
      + (if NormalizeModule(last.moduleName) == NormalizeModule(name) then [last.param + "=" + last.args] else [])
  }

  /** After any series of inserts, the list for a name holds exactly the
      parameters inserted for any spelling of its name, in insertion order;
      in particular a name never inserted gets the empty list. */
  lemma {:induction false} InsertAllLookup(inserts: seq<ParamInsert>, name: string)
    ensures Lookup(InsertAll(inserts), name) == ParamsFor(inserts, name)
  {
    if |inserts| > 0 {
      var last := inserts[|inserts| - 1];
      InsertAllLookup(inserts[..|inserts| - 1], name);
      InsertedLookup(InsertAll(inserts[..|inserts| - 1]), last.moduleName, last.param, last.args, name);
    }
  }

  /** `ModParams`: module name (normalised) to its `param=value` list. */
  class ModParams {
    var table: map<string, seq<string>>

    /** Keys are always normalised names. */
    ghost predicate Valid()
      reads this
    {
      forall k :: k in table ==> '-' !in k
    }

    /** `ModParams::default`. */
    constructor ()
      ensures Valid() && table == map[]
    {
      table := map[];
    }

    /** `ModParams::_get_params`: the list for the normalised name, or empty. */
    function GetParams(name: string): (r: seq<string>)
      reads this
      ensures NormalizeModule(name) !in table ==> r == []
      ensures forall other :: NormalizeModule(other) == NormalizeModule(name) ==> r == Lookup(table, other)
    {
      Lookup(table, name)
    }

    /** `ModParams::_insert`: appends `param=args` to the normalised name's list. */
    method Insert(name: string, param: string, args: string)
      requires Valid()
      modifies this
      ensures Valid()
      ensures table == Inserted(old(table), name, param, args)
    {
      var key := NormalizeModule(name);
      var list := if key in table then table[key] else [];
      table := table[key := list + [param + "=" + args]];
    }
  }

  // ---------------------------------------------------------------------------
  // Module aliases

  /** `ModAlias`: a modalias pattern and the name it loads. */
  datatype ModAlias = ModAlias(pattern: string, moduleName: string)

  datatype AliasError = MissingWhitespace

  /** One line of the alias file: split at its first space. */
  function AliasOfLine(line: string): (r: Option<ModAlias>)
    ensures r.None? <==> ' ' !in line
    ensures r.Some? ==> line == r.value.pattern + " " + r.value.moduleName && ' ' !in r.value.pattern
  {
    match SplitOnce(line, ' ')
    case None => None
    case Some((pattern, rest)) => Some(ModAlias(pattern, rest))
  }

  /** Writing an alias as `PATTERN MODULE` and reading it back gives the same
      alias whenever the pattern has no space (the name may contain spaces). */
  lemma AliasLineRoundTrip(a: ModAlias)
    requires ' ' !in a.pattern
    ensures AliasOfLine(a.pattern + " " + a.moduleName) == Some(a)
  {
    SplitOnceUnique(a.pattern, ' ', a.moduleName);
  }

  /** The body of `ModAliases::try_from(File)`: one alias per line, in order;
      the first line without a space makes the whole parse fail. */
  method ParseAliases(lines: seq<string>) returns (r: Result<seq<ModAlias>, AliasError>)
    ensures r.Err? <==> exists i :: 0 <= i < |lines| && ' ' !in lines[i]
    ensures r.Ok? ==> |r.value| == |lines|
    ensures r.Ok? ==> forall i :: 0 <= i < |lines| ==> AliasOfLine(lines[i]) == Some(r.value[i])
  {
    var result: seq<ModAlias> := [];
    var i := 0;
    while i < |lines|
      invariant 0 <= i <= |lines|
      invariant |result| == i
      invariant forall j :: 0 <= j < i ==> ' ' in lines[j] && AliasOfLine(lines[j]) == Some(result[j])
    {
      match AliasOfLine(lines[i])
      case None =>
        return Err(MissingWhitespace);
      case Some(alias) =>
        result := result + [alias];
      i := i + 1;
    }
    return Ok(result);
  }

  /** `ModAliases`: the alias list. */
  class ModAliases {
    var aliases: seq<ModAlias>

    constructor (aliases: seq<ModAlias>)
      ensures this.aliases == aliases
    {
      this.aliases := aliases;
    }

    /** `Extend<ModAlias>`: new aliases go after the existing ones, in order. */
    method Extend(more: seq<ModAlias>)
      modifies this
      ensures aliases == old(aliases) + more
    {
      aliases := aliases + more;
    }
  }
}
