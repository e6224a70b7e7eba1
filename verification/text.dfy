/** Shared string and number helpers: the Rust `str` operations the parsers
    rely on (`strip_prefix`, `split_once`, `split`), decimal rendering and
    `i64::from_str`. */
module Text {

  datatype Option<+T> = None | Some(value: T) {
    /** `Option::unwrap_or`. */
    function GetOr(default: T): T {
      match this
      case Some(v) => v
      case None => default
    }
  }

  datatype Result<+T, +E> = Ok(value: T) | Err(error: E)

  /** An unsigned byte. */
  type Byte = x: int | 0 <= x < 256

  const I64Min: int := -0x8000_0000_0000_0000
  const I64Max: int := 0x7fff_ffff_ffff_ffff

  predicate StartsWith(s: string, prefix: string) {
    |prefix| <= |s| && s[..|prefix|] == prefix
  }

  predicate EndsWith(s: string, suffix: string) {
    |suffix| <= |s| && s[|s| - |suffix|..] == suffix
  }

  /** `str::strip_prefix`. */
  function StripPrefix(s: string, prefix: string): (r: Option<string>)
    ensures r.Some? <==> StartsWith(s, prefix)
    ensures r.Some? ==> s == prefix + r.value
  {
    if StartsWith(s, prefix) then
      assert s == s[..|prefix|] + s[|prefix|..];
      Some(s[|prefix|..])
    else None
  }

  /** `str::strip_suffix`. */
  function StripSuffix(s: string, suffix: string): (r: Option<string>)
    ensures r.Some? <==> EndsWith(s, suffix)
    ensures r.Some? ==> s == r.value + suffix
  {
    if EndsWith(s, suffix) then
      assert s == s[..|s| - |suffix|] + s[|s| - |suffix|..];
      Some(s[..|s| - |suffix|])
    else None
  }

  lemma StripPrefixOfConcat(prefix: string, rest: string)
    ensures StripPrefix(prefix + rest, prefix) == Some(rest)
  {
    assert (prefix + rest)[..|prefix|] == prefix;
    assert (prefix + rest)[|prefix|..] == rest;
  }

  /** Index of the first occurrence of `c` in `s`. */
  function IndexOf(s: string, c: char): (r: Option<nat>)
    ensures r.None? <==> c !in s
    ensures r.Some? ==> r.value < |s| && s[r.value] == c && c !in s[..r.value]
  {
    if |s| == 0 then None
    else if s[0] == c then Some(0)
    else
      match IndexOf(s[1..], c)
      case None => None
      case Some(i) =>
        assert s[..i + 1] == [s[0]] + s[1..][..i];
        Some(i + 1)
  }

  /** `str::split_once` on a character: the text before and after its first occurrence. */
  function SplitOnce(s: string, c: char): (r: Option<(string, string)>)
    ensures r.None? <==> c !in s
    ensures r.Some? ==> s == r.value.0 + [c] + r.value.1 && c !in r.value.0
  {
    match IndexOf(s, c)
    case None => None
    case Some(i) =>
      assert s == s[..i] + [c] + s[i + 1..];
      Some((s[..i], s[i + 1..]))
  }

  /** A split at `c` is determined by the piece before `c` not containing `c`. */
  lemma SplitOnceUnique(a: string, c: char, b: string)
    requires c !in a
    ensures SplitOnce(a + [c] + b, c) == Some((a, b))
  {
    var s := a + [c] + b;
    assert s[|a|] == c;
    var i := IndexOf(s, c).value;
    assert forall k :: 0 <= k < |a| ==> s[k] == a[k];
    assert forall k :: 0 <= k < i ==> s[..i][k] == s[k] != c;
    assert i == |a|;
    assert s[..i] == a;
    assert s[i + 1..] == b;
  }

  /** First position at which `pat` occurs in `s`. */
  function Find(s: string, pat: string): (r: Option<nat>)
    ensures r.Some? ==> r.value + |pat| <= |s| && StartsWith(s[r.value..], pat)
    ensures r.Some? ==> forall j :: 0 <= j < r.value ==> !StartsWith(s[j..], pat)
    ensures r.None? ==> forall j :: 0 <= j <= |s| ==> !StartsWith(s[j..], pat)
    decreases |s|
  {
    if StartsWith(s, pat) then Some(0)
    else if |s| == 0 then None
    else
      match Find(s[1..], pat)
      case None =>
        assert forall j :: 1 <= j <= |s| ==> s[j..] == s[1..][j - 1..];
        None
      case Some(i) =>
        assert forall j :: 1 <= j <= |s| ==> s[j..] == s[1..][j - 1..];
        Some(i + 1)
  }

  /** `str::split_once` on a string separator. */
  function SplitOnceStr(s: string, sep: string): (r: Option<(string, string)>)
    ensures r.Some? ==> s == r.value.0 + sep + r.value.1
    ensures r.Some? ==> forall j :: 0 <= j < |r.value.0| ==> !StartsWith(s[j..], sep)
    ensures r.None? ==> forall j :: 0 <= j <= |s| ==> !StartsWith(s[j..], sep)
  {
    match Find(s, sep)
    case None => None
    case Some(i) =>
      assert s[i..][..|sep|] == s[i..i + |sep|];
      assert s == s[..i] + s[i..i + |sep|] + s[i + |sep|..];
      Some((s[..i], s[i + |sep|..]))
  }

  /** `str::split` on a character: the pieces between occurrences of `c`
      (always at least one, possibly empty). */
  function Split(s: string, c: char): (r: seq<string>)
    ensures |r| >= 1
    ensures forall i :: 0 <= i < |r| ==> c !in r[i]
    decreases |s|
  {
    match SplitOnce(s, c)
    case None => [s]
    case Some((head, tail)) => [head] + Split(tail, c)
  }

  /** The pieces joined with `c` between them. */
  function Join(parts: seq<string>, c: char): string
  {
    if |parts| == 0 then ""
    else if |parts| == 1 then parts[0]
    else parts[0] + [c] + Join(parts[1..], c)
  }

  /** Joining the pieces of a split gives back the original text. */
  lemma {:induction false} JoinSplit(s: string, c: char)
    ensures Join(Split(s, c), c) == s
    decreases |s|
  {
    match SplitOnce(s, c)
    case None =>
    case Some((head, tail)) =>
      JoinSplit(tail, c);
      assert Split(s, c) == [head] + Split(tail, c);
      assert Split(s, c)[1..] == Split(tail, c);
  }

  /** Splitting pieces that contain no separator joined by it gives back the pieces. */
  lemma {:induction false} SplitJoin(parts: seq<string>, c: char)
    requires |parts| >= 1
    requires forall i :: 0 <= i < |parts| ==> c !in parts[i]
    ensures Split(Join(parts, c), c) == parts
  {
    if |parts| > 1 {
      SplitJoin(parts[1..], c);
      SplitOnceUnique(parts[0], c, Join(parts[1..], c));
      assert parts == [parts[0]] + parts[1..];
    }
  }

  /** The elements that satisfy `keep`, in order. */
  function Filter<T>(xs: seq<T>, keep: T -> bool): (r: seq<T>)
    ensures |r| <= |xs|
    ensures forall i :: 0 <= i < |r| ==> keep(r[i]) && r[i] in xs
  {
    if |xs| == 0 then []
    else (if keep(xs[0]) then [xs[0]] else []) + Filter(xs[1..], keep)
  }

  /** `idx` lists, in increasing order, the positions of `xs` that `r` was
      taken from, and every position whose element satisfies `keep` is
      among them: `r` keeps every wanted element, in its original order. */
  ghost predicate Picks<T>(xs: seq<T>, r: seq<T>, keep: T -> bool, idx: seq<nat>) {
    && |idx| == |r|
    && (forall k :: 0 <= k < |idx| ==> idx[k] < |xs| && r[k] == xs[idx[k]])
    && (forall k, l :: 0 <= k < l < |idx| ==> idx[k] < idx[l])
    && (forall i :: 0 <= i < |xs| && keep(xs[i]) ==> i in idx)
  }

  /** `Filter` drops nothing it should keep and does not reorder. */
  lemma {:induction false} FilterPicks<T>(xs: seq<T>, keep: T -> bool)
    ensures exists idx :: Picks(xs, Filter(xs, keep), keep, idx)
  {
    if |xs| == 0 {
      assert Picks(xs, Filter(xs, keep), keep, []);
    } else {
      FilterPicks(xs[1..], keep);
      var rest := Filter(xs[1..], keep);
      var idx' :| Picks(xs[1..], rest, keep, idx');
      var idx := PicksCons(xs, rest, keep, idx');
    }
  }

  /** One step of `FilterPicks`: the positions of the tail, shifted by one,
      with 0 in front when the head is kept. */
  lemma PicksCons<T>(xs: seq<T>, rest: seq<T>, keep: T -> bool, idx': seq<nat>) returns (idx: seq<nat>)
    requires |xs| > 0 && rest == Filter(xs[1..], keep)
    requires Picks(xs[1..], rest, keep, idx')
    ensures Picks(xs, Filter(xs, keep), keep, idx)
  {
    var head: seq<nat> := if keep(xs[0]) then [0] else [];
    idx := head + seq(|idx'|, k requires 0 <= k < |idx'| => idx'[k] + 1);
    ShiftedIncreasing(idx', head);
    ShiftedPositions(xs, rest, keep, idx', head);
    ShiftedComplete(xs, keep, idx', head);
  }

  lemma ShiftedPositions<T>(xs: seq<T>, rest: seq<T>, keep: T -> bool, idx': seq<nat>, head: seq<nat>)
    requires |xs| > 0 && rest == Filter(xs[1..], keep)
    requires head == if keep(xs[0]) then [0] else []
    requires |idx'| == |rest|
    requires forall k :: 0 <= k < |idx'| ==> idx'[k] < |xs| - 1 && rest[k] == xs[1..][idx'[k]]
    ensures var idx := head + seq(|idx'|, k requires 0 <= k < |idx'| => idx'[k] + 1);
      |idx| == |Filter(xs, keep)| &&
      forall k :: 0 <= k < |idx| ==> idx[k] < |xs| && Filter(xs, keep)[k] == xs[idx[k]]
  {
    var shifted := seq(|idx'|, k requires 0 <= k < |idx'| => idx'[k] + 1);
    assert forall k :: 0 <= k < |shifted| ==> shifted[k] < |xs| && rest[k] == xs[shifted[k]] by {
      forall k | 0 <= k < |shifted|
        ensures shifted[k] < |xs| && rest[k] == xs[shifted[k]]
      {
        assert rest[k] == xs[1..][idx'[k]];
      }
    }
    if keep(xs[0]) {
      assert Filter(xs, keep) == [xs[0]] + rest;
      ConsPositions(xs, rest, shifted);
    } else {
      assert Filter(xs, keep) == rest;
      assert head + shifted == shifted;
    }
  }

  lemma ConsPositions<T>(xs: seq<T>, rest: seq<T>, shifted: seq<nat>)
    requires |xs| > 0 && |shifted| == |rest|
    requires forall k :: 0 <= k < |shifted| ==> shifted[k] < |xs| && rest[k] == xs[shifted[k]]
    ensures var idx := [0] + shifted; var r := [xs[0]] + rest;
      forall k :: 0 <= k < |idx| ==> idx[k] < |xs| && r[k] == xs[idx[k]]
  {
  }

  lemma ShiftedComplete<T>(xs: seq<T>, keep: T -> bool, idx': seq<nat>, head: seq<nat>)
    requires |xs| > 0
    requires head == if keep(xs[0]) then [0] else []
    requires forall i :: 0 <= i < |xs| - 1 && keep(xs[1..][i]) ==> i in idx'
    ensures var idx := head + seq(|idx'|, k requires 0 <= k < |idx'| => idx'[k] + 1);
      forall i :: 0 <= i < |xs| && keep(xs[i]) ==> i in idx
  {
    var shifted := seq(|idx'|, k requires 0 <= k < |idx'| => idx'[k] + 1);
    var idx := head + shifted;
    forall i | 0 <= i < |xs| && keep(xs[i])
      ensures i in idx
    {
      if i == 0 {
        assert idx[0] == 0;
      } else {
        assert xs[1..][i - 1] == xs[i];
        var k :| 0 <= k < |idx'| && idx'[k] == i - 1;
        assert idx[k + |head|] == i;
      }
    }
  }

  lemma ShiftedIncreasing(idx': seq<nat>, head: seq<nat>)
    requires forall k, l :: 0 <= k < l < |idx'| ==> idx'[k] < idx'[l]
    requires head == [] || head == [0]
    ensures var idx := head + seq(|idx'|, k requires 0 <= k < |idx'| => idx'[k] + 1);
      forall k, l :: 0 <= k < l < |idx| ==> idx[k] < idx[l]
  {
    var shifted := seq(|idx'|, k requires 0 <= k < |idx'| => idx'[k] + 1);
    var idx := head + shifted;
    forall k, l | 0 <= k < l < |idx|
      ensures idx[k] < idx[l]
    {
      assert idx[l] == shifted[l - |head|];
      if k < |head| {
        assert idx[k] == 0;
      } else {
        assert idx[k] == shifted[k - |head|];
      }
    }
  }

  lemma {:induction false} FilterAppend<T>(xs: seq<T>, ys: seq<T>, keep: T -> bool)
    ensures Filter(xs + ys, keep) == Filter(xs, keep) + Filter(ys, keep)
  {
    if |xs| > 0 {
      FilterAppend(xs[1..], ys, keep);
      assert (xs + ys)[1..] == xs[1..] + ys;
    } else {
      assert xs + ys == ys;
    }
  }

  // ---------------------------------------------------------------------------
  // Decimal numbers

  predicate IsDigit(ch: char) {
    '0' <= ch <= '9'
  }

  function DigitChar(d: nat): (ch: char)
    requires d < 10
    ensures IsDigit(ch)
  {
    ('0' as int + d) as char
  }

  function DigitValue(ch: char): (d: nat)
    requires IsDigit(ch)
    ensures d < 10
  {
    ch as int - '0' as int
  }

  predicate AllDigits(s: string) {
    forall i :: 0 <= i < |s| ==> IsDigit(s[i])
  }

  /** Decimal rendering of a natural number, as `format!("{}", n)` writes it. */
  function ShowNat(n: nat): (r: string)
    ensures |r| >= 1 && AllDigits(r)
  {
    if n < 10 then [DigitChar(n)] else ShowNat(n / 10) + [DigitChar(n % 10)]
  }

  /** The value of a string of decimal digits. */
  function DigitsValue(s: string): nat
    requires AllDigits(s)
  {
    if |s| == 0 then 0 else DigitsValue(s[..|s| - 1]) * 10 + DigitValue(s[|s| - 1])
  }

  /** A non-empty string of decimal digits, read as a number. */
  function ParseNat(s: string): (r: Option<nat>)
    ensures r.Some? <==> |s| >= 1 && AllDigits(s)
  {
    if |s| >= 1 && AllDigits(s) then Some(DigitsValue(s)) else None
  }

  lemma {:induction false} ParseShowNat(n: nat)
    ensures ParseNat(ShowNat(n)) == Some(n)
  {
    if n >= 10 {
      ParseShowNat(n / 10);
      var s := ShowNat(n);
      assert s[..|s| - 1] == ShowNat(n / 10);
      assert DigitValue(s[|s| - 1]) == n % 10;
      assert DigitsValue(s) == DigitsValue(ShowNat(n / 10)) * 10 + n % 10;
    }
  }

  /** `i64::from_str`: an optional `+` or `-`, then at least one decimal digit,
      and the value must fit in 64 signed bits. */
  function ParseI64(s: string): (r: Option<int>)
    ensures r.Some? ==> I64Min <= r.value <= I64Max
  {
    var negative := |s| >= 1 && s[0] == '-';
    var digits := if |s| >= 1 && (s[0] == '+' || s[0] == '-') then s[1..] else s;
    match ParseNat(digits)
    case None => None
    case Some(m) =>
      var v: int := if negative then -(m as int) else m;
      if I64Min <= v <= I64Max then Some(v) else None
  }

  /** Only a sign (or none) followed by at least one digit is accepted. */
  lemma ParseI64Accepts(s: string)
    requires ParseI64(s).Some?
    ensures (|s| >= 2 && (s[0] == '+' || s[0] == '-') && AllDigits(s[1..])) || (|s| >= 1 && AllDigits(s))
  {
  }

  /** The texts `ParseI64` accepts, and their values: a sign (or none) and a
      non-empty run of digits, kept exactly when the value fits in 64 bits. */
  lemma ParseI64Forms(sign: string, digits: string)
    requires sign == "" || sign == "+" || sign == "-"
    requires |digits| >= 1 && AllDigits(digits)
    ensures ParseI64(sign + digits) ==
      var v := if sign == "-" then -(DigitsValue(digits) as int) else DigitsValue(digits) as int;
      if I64Min <= v <= I64Max then Some(v) else None
  {
    if sign == "" {
      assert sign + digits == digits;
      ParseI64Unsigned(digits);
    } else {
      ParseI64Signed(sign[0], digits);
      assert [sign[0]] + digits == sign + digits;
    }
  }

  lemma ParseI64Unsigned(digits: string)
    requires |digits| >= 1 && AllDigits(digits)
    ensures ParseI64(digits) ==
      if DigitsValue(digits) <= I64Max then Some(DigitsValue(digits) as int) else None
  {
    assert IsDigit(digits[0]);
  }

  lemma ParseI64Signed(c: char, digits: string)
    requires c == '+' || c == '-'
    requires |digits| >= 1 && AllDigits(digits)
    ensures ParseI64([c] + digits) ==
      var v := if c == '-' then -(DigitsValue(digits) as int) else DigitsValue(digits) as int;
      if I64Min <= v <= I64Max then Some(v) else None
  {
    var s := [c] + digits;
    assert s[0] == c && s[1..] == digits;
    var m := DigitsValue(digits);
    assert ParseNat(s[1..]) == Some(m);
    if c == '-' {
      assert ParseI64(s) == if I64Min <= -(m as int) then Some(-(m as int)) else None;
    } else {
      assert ParseI64(s) == if m <= I64Max then Some(m as int) else None;
    }
  }

  /** Texts at the edges of what `i64::from_str` accepts. */
  lemma ParseI64Examples()
    ensures ParseI64("+5") == Some(5) && ParseI64("-0") == Some(0) && ParseI64("007") == Some(7)
  {
    ParseI64Forms("+", "5");
    assert "+" + "5" == "+5";
    ParseI64Forms("-", "0");
    assert "-" + "0" == "-0";
    ParseI64Forms("", "007");
    assert "" + "007" == "007";
  }

  /** Texts `i64::from_str` rejects: no digits, two signs, other characters. */
  lemma ParseI64Rejects()
    ensures ParseI64("") == None && ParseI64("+") == None && ParseI64("-") == None
    ensures ParseI64("+-1") == None && ParseI64(" 1") == None && ParseI64("1x") == None
  {
    assert "+"[1..] == "" && "-"[1..] == "";
    assert "+-1"[1..] == "-1";
    assert !AllDigits("-1") by { assert !IsDigit("-1"[0]); }
    assert !AllDigits(" 1") by { assert !IsDigit(" 1"[0]); }
    assert !AllDigits("1x") by { assert !IsDigit("1x"[1]); }
  }

  /** Decimal rendering of an integer, with a leading `-` when negative. */
  function ShowInt(n: int): string {
    if n < 0 then "-" + ShowNat(-n) else ShowNat(n)
  }

  /** Every 64-bit signed integer is read back from its decimal rendering. */
  lemma ParseShowI64(n: int)
    requires I64Min <= n <= I64Max
    ensures ParseI64(ShowInt(n)) == Some(n)
  {
    if n < 0 {
      ParseShowNat(-n);
      ParseI64Signed('-', ShowNat(-n));
      assert ShowInt(n) == ['-'] + ShowNat(-n);
    } else {
      ParseShowNat(n);
      ParseI64Unsigned(ShowNat(n));
    }
  }
}
