/** accounts/hd.go: parsing and printing hierarchical-deterministic derivation paths
    (BIP-32, path levels of BIP-44). */
module HdPaths {
  import opened Options

  const U32: nat := 0x1_0000_0000
  const HARDENED: nat := 0x8000_0000

  type Path = seq<nat>

  ghost predicate IsPath(p: Path) {
    forall c :: c in p ==> c < U32
  }

  const DEFAULT_ROOT: Path := [HARDENED + 44, HARDENED + 60, HARDENED, 0]

  // ---------------------------------------------------------------- strings

  /** strings.Split(s, "/"): never empty. */
  function Split(s: string): (parts: seq<string>)
    ensures parts != []
  {
    if s == [] then [""]
    else
      var rest := Split(s[1..]);
      if s[0] == '/' then [""] + rest else [[s[0]] + rest[0]] + rest[1..]
  }

  predicate IsSpace(c: char) {
    '\t' <= c <= '\r' || c == ' ' || c == '\U{85}' || c == '\U{A0}' || c == '\U{1680}' ||
    '\U{2000}' <= c <= '\U{200A}' || '\U{2028}' <= c <= '\U{2029}' ||
    c == '\U{202F}' || c == '\U{205F}' || c == '\U{3000}'
  }

  function TrimLeft(s: string): string {
    if s != [] && IsSpace(s[0]) then TrimLeft(s[1..]) else s
  }

  function TrimRight(s: string): string {
    if s != [] && IsSpace(s[|s| - 1]) then TrimRight(s[..|s| - 1]) else s
  }

  function TrimSpace(s: string): string {
    TrimRight(TrimLeft(s))
  }

  // ---------------------------------------------------------------- numbers, as big.Int.SetString(s, 0)

  /** Scanner state: the value and digit count so far; whether the last character was
      a digit, a separator or neither; and whether all is well. */
  datatype Last = Digit | Separator | Other

  datatype Scan = Scan(value: nat, count: nat, last: Last, ok: bool)

  /** The value of a digit character, 36 and up for anything else. */
  function DigitValue(c: char): nat {
    if '0' <= c <= '9' then (c as int) - ('0' as int)
    else if 'a' <= c <= 'z' then (c as int) - ('a' as int) + 10
    else if 'A' <= c <= 'Z' then (c as int) - ('A' as int) + 10
    else 63
  }

  function ScanStep(sc: Scan, c: char, base: nat): Scan {
    if c == '_' then sc.(last := Separator, ok := sc.ok && sc.last.Digit?)
    else if DigitValue(c) >= base then sc.(ok := false)
    else Scan(sc.value * base + DigitValue(c), sc.count + 1, Digit, sc.ok)
  }

  function ScanAll(s: string, base: nat, start: Scan): Scan {
    if s == [] then start else ScanStep(ScanAll(s[..|s| - 1], base, start), s[|s| - 1], base)
  }

  function ScanFrom(s: string, base: nat, last: Last): Option<nat> {
    var sc := ScanAll(s, base, Scan(0, 0, last, true));
    if sc.ok && sc.count > 0 && !sc.last.Separator? then Some(sc.value) else None
  }

  /** Base 0: the base follows from the prefix 0b, 0o, 0x or 0, else it is ten. */
  function ScanNat(s: string): Option<nat> {
    if s == [] then None
    else if s[0] != '0' then ScanFrom(s, 10, Other)
    else if |s| == 1 then Some(0)
    else if s[1] == 'b' || s[1] == 'B' then ScanFrom(s[2..], 2, Digit)
    else if s[1] == 'o' || s[1] == 'O' then ScanFrom(s[2..], 8, Digit)
    else if s[1] == 'x' || s[1] == 'X' then ScanFrom(s[2..], 16, Digit)
    else ScanFrom(s[1..], 8, Digit)
  }

  function ScanInt(s: string): Option<int> {
    var signed := s != [] && (s[0] == '+' || s[0] == '-');
    var n := ScanNat(if signed then s[1..] else s);
    if n.None? then None
    else
      var v: int := n.value;
      Some(if signed && s[0] == '-' then -v else v)
  }

  // ---------------------------------------------------------------- components

  datatype Error = Ambiguous | Empty | Invalid | OutOfRange

  datatype Result<+T> = Ok(value: T) | Err(error: Error)

  function ParseComponent(component: string): (r: Result<nat>)
    ensures r.Ok? ==> r.value < U32
  {
    ParseTrimmed(TrimSpace(component))
  }

  function ParseTrimmed(trimmed: string): (r: Result<nat>)
    ensures r.Ok? ==> r.value < U32
  {
    var hardened := trimmed != [] && trimmed[|trimmed| - 1] == '\'';
    var value := if hardened then HARDENED else 0;
    var digits := if hardened then TrimSpace(trimmed[..|trimmed| - 1]) else trimmed;
    var bigval := ScanInt(digits);
    if bigval.None? then Err(Invalid)
    else if bigval.value < 0 || bigval.value > U32 - 1 - value then Err(OutOfRange)
    else Ok(value + bigval.value)
  }

  function Decimal(n: nat): (s: string)
    ensures s != []
  {
    if n < 10 then [('0' as int + n) as char] else Decimal(n / 10) + [('0' as int + n % 10) as char]
  }

  function PrintComponent(c: nat): string {
    if c >= HARDENED then Decimal(c - HARDENED) + "'" else Decimal(c)
  }

  // ---------------------------------------------------------------- paths

  /** The path so far, extended by the components, each read by `parse`; the first
      error wins. */
  function Extend(parse: string -> Result<nat>, path: Path, components: seq<string>): Result<Path> {
    if components == [] then Ok(path)
    else
      var front := Extend(parse, path, components[..|components| - 1]);
      var last := parse(components[|components| - 1]);
      if front.Err? then front
      else if last.Err? then Err(last.error)
      else Ok(front.value + [last.value])
  }

  function Parse(path: string): Result<Path> {
    var components := Split(path);
    var first := TrimSpace(components[0]);
    if first == "" then Err(Ambiguous)
    else if first != "m" then Extend(ParseComponent, DEFAULT_ROOT, components)
    else if |components| == 1 then Err(Empty)
    else Extend(ParseComponent, [], components[1..])
  }

  function Print(path: Path): string {
    if path == [] then "m" else Print(path[..|path| - 1]) + "/" + PrintComponent(path[|path| - 1])
  }

  method ParseDerivationPath(path: string) returns (r: Result<Path>)
    ensures r == Parse(path)
  {
    var components := Split(path);
    var result: Path := [];
    var first := TrimSpace(components[0]);
    if first == "" {
      return Err(Ambiguous);
    } else if first == "m" {
      components := components[1..];
    } else {
      result := DEFAULT_ROOT;
    }
    if |components| == 0 {
      return Err(Empty);
    }
    r := AppendComponents(ParseComponent, result, components);
  }

  /** The loop of ParseDerivationPath, which stops at the first bad component. */
  method AppendComponents(parse: string -> Result<nat>, path: Path, components: seq<string>)
    returns (r: Result<Path>)
    ensures r == Extend(parse, path, components)
  {
    var result := path;
    for i := 0 to |components|
      invariant Extend(parse, path, components[..i]) == Ok(result)
    {
      assert components[..i + 1][..i] == components[..i];
      var value := parse(components[i]);
      if value.Err? {
        ErrorStays(parse, path, components, i + 1);
        return Err(value.error);
      }
      result := result + [value.value];
    }
    assert components[..|components|] == components;
    return Ok(result);
  }

  lemma {:induction false} ErrorStays(parse: string -> Result<nat>, path: Path, components: seq<string>, k: nat)
    requires k <= |components| && Extend(parse, path, components[..k]).Err?
    ensures Extend(parse, path, components) == Extend(parse, path, components[..k])
    decreases |components|
  {
    if k < |components| {
      var front := components[..|components| - 1];
      assert front[..k] == components[..k];
      ErrorStays(parse, path, front, k);
    } else {
      assert components[..k] == components;
    }
  }

  /** DerivationPath.String */
  method String(path: Path) returns (s: string)
    ensures s == Print(path)
  {
    s := "m";
    for i := 0 to |path|
      invariant s == Print(path[..i])
    {
      var component, hardened := path[i], false;
      if component >= HARDENED {
        component, hardened := component - HARDENED, true;
      }
      assert path[..i + 1][..i] == path[..i];
      ghost var before := s;
      s := s + "/" + Decimal(component);
      if hardened {
        s := s + "'";
      }
      assert s == before + "/" + PrintComponent(path[i]);
    }
    assert path[..|path|] == path;
  }

  // ---------------------------------------------------------------- printing, then parsing

  /** What printing emits inside a component. */
  predicate Plain(s: string) {
    forall c :: c in s ==> '0' <= c <= '9' || c == '\''
  }

  lemma {:induction false} SplitWhole(s: string)
    requires '/' !in s
    ensures Split(s) == [s]
  {
    if s != [] {
      assert s[0] in s;
      assert forall c :: c in s[1..] ==> c in s;
      SplitWhole(s[1..]);
      assert [s[0]] + s[1..] == s;
    }
  }

  lemma {:induction false} SplitAppend(s: string, last: string)
    requires Plain(last)
    ensures Split(s + "/" + last) == Split(s) + [last]
  {
    var t := s + "/" + last;
    if s == [] {
      assert t[1..] == last;
      SplitWhole(last);
    } else {
      assert t[1..] == s[1..] + "/" + last;
      SplitAppend(s[1..], last);
    }
  }

  lemma {:induction false} DecimalPlain(n: nat)
    ensures Plain(Decimal(n))
    ensures Decimal(n)[0] != '0' || n == 0
    ensures forall c :: c in Decimal(n) ==> c != '\''
  {
    if n >= 10 {
      DecimalPlain(n / 10);
    }
  }

  lemma {:induction false} DecimalScans(n: nat)
    ensures ScanAll(Decimal(n), 10, Scan(0, 0, Other, true)) == Scan(n, |Decimal(n)|, Digit, true)
  {
    var s := Decimal(n);
    if n >= 10 {
      DecimalScans(n / 10);
      assert s[..|s| - 1] == Decimal(n / 10);
    } else {
      assert s[..|s| - 1] == [];
    }
  }

  /** A printed number is read in base ten: it has no leading zero to announce
      another base, and no sign. */
  lemma DecimalReadsBack(n: nat)
    ensures ScanInt(Decimal(n)) == Some(n)
  {
    DecimalPlain(n);
    DecimalScans(n);
    assert Decimal(n)[0] in Decimal(n);
    if Decimal(n)[0] == '0' {
      assert |Decimal(n)| == 1;
    }
  }

  lemma TrimPlain(s: string)
    requires Plain(s)
    ensures TrimSpace(s) == s
  {
    if s != [] {
      assert s[0] in s && s[|s| - 1] in s;
    }
  }

  lemma ComponentRoundTrip(c: nat)
    requires c < U32
    ensures ParseComponent(PrintComponent(c)) == Ok(c)
  {
    var n := if c >= HARDENED then c - HARDENED else c;
    var s, d := PrintComponent(c), Decimal(n);
    DecimalPlain(n);
    DecimalReadsBack(n);
    TrimPlain(d);
    TrimPlain(s);
    assert s[|s| - 1] in s && d[|d| - 1] in d;
    assert c >= HARDENED ==> s[..|s| - 1] == d;
  }

  ghost predicate Printed(path: Path, components: seq<string>) {
    |components| == |path| && forall i :: 0 <= i < |path| ==> components[i] == PrintComponent(path[i])
  }

  lemma PrintedAppend(path: Path, components: seq<string>, last: nat)
    requires Printed(path, components)
    ensures Printed(path + [last], components + [PrintComponent(last)])
  {
  }

  lemma SplitStep(s: string, components: seq<string>, last: string)
    requires Split(s) == ["m"] + components && Plain(last)
    ensures Split(s + "/" + last) == ["m"] + (components + [last])
  {
    SplitAppend(s, last);
  }

  lemma PrintPlain(c: nat)
    ensures Plain(PrintComponent(c))
  {
    DecimalPlain(c);
    if c >= HARDENED {
      DecimalPlain(c - HARDENED);
    }
  }

  lemma {:induction false} SplitPrint(path: Path) returns (components: seq<string>)
    ensures Split(Print(path)) == ["m"] + components && Printed(path, components)
  {
    if path == [] {
      SplitWhole("m");
      components := [];
    } else {
      var front, last := path[..|path| - 1], path[|path| - 1];
      var before := SplitPrint(front);
      components := before + [PrintComponent(last)];
      PrintPlain(last);
      SplitStep(Print(front), before, PrintComponent(last));
      PrintedAppend(front, before, last);
      PrintStep(front, last);
      assert path == front + [last];
    }
  }

  lemma PrintStep(path: Path, last: nat)
    ensures Print(path + [last]) == Print(path) + "/" + PrintComponent(last)
  {
    assert (path + [last])[..|path|] == path;
  }

  lemma {:induction false} ExtendAll(parse: string -> Result<nat>, path: Path, components: seq<string>)
    requires |components| == |path| && forall i :: 0 <= i < |path| ==> parse(components[i]) == Ok(path[i])
    ensures Extend(parse, [], components) == Ok(path)
  {
    if path != [] {
      var front, last := path[..|path| - 1], path[|path| - 1];
      ExtendAll(parse, front, components[..|path| - 1]);
      assert front + [last] == path;
    }
  }

  lemma ExtendPrinted(path: Path, components: seq<string>)
    requires IsPath(path) && Printed(path, components)
    ensures Extend(ParseComponent, [], components) == Ok(path)
  {
    forall i | 0 <= i < |path|
      ensures ParseComponent(components[i]) == Ok(path[i])
    {
      assert path[i] in path;
      ComponentRoundTrip(path[i]);
    }
    ExtendAll(ParseComponent, path, components);
  }

  /** Printing a path of 32-bit components and parsing it gives the path back,
      exactly when it is not empty. */
  lemma RoundTrip(path: Path)
    requires IsPath(path)
    ensures Parse(Print(path)) == if path == [] then Err(Empty) else Ok(path)
  {
    var components := SplitPrint(path);
    assert TrimSpace("m") == "m";
    ExtendPrinted(path, components);
    assert Split(Print(path))[1..] == components;
  }

  lemma {:induction false} ExtendIsPath(parse: string -> Result<nat>, path: Path, components: seq<string>)
    requires IsPath(path) && forall s: string :: parse(s).Ok? ==> parse(s).value < U32
    ensures var r := Extend(parse, path, components);
            r.Ok? ==> IsPath(r.value) && |r.value| == |path| + |components| && path <= r.value
  {
    if components != [] {
      ExtendIsPath(parse, path, components[..|components| - 1]);
    }
  }

  /** Printing what was parsed, in whatever base, spacing or relative form it was
      written, and parsing again changes nothing. */
  lemma ParsePrintParse(s: string)
    ensures var r := Parse(s);
            r.Ok? ==> IsPath(r.value) && r.value != [] && Parse(Print(r.value)) == r
  {
    var components := Split(s);
    var r := Parse(s);
    ExtendIsPath(ParseComponent, DEFAULT_ROOT, components);
    ExtendIsPath(ParseComponent, [], components[1..]);
    if r.Ok? {
      RoundTrip(r.value);
    }
  }

  /** The printed form is canonical: one string per path. */
  lemma PrintInjective(p: Path, q: Path)
    requires IsPath(p) && IsPath(q) && Print(p) == Print(q)
    ensures p == q
  {
    RoundTrip(p);
    RoundTrip(q);
  }

  // ---------------------------------------------------------------- white space

  predicate Spaces(s: string) {
    forall c :: c in s ==> IsSpace(c)
  }

  lemma {:induction false} TrimLeftPrefix(pre: string, s: string)
    requires Spaces(pre)
    ensures TrimLeft(pre + s) == TrimLeft(s)
  {
    if pre == [] {
      assert pre + s == s;
    } else {
      assert pre[0] in pre;
      assert (pre + s)[1..] == pre[1..] + s;
      TrimLeftPrefix(pre[1..], s);
    }
  }

  lemma {:induction false} TrimRightSuffix(s: string, post: string)
    requires Spaces(post)
    ensures TrimRight(s + post) == TrimRight(s)
  {
    if post == [] {
      assert s + post == s;
    } else {
      var front := post[..|post| - 1];
      assert post[|post| - 1] in post;
      assert forall c :: c in front ==> c in post;
      assert (s + post)[..|s + post| - 1] == s + front;
      TrimRightSuffix(s, front);
    }
  }

  lemma {:induction false} TrimLeftSuffix(s: string, post: string)
    requires Spaces(post)
    ensures TrimLeft(s + post) == if TrimLeft(s) == [] then [] else TrimLeft(s) + post
  {
    if s == [] {
      TrimLeftPrefix(post, []);
      assert post + [] == post == s + post;
    } else if IsSpace(s[0]) {
      assert (s + post)[1..] == s[1..] + post;
      TrimLeftSuffix(s[1..], post);
    }
  }

  lemma TrimPadded(pre: string, s: string, post: string)
    requires Spaces(pre) && Spaces(post)
    ensures TrimSpace(pre + s + post) == TrimSpace(s)
  {
    assert pre + s + post == pre + (s + post);
    TrimLeftPrefix(pre, s + post);
    TrimLeftSuffix(s, post);
    TrimRightSuffix(TrimLeft(s), post);
  }

  /** White space around a component is ignored. */
  lemma WhitespaceIgnored(pre: string, s: string, post: string)
    requires Spaces(pre) && Spaces(post)
    ensures ParseComponent(pre + s + post) == ParseComponent(s)
  {
    TrimPadded(pre, s, post);
  }

  // ---------------------------------------------------------------- iterators

  /** DefaultIterator (which steps the last component) and LedgerLiveIterator (which
      steps the third): a closure over a private copy of the base path. */
  class PathIterator {
    const path: array<nat>
    const step: nat
    ghost const base: seq<nat>
    ghost var calls: nat

    ghost predicate Valid()
      reads this, path
    {
      step < |base| == path.Length && base[step] < U32 &&
      path[..] == base[step := if calls == 0 then (base[step] + U32 - 1) % U32
                               else (base[step] + calls - 1) % U32]
    }

    constructor (from: array<nat>, at: nat)
      requires at < from.Length && from[at] < U32
      ensures Valid() && fresh(path) && calls == 0 && base == from[..] && step == at
    {
      path := new nat[from.Length](i requires 0 <= i < from.Length reads from => from[i]);
      step := at;
      base := from[..];
      calls := 0;
      new;
      path[at] := (path[at] + U32 - 1) % U32;
    }

    /** The n-th call yields the base with n - 1 added to the stepped component, on
        32 bits. The result is the closure's own array: earlier results are the
        same array and change with it. */
    method Next() returns (r: array<nat>)
      requires Valid()
      modifies this`calls, path
      ensures Valid() && calls == old(calls) + 1 && r == path
      ensures r[..] == base[step := (base[step] + old(calls)) % U32]
    {
      path[step] := (path[step] + 1) % U32;
      calls := calls + 1;
      return path;
    }
  }
}
