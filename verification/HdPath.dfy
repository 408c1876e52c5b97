/** Derivation paths of chain/accounts/hd.go: the printer and the parser. */
module HdPath {
  const HARDENED: nat := 0x8000_0000
  const MAX_UINT32: nat := 0xFFFF_FFFF

  type Path = seq<nat>

  /** m/44'/60'/0'/0 */
  const DEFAULT_ROOT: Path := [HARDENED + 44, HARDENED + 60, HARDENED + 0, 0]

  datatype Error = EmptyPath | AmbiguousPath | InvalidComponent | OutOfRange

  datatype Result<T> = Ok(value: T) | Err(error: Error)

  datatype Option<T> = None | Some(value: T)

  predicate InRange(path: Path) { forall i :: 0 <= i < |path| ==> path[i] <= MAX_UINT32 }

  // ---- strings ----

  predicate IsSpace(c: char) {
    || '\t' <= c <= '\r' || c == ' ' || c == '\U{85}' || c == '\U{A0}' || c == '\U{1680}' ||
        '\U{2000}' <= c <= '\U{200A}'
    || c == '\U{2028}' || c == '\U{2029}' || c == '\U{202F}' || c == '\U{205F}' || c == '\U{3000}'
  }

  function TrimLeft(s: string): string { if s != [] && IsSpace(s[0]) then TrimLeft(s[1..]) else s }

  function TrimRight(s: string): string { if s != [] && IsSpace(s[|s| - 1]) then TrimRight(s[..|s| - 1]) else s }

  function Trim(s: string): string { TrimRight(TrimLeft(s)) }

  /** The parts between slashes. */
  function Split(s: string): (r: seq<string>)
    ensures |r| >= 1
  {
    if s == [] then [[]]
    else if s[0] == '/' then [[]] + Split(s[1..])
    else var r := Split(s[1..]); [[s[0]] + r[0]] + r[1..]
  }

  /** The value of a digit, or 99. */
  function DigitOf(c: char): nat {
    if '0' <= c <= '9' then (c - '0') as nat
    else if 'a' <= c <= 'z' then (c - 'a') as nat + 10
    else if 'A' <= c <= 'Z' then (c - 'A') as nat + 10
    else 99
  }

  predicate AllDigits(s: string, base: nat) { s != [] && forall i :: 0 <= i < |s| ==> DigitOf(s[i]) < base }

  function Value(s: string, base: nat): nat {
    if s == [] then 0 else Value(s[..|s| - 1], base) * base + DigitOf(s[|s| - 1])
  }

  /** The digits after the sign: base 16, 2 or 8 by prefix, else 10. This is the parser of Go 1.9,
      which chain/.travis.yml:34 and chain/Dockerfile:2 build with; from Go 1.13 on it also reads the
      prefix 0o and underscores. */
  function Unsigned(s: string): Option<nat> {
    if |s| >= 2 && s[0] == '0' then
      if s[1] == 'x' || s[1] == 'X' then Digits(s[2..], 16)
      else if s[1] == 'b' || s[1] == 'B' then Digits(s[2..], 2)
      else Digits(s[1..], 8)
    else Digits(s, 10)
  }

  function Digits(s: string, base: nat): Option<nat> { if AllDigits(s, base) then Some(Value(s, base)) else None }

  function Signed(u: Option<nat>, negative: bool): Option<int> {
    if u.None? then None else
      var v: int := u.value;
      Some(if negative then -v else v)
  }

  /** A number with optional sign and base prefix, as the big integer parser reads it. */
  function Number(s: string): Option<int> {
    if s != [] && (s[0] == '-' || s[0] == '+') then
      Signed(Unsigned(s[1..]), s[0] == '-')
    else Signed(Unsigned(s), false)
  }

  // ---- the specification ----

  function Decimal(n: nat): string {
    if n < 10 then [Digit(n)] else Decimal(n / 10) + [Digit(n % 10)]
  }

  function Digit(d: nat): char
    requires d < 10
  {
    '0' + d as char
  }

  function Component(x: nat): string {
    if x >= HARDENED then Decimal(x - HARDENED) + "'" else Decimal(x)
  }

  function Printed(path: Path): string {
    if path == [] then "" else Printed(path[..|path| - 1]) + "/" + Component(path[|path| - 1])
  }

  function ParseComponent(c: string): Result<nat> {
    var t := Trim(c);
    var hardened := t != [] && t[|t| - 1] == '\'';
    var digits := if hardened then Trim(t[..|t| - 1]) else t;
    var value := if hardened then HARDENED else 0;
    match Number(digits)
    case None => Err(InvalidComponent)
    case Some(v) => if v < 0 || v > MAX_UINT32 - value then Err(OutOfRange) else Ok(value + v)
  }

  /** All the values, or the error of the first that has none. */
  function Collect(rs: seq<Result<nat>>): Result<Path> {
    if rs == [] then Ok([]) else
      match Collect(rs[..|rs| - 1])
      case Err(e) => Err(e)
      case Ok(path) =>
        match rs[|rs| - 1]
        case Err(e) => Err(e)
        case Ok(x) => Ok(path + [x])
  }

  function Readings(cs: seq<string>): seq<Result<nat>> { seq(|cs|, i requires 0 <= i < |cs| => ParseComponent(cs[i])) }

  function ParseAll(cs: seq<string>): Result<Path> { Collect(Readings(cs)) }

  function Parse(s: string): Result<Path> {
    var cs := Split(s);
    if Trim(cs[0]) == "" then Err(AmbiguousPath)
    else if Trim(cs[0]) == "m" then
      if |cs| == 1 then Err(EmptyPath) else ParseAll(cs[1..])
    else
      match ParseAll(cs)
      case Err(e) => Err(e)
      case Ok(path) => Ok(DEFAULT_ROOT + path)
  }

  // ---- the code ----

  /** DerivationPath.String. */
  method ToString(path: Path) returns (s: string)
    ensures s == "m" + Printed(path)
  {
    s := "m";
    for i := 0 to |path|
      invariant s == "m" + Printed(path[..i])
    {
      var c := PrintComponent(path[i]);
      PrintedStep(path, i);
      Regroup("m", Printed(path[..i]), c);
      s := s + "/" + c;
    }
    assert path[..|path|] == path;
  }

  method PrintComponent(x: nat) returns (c: string)
    ensures c == Component(x)
  {
    var component, hardened := x, false;
    if component >= HARDENED { component, hardened := component - HARDENED, true; }
    c := Decimal(component);
    if hardened { c := c + "'"; }
  }

  lemma PrintedStep(path: Path, i: nat)
    requires i < |path|
    ensures Printed(path[..i + 1]) == Printed(path[..i]) + "/" + Component(path[i])
  {
    assert path[..i + 1][..i] == path[..i];
  }

  /** ParseDerivationPath. */
  method ParseDerivationPath(s: string) returns (r: Result<Path>)
    ensures r == Parse(s)
  {
    var components := Split(s);
    if Trim(components[0]) == "" {
      return Err(AmbiguousPath);
    } else if Trim(components[0]) == "m" {
      components := components[1..];
      if |components| == 0 {
        return Err(EmptyPath);
      }
      r := AppendAll([], components);
      assert r.Ok? ==> [] + ParseAll(components).value == ParseAll(components).value;
    } else {
      r := AppendAll(DEFAULT_ROOT, components);
    }
  }

  /** The loop over the components. */
  method AppendAll(start: Path, components: seq<string>) returns (r: Result<Path>)
    ensures r == match ParseAll(components) case Err(e) => Err(e) case Ok(path) => Ok(start + path)
  {
    var result := start;
    ghost var seen: Path, rs := [], Readings(components);
    for i := 0 to |components|
      invariant Collect(rs[..i]) == Ok(seen) && result == start + seen
    {
      var c := ReadComponent(components[i]);
      assert c == rs[i];
      if c.Err? {
        FailsAt(rs, i);
        return Err(c.error);
      }
      CollectStep(rs, i, seen, c.value);
      assert result + [c.value] == start + (seen + [c.value]);
      result, seen := result + [c.value], seen + [c.value];
    }
    assert rs[..|rs|] == rs;
    return Ok(result);
  }

  method ReadComponent(c: string) returns (r: Result<nat>)
    ensures r == ParseComponent(c)
  {
    var component, value: nat := Trim(c), 0;
    if component != [] && component[|component| - 1] == '\'' {
      value := HARDENED;
      component := Trim(component[..|component| - 1]);
    }
    var number := Number(component);
    if number.None? {
      return Err(InvalidComponent);
    }
    if number.value < 0 || number.value > MAX_UINT32 - value {
      return Err(OutOfRange);
    }
    return Ok(value + number.value);
  }

  lemma CollectStep(rs: seq<Result<nat>>, i: nat, path: Path, x: nat)
    requires i < |rs| && Collect(rs[..i]) == Ok(path) && rs[i] == Ok(x)
    ensures Collect(rs[..i + 1]) == Ok(path + [x])
  {
    assert rs[..i + 1][..i] == rs[..i];
  }

  /** The first bad component decides the error. */
  lemma {:induction false} FailsAt(rs: seq<Result<nat>>, i: nat)
    requires i < |rs| && Collect(rs[..i]).Ok? && rs[i].Err?
    ensures Collect(rs) == Err(rs[i].error)
    decreases |rs|
  {
    if i == |rs| - 1 {
      assert rs[..i] == rs[..|rs| - 1];
    } else {
      assert rs[..|rs| - 1][..i] == rs[..i];
      FailsAt(rs[..|rs| - 1], i);
    }
  }

  ghost predicate AllOk(rs: seq<Result<nat>>, path: Path) {
    |rs| == |path| && forall i :: 0 <= i < |rs| ==> rs[i] == Ok(path[i])
  }

  lemma {:induction false} CollectOk(rs: seq<Result<nat>>, path: Path)
    requires AllOk(rs, path)
    ensures Collect(rs) == Ok(path)
  {
    if rs != [] {
      CollectOk(rs[..|rs| - 1], path[..|rs| - 1]);
      assert path == path[..|rs| - 1] + [path[|rs| - 1]];
    }
  }

  lemma {:induction false} CollectedOk(rs: seq<Result<nat>>)
    requires Collect(rs).Ok?
    ensures AllOk(rs, Collect(rs).value)
  {
    if rs != [] { CollectedOk(rs[..|rs| - 1]); }
  }

  // ---- the round trip ----

  lemma {:induction false} DecimalFacts(n: nat)
    ensures AllDigits(Decimal(n), 10) && Value(Decimal(n), 10) == n
    ensures (n > 0 ==> Decimal(n)[0] != '0') && forall i :: 0 <= i < |Decimal(n)| ==> '0' <= Decimal(n)[i] <= '9'
  {
    if n >= 10 {
      DecimalFacts(n / 10);
      var d := Decimal(n);
      assert d[..|d| - 1] == Decimal(n / 10);
    }
  }

  /** Printed numbers are read in base ten. */
  lemma NumberOfDecimal(n: nat)
    ensures Number(Decimal(n)) == Some(n)
  {
    DecimalFacts(n);
    if n == 0 { assert Decimal(0) == "0"; }
  }

  lemma {:induction false} TrimNothing(s: string)
    requires s == [] || (!IsSpace(s[0]) && !IsSpace(s[|s| - 1]))
    ensures Trim(s) == s
  {
  }

  lemma ComponentRoundTrip(x: nat)
    requires x <= MAX_UINT32
    ensures ParseComponent(Component(x)) == Ok(x)
  {
    var n := if x >= HARDENED then x - HARDENED else x;
    DecimalFacts(n);
    NumberOfDecimal(n);
    TrimNothing(Decimal(n));
    TrimNothing(Component(x));
    if x >= HARDENED { assert Component(x)[..|Component(x)| - 1] == Decimal(n); }
  }

  /** A component is printed in decimal digits without leading zeros, and an apostrophe if it is
      hardened, which takes 2^31 off its value. */
  lemma ComponentForm(x: nat)
    ensures var c, hard := Component(x), x >= 0x8000_0000;
            var k := |c| - if hard then 1 else 0;
            && k > 0 && (hard ==> c[k] == '\'') && (forall i :: 0 <= i < k ==> '0' <= c[i] <= '9')
            && Value(c[..k], 10) == (if hard then x - 0x8000_0000 else x) && (c[0] == '0' ==> k == 1)
  {
    var n := if x >= HARDENED then x - HARDENED else x;
    DecimalFacts(n);
    assert Component(x)[..|Decimal(n)|] == Decimal(n);
    if n == 0 { assert Decimal(0) == "0"; }
  }

  ghost predicate NoSlash(s: string) { forall i :: 0 <= i < |s| ==> s[i] != '/' }

  /** A slash-free ending is the last part. */
  lemma {:induction false} SplitAppend(s: string, t: string)
    requires NoSlash(t)
    ensures Split(s + "/" + t) == Split(s) + [t]
  {
    var u := s + "/" + t;
    if s == [] {
      assert u[1..] == t;
      SplitPlain(t);
    } else {
      SplitAppend(s[1..], t);
      assert u[1..] == s[1..] + "/" + t;
    }
  }

  lemma {:induction false} SplitPlain(t: string)
    requires NoSlash(t)
    ensures Split(t) == [t]
  {
    if t != [] {
      SplitPlain(t[1..]);
      assert [t[0]] + t[1..] == t;
    }
  }

  function Components(path: Path): seq<string> { seq(|path|, i requires 0 <= i < |path| => Component(path[i])) }

  lemma {:induction false} SplitPrinted(path: Path, i: nat)
    requires InRange(path) && i <= |path|
    ensures Split("m" + Printed(path[..i])) == ["m"] + Components(path)[..i]
  {
    if i == 0 {
      SplitPlain("m");
      assert path[..0] == [] && Components(path)[..0] == [];
    } else {
      var k := i - 1;
      SplitPrinted(path, k);
      PrintedStep(path, k);
      NoSlashIn(path[k]);
      ComponentsStep(path, k, i);
      SplitNext(Printed(path[..k]), Component(path[k]), Components(path)[..k]);
    }
  }

  lemma ComponentsStep(path: Path, k: nat, i: nat)
    requires k < |path| && i == k + 1
    ensures Components(path)[..i] == Components(path)[..k] + [Component(path[k])]
  {
  }

  lemma SplitNext(front: string, c: string, cs: seq<string>)
    requires NoSlash(c) && Split("m" + front) == ["m"] + cs
    ensures Split("m" + (front + "/" + c)) == ["m"] + (cs + [c])
  {
    SplitAppend("m" + front, c);
    Regroup("m", front, c);
    assert ["m"] + cs + [c] == ["m"] + (cs + [c]);
  }

  lemma Regroup(a: string, b: string, c: string)
    ensures a + (b + "/" + c) == a + b + "/" + c
  {
  }

  lemma NoSlashIn(x: nat)
    ensures NoSlash(Component(x))
  {
    DecimalFacts(if x >= HARDENED then x - HARDENED else x);
  }

  lemma ParseAllPrinted(path: Path)
    requires InRange(path)
    ensures ParseAll(Components(path)) == Ok(path)
  {
    var rs := Readings(Components(path));
    forall i | 0 <= i < |path|
      ensures rs[i] == Ok(path[i])
    {
      ComponentRoundTrip(path[i]);
    }
    CollectOk(rs, path);
  }

  /** Parsing the printed form of a path gives the path back; only the empty path has no form that
      parses. */
  lemma RoundTrip(path: Path)
    requires InRange(path)
    ensures Parse("m" + Printed(path)) == if path == [] then Err(EmptyPath) else Ok(path)
  {
    SplitPrinted(path, |path|);
    TrimNothing("m");
    ParseAllPrinted(path);
    assert path[..|path|] == path && Components(path)[..|path|] == Components(path);
    assert (["m"] + Components(path))[1..] == Components(path);
  }

  lemma ReadInRange(c: string)
    ensures ParseComponent(c).Ok? ==> ParseComponent(c).value <= MAX_UINT32
  {
  }

  lemma ParsedInRange(cs: seq<string>)
    ensures ParseAll(cs).Ok? ==> InRange(ParseAll(cs).value) && |ParseAll(cs).value| == |cs|
  {
    var rs := Readings(cs);
    if Collect(rs).Ok? {
      CollectedOk(rs);
      forall i | 0 <= i < |cs|
        ensures Collect(rs).value[i] <= MAX_UINT32
      {
        ReadInRange(cs[i]);
        assert rs[i] == ParseComponent(cs[i]);
      }
    }
  }

  /** Whatever parses, prints to something that parses to the same path. */
  lemma Stable(s: string)
    ensures Parse(s).Ok? ==> InRange(Parse(s).value) && Parse("m" + Printed(Parse(s).value)) == Parse(s)
  {
    var cs := Split(s);
    ParsedInRange(cs);
    ParsedInRange(cs[1..]);
    if Parse(s).Ok? { RoundTrip(Parse(s).value); }
  }

  // ---- relative paths ----

  lemma {:induction false} SplitJoin(a: string, b: string, u: string)
    requires u == a + "/" + b
    ensures Split(u) == Split(a) + Split(b)
  {
    if a == [] {
      assert u[1..] == b;
    } else {
      assert u[1..] == a[1..] + "/" + b;
      SplitJoin(a[1..], b, u[1..]);
      PartsJoin(a[0], Split(a[1..]), Split(b));
    }
  }

  lemma PartsJoin(c: char, p: seq<string>, q: seq<string>)
    requires p != []
    ensures [[c] + (p + q)[0]] + (p + q)[1..] == [[c] + p[0]] + p[1..] + q
    ensures [[]] + (p + q) == [[]] + p + q
  {
  }

  lemma Dropped(p: string, s: string)
    ensures (p + s)[|p|..] == s
  {
  }

  lemma {:induction false} CollectJoin(path: Path, rs: seq<Result<nat>>, more: seq<Result<nat>>)
    requires Collect(rs) == Ok(path)
    ensures Collect(rs + more) == match Collect(more) case Err(e) => Err(e) case Ok(p) => Ok(path + p)
    decreases |more|
  {
    if more == [] {
      assert rs + more == rs && path + [] == path;
    } else {
      CollectJoin(path, rs, more[..|more| - 1]);
      assert (rs + more)[..|rs + more| - 1] == rs + more[..|more| - 1];
      CollectLast(path, Collect(more[..|more| - 1]), more[|more| - 1]);
    }
  }

  lemma CollectLast(path: Path, front: Result<Path>, last: Result<nat>)
    ensures front.Ok? && last.Ok? ==> path + front.value + [last.value] == path + (front.value + [last.value])
  {
  }

  /** The default root's printed form in front of a relative path, in parts. */
  lemma RelativeParts(s: string, cs: seq<string>)
    requires cs == Components(DEFAULT_ROOT) + Split(s)
    ensures Split("m" + Printed(DEFAULT_ROOT) + "/" + s) == ["m"] + cs
  {
    var k := |DEFAULT_ROOT|;
    SplitPrinted(DEFAULT_ROOT, k);
    assert DEFAULT_ROOT[..k] == DEFAULT_ROOT && Components(DEFAULT_ROOT)[..k] == Components(DEFAULT_ROOT);
    SplitJoin("m" + Printed(DEFAULT_ROOT), s, "m" + Printed(DEFAULT_ROOT) + "/" + s);
  }

  lemma RootAndMore(cs: seq<string>)
    ensures ParseAll(Components(DEFAULT_ROOT) + cs) ==
            match ParseAll(cs) case Err(e) => Err(e) case Ok(path) => Ok(DEFAULT_ROOT + path)
  {
    var root := Components(DEFAULT_ROOT);
    ParseAllPrinted(DEFAULT_ROOT);
    CollectJoin(DEFAULT_ROOT, Readings(root), Readings(cs));
    assert Readings(root + cs) == Readings(root) + Readings(cs);
  }

  lemma ParseOfParts(s: string, cs: seq<string>)
    requires Split(s) == ["m"] + cs && cs != []
    ensures Parse(s) == ParseAll(cs)
  {
    TrimNothing("m");
    assert (["m"] + cs)[1..] == cs;
  }

  /** A relative path is read as the default root's printed form, a slash and that path; the default
      root is m/44'/60'/0'/0. */
  lemma Relative(s: string)
    requires Trim(Split(s)[0]) != "" && Trim(Split(s)[0]) != "m"
    ensures Parse(s) == Parse("m" + Printed(DEFAULT_ROOT) + "/" + s)
    ensures DEFAULT_ROOT == [0x8000_0000 + 44, 0x8000_0000 + 60, 0x8000_0000, 0]
  {
    var cs := Components(DEFAULT_ROOT) + Split(s);
    RelativeParts(s, cs);
    ParseOfParts("m" + Printed(DEFAULT_ROOT) + "/" + s, cs);
    RootAndMore(Split(s));
  }

  /** A leading slash is refused, and so are numbers that do not fit, hardened or not. */
  lemma Refused(s: string, n: nat)
    ensures Parse("/" + s) == Err(AmbiguousPath)
    ensures n > 0xFFFF_FFFF ==> ParseComponent(Decimal(n)) == Err(OutOfRange)
    ensures n > 0x7FFF_FFFF ==> ParseComponent(Decimal(n) + "'") == Err(OutOfRange)
  {
    assert Split("/" + s)[0] == "";
    DecimalFacts(n);
    NumberOfDecimal(n);
    TrimNothing(Decimal(n));
    TrimNothing(Decimal(n) + "'");
    assert (Decimal(n) + "'")[..|Decimal(n)|] == Decimal(n);
  }

  // ---- other ways to write a number ----

  /** The base prefixes: what follows is read in base 16, 2 or 8. */
  lemma NumberForms(s: string)
    ensures Number("0x" + s) == Number("0X" + s) == Signed(Digits(s, 16), false)
    ensures Number("0b" + s) == Number("0B" + s) == Signed(Digits(s, 2), false)
    ensures AllDigits(s, 8) ==> Number("0" + s) == Signed(Digits(s, 8), false)
  {
    Dropped("0x", s);
    Dropped("0X", s);
    Dropped("0b", s);
    Dropped("0B", s);
    Dropped("0", s);
    assert AllDigits(s, 8) ==> DigitOf(s[0]) < 8;
  }

  lemma SignForms(s: string)
    ensures Number("+" + s) == Signed(Unsigned(s), false) && Number("-" + s) == Signed(Unsigned(s), true)
  {
    Dropped("+", s);
    Dropped("-", s);
  }

  ghost predicate Blank(s: string) { forall i :: 0 <= i < |s| ==> IsSpace(s[i]) }

  lemma {:induction false} TrimLeftSpace(w: string, s: string)
    requires Blank(w)
    ensures TrimLeft(w + s) == TrimLeft(s)
  {
    if w == [] {
      assert w + s == s;
    } else {
      assert (w + s)[1..] == w[1..] + s;
      TrimLeftSpace(w[1..], s);
    }
  }

  lemma {:induction false} TrimRightSpace(s: string, w: string)
    requires Blank(w)
    ensures TrimRight(s + w) == TrimRight(s)
    decreases |w|
  {
    if w == [] {
      assert s + w == s;
    } else {
      assert (s + w)[..|s + w| - 1] == s + w[..|w| - 1];
      TrimRightSpace(s, w[..|w| - 1]);
    }
  }

  lemma {:induction false} TrimLeftKeeps(s: string, w: string)
    requires Blank(w)
    ensures TrimLeft(s + w) == if Blank(s) then [] else TrimLeft(s) + w
  {
    if s == [] {
      assert s + w == w;
      TrimLeftSpace(w, "");
      assert w + "" == w;
    } else if IsSpace(s[0]) {
      assert (s + w)[1..] == s[1..] + w;
      assert Blank(s) <==> Blank(s[1..]);
      TrimLeftKeeps(s[1..], w);
    }
  }

  lemma TrimAround(w: string, c: string, v: string)
    requires Blank(w) && Blank(v)
    ensures Trim(w + c + v) == Trim(c)
  {
    assert w + c + v == w + (c + v);
    TrimLeftSpace(w, c + v);
    TrimLeftKeeps(c, v);
    if Blank(c) {
      TrimLeftSpace(c, "");
      assert c + "" == c;
    } else {
      TrimRightSpace(TrimLeft(c), v);
    }
  }

  /** Space around a component is ignored. */
  lemma SpaceIgnored(w: string, c: string, v: string)
    requires Blank(w) && Blank(v)
    ensures ParseComponent(w + c + v) == ParseComponent(c)
  {
    TrimAround(w, c, v);
  }}
