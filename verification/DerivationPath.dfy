/** Numbers in text, as the decimal printer and the base-detecting scanner of the Go library treat them. */
module Numerals {
  import opened Common

  function Digit(d: nat): char
    requires d < 10
  {
    '0' + d as char
  }

  /** Decimal printing. */
  function Decimal(n: nat): (s: string)
    ensures s != [] && (n > 0 ==> s[0] != '0')
    ensures forall i :: 0 <= i < |s| ==> '0' <= s[i] <= '9'
  {
    if n < 10 then [Digit(n)] else Decimal(n / 10) + [Digit(n % 10)]
  }

  /** The value of a digit in bases up to 36; anything else is too large for every base. */
  function DigitValue(c: char): nat {
    if '0' <= c <= '9' then (c - '0') as nat
    else if 'a' <= c <= 'z' then (c - 'a') as nat + 10
    else if 'A' <= c <= 'Z' then (c - 'A') as nat + 10
    else 99
  }

  /** The scanner's state: value so far, digits counted, the kind of the previous character ('.' none, '0' digit, '_'
      separator) and whether a separator was misplaced. */
  datatype Scanner = Scanner(value: nat, count: nat, previous: char, misplaced: bool)

  /** Consumes digits of base `b` and separators; the rest is left over. */
  function Scan(s: string, b: nat, st: Scanner): (Scanner, string) {
    if s == [] then (st, s)
    else if s[0] == '_' then
      Scan(s[1..], b, st.(misplaced := st.misplaced || st.previous != '0', previous := '_'))
    else if DigitValue(s[0]) >= b then (st, s)
    else Scan(s[1..], b, st.(value := st.value * b + DigitValue(s[0]), count := st.count + 1, previous := '0'))
  }

  /** An unsigned number with an optional base prefix, using all of `s`. */
  function Unsigned(s: string): Option<nat> {
    if s == "0" then Some(0)
    else
      var octal := |s| > 1 && s[0] == '0' && s[1] !in "bBoOxX";
      var (b, digits, previous) :=
        if |s| > 1 && s[0] == '0' then
          if s[1] in "bB" then (2, s[2..], '0')
          else if s[1] in "oO" then (8, s[2..], '0')
          else if s[1] in "xX" then (16, s[2..], '0')
          else (8, s[1..], '0')
        else (10, s, '.');
      var (st, rest) := Scan(digits, b, Scanner(0, 0, previous, false));
      if st.misplaced || st.previous == '_' || rest != [] || (st.count == 0 && !octal) then None
      else Some(st.value)
  }

  /** big.Int.SetString with base 0. */
  function SetString(s: string): Option<int> {
    if s != [] && s[0] == '-' then
      match Unsigned(s[1..])
      case None => None
      case Some(n) => var v: int := n; Some(-v)
    else if s != [] && s[0] == '+' then Unsigned(s[1..])
    else Unsigned(s)
  }

  lemma {:induction false} ScanDecimal(n: nat, rest: string)
    ensures Scan(Decimal(n) + rest, 10, Scanner(0, 0, '.', false))
         == Scan(rest, 10, Scanner(n, |Decimal(n)|, '0', false))
  {
    if n < 10 {
      assert (Decimal(n) + rest)[1..] == rest;
    } else {
      var tail := [Digit(n % 10)] + rest;
      assert Decimal(n) + rest == Decimal(n / 10) + tail;
      ScanDecimal(n / 10, tail);
      assert tail[1..] == rest;
    }
  }

  /** Scanning undoes printing. */
  lemma SetStringDecimal(n: nat)
    ensures SetString(Decimal(n)) == Some(n)
  {
    if n == 0 {
      assert Decimal(0) == "0";
    } else {
      var s := Decimal(n);
      ScanDecimal(n, []);
      assert s + [] == s;
      assert s[0] != '-' && s[0] != '+' && s[0] != '0';
    }
  }

  /** The digits of a number in any base up to sixteen. */
  function Positional(n: nat, b: nat): (s: string)
    requires 2 <= b <= 16
    ensures s != [] && forall i :: 0 <= i < |s| ==> DigitValue(s[i]) < b && s[i] != '_'
    decreases n
  {
    if n < b then [DigitOf(n)] else Smaller(n, b); Positional(n / b, b) + [DigitOf(n % b)]
  }

  function DigitOf(d: nat): (c: char)
    requires d < 16
    ensures DigitValue(c) == d && c != '_'
  {
    if d < 10 then '0' + d as char else 'a' + (d - 10) as char
  }

  lemma Smaller(n: nat, b: nat)
    requires 2 <= b <= n
    ensures 0 < n / b < n && n / b * b + n % b == n
  {
    assert n / b * 2 <= n / b * b by { TimesGrows(n / b, 2, b); }
  }

  lemma {:induction false} ScanPositional(n: nat, b: nat, rest: string, previous: char)
    requires 2 <= b <= 16
    ensures Scan(Positional(n, b) + rest, b, Scanner(0, 0, previous, false))
         == Scan(rest, b, Scanner(n, |Positional(n, b)|, '0', false))
    decreases n
  {
    if n < b {
      assert (Positional(n, b) + rest)[1..] == rest;
    } else {
      Smaller(n, b);
      var tail := [DigitOf(n % b)] + rest;
      assert Positional(n, b) + rest == Positional(n / b, b) + tail;
      ScanPositional(n / b, b, tail, previous);
      assert tail[1..] == rest;
    }
  }

  /** Hexadecimal, octal and binary numbers are recognised by their prefix; a mere zero in front also means octal. */
  lemma SetStringPrefixed(n: nat)
    ensures SetString("0x" + Positional(n, 16)) == Some(n) && SetString("0X" + Positional(n, 16)) == Some(n)
    ensures SetString("0o" + Positional(n, 8)) == Some(n) && SetString("0" + Positional(n, 8)) == Some(n)
    ensures SetString("0b" + Positional(n, 2)) == Some(n)
  {
    Prefixed(n, 16, "0x");
    Prefixed(n, 16, "0X");
    Prefixed(n, 8, "0o");
    Prefixed(n, 2, "0b");
    Octal(n);
  }

  lemma Prefixed(n: nat, b: nat, prefix: string)
    requires (b == 16 && prefix == "0x") || (b == 16 && prefix == "0X") || (b == 8 && prefix == "0o")
             || (b == 2 && prefix == "0b")
    ensures SetString(prefix + Positional(n, b)) == Some(n)
  {
    var s := prefix + Positional(n, b);
    assert s[0] == '0' && s[1] == prefix[1] && s[2..] == Positional(n, b);
    ScanPositional(n, b, [], '0');
    assert Positional(n, b) + [] == Positional(n, b);
  }

  lemma Octal(n: nat)
    ensures SetString("0" + Positional(n, 8)) == Some(n)
  {
    var s := "0" + Positional(n, 8);
    assert s[0] == '0' && DigitValue(s[1]) < 8 && s[1..] == Positional(n, 8);
    ScanPositional(n, 8, [], '0');
    assert Positional(n, 8) + [] == Positional(n, 8);
  }
}

/** accounts/hd.go: derivation paths of hierarchical deterministic wallets as text. */
module DerivationPath {
  import opened Numerals
  import opened Common

  const Hardened: nat := 0x8000_0000
  const MaxUint32: nat := 0xffff_ffff

  type Path = seq<nat>

  ghost predicate Fits(p: Path) { forall i :: 0 <= i < |p| ==> p[i] <= MaxUint32 }

  const DefaultRoot: Path := [Hardened + 44, Hardened + 60, Hardened + 0, 0]

  datatype Error = Ambiguous | Empty | InvalidComponent | OutOfRange
  datatype Result<+T> = Ok(value: T) | Err(error: Error)

  // ---------- splitting and joining ----------

  /** strings.Split at '/'. */
  function Split(s: string): (r: seq<string>)
    ensures |r| > 0
  {
    if s == [] then [[]]
    else
      var r := Split(s[1..]);
      if s[0] == '/' then [[]] + r else [[s[0]] + r[0]] + r[1..]
  }

  function Join(cs: seq<string>): string
    requires cs != []
  {
    if |cs| == 1 then cs[0] else cs[0] + "/" + Join(cs[1..])
  }

  lemma {:induction false} JoinSplit(s: string)
    ensures Join(Split(s)) == s
  {
    if s != [] {
      var r := Split(s[1..]);
      JoinSplit(s[1..]);
      if s[0] == '/' {
        assert ([[]] + r)[1..] == r;
      } else {
        var r' := [[s[0]] + r[0]] + r[1..];
        assert r'[1..] == r[1..];
        assert Join(r') == [s[0]] + Join(r);
      }
    }
  }

  lemma {:induction false} SplitFirst(c: string, rest: string)
    requires '/' !in c
    ensures Split(c) == [c] && Split(c + "/" + rest) == [c] + Split(rest)
  {
    var s := c + "/" + rest;
    if c == [] {
      assert s[1..] == rest;
    } else {
      SplitFirst(c[1..], rest);
      assert s[1..] == c[1..] + "/" + rest;
      assert [c[0]] + c[1..] == c;
    }
  }

  lemma {:induction false} SplitJoin(cs: seq<string>)
    requires cs != [] && forall i :: 0 <= i < |cs| ==> '/' !in cs[i]
    ensures Split(Join(cs)) == cs
  {
    if |cs| == 1 {
      SplitFirst(cs[0], []);
    } else {
      SplitJoin(cs[1..]);
      SplitFirst(cs[0], Join(cs[1..]));
    }
  }

  // ---------- components ----------

  /** White space as Unicode defines it. */
  predicate Space(c: char) {
    || '\t' <= c <= '\r' || c == ' ' || c == '\U{85}' || c == '\U{A0}' || c == '\U{1680}'
    || '\U{2000}' <= c <= '\U{200A}' || c == '\U{2028}' || c == '\U{2029}' || c == '\U{202F}'
    || c == '\U{205F}' || c == '\U{3000}'
  }

  /** strings.TrimSpace. */
  function Trim(s: string): string {
    if s == [] then s
    else if Space(s[0]) then Trim(s[1..])
    else if Space(s[|s| - 1]) then Trim(s[..|s| - 1])
    else s
  }

  ghost predicate Blank(s: string) { forall i :: 0 <= i < |s| ==> Space(s[i]) }

  lemma {:induction false} TrimLeft(a: string, s: string)
    requires Blank(a)
    ensures Trim(a + s) == Trim(s)
  {
    if a != [] {
      assert (a + s)[1..] == a[1..] + s;
      TrimLeft(a[1..], s);
    } else {
      assert a + s == s;
    }
  }

  lemma {:induction false} TrimRight(s: string, b: string)
    requires Blank(b)
    ensures Trim(s + b) == Trim(s)
    decreases |s| + |b|
  {
    var t := s + b;
    if b == [] {
      assert t == s;
    } else if s == [] {
      assert t == b && b + [] == b;
      TrimLeft(b, []);
    } else if Space(s[0]) {
      assert t[1..] == s[1..] + b;
      TrimRight(s[1..], b);
    } else {
      assert t[..|t| - 1] == s + b[..|b| - 1];
      TrimRight(s, b[..|b| - 1]);
    }
  }

  /** White space around a component is ignored. */
  lemma ComponentPadded(a: string, text: string, b: string)
    requires Blank(a) && Blank(b)
    ensures Component(a + text + b) == Component(text)
  {
    TrimLeft(a, text + b);
    TrimRight(text, b);
    assert a + text + b == a + (text + b);
  }

  /** One component of a path. */
  function Component(text: string): Result<nat> {
    var c := Trim(text);
    var hard := c != [] && c[|c| - 1] == '\'';
    var base := if hard then Hardened else 0;
    match SetString(if hard then Trim(c[..|c| - 1]) else c)
    case None => Err(InvalidComponent)
    case Some(n) => if n < 0 || n > MaxUint32 - base then Err(OutOfRange) else Ok(base + n)
  }

  /** Reads every component; the first error counts. */
  function Each(f: string -> Result<nat>, cs: seq<string>): Result<Path> {
    if cs == [] then Ok([])
    else
      match f(cs[0])
      case Err(e) => Err(e)
      case Ok(n) => match Each(f, cs[1..]) case Err(e) => Err(e) case Ok(p) => Ok([n] + p)
  }

  /** What a path string means. */
  function Parse(s: string): Result<Path> {
    var cs := Split(s);
    var first := Trim(cs[0]);
    if first == [] then Err(Ambiguous)
    else if first == "m" then if |cs| == 1 then Err(Empty) else Each(Component, cs[1..])
    else Under(DefaultRoot, Each(Component, cs))
  }

  /** ParseDerivationPath. */
  method ParseDerivationPath(path: string) returns (r: Result<Path>)
    ensures r == Parse(path)
  {
    var result: Path := [];
    var components := Split(path);
    if Trim(components[0]) == "" { return Err(Ambiguous); }
    if Trim(components[0]) == "m" {
      components := components[1..];
    } else {
      result := DefaultRoot;
    }
    if |components| == 0 { return Err(Empty); }
    r := ParseEach(Component, components, result);
    UnderNone(Each(Component, components));
  }

  /** The loop over the components. */
  method ParseEach(f: string -> Result<nat>, components: seq<string>, root: Path) returns (r: Result<Path>)
    ensures r == Under(root, Each(f, components))
  {
    var result := root;
    assert components[0..] == components;
    for i := 0 to |components|
      invariant Under(root, Each(f, components)) == Under(result, Each(f, components[i..]))
    {
      assert components[i..][1..] == components[i + 1..];
      var n := f(components[i]);
      if n.Err? { return Err(n.error); }
      UnderSnoc(result, n.value, Each(f, components[i + 1..]));
      result := result + [n.value];
    }
    assert result + [] == result;
    r := Ok(result);
  }

  /** A parsed rest under components parsed before it. */
  function Under(p: Path, r: Result<Path>): Result<Path> {
    match r case Err(e) => Err(e) case Ok(q) => Ok(p + q)
  }

  lemma UnderNone(r: Result<Path>)
    ensures Under([], r) == r
  {
    if r.Ok? { assert [] + r.value == r.value; }
  }

  lemma UnderSnoc(p: Path, n: nat, r: Result<Path>)
    ensures Under(p + [n], r) == Under(p, Under([n], r))
  {
    match r
    case Err(_) =>
    case Ok(q) => assert p + [n] + q == p + ([n] + q);
  }

  // ---------- printing ----------

  function Show(c: nat): string {
    if c >= Hardened then Decimal(c - Hardened) + "'" else Decimal(c)
  }

  /** Each component after a '/'. */
  function Slashed(f: nat -> string, p: Path): string {
    if p == [] then "" else "/" + f(p[0]) + Slashed(f, p[1..])
  }

  function Tail(p: Path): string { Slashed(Show, p) }

  lemma {:induction false} SlashedSnoc(f: nat -> string, p: Path, c: nat)
    ensures Slashed(f, p + [c]) == Slashed(f, p) + "/" + f(c)
  {
    if p == [] {
      assert (p + [c])[1..] == [];
    } else {
      SlashedSnoc(f, p[1..], c);
      assert (p + [c])[1..] == p[1..] + [c];
      var tail := Slashed(f, p[1..]);
      assert "/" + f(p[0]) + (tail + "/" + f(c)) == "/" + f(p[0]) + tail + "/" + f(c);
    }
  }

  /** One printed component: hardened ones are marked with an apostrophe. */
  method ShowComponent(c: nat) returns (s: string)
    ensures s == Show(c)
  {
    var component, hardened := c, false;
    if component >= Hardened { component, hardened := component - Hardened, true; }
    s := Decimal(component);
    if hardened { s := s + "'"; }
  }

  /** DerivationPath.String. */
  method ToString(p: Path) returns (s: string)
    ensures s == "m" + Tail(p)
  {
    s := "m";
    for i := 0 to |p|
      invariant s == "m" + Slashed(Show, p[..i])
    {
      var component := ShowComponent(p[i]);
      assert p[..i + 1] == p[..i] + [p[i]];
      SlashedSnoc(Show, p[..i], p[i]);
      s := s + "/" + component;
    }
    assert p[..|p|] == p;
  }

  // ---------- round trip ----------

  function Shows(p: Path): seq<string> { seq(|p|, i requires 0 <= i < |p| => Show(p[i])) }

  lemma ShowPlain(c: nat)
    ensures Show(c) != [] && '/' !in Show(c)
    ensures !Space(Show(c)[0]) && !Space(Show(c)[|Show(c)| - 1])
  {
    var s := if c >= Hardened then Decimal(c - Hardened) else Decimal(c);
    assert forall i :: 0 <= i < |s| ==> '0' <= s[i] <= '9';
  }

  lemma {:induction false} TailIsJoin(p: Path)
    requires p != []
    ensures Tail(p) == "/" + Join(Shows(p))
  {
    if |p| == 1 {
      assert Tail(p[1..]) == "";
    } else {
      TailIsJoin(p[1..]);
      assert Shows(p)[1..] == Shows(p[1..]);
    }
  }

  lemma ComponentShow(c: nat)
    requires c <= MaxUint32
    ensures Component(Show(c)) == Ok(c)
  {
    ShowPlain(c);
    var d := Decimal(if c >= Hardened then c - Hardened else c);
    SetStringDecimal(if c >= Hardened then c - Hardened else c);
    assert '0' <= d[0] <= '9' && '0' <= d[|d| - 1] <= '9';
    if c >= Hardened { ReadHardened(d, c - Hardened); } else { ReadPlain(d, c); }
  }

  lemma ReadPlain(d: string, n: nat)
    requires d != [] && '0' <= d[0] <= '9' && '0' <= d[|d| - 1] <= '9'
    requires SetString(d) == Some(n)
    ensures Component(d) == if n <= MaxUint32 then Ok(n) else Err(OutOfRange)
  {
    assert Trim(d) == d;
  }

  lemma ReadHardened(d: string, n: nat)
    requires d != [] && '0' <= d[0] <= '9' && '0' <= d[|d| - 1] <= '9'
    requires SetString(d) == Some(n)
    ensures Component(d + "'") == if n < Hardened then Ok(Hardened + n) else Err(OutOfRange)
  {
    var s := d + "'";
    assert Trim(s) == s && s[..|s| - 1] == d && Trim(d) == d;
  }

  /** A number is in range up to 2^32 - 1, and a hardened one up to 2^31 - 1. */
  lemma ComponentRange(n: nat)
    ensures Component(Decimal(n)) == if n <= MaxUint32 then Ok(n) else Err(OutOfRange)
    ensures Component(Decimal(n) + "'") == if n < 0x8000_0000 then Ok(0x8000_0000 + n) else Err(OutOfRange)
  {
    var d := Decimal(n);
    SetStringDecimal(n);
    assert '0' <= d[0] <= '9' && '0' <= d[|d| - 1] <= '9';
    ReadPlain(d, n);
    ReadHardened(d, n);
  }

  lemma {:induction false} EachOk(f: string -> Result<nat>, cs: seq<string>, p: Path)
    requires |cs| == |p| && forall i :: 0 <= i < |p| ==> f(cs[i]) == Ok(p[i])
    ensures Each(f, cs) == Ok(p)
  {
    if p != [] {
      EachOk(f, cs[1..], p[1..]);
      assert [p[0]] + p[1..] == p;
    }
  }

  lemma ComponentsShows(p: Path)
    requires Fits(p)
    ensures Each(Component, Shows(p)) == Ok(p)
  {
    forall i | 0 <= i < |p| ensures Component(Shows(p)[i]) == Ok(p[i]) { ComponentShow(p[i]); }
    EachOk(Component, Shows(p), p);
  }

  /** Parsing what was printed gives the path back; only the empty path cannot be read again. */
  lemma RoundTrip(p: Path)
    requires Fits(p)
    ensures Parse("m" + Tail(p)) == if p == [] then Err(Empty) else Ok(p)
  {
    if p == [] {
      assert "m" + Tail(p) == "m";
      SplitFirst("m", []);
    } else {
      TailIsJoin(p);
      forall i | 0 <= i < |Shows(p)| ensures '/' !in Shows(p)[i] { ShowPlain(p[i]); }
      SplitJoin(Shows(p));
      SplitFirst("m", Join(Shows(p)));
      assert "m" + Tail(p) == "m" + "/" + Join(Shows(p));
      assert (["m"] + Shows(p))[1..] == Shows(p);
      ComponentsShows(p);
    }
  }

  lemma {:induction false} ComponentsFit(cs: seq<string>)
    ensures Each(Component, cs).Ok? ==> Fits(Each(Component, cs).value) && |Each(Component, cs).value| == |cs|
  {
    if cs != [] { ComponentsFit(cs[1..]); }
  }

  /** Whatever parses is a non-empty 32-bit path, so printing it loses nothing. */
  lemma ParsedPrints(s: string)
    requires Parse(s).Ok?
    ensures Fits(Parse(s).value) && Parse(s).value != [] && Parse("m" + Tail(Parse(s).value)) == Parse(s)
  {
    var cs := Split(s);
    ComponentsFit(cs);
    ComponentsFit(cs[1..]);
    RoundTrip(Parse(s).value);
  }

  /** Different paths print differently. */
  lemma PrintInjective(p: Path, q: Path)
    requires Fits(p) && Fits(q) && Tail(p) == Tail(q)
    ensures p == q
  {
    RoundTrip(p);
    RoundTrip(q);
  }

  /** A relative path means the absolute one under m/44'/60'/0'/0. */
  lemma RelativePath(p: Path)
    requires Fits(p) && p != []
    ensures Parse(Tail(p)[1..]) == Parse("m/44'/60'/0'/0" + Tail(p)) == Ok(DefaultRoot + p)
  {
    TailIsJoin(p);
    var rest := Join(Shows(p));
    assert Tail(p)[1..] == rest;
    forall i | 0 <= i < |Shows(p)| ensures '/' !in Shows(p)[i] { ShowPlain(p[i]); }
    SplitJoin(Shows(p));
    PlainFirst(p[0]);
    ComponentsShows(p);
    RootShown(p);
    RoundTrip(DefaultRoot + p);
  }

  /** A printed component is neither empty nor the letter m. */
  lemma PlainFirst(c: nat)
    ensures Trim(Show(c)) == Show(c) != "m"
  {
    ShowPlain(c);
    var s := Decimal(if c >= Hardened then c - Hardened else c);
    assert '0' <= s[0] <= '9' && Show(c)[0] == s[0];
  }

  lemma TailFirst(c: nat, p: Path)
    ensures Tail([c] + p) == "/" + Show(c) + Tail(p)
  {
    assert ([c] + p)[1..] == p;
  }

  lemma RootNumbers()
    ensures "/" + Show(Hardened + 44) == "/44'" && "/" + Show(Hardened + 60) == "/60'"
    ensures "/" + Show(Hardened + 0) == "/0'" && "/" + Show(0) == "/0"
  {
    assert Decimal(44) == "44" && Decimal(60) == "60" && Decimal(0) == "0";
  }

  lemma RootText(t: string)
    ensures "m/44'/60'/0'/0" + t == "m" + ("/44'" + ("/60'" + ("/0'" + ("/0" + t))))
  {
  }

  lemma RootShown(p: Path)
    ensures "m/44'/60'/0'/0" + Tail(p) == "m" + Tail(DefaultRoot + p)
  {
    RootNumbers();
    var q1 := [0] + p;
    var q2 := [Hardened + 0] + q1;
    var q3 := [Hardened + 60] + q2;
    assert [Hardened + 44] + q3 == DefaultRoot + p;
    TailFirst(0, p);
    TailFirst(Hardened + 0, q1);
    TailFirst(Hardened + 60, q2);
    TailFirst(Hardened + 44, q3);
    RootText(Tail(p));
  }

  /** A path that starts with a slash, or with nothing but white space in front of one, is ambiguous. */
  lemma LeadingSlash(blank: string, rest: string)
    requires Blank(blank)
    ensures Parse(blank + "/" + rest) == Err(Ambiguous)
  {
    assert '/' !in blank;
    SplitFirst(blank, rest);
    TrimLeft(blank, []);
    assert blank + [] == blank;
  }
}
