/** Wallet derivation paths and their text form: m / 44' / 60' / 0' / 0. */
module DerivationPaths {
  import opened Common
  import opened Numerals

  const HARDENED: nat := 0x8000_0000
  const MAX_UINT32: nat := 0xFFFF_FFFF

  type uint32 = x: nat | x <= 0xFFFF_FFFF

  type Path = seq<uint32>

  /** m/44'/60'/0'/0, the root that relative paths are appended to. */
  const ROOT: Path := [0x8000_002C, 0x8000_003C, 0x8000_0000, 0]

  datatype ParseError = EmptyPath | AmbiguousPath | InvalidComponent(text: string) | OutOfRange(value: int, hardened: bool)
  datatype Parsed = Ok(path: Path) | Err(error: ParseError)
  datatype Component = Index(value: uint32) | Bad(error: ParseError)

  /* ---- Library text functions ---- */

  predicate IsSpace(c: char) {
    || c == ' ' || '\t' <= c <= '\r' || c == '\U{85}' || c == '\U{A0}' || c == '\U{1680}'
    || '\U{2000}' <= c <= '\U{200A}' || c == '\U{2028}' || c == '\U{2029}' || c == '\U{202F}'
    || c == '\U{205F}' || c == '\U{3000}'
  }

  function TrimLeft(s: string): string {
    if s != [] && IsSpace(s[0]) then TrimLeft(s[1..]) else s
  }

  function TrimRight(s: string): string {
    if s != [] && IsSpace(s[|s| - 1]) then TrimRight(s[..|s| - 1]) else s
  }

  function Trim(s: string): string {
    TrimRight(TrimLeft(s))
  }

  function Split(s: string): (parts: seq<string>)
    ensures |parts| > 0
  {
    if s == [] then [""]
    else
      var rest := Split(s[1..]);
      if s[0] == '/' then [""] + rest else [[s[0]] + rest[0]] + rest[1..]
  }

  /** Digits of the base, with underscores only between digits or after the base prefix. */
  predicate WellSeparated(s: string, base: nat, afterDigit: bool) {
    if s == [] then afterDigit
    else if s[0] == '_' then afterDigit && WellSeparated(s[1..], base, false)
    else DigitValue(s[0]) < base && WellSeparated(s[1..], base, true)
  }

  function WithoutUnderscores(s: string): string {
    if s == [] then [] else (if s[0] == '_' then [] else [s[0]]) + WithoutUnderscores(s[1..])
  }

  function InBase(s: string, base: nat, afterDigit: bool): Option<nat> {
    if WellSeparated(s, base, afterDigit) && WithoutUnderscores(s) != [] then Some(ValueOf(WithoutUnderscores(s), base))
    else None
  }

  /** An integer literal without sign; the base is told by its prefix. */
  function Unsigned(s: string): Option<nat> {
    if |s| < 2 || s[0] != '0' then InBase(s, 10, false)
    else if s[1] == 'b' || s[1] == 'B' then InBase(s[2..], 2, true)
    else if s[1] == 'o' || s[1] == 'O' then InBase(s[2..], 8, true)
    else if s[1] == 'x' || s[1] == 'X' then InBase(s[2..], 16, true)
    else InBase(s[1..], 8, true)
  }

  function BigInt(s: string): Option<int> {
    var negative := s != [] && s[0] == '-';
    var digits := if s != [] && (s[0] == '-' || s[0] == '+') then s[1..] else s;
    match Unsigned(digits)
    case None => None
    case Some(n) => var v: int := n; Some(if negative then -v else v)
  }

  /* ---- Parsing ---- */

  predicate HasSuffix(s: string, c: char) {
    s != [] && s[|s| - 1] == c
  }

  function ParseComponent(text: string): Component {
    var trimmed := Trim(text);
    var hardened := HasSuffix(trimmed, '\'');
    var digits := if hardened then Trim(trimmed[..|trimmed| - 1]) else trimmed;
    var base := if hardened then HARDENED else 0;
    match BigInt(digits)
    case None => Bad(InvalidComponent(digits))
    case Some(v) => if v < 0 || v > MAX_UINT32 - base then Bad(OutOfRange(v, hardened)) else Index(base + v)
  }

  /** All components must be accepted; the first that is not decides the error. */
  function ParseAll(parts: seq<string>): Parsed {
    if parts == [] then Ok([])
    else
      match ParseComponent(parts[0])
      case Bad(e) => Err(e)
      case Index(v) => Under([v], ParseAll(parts[1..]))
  }

  function Under(prefix: Path, r: Parsed): Parsed {
    match r
    case Err(_) => r
    case Ok(p) => Ok(prefix + p)
  }

  function Parse(text: string): Parsed {
    var parts := Split(text);
    if Trim(parts[0]) == "" then Err(AmbiguousPath)
    else if Trim(parts[0]) == "m" then
      if |parts| == 1 then Err(EmptyPath) else ParseAll(parts[1..])
    else Under(ROOT, ParseAll(parts))
  }

  /** One component of the loop below. */
  method ReadComponent(text: string) returns (r: Component)
    ensures r == ParseComponent(text)
  {
    var component := Trim(text);
    var value := 0;
    if HasSuffix(component, '\'') {
      value := HARDENED;
      component := Trim(component[..|component| - 1]);
    }
    var bigval := BigInt(component);
    if bigval.None? {
      return Bad(InvalidComponent(component));
    }
    if bigval.value < 0 || bigval.value > MAX_UINT32 - value {
      return Bad(OutOfRange(bigval.value, value != 0));
    }
    return Index(value + bigval.value);
  }

  lemma UnderTwice(p: Path, q: Path, r: Parsed)
    ensures Under(p, Under(q, r)) == Under(p + q, r)
  {
    if r.Ok? {
      assert p + (q + r.path) == p + q + r.path;
    }
  }

  method ParseDerivationPath(text: string) returns (r: Parsed)
    ensures r == Parse(text)
  {
    var result: Path := [];
    var components := Split(text);
    if Trim(components[0]) == "" {
      return Err(AmbiguousPath);
    } else if Trim(components[0]) == "m" {
      components := components[1..];
    } else {
      result := result + ROOT;
    }
    if |components| == 0 {
      return Err(EmptyPath);
    }
    for i := 0 to |components|
      invariant Parse(text) == Under(result, ParseAll(components[i..]))
    {
      var value := ReadComponent(components[i]);
      assert components[i..][0] == components[i] && components[i..][1..] == components[i + 1..];
      if value.Bad? {
        return Err(value.error);
      }
      UnderTwice(result, [value.value], ParseAll(components[i + 1..]));
      result := result + [value.value];
    }
    return Ok(result);
  }

  /* ---- Printing ---- */

  function ComponentText(c: uint32): string {
    if c >= HARDENED then Decimal(c - HARDENED) + "'" else Decimal(c)
  }

  function Print(path: Path): string {
    if path == [] then "m" else Print(path[..|path| - 1]) + "/" + ComponentText(path[|path| - 1])
  }

  method PathString(path: Path) returns (result: string)
    ensures result == Print(path)
  {
    result := "m";
    for i := 0 to |path|
      invariant result == Print(path[..i])
    {
      var component: nat := path[i];
      var hardened := false;
      if component >= HARDENED {
        component := component - HARDENED;
        hardened := true;
      }
      var was := result;
      result := result + "/" + Decimal(component);
      if hardened {
        result := result + "'";
      }
      assert result == was + "/" + ComponentText(path[i]);
      assert path[..i + 1][..i] == path[..i];
    }
    assert path[..|path|] == path;
  }

  /* ---- Round trip ---- */

  lemma {:induction false} PlainDigits(s: string, base: nat, afterDigit: bool)
    requires AllDigits(s, base) && base <= 36
    ensures WithoutUnderscores(s) == s && (WellSeparated(s, base, afterDigit) <==> s != [] || afterDigit)
  {
    if s != [] {
      assert DigitValue('_') == 63;
      PlainDigits(s[1..], base, true);
      assert s == [s[0]] + s[1..];
    }
  }

  lemma DecimalIsUnsigned(n: nat)
    ensures Unsigned(Decimal(n)) == Some(n)
  {
    DecimalRoundTrip(n);
    PlainDigits(Decimal(n), 10, false);
  }

  lemma DecimalIsRead(n: nat)
    ensures BigInt(Decimal(n)) == Some(n)
  {
    DecimalIsUnsigned(n);
    DecimalRoundTrip(n);
    assert DigitValue('-') == 63 && DigitValue('+') == 63;
    assert DigitValue(Decimal(n)[0]) < 10;
  }

  /** A text of digits, letters, signs and quotes has nothing to trim and no slash in it. */
  predicate Tidy(s: string) {
    forall i | 0 <= i < |s| :: DigitValue(s[i]) < 36 || s[i] == '-' || s[i] == '+' || s[i] == '\''
  }

  lemma TidyIsTrimmed(s: string)
    requires Tidy(s)
    ensures Trim(s) == s && '/' !in s
  {
    assert TrimLeft(s) == s && TrimRight(s) == s;
  }

  lemma DecimalIsTidy(n: nat)
    ensures Tidy(Decimal(n)) && !HasSuffix(Decimal(n), '\'')
  {
    DecimalRoundTrip(n);
    assert DigitValue('\'') == 63;
  }

  /** A number stands for itself, as far as it fits. */
  function Plain(n: nat): Component {
    if n < 0x1_0000_0000 then Index(n) else Bad(OutOfRange(n, false))
  }

  lemma PlainRoundTrip(n: nat)
    ensures ParseComponent(Decimal(n)) == Plain(n)
  {
    DecimalIsTidy(n);
    TidyIsTrimmed(Decimal(n));
    DecimalIsRead(n);
  }

  /** Below zero only minus zero is accepted. */
  lemma SignedRoundTrip(n: nat)
    ensures ParseComponent("+" + Decimal(n)) == Plain(n)
    ensures ParseComponent("-" + Decimal(n)) == if n == 0 then Index(0) else Bad(OutOfRange(0 - n, false))
  {
    SignIsTidy('+', n);
    SignIsTidy('-', n);
    DecimalIsUnsigned(n);
    SignIsRead('+', Decimal(n), n);
    SignIsRead('-', Decimal(n), n);
  }

  lemma SignIsTidy(sign: char, n: nat)
    requires sign == '+' || sign == '-'
    ensures Trim([sign] + Decimal(n)) == [sign] + Decimal(n) && !HasSuffix([sign] + Decimal(n), '\'')
  {
    DecimalIsTidy(n);
    TidyIsTrimmed([sign] + Decimal(n));
  }

  lemma SignIsRead(sign: char, digits: string, n: nat)
    requires (sign == '+' || sign == '-') && Unsigned(digits) == Some(n)
    ensures BigInt([sign] + digits) == Some(if sign == '-' then 0 - n else n)
  {
    assert ([sign] + digits)[1..] == digits;
  }

  lemma HardenedRoundTrip(n: nat)
    ensures Tidy(Decimal(n) + "'")
    ensures ParseComponent(Decimal(n) + "'") ==
            if n < 0x8000_0000 then Index(n + 0x8000_0000) else Bad(OutOfRange(n, true))
  {
    var text := Decimal(n) + "'";
    DecimalIsTidy(n);
    TidyIsTrimmed(Decimal(n));
    TidyIsTrimmed(text);
    DecimalIsRead(n);
    assert text[..|text| - 1] == Decimal(n);
  }

  lemma ComponentRoundTrip(c: uint32)
    ensures ParseComponent(ComponentText(c)) == Index(c) && Tidy(ComponentText(c))
  {
    if c >= HARDENED {
      HardenedRoundTrip(c - HARDENED);
    } else {
      PlainRoundTrip(c);
      DecimalIsTidy(c);
    }
  }

  lemma {:induction false} SplitOne(t: string)
    requires '/' !in t
    ensures Split(t) == [t]
  {
    if t != [] {
      SplitOne(t[1..]);
      assert t == [t[0]] + t[1..];
    }
  }

  lemma {:induction false} SplitAppend(s: string, t: string)
    requires '/' !in t
    ensures Split(s + "/" + t) == Split(s) + [t]
  {
    var whole := s + "/" + t;
    if s == [] {
      SplitOne(t);
      assert whole[0] == '/' && whole[1..] == t;
    } else {
      SplitAppend(s[1..], t);
      assert whole[0] == s[0] && whole[1..] == s[1..] + "/" + t;
    }
  }

  function Texts(path: Path): (texts: seq<string>)
    ensures |texts| == |path| && forall i | 0 <= i < |path| :: texts[i] == ComponentText(path[i])
  {
    seq(|path|, i requires 0 <= i < |path| => ComponentText(path[i]))
  }

  lemma TextHasNoSlash(c: uint32)
    ensures '/' !in ComponentText(c)
  {
    ComponentRoundTrip(c);
    TidyIsTrimmed(ComponentText(c));
  }

  lemma {:induction false} SplitPrinted(path: Path)
    ensures Split(Print(path)) == ["m"] + Texts(path)
  {
    if path == [] {
      SplitOne("m");
    } else {
      var front, last := path[..|path| - 1], path[|path| - 1];
      SplitPrinted(front);
      TextHasNoSlash(last);
      SplitAppend(Print(front), ComponentText(last));
      assert Texts(path) == Texts(front) + [ComponentText(last)];
    }
  }

  lemma ParseAllStep(parts: seq<string>, v: uint32)
    requires parts != [] && ParseComponent(parts[0]) == Index(v)
    ensures ParseAll(parts) == Under([v], ParseAll(parts[1..]))
  {
  }

  lemma {:induction false} TextsParse(path: Path)
    ensures ParseAll(Texts(path)) == Ok(path)
  {
    if path != [] {
      TextsParse(path[1..]);
      ComponentRoundTrip(path[0]);
      assert Texts(path)[1..] == Texts(path[1..]);
      ParseAllStep(Texts(path), path[0]);
      assert path == [path[0]] + path[1..];
    }
  }

  lemma MIsTrimmed()
    ensures Trim("m") == "m"
  {
  }

  /** Parsing the printed form of a path gives the path back, unless it is empty: that prints as a bare m. */
  lemma PrintParse(path: Path)
    ensures Parse(Print(path)) == if path == [] then Err(EmptyPath) else Ok(path)
  {
    SplitPrinted(path);
    MIsTrimmed();
    var parts := Split(Print(path));
    assert parts[0] == "m" && parts[1..] == Texts(path);
    TextsParse(path);
  }

  lemma {:induction false} ParsedLength(parts: seq<string>)
    requires ParseAll(parts).Ok?
    ensures |ParseAll(parts).path| == |parts|
  {
    if parts != [] {
      ParsedLength(parts[1..]);
    }
  }

  /** Every accepted text has a canonical form that parses to the same path. */
  lemma ParsePrintParse(text: string)
    requires Parse(text).Ok?
    ensures Parse(text).path != [] && Parse(Print(Parse(text).path)) == Parse(text)
  {
    var parts := Split(text);
    ParsedLength(if Trim(parts[0]) == "m" then parts[1..] else parts);
    PrintParse(Parse(text).path);
  }

  lemma PrintInjective(p: Path, q: Path)
    requires Print(p) == Print(q)
    ensures p == q
  {
    PrintParse(p);
    PrintParse(q);
  }

  /* ---- Other bases and underscores ---- */

  /** No underscore follows another, ends the text, or starts it unless the base prefix stands before it. */
  predicate UnderscoresBetween(s: string, afterDigit: bool) {
    && (s == [] ==> afterDigit) && (s != [] && s[0] == '_' ==> afterDigit) && (s != [] ==> s[|s| - 1] != '_')
    && forall i | 0 < i < |s| && s[i - 1] == '_' :: s[i] != '_'
  }

  lemma {:induction false} SeparatedIff(s: string, base: nat, afterDigit: bool)
    requires base <= 36
    ensures WellSeparated(s, base, afterDigit) <==>
            UnderscoresBetween(s, afterDigit) && forall i | 0 <= i < |s| && s[i] != '_' :: DigitValue(s[i]) < base
  {
    if s != [] {
      var rest, digit := s[1..], s[0] != '_';
      SeparatedIff(rest, base, digit);
      assert s == [s[0]] + rest;
      assert forall i | 0 < i < |s| :: s[i] == rest[i - 1];
      assert UnderscoresBetween(s, afterDigit) <==> (digit || afterDigit) && UnderscoresBetween(rest, digit);
    }
  }

  /** Digits of the base, at least one of them. */
  predicate Spelled(s: string, base: nat, afterDigit: bool) {
    s != [] && UnderscoresBetween(s, afterDigit) && forall i | 0 <= i < |s| && s[i] != '_' :: DigitValue(s[i]) < base
  }

  lemma {:induction false} LastStays(s: string)
    requires s != [] && s[|s| - 1] != '_'
    ensures WithoutUnderscores(s) != []
  {
    if s[0] == '_' {
      LastStays(s[1..]);
    }
  }

  lemma InBaseIff(s: string, base: nat, afterDigit: bool)
    requires base <= 36
    ensures InBase(s, base, afterDigit) ==
            if Spelled(s, base, afterDigit) then Some(ValueOf(WithoutUnderscores(s), base)) else None
  {
    SeparatedIff(s, base, afterDigit);
    if Spelled(s, base, afterDigit) {
      LastStays(s);
    }
  }

  /** The prefixes and the bases they announce. */
  predicate Announces(prefix: string, base: nat) {
    || (base == 16 && (prefix == "0x" || prefix == "0X"))
    || (base == 8 && (prefix == "0o" || prefix == "0O"))
    || (base == 2 && (prefix == "0b" || prefix == "0B"))
  }

  predicate IsMark(c: char) {
    c in {'x', 'X', 'o', 'O', 'b', 'B'}
  }

  /** Which texts are numbers and of what value: after a prefix, after a bare zero, and otherwise. */
  lemma NumbersAre(prefix: string, base: nat, s: string)
    requires Announces(prefix, base)
    ensures Unsigned(prefix + s) == if Spelled(s, base, true) then Some(ValueOf(WithoutUnderscores(s), base)) else None
    ensures s != [] && !IsMark(s[0]) ==>
              Unsigned("0" + s) == if Spelled(s, 8, true) then Some(ValueOf(WithoutUnderscores(s), 8)) else None
    ensures s == "0" || s == "" || s[0] != '0' ==>
              Unsigned(s) == if Spelled(s, 10, false) then Some(ValueOf(WithoutUnderscores(s), 10)) else None
  {
    InBaseIff(s, base, true);
    InBaseIff(s, 8, true);
    InBaseIff(s, 10, false);
    MarkIsRead(prefix[1], s);
    assert prefix == ['0', prefix[1]];
    if s != [] && !IsMark(s[0]) {
      OctalIsRead(s);
    }
  }

  lemma OctalIsRead(s: string)
    requires s != [] && !IsMark(s[0])
    ensures Unsigned("0" + s) == InBase(s, 8, true)
  {
    assert ("0" + s)[1..] == s;
  }

  lemma MarkIsRead(mark: char, s: string)
    ensures mark == 'x' || mark == 'X' ==> Unsigned(['0', mark] + s) == InBase(s, 16, true)
    ensures mark == 'o' || mark == 'O' ==> Unsigned(['0', mark] + s) == InBase(s, 8, true)
    ensures mark == 'b' || mark == 'B' ==> Unsigned(['0', mark] + s) == InBase(s, 2, true)
  {
    assert (['0', mark] + s)[2..] == s;
  }

  lemma DigitsAreSpelled(digits: string, base: nat)
    requires digits != [] && AllDigits(digits, base) && base <= 36
    ensures Spelled(digits, base, true) && WithoutUnderscores(digits) == digits
  {
    assert DigitValue('_') == 63;
    PlainDigits(digits, base, true);
  }

  lemma PrefixedIsTidy(prefix: string, digits: string, base: nat)
    requires (Announces(prefix, base) || (prefix == "0" && base == 8)) && digits != [] && AllDigits(digits, base)
    ensures Tidy(prefix + digits) && !HasSuffix(prefix + digits, '\'') && (prefix + digits)[0] == '0'
  {
    assert DigitValue('\'') == 63 && forall i | 0 <= i < |prefix| :: DigitValue(prefix[i]) < 36;
  }

  /** The digits after a prefix, or after a bare zero, stand for their value in the base it announces. */
  lemma PrefixedComponent(prefix: string, digits: string, base: nat)
    requires (Announces(prefix, base) || (prefix == "0" && base == 8)) && digits != [] && AllDigits(digits, base)
    ensures ParseComponent(prefix + digits) == Plain(ValueOf(digits, base))
  {
    PrefixedIsRead(prefix, digits, base);
    PrefixedIsTidy(prefix, digits, base);
    NumberIsPlain(prefix + digits, ValueOf(digits, base));
  }

  lemma PrefixedIsRead(prefix: string, digits: string, base: nat)
    requires (Announces(prefix, base) || (prefix == "0" && base == 8)) && digits != [] && AllDigits(digits, base)
    ensures Unsigned(prefix + digits) == Some(ValueOf(digits, base))
  {
    DigitsAreSpelled(digits, base);
    if prefix == "0" {
      assert DigitValue(digits[0]) < 8;
      NumbersAre("0o", 8, digits);
    } else {
      NumbersAre(prefix, base, digits);
    }
  }

  lemma NumberIsPlain(s: string, n: nat)
    requires Tidy(s) && !HasSuffix(s, '\'') && s != [] && s[0] == '0' && Unsigned(s) == Some(n)
    ensures ParseComponent(s) == Plain(n)
  {
    TidyIsTrimmed(s);
  }

  lemma HexComponent(n: nat)
    ensures ParseComponent("0x" + Hex(n)) == Plain(n)
  {
    HexRoundTrip(n);
    PrefixedComponent("0x", Hex(n), 16);
  }

  /** An underscore between two digits of a decimal does not count. */
  lemma UnderscoreIgnored(a: string, b: string)
    requires a != [] && b != [] && AllDigits(a, 10) && AllDigits(b, 10) && a[0] != '0'
    ensures Unsigned(a + "_" + b) == Unsigned(a + b) == Some(ValueOf(a + b, 10))
  {
    PlainDigits(a + b, 10, false);
    UnderscoreJoins(a, b, 10, false);
  }

  lemma {:induction false} UnderscoreJoins(a: string, b: string, base: nat, afterDigit: bool)
    requires base <= 36 && AllDigits(a, base) && AllDigits(b, base) && b != [] && (a != [] || afterDigit)
    ensures WellSeparated(a + "_" + b, base, afterDigit) && WithoutUnderscores(a + "_" + b) == a + b
  {
    var s := a + "_" + b;
    assert DigitValue('_') == 63;
    if a == [] {
      PlainDigits(b, base, false);
      assert s[0] == '_' && s[1..] == b;
    } else {
      UnderscoreJoins(a[1..], b, base, true);
      assert s[0] == a[0] && s[1..] == a[1..] + "_" + b;
      assert a == [a[0]] + a[1..];
    }
  }

  /* ---- Relative paths and white space ---- */

  lemma SplitAbsolute(text: string)
    ensures Split("m/" + text) == ["m"] + Split(text)
  {
    var s := "m/" + text;
    assert s[1..][0] == '/' && s[1..][1..] == text;
    assert Split(s[1..]) == [""] + Split(text);
    assert s[0] == 'm' && ['m'] + "" == "m";
  }

  /** A relative path means the same as the absolute one, under the default root. */
  lemma RelativeMeansRooted(text: string)
    requires Trim(Split(text)[0]) != "" && Trim(Split(text)[0]) != "m"
    ensures Parse(text) == Under(ROOT, Parse("m/" + text))
  {
    SplitAbsolute(text);
    MIsTrimmed();
    var parts := Split("m/" + text);
    assert parts[0] == "m" && parts[1..] == Split(text);
  }

  /** The code points of white space. */
  const SPACES: set<int> :=
    {9, 10, 11, 12, 13, 32, 0x85, 0xA0, 0x1680, 0x2028, 0x2029, 0x202F, 0x205F, 0x3000} + set k: int | 0x2000 <= k <= 0x200A

  lemma SpacesAre(c: char)
    ensures IsSpace(c) <==> c as int in SPACES
  {
  }

  predicate Blank(s: string) {
    forall i | 0 <= i < |s| :: IsSpace(s[i])
  }

  lemma {:induction false} TrimLeftBlank(blank: string, s: string)
    requires Blank(blank)
    ensures TrimLeft(blank + s) == TrimLeft(s)
  {
    if blank == [] {
      assert blank + s == s;
    } else {
      TrimLeftBlank(blank[1..], s);
      assert (blank + s)[1..] == blank[1..] + s;
    }
  }

  lemma {:induction false} TrimRightBlank(s: string, blank: string)
    requires Blank(blank)
    ensures TrimRight(s + blank) == TrimRight(s)
  {
    if blank == [] {
      assert s + blank == s;
    } else {
      var n := |blank| - 1;
      TrimRightBlank(s, blank[..n]);
      assert (s + blank)[..|s + blank| - 1] == s + blank[..n];
    }
  }

  lemma {:induction false} TrimLeftThenBlank(s: string, blank: string)
    requires Blank(blank)
    ensures TrimRight(TrimLeft(s + blank)) == TrimRight(TrimLeft(s))
  {
    if s == [] {
      TrimLeftBlank(blank, []);
      assert s + blank == blank + [];
    } else if IsSpace(s[0]) {
      TrimLeftThenBlank(s[1..], blank);
      assert (s + blank)[1..] == s[1..] + blank;
    } else {
      TrimRightBlank(s, blank);
    }
  }

  lemma TrimDropsBlanks(before: string, text: string, after: string)
    requires Blank(before) && Blank(after)
    ensures Trim(before + text + after) == Trim(text)
  {
    assert before + text + after == before + (text + after);
    TrimLeftBlank(before, text + after);
    TrimLeftThenBlank(text, after);
  }

  /** White space around a component is ignored. */
  lemma BlanksAreIgnored(before: string, text: string, after: string)
    requires Blank(before) && Blank(after)
    ensures ParseComponent(before + text + after) == ParseComponent(text)
  {
    TrimDropsBlanks(before, text, after);
  }
}
