/**
 HTML character references: one left-to-right pass that replaces named, decimal and hexadecimal
 references, with the name table read as a JavaScript object.
 */
module Entities {
  import opened Text

  function NamedEntity(name: string): (r: Option<char>)
    ensures r.Some? ==> r.value as int < 0x1_0000 && |name| >= 2
  {
    match name
    case "amp" => Some('&')
    case "lt" => Some('<')
    case "gt" => Some('>')
    case "quot" => Some('\"')
    case "apos" => Some('\'')
    case "nbsp" => Some('\U{00A0}')
    case "AMP" => Some('&')
    case "LT" => Some('<')
    case "GT" => Some('>')
    case "QUOT" => Some('\"')
    case "mdash" => Some('\U{2014}')
    case "ndash" => Some('\U{2013}')
    case "hellip" => Some('\U{2026}')
    case "middot" => Some('\U{00B7}')
    case "bull" => Some('\U{2022}')
    case "lsquo" => Some('\U{2018}')
    case "rsquo" => Some('\U{2019}')
    case "sbquo" => Some('\U{201A}')
    case "ldquo" => Some('\U{201C}')
    case "rdquo" => Some('\U{201D}')
    case "bdquo" => Some('\U{201E}')
    case "laquo" => Some('\U{00AB}')
    case "raquo" => Some('\U{00BB}')
    case "lsaquo" => Some('\U{2039}')
    case "rsaquo" => Some('\U{203A}')
    case "copy" => Some('\U{00A9}')
    case "reg" => Some('\U{00AE}')
    case "trade" => Some('\U{2122}')
    case "deg" => Some('\U{00B0}')
    case "euro" => Some('\U{20AC}')
    case "pound" => Some('\U{00A3}')
    case "yen" => Some('\U{00A5}')
    case "cent" => Some('\U{00A2}')
    case "sect" => Some('\U{00A7}')
    case "para" => Some('\U{00B6}')
    case "times" => Some('\U{00D7}')
    case "divide" => Some('\U{00F7}')
    case "iexcl" => Some('\U{00A1}')
    case "iquest" => Some('\U{00BF}')
    case "ordf" => Some('\U{00AA}')
    case "ordm" => Some('\U{00BA}')
    case "shy" => Some('\U{00AD}')
    case "aacute" => Some('\U{00E1}')
    case "eacute" => Some('\U{00E9}')
    case "iacute" => Some('\U{00ED}')
    case "oacute" => Some('\U{00F3}')
    case "uacute" => Some('\U{00FA}')
    case "Aacute" => Some('\U{00C1}')
    case "Eacute" => Some('\U{00C9}')
    case "Iacute" => Some('\U{00CD}')
    case "Oacute" => Some('\U{00D3}')
    case "Uacute" => Some('\U{00DA}')
    case "ntilde" => Some('\U{00F1}')
    case "Ntilde" => Some('\U{00D1}')
    case "uuml" => Some('\U{00FC}')
    case "Uuml" => Some('\U{00DC}')
    case "ouml" => Some('\U{00F6}')
    case "Ouml" => Some('\U{00D6}')
    case "auml" => Some('\U{00E4}')
    case "Auml" => Some('\U{00C4}')
    case "ccedil" => Some('\U{00E7}')
    case "Ccedil" => Some('\U{00C7}')
    case "agrave" => Some('\U{00E0}')
    case "egrave" => Some('\U{00E8}')
    case "szlig" => Some('\U{00DF}')
    case "ensp" => Some('\U{2002}')
    case "emsp" => Some('\U{2003}')
    case "thinsp" => Some('\U{2009}')
    case "zwnj" => Some('\U{200C}')
    case "zwj" => Some('\U{200D}')
    case _ => None
  }

  /** The letter-and-digit names that the table inherits from Object.prototype. */
  predicate IsInherited(name: string) {
    || name == "constructor" || name == "hasOwnProperty" || name == "isPrototypeOf" || name == "propertyIsEnumerable"
    || name == "toLocaleString" || name == "toString" || name == "valueOf"
  }

  /** For an inherited name the lookup finds a function, and the text of that function is inserted. */
  function FunctionText(name: string): string {
    "function " + (if name == "constructor" then "Object" else name) + "() { [native code] }"
  }

  predicate IsDigit(c: char) {
    '0' <= c <= '9'
  }

  predicate IsHexDigit(c: char) {
    IsDigit(c) || 'a' <= c <= 'f' || 'A' <= c <= 'F'
  }

  predicate IsLetter(c: char) {
    'a' <= c <= 'z' || 'A' <= c <= 'Z'
  }

  predicate IsDecimalBody(b: string) {
    2 <= |b| <= 8 && b[0] == '#' && forall i :: 1 <= i < |b| ==> IsDigit(b[i])
  }

  predicate IsHexBody(b: string) {
    3 <= |b| <= 8 && b[0] == '#' && (b[1] == 'x' || b[1] == 'X') && forall i :: 2 <= i < |b| ==> IsHexDigit(b[i])
  }

  predicate IsNameBody(b: string) {
    2 <= |b| <= 32 && IsLetter(b[0]) && forall i :: 1 <= i < |b| ==> IsLetter(b[i]) || IsDigit(b[i])
  }

  /** What may stand between `&` and `;`. */
  predicate IsBody(b: string) {
    IsDecimalBody(b) || IsHexBody(b) || IsNameBody(b)
  }

  function DigitValue(c: char): (v: nat)
    requires IsHexDigit(c)
    ensures v < 16 && (IsDigit(c) ==> v < 10)
  {
    if IsDigit(c) then c as int - '0' as int
    else if c >= 'a' then c as int - 'a' as int + 10
    else c as int - 'A' as int + 10
  }

  function ParseInt(digits: string, radix: nat): nat
    requires forall i :: 0 <= i < |digits| ==> IsHexDigit(digits[i])
  {
    if digits == "" then 0 else ParseInt(digits[..|digits| - 1], radix) * radix + DigitValue(digits[|digits| - 1])
  }

  const REPLACEMENT: char := '\U{FFFD}'

  function FromCodePoint(n: nat): char {
    if n == 0 || n > 0x10FFFF || 0xD800 <= n <= 0xDFFF then REPLACEMENT else n as char
  }

  function Replacement(b: string): string
    requires IsBody(b)
  {
    if IsDecimalBody(b) then [FromCodePoint(ParseInt(b[1..], 10))]
    else if IsHexBody(b) then [FromCodePoint(ParseInt(b[2..], 16))]
    else if NamedEntity(b).Some? then [NamedEntity(b).value]
    else if IsInherited(b) then FunctionText(b)
    else Reference(b)
  }

  function Reference(b: string): string {
    ['&'] + b + [';']
  }

  function SemicolonAt(s: string): (n: nat)
    ensures n <= |s| && (n < |s| ==> s[n] == ';') && forall i :: 0 <= i < n ==> s[i] != ';'
  {
    if s == "" || s[0] == ';' then 0 else 1 + SemicolonAt(s[1..])
  }

  /** The length of the reference at the start of the text, or zero. */
  function MatchLength(s: string): (n: nat)
    ensures n <= |s|
    ensures n > 0 ==> n >= 4 && s[..n] == Reference(s[1..n - 1]) && IsBody(s[1..n - 1])
  {
    if s == "" || s[0] != '&' then 0
    else
      var end := SemicolonAt(s);
      if end < |s| && IsBody(s[1..end]) then
        assert s[..end + 1] == Reference(s[1..end]);
        end + 1
      else 0
  }

  function DecodeEntities(s: string): string
    decreases |s|
  {
    if s == "" then ""
    else
      var n := MatchLength(s);
      if n > 0 then Replacement(s[1..n - 1]) + DecodeEntities(s[n..]) else [s[0]] + DecodeEntities(s[1..])
  }

  // ---------------------------------------------------------------- decoding a reference in front of other text

  lemma BodyHasNoEnds(b: string)
    requires IsBody(b)
    ensures ';' !in b && '&' !in b
  {
  }

  lemma {:induction false} SemicolonAfter(s: string, rest: string)
    requires ';' !in s
    ensures SemicolonAt(s + [';'] + rest) == |s|
  {
    if s == "" {
      assert s + [';'] + rest == [';'] + rest;
    } else {
      assert (s + [';'] + rest)[1..] == s[1..] + [';'] + rest;
      SemicolonAfter(s[1..], rest);
    }
  }

  lemma DecodeReference(b: string, rest: string)
    requires IsBody(b)
    ensures DecodeEntities(Reference(b) + rest) == Replacement(b) + DecodeEntities(rest)
  {
    hide IsBody, Replacement;
    BodyHasNoEnds(b);
    var s := Reference(b) + rest;
    assert s == (['&'] + b) + [';'] + rest;
    SemicolonAfter(['&'] + b, rest);
    assert s[1..|b| + 1] == b && s[|b| + 2..] == rest;
    assert MatchLength(s) == |b| + 2;
  }

  lemma DecodeRaw(c: char, rest: string)
    requires c != '&'
    ensures DecodeEntities([c] + rest) == [c] + DecodeEntities(rest)
  {
    assert ([c] + rest)[1..] == rest;
  }

  /** Text without `&` is left alone. */
  lemma {:induction false} DecodePlain(s: string)
    requires '&' !in s
    ensures DecodeEntities(s) == s
  {
    if s != "" {
      DecodePlain(s[1..]);
      assert s == [s[0]] + s[1..];
    }
  }

  /** What is no reference stays as it is. */
  lemma UnknownStays(b: string)
    requires '&' !in b && ';' !in b && !IsBody(b)
    ensures DecodeEntities(Reference(b)) == Reference(b)
  {
    hide IsBody, Replacement;
    var s := Reference(b);
    assert s == (['&'] + b) + [';'] + "";
    SemicolonAfter(['&'] + b, "");
    assert s[1..|b| + 1] == b;
    assert MatchLength(s) == 0;
    DecodePlain(s[1..]);
  }

  /** A decimal reference of one to seven digits becomes one character; without digits or with more it stays. */
  lemma DecimalsExactly(digits: string)
    requires forall i :: 0 <= i < |digits| ==> IsDigit(digits[i])
    ensures var s := Reference("#" + digits);
            && (1 <= |digits| <= 7 ==> |DecodeEntities(s)| == 1)
            && (digits == "" || |digits| > 7 ==> DecodeEntities(s) == s)
  {
    var b := "#" + digits;
    if 1 <= |digits| <= 7 {
      assert IsDecimalBody(b);
      DecodeReference(b, "");
      assert Reference(b) + "" == Reference(b);
    } else {
      assert !IsHexBody(b);
      UnknownStays(b);
    }
  }

  /** A hexadecimal reference of one to six digits becomes one character; without digits or with more it stays. */
  lemma HexadecimalsExactly(digits: string, upper: bool)
    requires forall i :: 0 <= i < |digits| ==> IsHexDigit(digits[i])
    ensures var s := Reference((if upper then "#X" else "#x") + digits);
            && (1 <= |digits| <= 6 ==> |DecodeEntities(s)| == 1)
            && (digits == "" || |digits| > 6 ==> DecodeEntities(s) == s)
  {
    var b := (if upper then "#X" else "#x") + digits;
    assert !IsDecimalBody(b) by {
      assert !IsDigit(b[1]);
    }
    if 1 <= |digits| <= 6 {
      assert IsHexBody(b);
      DecodeReference(b, "");
      assert Reference(b) + "" == Reference(b);
    } else {
      UnknownStays(b);
    }
  }

  // ---------------------------------------------------------------- decoding inverts every way of escaping

  datatype Style = Raw | Name | Decimal | Hex(upper: bool)

  function ToDigit(v: nat): (c: char)
    requires v < 16
    ensures IsHexDigit(c) && DigitValue(c) == v && (v < 10 ==> IsDigit(c))
  {
    if v < 10 then ('0' as int + v) as char else ('a' as int + v - 10) as char
  }

  function Digits(n: nat, radix: nat): (s: string)
    requires 2 <= radix <= 16
    ensures |s| >= 1 && forall i :: 0 <= i < |s| ==> IsHexDigit(s[i]) && (radix <= 10 ==> IsDigit(s[i]))
  {
    if n < radix then [ToDigit(n)] else Digits(n / radix, radix) + [ToDigit(n % radix)]
  }

  lemma ParseAppend(s: string, c: char, radix: nat)
    requires IsHexDigit(c) && forall i :: 0 <= i < |s| ==> IsHexDigit(s[i])
    ensures ParseInt(s + [c], radix) == ParseInt(s, radix) * radix + DigitValue(c)
  {
    assert (s + [c])[..|s|] == s;
  }

  lemma {:induction false} ParseDigits(n: nat, radix: nat)
    requires 2 <= radix <= 16
    ensures ParseInt(Digits(n, radix), radix) == n
  {
    hide ParseInt, DigitValue, IsHexDigit, IsDigit;
    if n < radix {
      ParseNothing(radix);
      ParseAppend("", ToDigit(n), radix);
      assert "" + [ToDigit(n)] == [ToDigit(n)];
    } else {
      ParseDigits(n / radix, radix);
      QuotientRemainder(n, radix);
      var q, r := n / radix, n % radix;
      ParseAppend(Digits(q, radix), ToDigit(r), radix);
      assert Digits(n, radix) == Digits(q, radix) + [ToDigit(r)];
    }
  }

  lemma QuotientRemainder(n: nat, radix: nat)
    requires radix > 0
    ensures n / radix * radix + n % radix == n
  {
  }

  lemma ParseNothing(radix: nat)
    ensures ParseInt("", radix) == 0
  {
  }

  lemma {:induction false} FewDigits(n: nat, radix: nat, count: nat, bound: nat)
    requires 2 <= radix <= 16 && count >= 1 && bound == Power(radix, count) && n < bound
    ensures |Digits(n, radix)| <= count
    decreases count
  {
    if n >= radix {
      assert Power(radix, 1) == radix * Power(radix, 0);
      assert n / radix < Power(radix, count - 1) by {
        QuotientBelow(n, radix, Power(radix, count - 1));
      }
      FewDigits(n / radix, radix, count - 1, Power(radix, count - 1));
    }
  }

  lemma QuotientBelow(n: nat, radix: nat, m: nat)
    requires radix > 0 && n < radix * m
    ensures n / radix < m
  {
    assert n / radix * radix <= n;
    if n / radix >= m {
      MultiplyRises(m, n / radix, radix);
    }
  }

  lemma MultiplyRises(a: nat, b: nat, k: nat)
    requires a <= b
    ensures a * k <= b * k
  {
  }

  function Power(base: nat, count: nat): nat {
    if count == 0 then 1 else base * Power(base, count - 1)
  }

  function NameOf(c: char): Option<string> {
    match c
    case '&' => Some("amp")
    case '<' => Some("lt")
    case '>' => Some("gt")
    case '"' => Some("quot")
    case _ => None
  }

  /** A character that this way of writing can carry; only NUL cannot be written as a number. */
  predicate Carries(style: Style, c: char) {
    match style
    case Raw => c != '&'
    case Name => NameOf(c).Some?
    case _ => c != '\0'
  }

  function Body(style: Style, c: char): string
    requires style != Raw && (style.Name? ==> NameOf(c).Some?)
  {
    match style
    case Name => NameOf(c).value
    case Decimal => "#" + Digits(c as int, 10)
    case Hex(upper) => (if upper then "#X" else "#x") + Digits(c as int, 16)
  }

  function Written(style: Style, c: char): string
    requires style.Name? ==> NameOf(c).Some?
  {
    if style == Raw then [c] else Reference(Body(style, c))
  }

  lemma BodyMeans(style: Style, c: char)
    requires style != Raw && (style.Name? ==> NameOf(c).Some?)
    ensures IsBody(Body(style, c))
    ensures Replacement(Body(style, c)) == [c] <==> Carries(style, c)
  {
    match style
    case Name =>
    case Decimal => DecimalMeans(c);
    case Hex(upper) => HexMeans(upper, c);
  }

  lemma DecimalMeans(c: char)
    ensures var b := Body(Decimal, c); IsBody(b) && (Replacement(b) == [c] <==> c != '\0')
  {
    hide Digits, ParseInt, IsHexDigit, IsDigit, Power;
    var b := Body(Decimal, c);
    PowerTen();
    FewDigits(c as int, 10, 7, 10_000_000);
    ParseDigits(c as int, 10);
    assert b[1..] == Digits(c as int, 10);
    assert IsDecimalBody(b);
    FromCodePointMeans(c);
  }

  lemma HexMeans(upper: bool, c: char)
    ensures var b := Body(Hex(upper), c); IsBody(b) && (Replacement(b) == [c] <==> c != '\0')
  {
    hide Digits, ParseInt, IsHexDigit, Power;
    var b := Body(Hex(upper), c);
    PowerSixteen();
    FewDigits(c as int, 16, 6, 0x100_0000);
    ParseDigits(c as int, 16);
    assert b[2..] == Digits(c as int, 16);
    assert IsHexBody(b);
    assert !IsDecimalBody(b) by {
      assert !IsDigit(b[1]);
    }
    FromCodePointMeans(c);
  }

  lemma FromCodePointMeans(c: char)
    ensures FromCodePoint(c as int) == c <==> c != '\0'
  {
  }

  lemma PowerTen()
    ensures Power(10, 7) == 10_000_000
  {
    assert Power(10, 3) == 1000;
    assert Power(10, 6) == 1000_000;
  }

  lemma PowerSixteen()
    ensures Power(16, 6) == 0x100_0000
  {
    assert Power(16, 3) == 0x1000;
  }

  function Encode(t: string, styles: seq<Style>): string
    requires |styles| == |t| && forall i :: 0 <= i < |t| ==> Carries(styles[i], t[i])
  {
    if t == "" then ""
    else
      assert Carries(styles[0], t[0]);
      Written(styles[0], t[0]) + Encode(t[1..], styles[1..])
  }

  /** Every mixture of raw characters, names and numbers decodes to the text it was written from. */
  lemma {:induction false} DecodeInvertsEncode(t: string, styles: seq<Style>)
    requires |styles| == |t| && forall i :: 0 <= i < |t| ==> Carries(styles[i], t[i])
    ensures DecodeEntities(Encode(t, styles)) == t
  {
    hide IsBody, Body, Replacement, Reference, DecodeEntities;
    if t == "" {
      DecodePlain("");
    } else {
      var rest := Encode(t[1..], styles[1..]);
      DecodeInvertsEncode(t[1..], styles[1..]);
      assert t == [t[0]] + t[1..];
      if styles[0] == Raw {
        DecodeRaw(t[0], rest);
      } else {
        BodyMeans(styles[0], t[0]);
        DecodeReference(Body(styles[0], t[0]), rest);
      }
    }
  }

  /** The usual escaping: the four special characters by name, everything else as it is. */
  function Escape(t: string): string {
    if t == "" then ""
    else (if NameOf(t[0]).Some? then Reference(NameOf(t[0]).value) else [t[0]]) + Escape(t[1..])
  }

  lemma {:induction false} DecodeInvertsEscape(t: string)
    ensures DecodeEntities(Escape(t)) == t
  {
    var styles := seq(|t|, i requires 0 <= i < |t| => if NameOf(t[i]).Some? then Name else Raw);
    EscapeIsEncode(t, styles);
    DecodeInvertsEncode(t, styles);
  }

  lemma {:induction false} EscapeIsEncode(t: string, styles: seq<Style>)
    requires |styles| == |t| && forall i :: 0 <= i < |t| ==> styles[i] == if NameOf(t[i]).Some? then Name else Raw
    ensures forall i :: 0 <= i < |t| ==> Carries(styles[i], t[i])
    ensures Escape(t) == Encode(t, styles)
  {
    if t != "" {
      EscapeIsEncode(t[1..], styles[1..]);
      assert forall i :: 1 <= i < |t| ==> styles[i] == styles[1..][i - 1] && t[i] == t[1..][i - 1];
    }
  }

  // ---------------------------------------------------------------- lengths

  /** Length in UTF-16 code units. */
  function Width(s: string): nat {
    if s == "" then 0 else (if s[0] as int > 0xFFFF then 2 else 1) + Width(s[1..])
  }

  lemma {:induction false} WidthConcat(a: string, b: string)
    ensures Width(a + b) == Width(a) + Width(b)
  {
    if a == "" {
      assert a + b == b;
    } else {
      assert (a + b)[1..] == a[1..] + b;
      WidthConcat(a[1..], b);
    }
  }

  lemma {:induction false} WidthAscii(s: string)
    requires forall i :: 0 <= i < |s| ==> s[i] as int <= 0xFFFF
    ensures Width(s) == |s|
  {
    if s != "" {
      WidthAscii(s[1..]);
    }
  }

  /** A replacement is longer than its reference exactly for the inherited names. */
  lemma ReplacementGrowsExactly(b: string)
    requires IsBody(b)
    ensures Width(Reference(b)) == |b| + 2
    ensures Width(Replacement(b)) > Width(Reference(b)) <==> IsInherited(b)
  {
    WidthAscii(Reference(b));
    OneCharacterIsNarrow();
    if IsInherited(b) {
      FunctionTextIsLong(b);
      InheritedIsUnnamed(b);
    }
    hide IsInherited, NamedEntity, FunctionText, Width;
  }

  lemma OneCharacterIsNarrow()
    ensures forall c: char :: Width([c]) <= 2
  {
  }

  lemma InheritedIsUnnamed(name: string)
    requires IsInherited(name)
    ensures NamedEntity(name).None? && name[0] != '#'
  {
  }

  lemma FunctionTextIsLong(name: string)
    requires forall i :: 0 <= i < |name| ==> name[i] as int <= 0xFFFF
    ensures Width(FunctionText(name)) > |name| + 2
  {
    hide Width;
    var shown := if name == "constructor" then "Object" else name;
    WidthAscii(shown);
    WidthConcat("function ", shown);
    WidthConcat("function " + shown, "() { [native code] }");
    WidthAscii("function ");
    WidthAscii("() { [native code] }");
  }

  /** The text holds a reference to an inherited name. */
  predicate NamesInherited(s: string) {
    exists i, j :: 0 <= i < j < |s| && s[i] == '&' && s[j] == ';' && IsInherited(s[i + 1..j])
  }

  /** Decoding never lengthens a text that names no inherited property. */
  lemma {:induction false} DecodeNeverLengthens(s: string)
    requires !NamesInherited(s)
    ensures Width(DecodeEntities(s)) <= Width(s)
    decreases |s|
  {
    if s != "" {
      var n := MatchLength(s);
      var cut := if n > 0 then n else 1;
      assert s == s[..cut] + s[cut..];
      SuffixNamesNothing(s, cut);
      DecodeNeverLengthens(s[cut..]);
      WidthConcat(s[..cut], s[cut..]);
      hide IsInherited, Replacement, IsBody, NamesInherited, Width;
      if n > 0 {
        NotInherited(s, n);
        ReplacementGrowsExactly(s[1..n - 1]);
        WidthConcat(Replacement(s[1..n - 1]), DecodeEntities(s[n..]));
      } else {
        assert s[..1] == [s[0]];
        WidthConcat([s[0]], DecodeEntities(s[1..]));
      }
    }
  }

  lemma NotInherited(s: string, n: nat)
    requires !NamesInherited(s) && n == MatchLength(s) > 0
    ensures !IsInherited(s[1..n - 1])
  {
    hide IsInherited;
    assert s[..n] == Reference(s[1..n - 1]);
    assert s[0] == s[..n][0] && s[n - 1] == s[..n][n - 1];
  }

  lemma SuffixNamesNothing(s: string, cut: nat)
    requires !NamesInherited(s) && cut <= |s|
    ensures !NamesInherited(s[cut..])
  {
    hide IsInherited;
    forall i, j | 0 <= i < j < |s[cut..]| && s[cut..][i] == '&' && s[cut..][j] == ';'
      ensures !IsInherited(s[cut..][i + 1..j])
    {
      assert s[cut..][i + 1..j] == s[cut + i + 1..cut + j];
      assert s[cut + i] == '&' && s[cut + j] == ';';
    }
  }
}
