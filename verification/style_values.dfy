/**
 * The values that parser/layout.js keeps in a `style` object, and the three
 * helpers that fill such an object: the unit-stripping copy of `getStyle`
 * (built on JavaScript's `parseInt`), `setDefault`, and the JavaScript
 * arithmetic the layout performs on those values.
 *
 * `null` and `undefined` are one value, `Null`: every read in the layout
 * tests them together (`== null`, truthiness) and an absent key reads as
 * `Null`. Numbers are exact reals; `parseInt` only ever yields integers.
 */
module StyleValues {

  datatype Value = Null | Num(n: real) | NaN | Str(s: string)

  /** An element's `style` object. */
  type Style = map<string, Value>

  /**
   * An element's `computedStyle` as `layout` reads it: each property holds a
   * string, or `null` (`None`).
   */
  type Computed = map<string, Option<string>>

  datatype Option<+T> = None | Some(value: T)

  /** `style[key]`, with an absent key reading as `undefined`. */
  function Get(s: Style, key: string): Value
  {
    if key in s then s[key] else Null
  }

  /** JavaScript truthiness: 0, NaN, the empty string, null and undefined are falsy. */
  predicate Truthy(v: Value)
  {
    match v
    case Null => false
    case Num(n) => n != 0.0
    case NaN => false
    case Str(s) => s != ""
  }

  // ---------------------------------------------------------------------
  // parseInt (section 19.2.5 of ECMAScript 2023), radix left undefined.
  // ---------------------------------------------------------------------

  /** The white space and line terminators that `parseInt` skips at the front. */
  predicate IsJsSpace(c: char)
  {
    c == '\t' || c == '\n' || c == '\U{B}' || c == '\U{C}' || c == '\r' || c == ' '
    || c == '\U{A0}' || c == '\U{1680}' || ('\U{2000}' <= c <= '\U{200A}')
    || c == '\U{2028}' || c == '\U{2029}' || c == '\U{202F}' || c == '\U{205F}'
    || c == '\U{3000}' || c == '\U{FEFF}'
  }

  /** What is left of `s` once its leading white space is gone. */
  function TrimStart(s: string): (r: string)
    ensures r != [] ==> !IsJsSpace(r[0])
    decreases |s|
  {
    if s != [] && IsJsSpace(s[0]) then TrimStart(s[1..]) else s
  }

  /** `TrimStart` removes a prefix of white space and nothing else. */
  lemma {:induction false} TrimStartSuffix(s: string)
    ensures var r := TrimStart(s);
      |r| <= |s| && r == s[|s| - |r|..] &&
      (forall i :: 0 <= i < |s| - |r| ==> IsJsSpace(s[i])) &&
      (r != [] ==> !IsJsSpace(r[0]))
    decreases |s|
  {
    if s != [] && IsJsSpace(s[0]) {
      TrimStartSuffix(s[1..]);
    }
  }

  /** The value of `c` as a digit in `radix` (10 or 16). */
  function DigitValue(c: char, radix: nat): Option<nat>
  {
    if '0' <= c <= '9' then Some(c as int - '0' as int)
    else if radix == 16 && 'a' <= c <= 'f' then Some(c as int - 'a' as int + 10)
    else if radix == 16 && 'A' <= c <= 'F' then Some(c as int - 'A' as int + 10)
    else None
  }

  predicate IsDigit(c: char, radix: nat)
  {
    DigitValue(c, radix).Some?
  }

  /** The longest prefix of `s` made of digits of `radix`. */
  function DigitPrefix(s: string, radix: nat): string
    decreases |s|
  {
    if s != [] && IsDigit(s[0], radix) then [s[0]] + DigitPrefix(s[1..], radix) else []
  }

  /**
   * The number that a string of digits denotes, most significant first.
   * It is only applied to runs of digits; anything else would count as 0.
   */
  function DigitsValue(ds: string, radix: nat): nat
    decreases |ds|
  {
    if ds == [] then 0
    else
      var d := DigitValue(ds[|ds| - 1], radix);
      DigitsValue(ds[..|ds| - 1], radix) * radix + (if d.Some? then d.value else 0)
  }

  /**
   * `parseInt(s)`: skip leading white space, read an optional sign, then
   * `0x`/`0X` switches to hexadecimal; the longest run of digits is the
   * value, and no digits at all give NaN. (`-0` is read as 0, which no
   * comparison in the layout can tell apart.)
   */
  function ParseInt(s: string): (r: Value)
    ensures r.Num? || r == NaN
    ensures r.Num? ==> r.n == r.n.Floor as real
  {
    var t := TrimStart(s);
    var v := ParseUnsigned(if t != [] && (t[0] == '-' || t[0] == '+') then t[1..] else t);
    if v.None? then NaN
    else
      var k: int := if t != [] && t[0] == '-' then -(v.value as int) else v.value;
      assert (k as real).Floor == k;
      Num(k as real)
  }

  /** The number after the sign: hexadecimal after `0x`/`0X`, decimal otherwise; `None` without digits. */
  function ParseUnsigned(u: string): Option<nat>
  {
    var hex := |u| >= 2 && u[0] == '0' && (u[1] == 'x' || u[1] == 'X');
    var radix := if hex then 16 else 10;
    var digits := DigitPrefix(if hex then u[2..] else u, radix);
    if digits == [] then None else Some(DigitsValue(digits, radix))
  }

  /** The decimal digits of `n`, as `String(n)` writes a non-negative integer. */
  function Decimal(n: nat): (r: string)
    ensures r != [] && forall i :: 0 <= i < |r| ==> '0' <= r[i] <= '9'
    ensures n > 0 ==> r[0] != '0'
    ensures n == 0 ==> r == "0"
  {
    if n < 10 then [('0' as int + n) as char]
    else Decimal(n / 10) + [('0' as int + n % 10) as char]
  }

  // ---------------------------------------------------------------------
  // getStyle and setDefault.
  // ---------------------------------------------------------------------

  /** `/px$/.test(s)`. */
  predicate EndsWithPx(s: string)
  {
    |s| >= 2 && s[|s| - 2..] == "px"
  }

  /** `/^[0-9\.]+$/.test(s)`. */
  predicate DigitsAndDots(s: string)
  {
    s != [] && forall i :: 0 <= i < |s| ==> ('0' <= s[i] <= '9' || s[i] == '.')
  }

  /** What `getStyle` stores for one non-null computed value. */
  function Convert(s: string): Value
  {
    if EndsWithPx(s) || DigitsAndDots(s) then ParseInt(s) else Str(s)
  }

  /** The keys of a computed style whose value is not null. */
  function Present(c: Computed): set<string>
  {
    set k | k in c && c[k].Some?
  }

  /**
   * `getStyle(element)`: the element's style with every non-null computed
   * value copied in (converted), and every other entry left as it was.
   */
  function CopyStyle(style: Style, computed: Computed): Style
  {
    map k | k in style.Keys + Present(computed) ::
      if k in computed && computed[k].Some? then Convert(computed[k].value) else style[k]
  }

  /**
   * The copy holds the style's keys and the computed keys; a computed key
   * has its converted value, and every other key keeps its old value.
   */
  lemma CopyStyleEntries(style: Style, computed: Computed)
    ensures var r := CopyStyle(style, computed);
      r.Keys == style.Keys + Present(computed) &&
      (forall k :: k in Present(computed) ==> r[k] == Convert(computed[k].value)) &&
      (forall k :: k in style && k !in Present(computed) ==> r[k] == style[k])
  {
  }

  /** `setDefault(target, prop, value)`: write the default over a falsy or `'auto'` value. */
  function SetDefault(s: Style, prop: string, d: Value): (r: Style)
  {
    var v := Get(s, prop);
    if Truthy(v) && v != Str("auto") then s else s[prop := d]
  }

  // ---------------------------------------------------------------------
  // JavaScript arithmetic on style values.
  // ---------------------------------------------------------------------

  /**
   * `ToNumber` as far as the layout needs it: null is 0, a blank string is
   * 0, and every other string is NaN.
   */
  function ToNumber(v: Value): (r: Value)
    ensures r.Num? || r == NaN
  {
    match v
    case Null => Num(0.0)
    case Num(_) => v
    case NaN => NaN
    case Str(s) => if TrimStart(s) == [] then Num(0.0) else NaN
  }

  function Plus(a: Value, b: Value): Value
  {
    var x := ToNumber(a);
    var y := ToNumber(b);
    if x.Num? && y.Num? then Num(x.n + y.n) else NaN
  }

  function Minus(a: Value, b: Value): Value
  {
    var x := ToNumber(a);
    var y := ToNumber(b);
    if x.Num? && y.Num? then Num(x.n - y.n) else NaN
  }

  function Times(a: Value, b: Value): Value
  {
    var x := ToNumber(a);
    var y := ToNumber(b);
    if x.Num? && y.Num? then Num(x.n * y.n) else NaN
  }

  /** Division; a zero divisor gives NaN here (JavaScript gives an infinity, or NaN for 0/0). */
  function Div(a: Value, b: Value): Value
  {
    var x := ToNumber(a);
    var y := ToNumber(b);
    if x.Num? && y.Num? && y.n != 0.0 then Num(x.n / y.n) else NaN
  }

  /** `Math.max(a, b)`. */
  function Max(a: Value, b: Value): Value
  {
    var x := ToNumber(a);
    var y := ToNumber(b);
    if x.Num? && y.Num? then Num(if x.n < y.n then y.n else x.n) else NaN
  }

  /** `a < b` on numbers; a NaN operand makes every comparison false. */
  predicate Less(a: Value, b: Value)
  {
    var x := ToNumber(a);
    var y := ToNumber(b);
    x.Num? && y.Num? && x.n < y.n
  }

  // ---------------------------------------------------------------------
  // Properties.
  // ---------------------------------------------------------------------

  lemma {:induction false} DigitsValueDecimal(n: nat)
    ensures DigitsValue(Decimal(n), 10) == n
    decreases n
  {
    var d := Decimal(n);
    if n >= 10 {
      DigitsValueDecimal(n / 10);
      assert d[..|d| - 1] == Decimal(n / 10);
    }
  }

  lemma {:induction false} DigitPrefixAll(s: string, rest: string, radix: nat)
    requires forall i :: 0 <= i < |s| ==> IsDigit(s[i], radix)
    requires rest == [] || !IsDigit(rest[0], radix)
    ensures DigitPrefix(s + rest, radix) == s
    decreases |s|
  {
    if s == [] {
      assert s + rest == rest;
    } else {
      assert (s + rest)[0] == s[0] && (s + rest)[1..] == s[1..] + rest;
      DigitPrefixAll(s[1..], rest, radix);
    }
  }

  /** A string that starts with a decimal digit, and not with `0x`, is read as its leading digits. */
  lemma ParseIntPlain(s: string)
    requires s != [] && '0' <= s[0] <= '9'
    requires !(|s| >= 2 && s[0] == '0' && (s[1] == 'x' || s[1] == 'X'))
    ensures DigitPrefix(s, 10) != []
    ensures ParseInt(s) == Num(DigitsValue(DigitPrefix(s, 10), 10) as real)
  {
    assert !IsJsSpace(s[0]);
    assert TrimStart(s) == s;
    assert s[0] != '-' && s[0] != '+';
    assert IsDigit(s[0], 10);
  }

  /**
   * The unit-stripping round trip: `parseInt` reads back the decimal digits
   * of a non-negative integer, whether a unit, a fraction or nothing follows.
   */
  lemma ParseIntDecimal(n: nat, rest: string)
    requires rest == [] || !('0' <= rest[0] <= '9')
    requires rest == [] || n != 0 || (rest[0] != 'x' && rest[0] != 'X')
    ensures ParseInt(Decimal(n) + rest) == Num(n as real)
  {
    var s := Decimal(n) + rest;
    assert s[0] == Decimal(n)[0];
    assert !(|s| >= 2 && s[0] == '0' && (s[1] == 'x' || s[1] == 'X')) by {
      if |s| >= 2 && s[0] == '0' {
        assert n == 0 && Decimal(n) == "0";
        assert s[1] == rest[0];
      }
    }
    ParseIntPlain(s);
    DigitPrefixAll(Decimal(n), rest, 10);
    DigitsValueDecimal(n);
  }

  /** `parseInt` skips leading white space. */
  lemma ParseIntSkipsSpace(c: char, s: string)
    requires IsJsSpace(c)
    ensures ParseInt([c] + s) == ParseInt(s)
  {
    assert ([c] + s)[1..] == s;
  }

  /** A leading `-` negates the number that follows it, and a leading `+` changes nothing. */
  lemma ParseIntSign(s: string)
    requires s != [] && !IsJsSpace(s[0]) && s[0] != '-' && s[0] != '+'
    ensures ParseInt("+" + s) == ParseInt(s)
    ensures ParseInt("-" + s) == if ParseInt(s).Num? then Num(-ParseInt(s).n) else NaN
  {
    Unspaced(s);
    Unspaced("+" + s);
    Unspaced("-" + s);
    assert ("+" + s)[1..] == s && ("-" + s)[1..] == s;
  }

  /** A string that does not start with white space is its own `TrimStart`. */
  lemma Unspaced(s: string)
    requires s != [] && !IsJsSpace(s[0])
    ensures TrimStart(s) == s
  {
  }

  /**
   * `0x` or `0X` switches to hexadecimal: the run of hexadecimal digits
   * after it is the value, and an empty run is no number at all.
   */
  lemma ParseIntHex(s: string)
    requires |s| >= 2 && s[0] == '0' && (s[1] == 'x' || s[1] == 'X')
    ensures var ds := DigitPrefix(s[2..], 16);
      ParseInt(s) == if ds == [] then NaN else Num(DigitsValue(ds, 16) as real)
  {
    Unspaced(s);
  }

  /** `getStyle` turns `"<n>px"` into the number n. */
  lemma ConvertPixels(n: nat)
    ensures Convert(Decimal(n) + "px") == Num(n as real)
  {
    var s := Decimal(n) + "px";
    assert s[|s| - 2..] == "px";
    ParseIntDecimal(n, "px");
  }

  /** `getStyle` turns `"-<n>px"` into the number -n. */
  lemma ConvertNegativePixels(n: nat)
    ensures Convert("-" + Decimal(n) + "px") == Num(-(n as real))
  {
    var s := "-" + Decimal(n) + "px";
    assert s[|s| - 2..] == "px";
    assert s == "-" + (Decimal(n) + "px");
    ParseIntSign(Decimal(n) + "px");
    ParseIntDecimal(n, "px");
  }

  /** `getStyle` turns a bare digit string into its number. */
  lemma ConvertDigits(n: nat)
    ensures Convert(Decimal(n)) == Num(n as real)
  {
    ParseIntDecimal(n, []);
    assert Decimal(n) + [] == Decimal(n);
  }

  /** A decimal fraction is truncated towards zero by `parseInt`. */
  lemma ConvertTruncates(n: nat, m: nat)
    ensures Convert(Decimal(n) + "." + Decimal(m)) == Num(n as real)
  {
    DecimalDotDecimal(n, m);
    assert Decimal(n) + "." + Decimal(m) == Decimal(n) + ("." + Decimal(m));
    ParseIntDecimal(n, "." + Decimal(m));
  }

  /** A decimal fraction is made of digits and dots only. */
  lemma DecimalDotDecimal(n: nat, m: nat)
    ensures DigitsAndDots(Decimal(n) + "." + Decimal(m))
  {
    var a, b := Decimal(n), Decimal(m);
    var s := a + "." + b;
    forall i | 0 <= i < |s|
      ensures '0' <= s[i] <= '9' || s[i] == '.'
    {
      if i < |a| {
        assert s[i] == a[i];
      } else if i > |a| {
        assert s[i] == b[i - |a| - 1];
      }
    }
  }

  /** A keyword such as `flex` or `row` is stored verbatim. */
  lemma ConvertKeyword(s: string)
    requires s != [] && forall i :: 0 <= i < |s| ==> 'a' <= s[i] <= 'z'
    requires !EndsWithPx(s)
    ensures Convert(s) == Str(s)
  {
    assert !DigitsAndDots(s) by {
      assert !('0' <= s[0] <= '9' || s[0] == '.');
    }
  }

  /** Calling `getStyle` twice is the same as calling it once. */
  lemma CopyStyleIdempotent(style: Style, computed: Computed)
    ensures CopyStyle(CopyStyle(style, computed), computed) == CopyStyle(style, computed)
  {
  }

  /**
   * `getStyle` undoes a write to a key that the computed style holds (the
   * layout's later `getStyle` calls re-copy such keys) and keeps a write to
   * any other key.
   */
  lemma CopyStyleAfterWrite(style: Style, computed: Computed, key: string, v: Value)
    ensures key in Present(computed) ==> CopyStyle(style[key := v], computed) == CopyStyle(style, computed)
    ensures key !in Present(computed) ==> CopyStyle(style[key := v], computed) == CopyStyle(style, computed)[key := v]
  {
    if key in Present(computed) {
      assert CopyStyle(style[key := v], computed).Keys == CopyStyle(style, computed).Keys;
    } else {
      assert CopyStyle(style[key := v], computed).Keys == CopyStyle(style, computed)[key := v].Keys;
    }
  }

  /**
   * `setDefault` replaces exactly the falsy values and `'auto'` (so 0, NaN
   * and the empty string are replaced too), and touches no other key.
   */
  lemma SetDefaultReplaces(s: Style, prop: string, d: Value)
    ensures var v := Get(s, prop);
      Get(SetDefault(s, prop, d), prop) == if !Truthy(v) || v == Str("auto") then d else v
    ensures forall k :: k != prop ==> Get(SetDefault(s, prop, d), k) == Get(s, k)
    ensures SetDefault(s[prop := Num(0.0)], prop, d) == s[prop := d]
  {
  }
}
