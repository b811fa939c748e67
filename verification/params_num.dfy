/** `getParamsNumber` (get_params_num.ts): the parameter count, in
    billions, encoded after the colon of a model name such as
    `"qwen2.5:0.5b"` or `"mixtral:8x7b"`.

    The source throws a `TypeError` when the name has no colon and returns
    `NaN` when a piece is not a number; here those are the failures
    `MissingColon` and `NotANumber`.
 */
module ParamsNum {

  import opened Options

  datatype ParamsError = MissingColon | NotANumber

  /** Joins pieces with a one-character separator; the inverse of `Split`. */
  function Join(pieces: seq<string>, sep: char): string {
    if |pieces| == 0 then ""
    else if |pieces| == 1 then pieces[0]
    else pieces[0] + [sep] + Join(pieces[1..], sep)
  }

  /** `s.split(sep)` for a one-character separator. */
  function Split(s: string, sep: char): (pieces: seq<string>)
    ensures |pieces| > 0
    ensures forall i | 0 <= i < |pieces| :: sep !in pieces[i]
    ensures sep !in s ==> pieces == [s]
    ensures sep in s ==> |pieces| > 1
  {
    if |s| == 0 then [""]
    else
      var rest := Split(s[1..], sep);
      assert s == [s[0]] + s[1..];
      if s[0] == sep then [""] + rest
      else [[s[0]] + rest[0]] + rest[1..]
  }

  /** Joining the pieces again restores the text. */
  lemma {:induction false} SplitJoin(s: string, sep: char)
    ensures Join(Split(s, sep), sep) == s
  {
    if |s| > 0 {
      SplitJoin(s[1..], sep);
      var rest := Split(s[1..], sep);
      assert s == [s[0]] + s[1..];
      if s[0] != sep && |rest| > 1 {
        assert Join(rest, sep) == rest[0] + [sep] + Join(rest[1..], sep);
      }
    }
  }

  /** Splitting at the first separator: the text before it is the first
      piece and the rest is split on its own. */
  lemma {:induction false} SplitAtFirst(before: string, sep: char, after: string)
    requires sep !in before
    ensures Split(before + [sep] + after, sep) == [before] + Split(after, sep)
  {
    if |before| > 0 {
      var s := before + [sep] + after;
      assert s[1..] == before[1..] + [sep] + after;
      SplitAtFirst(before[1..], sep, after);
      assert [before[0]] + before[1..] == before;
    }
  }

  /** `s.replace(c, "")` with a one-character pattern: only the first
      occurrence is removed. */
  function RemoveFirst(s: string, c: char): (r: string)
    ensures c !in s ==> r == s
    ensures c in s ==> |r| == |s| - 1
    ensures forall ch | ch in r :: ch in s
  {
    if |s| == 0 then s
    else if s[0] == c then s[1..]
    else [s[0]] + RemoveFirst(s[1..], c)
  }

  /** Text before the first `c` loses that `c`; later ones are kept. */
  lemma {:induction false} RemoveFirstKeepsLater(before: string, c: char, after: string)
    requires c !in before
    ensures RemoveFirst(before + [c] + after, c) == before + after
  {
    if |before| > 0 {
      var s := before + [c] + after;
      assert s[1..] == before[1..] + [c] + after;
      RemoveFirstKeepsLater(before[1..], c, after);
      assert [before[0]] + before[1..] == before;
    }
  }

  predicate IsDigit(ch: char) {
    '0' <= ch <= '9'
  }

  predicate AllDigits(s: string) {
    forall i | 0 <= i < |s| :: IsDigit(s[i])
  }

  /** The value of a run of decimal digits. */
  function DigitsValue(s: string): nat
    requires AllDigits(s)
  {
    if |s| == 0 then 0
    else DigitsValue(s[..|s| - 1]) * 10 + (s[|s| - 1] as int - '0' as int)
  }

  function Pow10(n: nat): (p: nat)
    ensures p > 0
  {
    if n == 0 then 1 else 10 * Pow10(n - 1)
  }

  /** Position of the first `c` in `s`. */
  function IndexOf(s: string, c: char): (i: nat)
    requires c in s
    ensures i < |s| && s[i] == c && c !in s[..i]
  {
    if s[0] == c then 0
    else
      assert s == [s[0]] + s[1..];
      var j := IndexOf(s[1..], c);
      assert s[..j + 1] == [s[0]] + s[1..][..j];
      j + 1
  }

  /** `Number(s)` for the strings the model names use: the empty string is
      zero, and a decimal numeral (digits, optionally a point with more
      digits, at least one digit in all) is its value; anything else is
      `NaN`. */
  function ToNumber(s: string): (r: Option<real>)
    ensures r.Some? ==> r.value >= 0.0
    ensures r.Some? ==> forall i | 0 <= i < |s| :: IsDigit(s[i]) || s[i] == '.'
  {
    if s == "" then Some(0.0)
    else if '.' in s then
      var i := IndexOf(s, '.');
      var whole, fraction := s[..i], s[i + 1..];
      if AllDigits(whole) && AllDigits(fraction) && |s| > 1 then
        assert forall j | 0 <= j < |s| :: j == i || (j < i && s[j] == whole[j]) || (j > i && s[j] == fraction[j - i - 1]);
        Some(DecimalValue(whole, fraction))
      else None
    else if AllDigits(s) then Some(DigitsValue(s) as real)
    else None
  }

  /** The value of the numeral `whole.fraction`. */
  function DecimalValue(whole: string, fraction: string): (v: real)
    requires AllDigits(whole) && AllDigits(fraction)
    ensures v >= 0.0
  {
    DigitsValue(whole) as real + DigitsValue(fraction) as real / Pow10(|fraction|) as real
  }

  /** `Number(a) * Number(b)`: `NaN` if either side is. */
  function Times(a: Option<real>, b: Option<real>): (r: Result<real, ParamsError>)
    ensures r.Success? <==> a.Some? && b.Some?
  {
    if a.Some? && b.Some? then Success(a.value * b.value) else Failure(NotANumber)
  }

  function AsCount(n: Option<real>): (r: Result<real, ParamsError>)
    ensures r.Success? <==> n.Some?
  {
    if n.Some? then Success(n.value) else Failure(NotANumber)
  }

  function GetParamsNumber(model: string): (r: Result<real, ParamsError>)
    ensures r.Failure? && r.error == MissingColon <==> ':' !in model
    ensures r.Success? ==> r.value >= 0.0
  {
    var pieces := Split(model, ':');
    if |pieces| < 2 then Failure(MissingColon) else SizeCount(pieces[1])
  }

  /** The count spelled by the text after the colon. */
  function SizeCount(size: string): (r: Result<real, ParamsError>)
    ensures r.Failure? ==> r.error == NotANumber
    ensures r.Success? ==> r.value >= 0.0
  {
    var paramStr := RemoveFirst(size, 'b');
    if 'x' in paramStr then
      var factors := Split(paramStr, 'x');
      Times(ToNumber(factors[0]), ToNumber(factors[1]))
    else AsCount(ToNumber(paramStr))
  }

  lemma SplitWithoutSeparator(s: string, sep: char)
    requires sep !in s
    ensures Split(s, sep) == [s]
  {
  }

  /** A model name `family:size` splits into exactly those two pieces. */
  lemma SplitModelName(family: string, size: string)
    requires ':' !in family && ':' !in size
    ensures Split(family + ":" + size, ':') == [family, size]
  {
    SplitAtFirst(family, ':', size);
    SplitWithoutSeparator(size, ':');
  }

  /** Only the text between the first colon and the next one is read. */
  lemma OnlySecondPieceIsRead(family: string, size: string, rest: string)
    requires ':' !in family && ':' !in size
    ensures GetParamsNumber(family + ":" + size + ":" + rest) == GetParamsNumber(family + ":" + size)
  {
    assert family + ":" + size + ":" + rest == family + [':'] + (size + [':'] + rest);
    SplitAtFirst(family, ':', size + ":" + rest);
    SplitAtFirst(size, ':', rest);
    SplitModelName(family, size);
  }

  /** A name `family:size` counts what its size text spells. */
  lemma ModelNameCount(family: string, size: string)
    requires ':' !in family && ':' !in size
    ensures GetParamsNumber(family + ":" + size) == SizeCount(size)
  {
    SplitModelName(family, size);
  }

  /** When the size text, less its first `b`, holds an `x`, the count is
      the product of the pieces before the first `x` and between it and
      the next one. */
  lemma ProductOfFirstTwoFactors(size: string, a: string, b: string, rest: string)
    requires RemoveFirst(size, 'b') == a + "x" + b + rest
    requires 'x' !in a && 'x' !in b && (rest == "" || rest[0] == 'x')
    ensures SizeCount(size) == Times(ToNumber(a), ToNumber(b))
  {
    var paramStr := RemoveFirst(size, 'b');
    FactorsOf(paramStr, a, b, rest);
  }

  /** Splitting `a x b rest` on `x` starts with `a` and `b`. */
  lemma FactorsOf(paramStr: string, a: string, b: string, rest: string)
    requires paramStr == a + "x" + b + rest
    requires 'x' !in a && 'x' !in b && (rest == "" || rest[0] == 'x')
    ensures 'x' in paramStr
    ensures |Split(paramStr, 'x')| >= 2
    ensures Split(paramStr, 'x')[0] == a && Split(paramStr, 'x')[1] == b
  {
    assert paramStr == a + ['x'] + (b + rest);
    SplitAtFirst(a, 'x', b + rest);
    if rest == "" {
      assert b + rest == b;
      SplitWithoutSeparator(b, 'x');
    } else {
      assert b + rest == b + ['x'] + rest[1..];
      SplitAtFirst(b, 'x', rest[1..]);
    }
    assert paramStr[|a|] == 'x';
  }

  /** Otherwise the count is the number the size text spells once its
      first `b` is gone. */
  lemma PlainNumber(size: string)
    requires 'x' !in RemoveFirst(size, 'b')
    ensures SizeCount(size) == AsCount(ToNumber(RemoveFirst(size, 'b')))
  {
  }

  /** Decimal digits of a natural number, most significant first. */
  function NatToString(n: nat): (s: string)
    ensures |s| > 0 && AllDigits(s)
  {
    var digit := ['0' + (n % 10) as char];
    if n < 10 then digit else NatToString(n / 10) + digit
  }

  /** `Number` reads back the numeral of every natural number. */
  lemma {:induction false} NatToStringRoundTrip(n: nat)
    ensures DigitsValue(NatToString(n)) == n
    ensures ToNumber(NatToString(n)) == Some(n as real)
  {
    var s := NatToString(n);
    if n >= 10 {
      NatToStringRoundTrip(n / 10);
      assert s[..|s| - 1] == NatToString(n / 10);
    }
    assert '.' !in s by {
      assert forall i | 0 <= i < |s| :: IsDigit(s[i]);
    }
  }

  /** A run of digits has no letters, separators or point, and `Number`
      reads it as its decimal value. */
  lemma Numeral(digits: string)
    requires |digits| > 0 && AllDigits(digits)
    ensures 'b' !in digits && 'x' !in digits && ':' !in digits && '.' !in digits
    ensures ToNumber(digits) == Some(DigitsValue(digits) as real)
  {
    assert forall i | 0 <= i < |digits| :: IsDigit(digits[i]);
  }

  /** A trailing unit `b` is the one removed when no other `b` precedes it. */
  lemma DropUnit(s: string)
    requires 'b' !in s
    ensures RemoveFirst(s + "b", 'b') == s
  {
    RemoveFirstKeepsLater(s, 'b', "");
    assert s + "b" == s + ['b'] + "";
    assert s + "" == s;
  }

  /** A size made of a numeral and the unit `b` counts what `Number` reads
      from the numeral. */
  lemma UnitSize(family: string, numeral: string)
    requires ':' !in family
    requires 'b' !in numeral && 'x' !in numeral && ':' !in numeral
    ensures GetParamsNumber(family + ":" + numeral + "b") == AsCount(ToNumber(numeral))
  {
    DropUnit(numeral);
    PlainNumber(numeral + "b");
    ModelNameCount(family, numeral + "b");
    assert family + ":" + numeral + "b" == family + ":" + (numeral + "b");
  }

  /** A plain size such as `"27b"` counts its number. */
  lemma PlainNumeral(family: string, digits: string)
    requires ':' !in family
    requires |digits| > 0 && AllDigits(digits)
    ensures GetParamsNumber(family + ":" + digits + "b") == Success(DigitsValue(digits) as real)
  {
    Numeral(digits);
    UnitSize(family, digits);
  }

  /** A mixture-of-experts size such as `"8x7b"` counts the product. */
  lemma ProductNumerals(family: string, da: string, dc: string)
    requires ':' !in family
    requires |da| > 0 && AllDigits(da) && |dc| > 0 && AllDigits(dc)
    ensures GetParamsNumber(family + ":" + da + "x" + dc + "b") == Times(ToNumber(da), ToNumber(dc))
  {
    Numeral(da);
    Numeral(dc);
    var size := da + "x" + dc + "b";
    ProductText(da, dc);
    assert ':' !in size;
    ModelNameCount(family, size);
    assert family + ":" + da + "x" + dc + "b" == family + ":" + size;
  }

  /** The size text `a x c b` counts the product of `a` and `c`. */
  lemma ProductText(da: string, dc: string)
    requires 'b' !in da && 'x' !in da && 'b' !in dc && 'x' !in dc
    ensures SizeCount(da + "x" + dc + "b") == Times(ToNumber(da), ToNumber(dc))
  {
    var paramStr := da + "x" + dc;
    assert 'b' !in paramStr;
    DropUnit(paramStr);
    assert paramStr == da + "x" + dc + "";
    ProductOfFirstTwoFactors(paramStr + "b", da, dc, "");
  }

  /** `Number` reads a numeral with a decimal point as its value. */
  lemma DecimalNumeral(whole: string, fraction: string)
    requires |whole| > 0 && AllDigits(whole) && AllDigits(fraction)
    ensures 'b' !in whole + "." + fraction && 'x' !in whole + "." + fraction && ':' !in whole + "." + fraction
    ensures ToNumber(whole + "." + fraction) == Some(DecimalValue(whole, fraction))
  {
    var s := whole + "." + fraction;
    assert forall i | 0 <= i < |whole| :: IsDigit(whole[i]);
    assert forall i | 0 <= i < |fraction| :: IsDigit(fraction[i]);
    assert '.' !in whole;
    assert s == whole + ['.'] + fraction;
    assert s[|whole|] == '.' && s[..|whole|] == whole;
    assert IndexOf(s, '.') == |whole|;
    assert s[|whole| + 1..] == fraction;
  }

  /** A decimal size such as `"0.5b"` counts the decimal's value. */
  lemma DecimalSize(family: string, whole: string, fraction: string)
    requires ':' !in family
    requires |whole| > 0 && AllDigits(whole) && AllDigits(fraction)
    ensures GetParamsNumber(family + ":" + (whole + "." + fraction) + "b") == Success(DecimalValue(whole, fraction))
  {
    DecimalNumeral(whole, fraction);
    UnitSize(family, whole + "." + fraction);
  }

  lemma PlainSize(family: string, n: nat)
    requires ':' !in family
    ensures GetParamsNumber(family + ":" + NatToString(n) + "b") == Success(n as real)
  {
    NatToStringRoundTrip(n);
    PlainNumeral(family, NatToString(n));
  }

  lemma ProductSize(family: string, a: nat, c: nat)
    requires ':' !in family
    ensures GetParamsNumber(family + ":" + NatToString(a) + "x" + NatToString(c) + "b") == Success(a as real * c as real)
  {
    NatToStringRoundTrip(a);
    NatToStringRoundTrip(c);
    ProductOfNumbers(family, NatToString(a), NatToString(c), a as real, c as real);
  }

  lemma ProductOfNumbers(family: string, da: string, dc: string, x: real, y: real)
    requires ':' !in family
    requires |da| > 0 && AllDigits(da) && |dc| > 0 && AllDigits(dc)
    requires ToNumber(da) == Some(x) && ToNumber(dc) == Some(y)
    ensures GetParamsNumber(family + ":" + da + "x" + dc + "b") == Success(x * y)
  {
    ProductNumerals(family, da, dc);
    TimesOfNumbers(x, y);
  }

  lemma TimesOfNumbers(x: real, y: real)
    ensures Times(Some(x), Some(y)) == Success(x * y)
  {
    var r := Times(Some(x), Some(y));
    assert r.Success? && r.value == x * y;
  }

  lemma GemmaExample()
    ensures GetParamsNumber("gemma2:27b") == Success(27.0)
  {
    assert NatToString(27) == "27";
    PlainSize("gemma2", 27);
    assert "gemma2" + ":" + NatToString(27) + "b" == "gemma2:27b";
  }

  lemma MixtralExample()
    ensures GetParamsNumber("mixtral:8x7b") == Success(56.0)
  {
    assert NatToString(8) == "8" && NatToString(7) == "7";
    ProductSize("mixtral", 8, 7);
    assert "mixtral" + ":" + NatToString(8) + "x" + NatToString(7) + "b" == "mixtral:8x7b";
  }

  lemma QwenExample()
    ensures GetParamsNumber("qwen2.5:0.5b") == Success(0.5)
  {
    DecimalSize("qwen2.5", "0", "5");
    assert "qwen2.5" + ":" + ("0" + "." + "5") + "b" == "qwen2.5:0.5b";
    HalfValue();
  }

  lemma HalfValue()
    ensures DecimalValue("0", "5") == 0.5
  {
    assert DigitsValue("0") == 0 && DigitsValue("5") == 5 && Pow10(1) == 10;
  }

  lemma MissingColonExample()
    ensures GetParamsNumber("llama3.2") == Failure(MissingColon)
  {
  }
}
