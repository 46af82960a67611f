/** The parts of the Java class library that the CSV peak converter relies on
    to turn numbers into text and back, and to cut a cell into records:
    `Integer.toString` and `Integer.parseInt`, the shape of the text that
    `Float.toString` and `Double.toString` produce, the grammar that
    `Float.parseFloat` and `Double.parseDouble` accept, `Pattern.splitAsStream`
    and `Pattern.split(input, 2)` for a literal one-character pattern, and
    `String.trim`, `String.toLowerCase` and `String.endsWith`. */
module JavaText {
  import opened Results

  /** Java's `int`. */
  type Int32 = x: int | -0x8000_0000 <= x < 0x8000_0000

  predicate IsDigit(c: char) {
    '0' <= c <= '9'
  }

  predicate AllDigits(s: string) {
    forall i :: 0 <= i < |s| ==> IsDigit(s[i])
  }

  /** A non-empty run of decimal digits. */
  type DigitString = s: string | |s| > 0 && AllDigits(s) witness "0"

  function DigitChar(d: nat): (c: char)
    requires d < 10
    ensures IsDigit(c) && c as int - '0' as int == d
  {
    ('0' as int + d) as char
  }

  function DigitValue(c: char): nat
    requires IsDigit(c)
  {
    c as int - '0' as int
  }

  // ---------------------------------------------------------------------
  // Integer.toString and Integer.parseInt

  /** The decimal digits of `n`, most significant first, without leading zeros. */
  function NatText(n: nat): string
    decreases n
  {
    if n < 10 then [DigitChar(n)] else NatText(n / 10) + [DigitChar(n % 10)]
  }

  /** `Integer.toString(n)`: a minus sign for a negative value, then the digits. */
  function IntText(n: int): string {
    if n < 0 then "-" + NatText(-n) else NatText(n)
  }

  /** The value of a run of decimal digits. */
  function DigitsValue(s: string): nat
    requires AllDigits(s)
  {
    if s == [] then 0 else DigitsValue(s[..|s| - 1]) * 10 + DigitValue(s[|s| - 1])
  }

  /** `Integer.parseInt(s)`: an optional sign and at least one decimal digit,
      whose value lies in the range of `int`; anything else throws
      NumberFormatException, which is `None` here. */
  function ParseInt(s: string): (r: Option<Int32>)
    ensures r.Some? ==> |s| > 0 && (s[0] == '-' || s[0] == '+' || IsDigit(s[0]))
    ensures r.Some? ==> forall i :: 0 < i < |s| ==> IsDigit(s[i])
  {
    if |s| == 0 then None
    else
      var body := if s[0] == '-' || s[0] == '+' then s[1..] else s;
      if |body| == 0 || !AllDigits(body) then None
      else
        var v: int := if s[0] == '-' then 0 - DigitsValue(body) as int else DigitsValue(body);
        if -0x8000_0000 <= v < 0x8000_0000 then Some(v) else None
  }

  lemma {:induction false} NatTextDigits(n: nat)
    ensures |NatText(n)| > 0 && AllDigits(NatText(n))
    ensures DigitsValue(NatText(n)) == n
    decreases n
  {
    if n >= 10 {
      NatTextDigits(n / 10);
      var t := NatText(n / 10) + [DigitChar(n % 10)];
      assert t[..|t| - 1] == NatText(n / 10);
    }
  }

  /** Reading back what `Integer.toString` wrote gives the same `int`. */
  lemma IntTextRoundTrip(n: Int32)
    ensures ParseInt(IntText(n)) == Some(n)
  {
    if n < 0 {
      NegativeIntTextParses(n);
    } else {
      NonNegativeIntTextParses(n);
    }
  }

  lemma NegativeIntTextParses(n: Int32)
    requires n < 0
    ensures ParseInt(IntText(n)) == Some(n)
  {
    var m: nat := 0 - n as int;
    var digits := NatText(m);
    var s := IntText(n);
    assert s == "-" + digits;
    assert |digits| > 0 && AllDigits(digits) && DigitsValue(digits) == m by {
      NatTextDigits(m);
    }
    assert s[0] == '-' && s[1..] == digits;
  }

  lemma NonNegativeIntTextParses(n: Int32)
    requires n >= 0
    ensures ParseInt(IntText(n)) == Some(n)
  {
    var digits := NatText(n);
    assert IntText(n) == digits;
    assert |digits| > 0 && AllDigits(digits) && DigitsValue(digits) == n by {
      NatTextDigits(n);
    }
    assert IsDigit(digits[0]);
  }

  /** A text holding a character that is neither a digit nor a sign is not an
      `int`; in particular a decimal point is never accepted. */
  lemma ParseIntRejects(s: string, k: nat)
    requires k < |s| && !IsDigit(s[k]) && s[k] != '-' && s[k] != '+'
    ensures ParseInt(s) == None
  {
  }

  // ---------------------------------------------------------------------
  // The text of Float.toString and Double.toString

  /** The three shapes of text that `Float.toString` and `Double.toString`
      produce: `NaN`, `Infinity` with an optional minus sign, and a decimal
      `d.ddd` with an optional exponent `E-n`; there is always at least one
      digit on each side of the point. The numeric value is not modelled. */
  datatype FloatText =
    | NaN
    | Infinity(negative: bool)
    | Decimal(negative: bool, whole: DigitString, fraction: DigitString, exponent: Option<int>)

  function SignText(negative: bool): string {
    if negative then "-" else ""
  }

  /** The characters of a `FloatText`. */
  function Render(f: FloatText): (s: string)
    ensures |s| > 0
  {
    match f
    case NaN => "NaN"
    case Infinity(negative) => SignText(negative) + "Infinity"
    case Decimal(negative, whole, fraction, exponent) =>
      SignText(negative) + whole + "." + fraction + ExponentText(exponent)
  }

  /** No character up to `' '` (which `String.trim` removes, and which holds
      the record separator) and no colon. */
  predicate Plain(s: string) {
    forall i :: 0 <= i < |s| ==> ' ' < s[i] && s[i] != ':'
  }

  lemma PlainConcat(a: string, b: string)
    requires Plain(a) && Plain(b)
    ensures Plain(a + b)
  {
    forall i | 0 <= i < |a + b| ensures ' ' < (a + b)[i] && (a + b)[i] != ':' {
      if i < |a| {
        assert (a + b)[i] == a[i];
      } else {
        assert (a + b)[i] == b[i - |a|];
      }
    }
  }

  lemma DigitsArePlain(s: string)
    requires AllDigits(s)
    ensures Plain(s)
  {
  }

  /** The text of an `int` holds no space and no colon. */
  lemma IntTextIsPlain(n: int)
    ensures Plain(IntText(n)) && |IntText(n)| > 0
  {
    var m: nat := if n < 0 then -n else n;
    NatTextDigits(m);
    DigitsArePlain(NatText(m));
    PlainConcat(SignText(n < 0), NatText(m));
    assert IntText(n) == SignText(n < 0) + NatText(m);
  }

  /** The rendered text never holds a space, a colon or a character that
      `String.trim` would remove. */
  lemma RenderedIsPlain(f: FloatText)
    ensures Plain(Render(f))
  {
    match f
    case NaN =>
    case Infinity(negative) =>
      PlainConcat(SignText(negative), "Infinity");
    case Decimal(negative, whole, fraction, exponent) =>
      DigitsArePlain(whole);
      DigitsArePlain(fraction);
      PlainConcat(SignText(negative), whole);
      PlainConcat(SignText(negative) + whole, ".");
      PlainConcat(SignText(negative) + whole + ".", fraction);
      var head := SignText(negative) + whole + "." + fraction;
      match exponent {
        case Some(e) =>
          var m: nat := if e < 0 then -e else e;
          NatTextAllDigits(m);
          DigitsArePlain(NatText(m));
          PlainConcat(SignText(e < 0), NatText(m));
          assert IntText(e) == SignText(e < 0) + NatText(m);
          PlainConcat("E", IntText(e));
          PlainConcat(head, "E" + IntText(e));
          assert Render(f) == head + ("E" + IntText(e));
        case None =>
          assert Render(f) == head;
      }
  }

  /** The rendered text is never an `int`: it holds a letter or a point. */
  lemma RenderedIsNotInt(f: FloatText)
    ensures ParseInt(Render(f)) == None
  {
    var s := Render(f);
    match f
    case NaN =>
      ParseIntRejects(s, 0);
    case Infinity(negative) =>
      ParseIntRejects(s, |SignText(negative)|);
    case Decimal(negative, whole, fraction, exponent) =>
      var k := |SignText(negative)| + |whole|;
      assert s[k] == (SignText(negative) + whole + "." + fraction)[k];
      ParseIntRejects(s, k);
  }

  lemma NatTextAllDigits(n: nat)
    ensures AllDigits(NatText(n))
  {
    NatTextDigits(n);
  }

  // ---------------------------------------------------------------------
  // The grammar Float.parseFloat accepts

  /** `String.trim`: drops every leading and trailing character up to `' '`. */
  function Trim(s: string): string {
    TrimEnd(TrimStart(s))
  }

  function TrimStart(s: string): (r: string)
    ensures |r| > 0 ==> r[0] > ' '
  {
    if |s| > 0 && s[0] <= ' ' then TrimStart(s[1..]) else s
  }

  function TrimEnd(s: string): (r: string)
    ensures |r| > 0 ==> r[|r| - 1] > ' '
  {
    if |s| > 0 && s[|s| - 1] <= ' ' then TrimEnd(s[..|s| - 1]) else s
  }

  /** The end of the longest run of digits in `s` that starts at `i`. */
  function SkipDigits(s: string, i: nat): (j: nat)
    requires i <= |s|
    ensures i <= j <= |s| && AllDigits(s[i..j]) && (j == |s| || !IsDigit(s[j]))
    decreases |s| - i
  {
    if i < |s| && IsDigit(s[i]) then
      var j := SkipDigits(s, i + 1);
      assert s[i..j] == [s[i]] + s[i + 1..j];
      j
    else i
  }

  /** After the digits and the point, an optional exponent `e`/`E` with an
      optional sign and at least one digit; `None` when that marker is there but
      no digit follows. */
  function ExponentEnd(u: string, j: nat): (k: Option<nat>)
    requires j <= |u|
    ensures k.Some? ==> j <= k.value <= |u|
    ensures k.Some? && k.value > j ==> u[j] == 'e' || u[j] == 'E'
  {
    if j < |u| && (u[j] == 'e' || u[j] == 'E') then
      var m := if j + 1 < |u| && (u[j + 1] == '+' || u[j + 1] == '-') then j + 2 else j + 1;
      var n := SkipDigits(u, m);
      if n == m then None else Some(n)
    else Some(j)
  }

  /** The decimal form read by `FloatingDecimal.readJavaFormatString`: digits
      with at most one point and at least one digit in all, an optional
      exponent, and at most one trailing type letter `f`, `F`, `d` or `D`. */
  predicate DecimalLiteral(u: string) {
    var i := SkipDigits(u, 0);
    var hasPoint := i < |u| && u[i] == '.';
    var j := if hasPoint then SkipDigits(u, i + 1) else i;
    var digitCount := if hasPoint then j - 1 else i;
    digitCount > 0 &&
    var k := ExponentEnd(u, j);
    k.Some? && (k.value == |u| || (k.value == |u| - 1 && u[k.value] in "fFdD"))
  }

  /** True iff `Float.parseFloat(s)` (and `Double.parseDouble(s)`) returns
      rather than throwing NumberFormatException: after trimming, an optional
      sign, then `NaN`, `Infinity` or a decimal literal. */
  predicate ParsesAsFloat(s: string) {
    var t := Trim(s);
    |t| > 0 &&
    var u := if t[0] == '-' || t[0] == '+' then t[1..] else t;
    u == "NaN" || u == "Infinity" || DecimalLiteral(u)
  }

  lemma {:induction false} SkipDigitsOver(s: string, i: nat, d: string)
    requires i + |d| <= |s| && s[i..i + |d|] == d && AllDigits(d)
    requires i + |d| == |s| || !IsDigit(s[i + |d|])
    ensures SkipDigits(s, i) == i + |d|
    decreases |d|
  {
    if |d| > 0 {
      assert s[i] == d[0];
      assert s[i + 1..i + 1 + |d[1..]|] == d[1..];
      SkipDigitsOver(s, i + 1, d[1..]);
    }
  }

  lemma TrimPlain(s: string)
    requires |s| > 0 && Plain(s)
    ensures Trim(s) == s
  {
    assert TrimStart(s) == s;
  }

  /** The optional exponent `E` followed by the text of an `int`. */
  function ExponentText(exponent: Option<int>): string {
    match exponent
    case Some(e) => "E" + IntText(e)
    case None => ""
  }

  /** A run of digits that reaches the end of the text is skipped whole. */
  lemma DigitsToEnd(u: string, start: nat, digits: string)
    requires start + |digits| == |u| && u[start..] == digits && AllDigits(digits)
    ensures SkipDigits(u, start) == |u|
  {
    assert u[start..start + |digits|] == digits;
    SkipDigitsOver(u, start, digits);
  }

  lemma NegativeExponentEnds(u: string, j: nat, e: int)
    requires e < 0 && j <= |u| && u[j..] == "E" + IntText(e)
    ensures ExponentEnd(u, j) == Some(|u|)
  {
    var m: nat := -e;
    var digits := NatText(m);
    assert IntText(e) == "-" + digits;
    assert |digits| > 0 && AllDigits(digits) by {
      NatTextDigits(m);
    }
    assert u[j..] == ['E', '-'] + digits;
    assert u[j + 1] == '-';
    assert u[j + 2..] == digits;
    DigitsToEnd(u, j + 2, digits);
  }

  lemma NonNegativeExponentEnds(u: string, j: nat, e: int)
    requires e >= 0 && j <= |u| && u[j..] == "E" + IntText(e)
    ensures ExponentEnd(u, j) == Some(|u|)
  {
    var digits := NatText(e);
    NatTextDigits(e);
    assert u[j..] == ['E'] + digits;
    assert u[j + 1] == digits[0];
    assert u[j + 1..] == digits;
    DigitsToEnd(u, j + 1, digits);
  }

  lemma ExponentTextEnds(u: string, j: nat, exponent: Option<int>)
    requires j <= |u| && u[j..] == ExponentText(exponent)
    ensures ExponentEnd(u, j) == Some(|u|)
  {
    match exponent {
      case None =>
      case Some(e) =>
        if e < 0 {
          NegativeExponentEnds(u, j, e);
        } else {
          NonNegativeExponentEnds(u, j, e);
        }
    }
  }

  /** A decimal rendered by `Float.toString` is a decimal literal. */
  lemma RenderedDecimalIsLiteral(whole: DigitString, fraction: DigitString, exponent: Option<int>)
    ensures DecimalLiteral(whole + "." + fraction + ExponentText(exponent))
  {
    var tail := ExponentText(exponent);
    var u := whole + "." + fraction + tail;
    assert u[..|whole|] == whole;
    SkipDigitsOver(u, 0, whole);
    var j := |whole| + 1 + |fraction|;
    assert u[|whole| + 1..j] == fraction;
    assert u[j..] == tail;
    assert j == |u| || u[j] == 'E';
    SkipDigitsOver(u, |whole| + 1, fraction);
    ExponentTextEnds(u, j, exponent);
  }

  /** After an optional sign, `Float.parseFloat` looks at the rest. */
  lemma ParsesAfterSign(s: string, negative: bool, u: string)
    requires s == SignText(negative) + u && |u| > 0 && u[0] != '-' && u[0] != '+'
    requires Trim(s) == s && (u == "NaN" || u == "Infinity" || DecimalLiteral(u))
    ensures ParsesAsFloat(s)
  {
    if negative {
      assert s[1..] == u;
    } else {
      assert s == u;
    }
  }

  lemma RenderedDecimalParses(negative: bool, whole: DigitString, fraction: DigitString, exponent: Option<int>)
    ensures ParsesAsFloat(Render(Decimal(negative, whole, fraction, exponent)))
  {
    var f := Decimal(negative, whole, fraction, exponent);
    var u := whole + "." + fraction + ExponentText(exponent);
    assert Render(f) == SignText(negative) + u;
    assert u[0] == whole[0];
    assert Trim(Render(f)) == Render(f) by {
      RenderedIsPlain(f);
      TrimPlain(Render(f));
    }
    assert DecimalLiteral(u) by {
      RenderedDecimalIsLiteral(whole, fraction, exponent);
    }
    ParsesAfterSign(Render(f), negative, u);
  }

  /** `Float.parseFloat` accepts whatever `Float.toString` writes. */
  lemma RenderedFloatParses(f: FloatText)
    ensures ParsesAsFloat(Render(f))
  {
    match f
    case NaN =>
      assert Trim(Render(f)) == Render(f) by {
        RenderedIsPlain(f);
        TrimPlain(Render(f));
      }
      ParsesAfterSign(Render(f), false, "NaN");
    case Infinity(negative) =>
      assert Trim(Render(f)) == Render(f) by {
        RenderedIsPlain(f);
        TrimPlain(Render(f));
      }
      ParsesAfterSign(Render(f), negative, "Infinity");
    case Decimal(negative, whole, fraction, exponent) =>
      RenderedDecimalParses(negative, whole, fraction, exponent);
  }

  // ---------------------------------------------------------------------
  // Pattern.splitAsStream, Pattern.split(input, 2) and joining

  /** The index of the first `c` in `s`, or `|s|` when there is none. */
  function IndexOf(s: string, c: char): (r: nat)
    ensures r <= |s| && (r < |s| ==> s[r] == c) && c !in s[..r]
  {
    if |s| == 0 then 0
    else if s[0] == c then 0
    else
      var r := 1 + IndexOf(s[1..], c);
      assert s[..r] == [s[0]] + s[1..][..r - 1];
      r
  }

  /** Cuts `s` at every `sep`, keeping every piece, empty ones included. */
  function SplitAll(s: string, sep: char): (r: seq<string>)
    ensures |r| > 0
    decreases |s|
  {
    var i := IndexOf(s, sep);
    if i == |s| then [s] else [s[..i]] + SplitAll(s[i + 1..], sep)
  }

  function DropTrailingEmpty(pieces: seq<string>): (r: seq<string>)
    ensures |r| <= |pieces| && r == pieces[..|r|]
    ensures |r| > 0 ==> r[|r| - 1] != ""
  {
    if |pieces| > 0 && pieces[|pieces| - 1] == "" then DropTrailingEmpty(pieces[..|pieces| - 1])
    else pieces
  }

  /** `Pattern.compile(sep, LITERAL).splitAsStream(s)`: the pieces between the
      separators, in order, with the trailing empty pieces dropped; an empty
      input gives the one empty piece. */
  function SplitAsStream(s: string, sep: char): seq<string> {
    if s == "" then [""] else DropTrailingEmpty(SplitAll(s, sep))
  }

  /** `Pattern.compile(sep, LITERAL).split(s, 2)`: the text before the first
      `sep` and everything after it, or `[s]` when there is no `sep`. */
  function SplitFirst(s: string, sep: char): (r: seq<string>)
    ensures 1 <= |r| <= 2 && sep !in r[0]
    ensures |r| == 1 <==> sep !in s
    ensures |r| == 1 ==> r[0] == s
    ensures |r| == 2 ==> s == r[0] + [sep] + r[1]
  {
    var i := IndexOf(s, sep);
    if i == |s| then
      assert s[..i] == s;
      [s]
    else
      assert s == s[..i] + [sep] + s[i + 1..];
      [s[..i], s[i + 1..]]
  }

  /** The pieces with one `sep` between each two neighbours, built from the
      left as a `StringBuilder` would. */
  function Join(pieces: seq<string>, sep: char): string {
    if |pieces| == 0 then ""
    else if |pieces| == 1 then pieces[0]
    else Join(pieces[..|pieces| - 1], sep) + [sep] + pieces[|pieces| - 1]
  }

  predicate Free(piece: string, sep: char) {
    sep !in piece
  }

  lemma {:induction false} JoinFront(pieces: seq<string>, sep: char)
    requires |pieces| >= 2
    ensures Join(pieces, sep) == pieces[0] + [sep] + Join(pieces[1..], sep)
    decreases |pieces|
  {
    if |pieces| > 2 {
      var init := pieces[..|pieces| - 1];
      JoinFront(init, sep);
      assert init[1..] == pieces[1..][..|pieces[1..]| - 1];
    } else {
      assert pieces[1..] == [pieces[1]];
    }
  }

  lemma IndexOfAfterFree(a: string, sep: char, b: string)
    requires Free(a, sep)
    ensures IndexOf(a + [sep] + b, sep) == |a|
    ensures IndexOf(a, sep) == |a|
  {
    var s := a + [sep] + b;
    assert s[..|a|] == a;
    assert s[|a|] == sep;
  }

  /** Cutting a joined text at every separator gives the pieces back, as long
      as no piece holds the separator. */
  lemma {:induction false} SplitAllJoin(pieces: seq<string>, sep: char)
    requires |pieces| > 0 && forall i :: 0 <= i < |pieces| ==> Free(pieces[i], sep)
    ensures SplitAll(Join(pieces, sep), sep) == pieces
    decreases |pieces|
  {
    if |pieces| == 1 {
      IndexOfAfterFree(pieces[0], sep, "");
      assert pieces[0][..|pieces[0]|] == pieces[0];
    } else {
      JoinFront(pieces, sep);
      var s := Join(pieces, sep);
      var rest := Join(pieces[1..], sep);
      IndexOfAfterFree(pieces[0], sep, rest);
      assert s[..|pieces[0]|] == pieces[0];
      assert s[|pieces[0]| + 1..] == rest;
      SplitAllJoin(pieces[1..], sep);
    }
  }

  /** Splitting what `Join` built gives back exactly the pieces when none of
      them is empty or holds the separator: the pieces are separated by exactly
      one separator, none leads and none trails. */
  lemma SplitJoin(pieces: seq<string>, sep: char)
    requires |pieces| > 0
    requires forall i :: 0 <= i < |pieces| ==> pieces[i] != "" && Free(pieces[i], sep)
    ensures SplitAsStream(Join(pieces, sep), sep) == pieces
  {
    SplitAllJoin(pieces, sep);
    JoinNonEmpty(pieces, sep);
  }

  lemma {:induction false} JoinNonEmpty(pieces: seq<string>, sep: char)
    requires |pieces| > 0 && pieces[|pieces| - 1] != ""
    ensures Join(pieces, sep) != ""
  {
  }

  /** A record `key:value` is split back into its key and its value when the
      key holds no colon; the value may hold one. */
  lemma SplitFirstRecord(key: string, value: string)
    requires Free(key, ':')
    ensures SplitFirst(key + ":" + value, ':') == [key, value]
  {
    IndexOfAfterFree(key, ':', value);
    var s := key + ":" + value;
    assert s[..|key|] == key;
    assert s[|key| + 1..] == value;
  }

  // ---------------------------------------------------------------------
  // toLowerCase and endsWith

  function LowerChar(c: char): char {
    if 'A' <= c <= 'Z' then (c as int + 32) as char else c
  }

  /** `String.toLowerCase` on the ASCII letters; other characters are kept. */
  function ToLowerAscii(s: string): (r: string)
    ensures |r| == |s| && forall i :: 0 <= i < |s| ==> r[i] == LowerChar(s[i])
  {
    seq(|s|, i requires 0 <= i < |s| => LowerChar(s[i]))
  }

  predicate EndsWith(s: string, suffix: string) {
    |suffix| <= |s| && s[|s| - |suffix|..] == suffix
  }
}
