/** Number formatting as Java prints it (`Integer.toString`, `Integer.toHexString`),
    the matching parsers, and separator-joined lists as the `StringBuilder` loops
    of the attribute renderers build them. */
module Text {
  import opened Results
  import opened Encoding
  import opened Seqs

  /** The lower-case digit for `d`: '0'..'9', then 'a'..'f'. */
  function Digit(d: nat): char
    requires d < 16
  {
    if d < 10 then ('0' as int + d) as char else ('a' as int + d - 10) as char
  }

  predicate IsBase(base: nat) { base == 10 || base == 16 }

  /** The value of one lower-case digit in `base`, if it is one. */
  function DigitValue(c: char, base: nat): (r: Option<nat>)
    requires IsBase(base)
    ensures r.Some? ==> r.value < base && Digit(r.value) == c
  {
    if '0' <= c <= '9' then Some(c as nat - '0' as nat)
    else if base == 16 && 'a' <= c <= 'f' then Some(c as nat - 'a' as nat + 10)
    else None
  }

  /** The digits of `n` in `base`, most significant first, without leading zeros
      ("0" for zero). */
  function NatToString(n: nat, base: nat): (s: string)
    requires IsBase(base)
    ensures |s| >= 1
    ensures s[0] == '0' ==> n == 0
    ensures s[0] != '-'
  {
    if n < base then [Digit(n)]
    else NatToString(n / base, base) + [Digit(n % base)]
  }

  /** The value of a non-empty string of digits in `base`; `None` if any character
      is not a digit. */
  function StringToNat(s: string, base: nat): (r: Option<nat>)
    requires IsBase(base)
    ensures r.Some? ==> |s| >= 1
  {
    if |s| == 0 then None
    else
      var d := DigitValue(s[|s| - 1], base);
      if d.None? then None
      else if |s| == 1 then Some(d.value)
      else
        var high := StringToNat(s[..|s| - 1], base);
        if high.None? then None else Some(high.value * base + d.value)
  }

  lemma DigitRoundTrip(d: nat, base: nat)
    requires IsBase(base) && d < base
    ensures DigitValue(Digit(d), base) == Some(d)
  {
  }

  lemma DivMod(n: nat, base: nat)
    requires IsBase(base) && n >= base
    ensures n == (n / base) * base + n % base && n % base < base && n / base < n
  {
    if base == 10 {
      assert n == (n / 10) * 10 + n % 10;
    } else {
      assert n == (n / 16) * 16 + n % 16;
    }
  }

  /** Reading one more digit multiplies what was read by the base and adds the
      digit. */
  lemma StringToNatSnoc(high: string, d: nat, base: nat)
    requires IsBase(base) && d < base
    requires StringToNat(high, base).Some?
    ensures StringToNat(high + [Digit(d)], base) == Some(StringToNat(high, base).value * base + d)
  {
    var s := high + [Digit(d)];
    assert s[|s| - 1] == Digit(d) && s[..|s| - 1] == high;
    DigitRoundTrip(d, base);
  }

  /** Parsing the printed digits gives the number back. */
  lemma {:induction false} NatToStringRoundTrip(n: nat, base: nat)
    requires IsBase(base)
    ensures StringToNat(NatToString(n, base), base) == Some(n)
  {
    if n < base {
      assert NatToString(n, base) == [Digit(n)];
      DigitRoundTrip(n, base);
    } else {
      var h, low := n / base, n % base;
      DivMod(n, base);
      var hs := NatToString(h, base);
      NatToStringRoundTrip(h, base);
      StringToNatSnoc(hs, low, base);
      assert StringToNat(hs + [Digit(low)], base) == Some(n);
      assert NatToString(n, base) == hs + [Digit(low)];
    }
  }

  /** `Integer.toString`: decimal, with a leading '-' for negative values. */
  function DecimalString(x: int): (s: string)
    ensures |s| >= 1
    ensures x < 0 <==> s[0] == '-'
  {
    if x < 0 then "-" + NatToString(-x, 10) else NatToString(x, 10)
  }

  /** Reads a decimal integer with an optional leading '-'. */
  function ParseDecimal(s: string): (r: Option<int>)
  {
    var negative := |s| >= 1 && s[0] == '-';
    var digits := StringToNat(if negative then s[1..] else s, 10);
    if digits.None? then None
    else if negative then Some(0 - digits.value as int)
    else Some(digits.value)
  }

  lemma DecimalRoundTrip(x: int)
    ensures ParseDecimal(DecimalString(x)) == Some(x)
  {
    var s := DecimalString(x);
    if x < 0 {
      var digits := NatToString(-x, 10);
      assert s == "-" + digits;
      assert s[0] == '-' && s[1..] == digits;
      NatToStringRoundTrip(-x, 10);
      assert StringToNat(s[1..], 10) == Some(-x);
    } else {
      NatToStringRoundTrip(x, 10);
      assert s == NatToString(x, 10) && s[0] != '-';
      assert StringToNat(s, 10) == Some(x);
    }
  }

  /** `Integer.toHexString`: lower-case hexadecimal digits of the unsigned 32-bit
      pattern, so a negative `int` prints as eight digits starting with 8..f. */
  function HexString(x: Int32): (s: string)
    ensures 1 <= |s|
  {
    NatToString(ToUnsigned32(x), 16)
  }

  /** Reading the printed hexadecimal digits back as a 32-bit pattern gives the same
      `int`. */
  lemma HexRoundTrip(x: Int32)
    ensures StringToNat(HexString(x), 16) == Some(ToUnsigned32(x))
    ensures FromUnsigned32(StringToNat(HexString(x), 16).value) == x
  {
    NatToStringRoundTrip(ToUnsigned32(x), 16);
  }

  /** `parts` separated by `sep`, with no separator before the first part or after
      the last. */
  function Join(parts: seq<string>, sep: string): string
  {
    if |parts| == 0 then ""
    else if |parts| == 1 then parts[0]
    else Join(parts[..|parts| - 1], sep) + sep + parts[|parts| - 1]
  }

  /** Joining is compositional: the list of `a + b` is the list of `a`, a separator,
      and the list of `b`, so parts keep their order. */
  lemma {:induction false} JoinAppend(a: seq<string>, b: seq<string>, sep: string)
    requires |a| >= 1 && |b| >= 1
    ensures Join(a + b, sep) == Join(a, sep) + sep + Join(b, sep)
    decreases |b|
  {
    if |b| == 1 {
      assert (a + b)[..|a + b| - 1] == a;
    } else {
      var b' := b[..|b| - 1];
      assert (a + b)[..|a + b| - 1] == a + b';
      JoinAppend(a, b', sep);
    }
  }

  /** The first part comes first, then, for each further part, a separator and the
      part. */
  lemma JoinCons(p: string, rest: seq<string>, sep: string)
    requires |rest| >= 1
    ensures Join([p] + rest, sep) == p + sep + Join(rest, sep)
  {
    JoinAppend([p], rest, sep);
  }

  /** Each element through `format`, in order. */
  function Formatted<T>(format: T -> string, vs: seq<T>): (r: seq<string>)
    ensures |r| == |vs|
  {
    seq(|vs|, i requires 0 <= i < |vs| => format(vs[i]))
  }

  /** The elements, each through the same `format`, in order and separated by ", "
      (no separator after the last one): the body of an array attribute's text. */
  function RenderList<T>(format: T -> string, vs: seq<T>): string
  {
    Join(Formatted(format, vs), ", ")
  }

  /** Extending the rendered prefix by one element, as each turn of the rendering
      loops does. */
  lemma RenderListSnoc<T>(format: T -> string, vs: seq<T>, i: nat)
    requires i < |vs|
    ensures RenderList(format, vs[..i + 1])
      == RenderList(format, vs[..i]) + (if i > 0 then ", " else "") + format(vs[i])
  {
    var parts := Formatted(format, vs[..i + 1]);
    assert parts[..i] == Formatted(format, vs[..i]);
  }

  /** One step of the rendering loops: after the first `i` elements and their
      separator, appending element `i` and, unless it is the last, a separator
      gives the rendering of the first `i + 1` elements and their separator. */
  lemma RenderStep<T>(format: T -> string, vs: seq<T>, i: nat, open: string)
    requires i < |vs|
    ensures open + RenderList(format, vs[..i]) + (if 0 < i then ", " else "") + format(vs[i])
              + (if i + 1 < |vs| then ", " else "")
            == open + RenderList(format, vs[..i + 1]) + (if i + 1 < |vs| then ", " else "")
  {
    var r := RenderList(format, vs[..i]);
    var sep := if 0 < i then ", " else "";
    RenderListSnoc(format, vs, i);
    AppendAssoc(open, r, sep);
    AppendAssoc(open, r + sep, format(vs[i]));
  }

  /** The first element comes first, then ", " and the rest in order. */
  lemma RenderListCons<T>(format: T -> string, v: T, vs: seq<T>)
    requires |vs| >= 1
    ensures RenderList(format, [v] + vs) == format(v) + ", " + RenderList(format, vs)
  {
    assert Formatted(format, [v] + vs) == [format(v)] + Formatted(format, vs);
    JoinCons(format(v), Formatted(format, vs), ", ");
  }

  /** Rendering is compositional, so element order is kept: the list of `a + b` is
      the list of `a`, ", ", and the list of `b`; an empty list renders as "". */
  lemma RenderListAppend<T>(format: T -> string, a: seq<T>, b: seq<T>)
    ensures RenderList(format, []) == ""
    ensures |a| >= 1 && |b| >= 1 ==>
      RenderList(format, a + b) == RenderList(format, a) + ", " + RenderList(format, b)
  {
    if |a| >= 1 && |b| >= 1 {
      assert Formatted(format, a + b) == Formatted(format, a) + Formatted(format, b);
      JoinAppend(Formatted(format, a), Formatted(format, b), ", ");
    }
  }
}
