/** Kilogram / bag conversions and the lenient number reader of `utils.py`.
    Quantities are exact reals; Python's float rounding is not modelled. */
module Units {
  import opened Wrappers
  import opened Text

  /** A quantity split into whole bags and the kilograms left over. */
  datatype Bags = Bags(sacs: int, reste: real)

  /** The three shapes `kg_to_bag_repr` can print: "n sac(s) + r kg",
      "n sac(s)" and "r kg". */
  datatype BagRepr = BagsAndKg(sacs: int, kg: real) | BagsOnly(sacs: int) | KgOnly(kg: real)

  /** `bags_to_kg`: a count of bags in kilograms. Dividing by the bag weight
      gives the count back, and `KgToBags` undoes it for whole bags
      (`KgToBagsOfWholeBags`). */
  function BagsToKg(nbSacs: real, poids: real): (r: real)
    ensures nbSacs >= 0.0 && poids >= 0.0 ==> r >= 0.0
    ensures poids != 0.0 ==> r / poids == nbSacs
  {
    nbSacs * poids
  }

  lemma MulMono(a: real, b: real, c: real)
    requires a <= b && c > 0.0
    ensures a * c <= b * c
  {
  }

  lemma MulStrict(a: real, b: real, c: real)
    requires a < b && c > 0.0
    ensures a * c < b * c
  {
  }

  lemma DivStrict(a: real, b: real, c: real)
    requires a < b && c > 0.0
    ensures a / c < b / c
  {
    assert a / c * c == a;
    assert b / c * c == b;
    assert (b / c - a / c) * c == b - a;
  }

  /** `x // w` for a positive `w` brackets `x` between two consecutive multiples of `w`. */
  lemma FloorDivBounds(x: real, w: real)
    requires w > 0.0
    ensures (x / w).Floor as real * w <= x
    ensures x < ((x / w).Floor as real + 1.0) * w
  {
    var q := x / w;
    var n := q.Floor as real;
    assert n <= q < n + 1.0;
    assert q * w == x;
    MulMono(n, q, w);
    MulStrict(q, n + 1.0, w);
    assert q * w < (n + 1.0) * w;
    assert x < (n + 1.0) * w;
  }

  /** `kg_to_bags`: with no usable bag weight everything stays in kilograms;
      otherwise whole bags plus a remainder below one bag. In both cases the
      parts add back up to the quantity. */
  function KgToBags(qty: real, poids: real): (r: Bags)
    ensures BagsToKg(r.sacs as real, poids) + r.reste == qty
    ensures poids <= 0.0 ==> r == Bags(0, qty)
    ensures poids > 0.0 ==> 0.0 <= r.reste < poids
  {
    if poids <= 0.0 then Bags(0, qty)
    else
      var sacs := (qty / poids).Floor;
      FloorDivBounds(qty, poids);
      Bags(sacs, qty - sacs as real * poids)
  }

  /** The decomposition is the only one with a remainder in `[0, poids)`. */
  lemma KgToBagsUnique(qty: real, poids: real, n: int, rest: real)
    requires poids > 0.0
    requires n as real * poids + rest == qty && 0.0 <= rest < poids
    ensures KgToBags(qty, poids) == Bags(n, rest)
  {
    var d := rest / poids;
    DivStrict(rest, poids, poids);
    assert poids / poids == 1.0;
    assert 0.0 <= d < 1.0;
    assert qty / poids == n as real + d;
  }

  /** Whole bags converted to kilograms split back into the same bags with
      nothing left over. */
  lemma KgToBagsOfWholeBags(n: int, poids: real)
    requires poids > 0.0
    ensures KgToBags(BagsToKg(n as real, poids), poids) == Bags(n, 0.0)
  {
    KgToBagsUnique(BagsToKg(n as real, poids), poids, n, 0.0);
  }

  /** `kg_to_bag_repr`, with the numbers left unformatted. */
  function KgToBagRepr(total: real, poids: real): (r: BagRepr)
    ensures poids <= 0.0 ==> r == KgOnly(total)
    ensures poids > 0.0 ==>
      var b := KgToBags(total, poids);
      && (r.BagsAndKg? <==> b.sacs > 0 && b.reste > 0.0)
      && (r.BagsOnly? <==> b.sacs > 0 && b.reste == 0.0)
      && (r.KgOnly? <==> b.sacs <= 0)
      && (r.BagsAndKg? || r.BagsOnly? ==> r.sacs == b.sacs)
      && (r.BagsAndKg? || r.KgOnly? ==> r.kg == b.reste)
  {
    if poids <= 0.0 then KgOnly(total)
    else
      var sacs := (total / poids).Floor;
      var reste := total - sacs as real * poids;
      if sacs > 0 && reste > 0.0 then BagsAndKg(sacs, reste)
      else if sacs > 0 then BagsOnly(sacs)
      else KgOnly(reste)
  }

  /** The quantity a rendering stands for. */
  function Denoted(r: BagRepr, poids: real): real {
    match r
    case BagsAndKg(n, kg) => BagsToKg(n as real, poids) + kg
    case BagsOnly(n) => BagsToKg(n as real, poids)
    case KgOnly(kg) => kg
  }

  /** For a non-negative quantity the rendering reads back as that quantity. */
  lemma ReprDenotesQuantity(total: real, poids: real)
    requires total >= 0.0
    ensures Denoted(KgToBagRepr(total, poids), poids) == total
  {
    if poids > 0.0 {
      var b := KgToBags(total, poids);
      if b.sacs < 0 {
        assert b.sacs as real * poids <= -poids;
      }
    }
  }

  /** A negative quantity with a real bag weight has a negative bag count, so
      only the remainder is shown, and it is never negative: -30 kg in 50 kg
      bags is shown as 20 kg. */
  lemma NegativeQuantityShowsRemainder(total: real, poids: real)
    requires total < 0.0 && poids > 0.0
    ensures KgToBagRepr(total, poids).KgOnly?
    ensures 0.0 <= KgToBagRepr(total, poids).kg < poids
    ensures KgToBagRepr(total, poids).kg != total
  {
  }

  lemma ReprExamples()
    ensures KgToBagRepr(90.0, 50.0) == BagsAndKg(1, 40.0)
    ensures KgToBagRepr(100.0, 50.0) == BagsOnly(2)
    ensures KgToBagRepr(-30.0, 50.0) == KgOnly(20.0)
    ensures KgToBagRepr(12.5, 0.0) == KgOnly(12.5)
  {
    KgToBagsUnique(90.0, 50.0, 1, 40.0);
    KgToBagsUnique(100.0, 50.0, 2, 0.0);
    KgToBagsUnique(-30.0, 50.0, -1, 20.0);
  }

  // ---- safe_float ----

  predicate AllDigits(s: string) {
    forall i :: 0 <= i < |s| ==> IsDigit(s[i])
  }

  /** The characters the decimal grammar below is built from. */
  predicate IsNumberChar(c: char) {
    IsDigit(c) || c == '.' || c == '+' || c == '-'
  }

  function DigitsValue(s: string): nat
    requires AllDigits(s)
  {
    if s == [] then 0 else DigitsValue(s[..|s| - 1]) * 10 + (s[|s| - 1] as int - '0' as int)
  }

  function Pow10(n: nat): (r: nat)
    ensures r > 0
  {
    if n == 0 then 1 else 10 * Pow10(n - 1)
  }

  /** Position of the first '.', or the length when there is none. */
  function DotIndex(s: string): (k: nat)
    ensures k <= |s| && (k < |s| ==> s[k] == '.')
    ensures forall i :: 0 <= i < k ==> s[i] != '.'
  {
    if s == [] || s[0] == '.' then 0 else 1 + DotIndex(s[1..])
  }

  /** The value of an integer part and a fraction part, when both are digits
      and at least one of them is non-empty. */
  function DecimalValue(ip: string, fp: string): Option<real> {
    if AllDigits(ip) && AllDigits(fp) && |ip| + |fp| > 0 then
      Some(DigitsValue(ip) as real + DigitsValue(fp) as real / Pow10(|fp|) as real)
    else None
  }

  /** Digits, optionally followed by '.' and more digits, with at least one digit. */
  function ParseUnsigned(t: string): (r: Option<real>)
    ensures r.Some? ==> forall i :: 0 <= i < |t| ==> IsDigit(t[i]) || t[i] == '.'
  {
    var k := DotIndex(t);
    if k < |t| then
      var r := DecimalValue(t[..k], t[k + 1..]);
      assert r.Some? ==> forall i :: k < i < |t| ==> t[i] == t[k + 1..][i - k - 1];
      r
    else
      assert t[..k] == t;
      DecimalValue(t, "")
  }

  /** The part of Python's `float()` grammar this model keeps: an optional sign
      and a decimal numeral. */
  function ParseDecimal(t: string): (r: Option<real>)
    ensures r.Some? ==> t != [] && forall i :: 0 <= i < |t| ==> IsNumberChar(t[i])
  {
    if |t| > 0 && (t[0] == '+' || t[0] == '-') then
      match ParseUnsigned(t[1..])
      case None => None
      case Some(v) => Some(if t[0] == '-' then -v else v)
    else ParseUnsigned(t)
  }

  function ReplaceCommas(s: string): (r: string)
    ensures |r| == |s| && forall i :: 0 <= i < |s| ==> r[i] == (if s[i] == ',' then '.' else s[i])
  {
    seq(|s|, i requires 0 <= i < |s| => if s[i] == ',' then '.' else s[i])
  }

  /** `safe_float`: a decimal comma is accepted, surrounding blanks are ignored,
      and anything that is not a number yields the default instead of raising. */
  function SafeFloat(s: Option<string>, default: real): (r: real)
    ensures s.None? ==> r == default
    ensures r != default ==> s.Some? && ParseDecimal(Strip(ReplaceCommas(s.value))) == Some(r)
  {
    match s
    case None => default
    case Some(t) => ParseDecimal(Strip(ReplaceCommas(t))).GetOr(default)
  }

  /** Text that is not a number, once commas are read as points and blanks
      are dropped, reads as the default. */
  lemma SafeFloatRejectsNonNumeric(t: string, default: real, i: nat)
    requires i < |Strip(ReplaceCommas(t))| && !IsNumberChar(Strip(ReplaceCommas(t))[i])
    ensures SafeFloat(Some(t), default) == default
  {
  }

  /** The decimal digits of `n`, as `str(n)` writes them. */
  function NatText(n: nat): (s: string)
    ensures s != [] && AllDigits(s)
    ensures DigitsValue(s) == n
  {
    if n < 10 then [('0' as int + n) as char]
    else
      var s := NatText(n / 10) + [('0' as int + n % 10) as char];
      assert s[..|s| - 1] == NatText(n / 10);
      s
  }

  lemma NoDotInDigits(s: string)
    requires AllDigits(s)
    ensures DotIndex(s) == |s|
  {
  }

  lemma DigitsUntouched(s: string)
    requires AllDigits(s)
    ensures ReplaceCommas(s) == s && Strip(s) == s
  {
    if s != [] {
      assert !IsSpace(s[0]) && !IsSpace(s[|s| - 1]);
    }
  }

  /** A plain run of digits parses as its value. */
  lemma ParseDigits(s: string)
    requires s != [] && AllDigits(s)
    ensures ParseDecimal(s) == Some(DigitsValue(s) as real)
  {
    assert IsDigit(s[0]);
    NoDotInDigits(s);
    assert ParseUnsigned(s) == DecimalValue(s, "");
  }

  /** `safe_float(str(n))` is `n`. */
  lemma {:induction false} SafeFloatReadsNatural(n: nat, default: real)
    ensures SafeFloat(Some(NatText(n)), default) == n as real
  {
    var s := NatText(n);
    DigitsUntouched(s);
    ParseDigits(s);
  }

  lemma ParsePointed(w: string, f: string)
    requires w != [] && AllDigits(w) && AllDigits(f)
    ensures ParseDecimal(w + "." + f)
         == Some(DigitsValue(w) as real + DigitsValue(f) as real / Pow10(|f|) as real)
  {
    var v := w + "." + f;
    assert IsDigit(v[0]);
    assert ParseDecimal(v) == ParseUnsigned(v);
    assert DotIndex(v) == |w| by {
      DotAfterDigits(w, f);
    }
    assert v[..|w|] == w;
    assert v[|w| + 1..] == f;
    assert ParseUnsigned(v) == DecimalValue(w, f);
    DecimalValueOf(w, f);
  }

  lemma DecimalValueOf(w: string, f: string)
    requires w != [] && AllDigits(w) && AllDigits(f)
    ensures DecimalValue(w, f)
         == Some(DigitsValue(w) as real + DigitsValue(f) as real / Pow10(|f|) as real)
  {
  }

  lemma {:induction false} DotAfterDigits(w: string, f: string)
    requires AllDigits(w)
    ensures DotIndex(w + "." + f) == |w|
  {
    if w != [] {
      assert (w + "." + f)[1..] == w[1..] + "." + f;
      DotAfterDigits(w[1..], f);
    }
  }

  lemma StripPadded(v: string)
    requires v != [] && !IsSpace(v[0]) && !IsSpace(v[|v| - 1])
    ensures Strip(" " + v + " ") == v
  {
    var u := " " + v + " ";
    assert u[1..] == v + " ";
    assert StripLeft(u) == v + " ";
    assert (v + " ")[..|v|] == v;
    assert StripRight(v + " ") == v;
  }

  lemma CommaToPoint(w: string, f: string)
    requires AllDigits(w) && AllDigits(f)
    ensures ReplaceCommas(" " + w + "," + f + " ") == " " + w + "." + f + " "
  {
    var t := " " + w + "," + f + " ";
    var u := " " + w + "." + f + " ";
    forall i | 0 <= i < |t| ensures ReplaceCommas(t)[i] == u[i] {
      if 1 <= i < 1 + |w| {
        assert t[i] == w[i - 1] == u[i];
      } else if 2 + |w| <= i < 2 + |w| + |f| {
        assert t[i] == f[i - 2 - |w|] == u[i];
      }
    }
  }

  /** `safe_float(" 12,5 ")` is 12.5: the integer digits, then the fraction
      digits scaled by their count. */
  lemma {:induction false} SafeFloatReadsDecimalComma(whole: nat, frac: nat, default: real)
    ensures SafeFloat(Some(" " + NatText(whole) + "," + NatText(frac) + " "), default)
         == whole as real + frac as real / Pow10(|NatText(frac)|) as real
  {
    var w, f := NatText(whole), NatText(frac);
    CommaToPoint(w, f);
    var v := w + "." + f;
    assert " " + w + "." + f + " " == " " + v + " ";
    StripPadded(v);
    ParsePointed(w, f);
  }
}
