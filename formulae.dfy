/**
 * The ionic formula builder of the chemical-formulae page: the ion table and its
 * cation/anion filters, the charge-balancing subscript counts, the rendering of a
 * formula with Unicode subscript digits, and the charge label of an ion.
 */
module ChemicalFormulae {
  import opened Wrappers
  import opened Numbers

  // ---------------------------------------------------------------------
  // Data

  datatype IonType = Cation | Anion

  /** An ion as listed on the page: element name, symbol, signed charge, polarity. */
  datatype Ion = Ion(element: string, symbol: string, charge: int, kind: IonType)

  /** A worked example shown under "Common Ionic Compounds". */
  datatype Compound = Compound(name: string, formula: string, cation: Ion, anion: Ion, explanation: string)

  const Sodium := Ion("Sodium", "Na", 1, Cation)
  const Calcium := Ion("Calcium", "Ca", 2, Cation)
  const Aluminum := Ion("Aluminum", "Al", 3, Cation)
  const Chloride := Ion("Chloride", "Cl", -1, Anion)
  const Oxide := Ion("Oxide", "O", -2, Anion)
  const Nitride := Ion("Nitride", "N", -3, Anion)

  /** The `commonIons` table, in page order. */
  const CommonIons: seq<Ion> := [Sodium, Calcium, Aluminum, Chloride, Oxide, Nitride]

  const SodiumChlorideExplanation :=
    "Na⁺ loses 1 electron, Cl⁻ gains 1 electron. Charges balance: (+1) + (-1) = 0"
  const CalciumChlorideExplanation :=
    "Ca²⁺ loses 2 electrons, 2 Cl⁻ each gain 1 electron. Charges balance: (+2) + 2(-1) = 0"
  const AluminumOxideExplanation :=
    "2 Al³⁺ lose 6 electrons total, 3 O²⁻ gain 6 electrons total. Charges balance: 2(+3) + 3(-2) = 0"

  /** The `exampleCompounds` table, in page order. */
  const ExampleCompounds: seq<Compound> := [
    Compound("Sodium Chloride", "NaCl", Sodium, Chloride, SodiumChlorideExplanation),
    Compound("Calcium Chloride", "CaCl₂", Calcium, Chloride, CalciumChlorideExplanation),
    Compound("Aluminum Oxide", "Al₂O₃", Aluminum, Oxide, AluminumOxideExplanation)
  ]

  function Abs(x: int): nat { if x < 0 then -x else x }

  // ---------------------------------------------------------------------
  // Filters

  /** `ions.filter(ion => ion.type === t)`. */
  function FilterByType(ions: seq<Ion>, t: IonType): (r: seq<Ion>)
    ensures |r| <= |ions|
  {
    if ions == [] then []
    else (if ions[0].kind == t then [ions[0]] else []) + FilterByType(ions[1..], t)
  }

  function Cations(): seq<Ion> { FilterByType(CommonIons, Cation) }

  function Anions(): seq<Ion> { FilterByType(CommonIons, Anion) }

  /** An ion survives the filter exactly when it is in the list and has the requested type. */
  lemma {:induction false} FilterMembership(ions: seq<Ion>, t: IonType, x: Ion)
    ensures x in FilterByType(ions, t) <==> x in ions && x.kind == t
  {
    if ions != [] {
      FilterMembership(ions[1..], t, x);
      assert x in ions <==> x == ions[0] || x in ions[1..];
    }
  }

  /** Filtering keeps the original order: it distributes over concatenation. */
  lemma {:induction false} FilterKeepsOrder(s: seq<Ion>, u: seq<Ion>, t: IonType)
    ensures FilterByType(s + u, t) == FilterByType(s, t) + FilterByType(u, t)
  {
    if s == [] {
      assert s + u == u;
    } else {
      var head := if s[0].kind == t then [s[0]] else [];
      assert (s + u)[0] == s[0];
      assert (s + u)[1..] == s[1..] + u;
      FilterKeepsOrder(s[1..], u, t);
      calc {
        FilterByType(s + u, t);
        head + FilterByType(s[1..] + u, t);
        head + (FilterByType(s[1..], t) + FilterByType(u, t));
        (head + FilterByType(s[1..], t)) + FilterByType(u, t);
      }
    }
  }

  /** A list whose ions all have the requested type passes the filter unchanged. */
  lemma {:induction false} FilterKeepsAll(s: seq<Ion>, t: IonType)
    requires forall i :: 0 <= i < |s| ==> s[i].kind == t
    ensures FilterByType(s, t) == s
  {
    if s != [] {
      FilterKeepsAll(s[1..], t);
      assert [s[0]] + s[1..] == s;
    }
  }

  /** A list with no ion of the requested type filters to nothing. */
  lemma {:induction false} FilterDropsAll(s: seq<Ion>, t: IonType)
    requires forall i :: 0 <= i < |s| ==> s[i].kind != t
    ensures FilterByType(s, t) == []
  {
    if s != [] {
      FilterDropsAll(s[1..], t);
    }
  }

  /** The two filters split any list: every ion lands in exactly one of them. */
  lemma {:induction false} FiltersPartition(s: seq<Ion>)
    ensures |FilterByType(s, Cation)| + |FilterByType(s, Anion)| == |s|
  {
    if s != [] {
      FiltersPartition(s[1..]);
    }
  }

  predicate IsUpper(c: char) { 'A' <= c <= 'Z' }
  predicate IsLower(c: char) { 'a' <= c <= 'z' }

  /** A chemical symbol: one capital letter followed by lower-case letters. */
  predicate IsElementSymbol(s: string) {
    |s| >= 1 && IsUpper(s[0]) && forall i :: 1 <= i < |s| ==> IsLower(s[i])
  }

  /** Well-formed ion data: nonzero charge, polarity by sign, a proper symbol. */
  predicate WellFormedIon(ion: Ion) {
    ion.charge != 0 && (ion.kind == Cation <==> ion.charge > 0) && IsElementSymbol(ion.symbol)
  }

  lemma CommonIonsWellFormed()
    ensures forall ion :: ion in CommonIons ==> WellFormedIon(ion)
  {
    assert IsElementSymbol("Na") && IsElementSymbol("Ca") && IsElementSymbol("Al");
    assert IsElementSymbol("Cl") && IsElementSymbol("O") && IsElementSymbol("N");
  }

  lemma TableChargesNonzero(ion: Ion)
    requires ion in CommonIons
    ensures ion.charge != 0
  {
  }

  /** The filters give the first three rows as cations and the last three as anions. */
  lemma CommonIonsFiltered()
    ensures Cations() == [Sodium, Calcium, Aluminum]
    ensures Anions() == [Chloride, Oxide, Nitride]
  {
    var positive, negative := [Sodium, Calcium, Aluminum], [Chloride, Oxide, Nitride];
    assert CommonIons == positive + negative;
    FilterKeepsOrder(positive, negative, Cation);
    FilterKeepsOrder(positive, negative, Anion);
    FilterKeepsAll(positive, Cation);
    FilterDropsAll(negative, Cation);
    FilterKeepsAll(negative, Anion);
    FilterDropsAll(positive, Anion);
  }

  /** Everything the page offers as a cation is positive and well formed; likewise for anions. */
  lemma OfferedIons(cation: Ion, anion: Ion)
    requires cation in Cations() && anion in Anions()
    ensures WellFormedIon(cation) && cation.charge > 0
    ensures WellFormedIon(anion) && anion.charge < 0
  {
    FilterMembership(CommonIons, Cation, cation);
    FilterMembership(CommonIons, Anion, anion);
    CommonIonsWellFormed();
  }

  // ---------------------------------------------------------------------
  // Charge balancing

  /** Subscript counts: the cation count first, the anion count second. */
  datatype Counts = Counts(cation: nat, anion: nat)

  /** The arithmetic of `lcm = a b / g` when `a = g a'` and `b = g b'`. */
  lemma LcmArithmetic(g: nat, a': nat, b': nat)
    requires g > 0 && a' > 0 && b' > 0
    ensures ((g * a') * (g * b')) / g == a' * (g * b')
    ensures (a' * (g * b')) / (g * a') == b'
    ensures (a' * (g * b')) / (g * b') == a'
  {
    var lcm := a' * (g * b');
    assert (g * a') * (g * b') == g * lcm;
    DividesMultiple(g, lcm);
    assert lcm == (g * a') * b';
    DividesMultiple(g * a', b');
    assert lcm == (g * b') * a';
    DividesMultiple(g * b', a');
  }

  /** For a common divisor `g`, `(a b / g) / a == b / g` and `(a b / g) / b == a / g`. */
  lemma CofactorQuotients(a: nat, b: nat, g: nat)
    requires a > 0 && b > 0 && g > 0 && Divides(g, a) && Divides(g, b)
    ensures (a * b) / g / a == b / g
    ensures (a * b) / g / b == a / g
    ensures b / g * a == a / g * b
  {
    var a', b' := a / g, b / g;
    assert a == g * a';
    assert b == g * b';
    LcmArithmetic(g, a', b');
    assert b' * (g * a') == a' * (g * b');
  }

  /** With `g = gcd(a, b)` and `lcm = a b / g`, the quotients `lcm / a` and `lcm / b` are the coprime cofactors. */
  lemma LcmQuotients(a: nat, b: nat, g: nat)
    requires a > 0 && b > 0 && g == Gcd(a, b)
    ensures g > 0
    ensures (a * b) / g / a == b / g
    ensures (a * b) / g / b == a / g
    ensures Gcd(b / g, a / g) == 1
    ensures b / g * a == a / g * b
  {
    CofactorsCoprime(a, b);
    CofactorQuotients(a, b, g);
    CoprimeSwap(a / g, b / g);
  }

  lemma CoprimeSwap(x: nat, y: nat)
    requires Gcd(x, y) == 1
    ensures Gcd(y, x) == 1
  {
    GcdCommutes(x, y);
  }

  /**
   * The subscript counts for charge magnitudes `a` (cation) and `b` (anion):
   * `lcm / a` and `lcm / b`. They balance the charges and are in lowest terms.
   */
  function Balance(a: nat, b: nat): (c: Counts)
    requires a > 0 && b > 0
    ensures c.cation > 0 && c.anion > 0
    ensures c.cation * a == c.anion * b
    ensures Gcd(c.cation, c.anion) == 1
  {
    var g := Gcd(a, b);
    LcmQuotients(a, b, g);
    var lcm := (a * b) / g;
    Counts(lcm / a, lcm / b)
  }

  lemma CancelFactor(g: nat, u: nat, v: nat)
    requires g > 0 && g * u == g * v
    ensures u == v
  {
    DividesMultiple(g, u);
    DividesMultiple(g, v);
  }

  /** For coprime `p` and `q`, every balance `x p == y q` has `q` dividing `x` and `p` dividing `y`. */
  lemma CoprimeBalance(p: nat, q: nat, x: nat, y: nat)
    requires p > 0 && q > 0 && Gcd(p, q) == 1 && x * p == y * q
    ensures Divides(q, x) && Divides(p, y)
  {
    DividesMultiple(q, y);
    assert x * p == q * y;
    GcdCommutes(p, q);
    CoprimeDividesProduct(q, p, x);
    DividesMultiple(p, x);
    assert y * q == p * x;
    CoprimeDividesProduct(p, q, y);
  }

  /** Two balances of the same charges are proportional: `x q == y p`. */
  lemma CrossCancel(a: nat, b: nat, p: nat, q: nat, x: nat, y: nat)
    requires b > 0 && p * a == q * b && x * a == y * b
    ensures x * q == y * p
  {
    calc {
      b * (x * q);
      x * (q * b);
      x * (p * a);
      p * (x * a);
      p * (y * b);
      b * (y * p);
    }
    CancelFactor(b, x * q, y * p);
  }

  /** A coprime balance `p a == q b` divides every other balance `x a == y b`. */
  lemma CoprimeBalanceIsMinimal(a: nat, b: nat, p: nat, q: nat, x: nat, y: nat)
    requires a > 0 && b > 0 && p > 0 && q > 0
    requires p * a == q * b && Gcd(p, q) == 1 && x * a == y * b
    ensures Divides(p, x) && Divides(q, y)
  {
    CrossCancel(a, b, p, q, x, y);
    GcdCommutes(p, q);
    CoprimeBalance(q, p, x, y);
  }

  /** Every whole-number balance `x a == y b` is a multiple of the computed one. */
  lemma BalanceIsMinimal(a: nat, b: nat, x: nat, y: nat)
    requires a > 0 && b > 0 && x * a == y * b
    ensures Divides(Balance(a, b).cation, x) && Divides(Balance(a, b).anion, y)
    ensures x > 0 ==> Balance(a, b).cation <= x && Balance(a, b).anion <= y
  {
    var c := Balance(a, b);
    CoprimeBalanceIsMinimal(a, b, c.cation, c.anion, x, y);
    if x > 0 {
      DividesLe(c.cation, x);
      DividesLe(c.anion, y);
    }
  }

  /** Equal charge magnitudes combine one to one. */
  lemma BalanceEqualCharges(a: nat)
    requires a > 0
    ensures Balance(a, a) == Counts(1, 1)
  {
    var c := Balance(a, a);
    CancelFactor(a, c.cation, c.anion);
    DividesMultiple(c.cation, 1);
    assert Gcd(c.cation, c.cation) == Gcd(c.cation, 0);
  }

  /** Coprime charge magnitudes cross over: each count is the other ion's magnitude. */
  lemma BalanceCoprimeCharges(a: nat, b: nat)
    requires a > 0 && b > 0 && Gcd(a, b) == 1
    ensures Balance(a, b) == Counts(b, a)
  {
    LcmQuotients(a, b, 1);
  }

  // ---------------------------------------------------------------------
  // Rendering

  /** The subscript glyphs `₀ … ₉`, indexed by digit (U+2080 to U+2089). */
  const SubscriptGlyphs: seq<char> := ['₀', '₁', '₂', '₃', '₄', '₅', '₆', '₇', '₈', '₉']

  predicate IsSubscriptGlyph(c: char) { '₀' as int <= c as int <= '₉' as int }

  lemma SubscriptGlyphCodes()
    ensures |SubscriptGlyphs| == 10
    ensures forall d :: 0 <= d < 10 ==> SubscriptGlyphs[d] as int == '₀' as int + d
  {
  }

  /** `getSubscript`: each decimal digit of `n` replaced by its subscript glyph. */
  function Subscript(n: nat): (s: string)
    ensures |s| == |Digits(n)|
    ensures forall i :: 0 <= i < |s| ==> IsSubscriptGlyph(s[i])
  {
    SubscriptGlyphCodes();
    var ds := Digits(n);
    seq(|ds|, i requires 0 <= i < |ds| => SubscriptGlyphs[ds[i]])
  }

  /** The digit a subscript glyph stands for. */
  function GlyphDigit(c: char): nat
    requires IsSubscriptGlyph(c)
  {
    c as int - '₀' as int
  }

  function GlyphDigits(s: string): (ds: seq<nat>)
    requires forall i :: 0 <= i < |s| ==> IsSubscriptGlyph(s[i])
    ensures |ds| == |s|
  {
    seq(|s|, i requires 0 <= i < |s| => GlyphDigit(s[i]))
  }

  /** Reading a subscript string back as a number. */
  function SubscriptValue(s: string): nat
    requires forall i :: 0 <= i < |s| ==> IsSubscriptGlyph(s[i])
  {
    DigitsValue(GlyphDigits(s))
  }

  /** The subscript string of `n` reads back as `n`: one glyph per digit, in order. */
  lemma SubscriptRoundTrip(n: nat)
    ensures SubscriptValue(Subscript(n)) == n
  {
    SubscriptGlyphCodes();
    assert GlyphDigits(Subscript(n)) == Digits(n);
    DigitsRoundTrip(n);
  }

  lemma SubscriptInjective(m: nat, n: nat)
    requires Subscript(m) == Subscript(n)
    ensures m == n
  {
    SubscriptRoundTrip(m);
    SubscriptRoundTrip(n);
  }

  /** One half of the formula: the bare symbol for a count of 1, else symbol then subscript. */
  function RenderPart(symbol: string, count: nat): string
  {
    if count == 1 then symbol else symbol + Subscript(count)
  }

  predicate NonzeroCharges(cation: Ion, anion: Ion) {
    cation.charge != 0 && anion.charge != 0
  }

  function FormulaCounts(cation: Ion, anion: Ion): Counts
    requires NonzeroCharges(cation, anion)
  {
    Balance(Abs(cation.charge), Abs(anion.charge))
  }

  /** The formula `calculateFormula` produces: cation part, then anion part, no separator. */
  function FormulaText(cation: Ion, anion: Ion): string
    requires NonzeroCharges(cation, anion)
  {
    var c := FormulaCounts(cation, anion);
    RenderPart(cation.symbol, c.cation) + RenderPart(anion.symbol, c.anion)
  }

  // ---------------------------------------------------------------------
  // Reading a formula back

  /** Length of the longest prefix of `s` whose characters satisfy `p`. */
  function PrefixRun(s: string, p: char -> bool): (n: nat)
    ensures n <= |s|
    ensures forall i :: 0 <= i < n ==> p(s[i])
    ensures n == |s| || !p(s[n])
  {
    if s != [] && p(s[0]) then 1 + PrefixRun(s[1..], p) else 0
  }

  lemma {:induction false} PrefixRunExact(x: string, y: string, p: char -> bool)
    requires forall i :: 0 <= i < |x| ==> p(x[i])
    requires y == [] || !p(y[0])
    ensures PrefixRun(x + y, p) == |x|
  {
    if x == [] {
      assert x + y == y;
    } else {
      assert (x + y)[1..] == x[1..] + y;
      PrefixRunExact(x[1..], y, p);
    }
  }

  datatype FormulaPart = Part(symbol: string, count: nat)

  /**
   * Reads one symbol-with-subscript from the front of `s`: a capital, the lower-case
   * letters after it, then any subscript glyphs (none means a count of 1).
   */
  function ParsePart(s: string): Option<(FormulaPart, string)>
  {
    if s == [] || !IsUpper(s[0]) then None
    else
      var k := 1 + PrefixRun(s[1..], IsLower);
      var m := PrefixRun(s[k..], IsSubscriptGlyph);
      var count := if m == 0 then 1 else SubscriptValue(s[k..k + m]);
      Some((Part(s[..k], count), s[k + m..]))
  }

  /** Reads a whole binary formula: two parts and nothing after them. */
  function ParseFormula(s: string): Option<(FormulaPart, FormulaPart)>
  {
    match ParsePart(s)
    case None => None
    case Some((first, rest)) =>
      match ParsePart(rest)
      case None => None
      case Some((second, tail)) => if tail == [] then Some((first, second)) else None
  }

  /** The letters of a symbol are consumed exactly, whatever non-lower-case text follows. */
  lemma SymbolRun(symbol: string, tail: string)
    requires IsElementSymbol(symbol)
    requires tail == [] || !IsLower(tail[0])
    ensures 1 + PrefixRun((symbol + tail)[1..], IsLower) == |symbol|
  {
    assert (symbol + tail)[1..] == symbol[1..] + tail;
    PrefixRunExact(symbol[1..], tail, IsLower);
  }

  /** A symbol, a run of subscript glyphs and a rest starting with a capital parse apart. */
  lemma ParsePartSplits(symbol: string, sub: string, rest: string)
    requires IsElementSymbol(symbol)
    requires forall i :: 0 <= i < |sub| ==> IsSubscriptGlyph(sub[i])
    requires rest == [] || IsUpper(rest[0])
    ensures ParsePart(symbol + sub + rest)
         == Some((Part(symbol, if sub == [] then 1 else SubscriptValue(sub)), rest))
  {
    var s := symbol + sub + rest;
    var k, m := |symbol|, |sub|;
    assert s == symbol + (sub + rest);
    NoLowerAfter(sub, rest);
    SymbolRun(symbol, sub + rest);
    assert 1 + PrefixRun(s[1..], IsLower) == k;
    assert s[k..] == sub + rest;
    PrefixRunExact(sub, rest, IsSubscriptGlyph);
    assert PrefixRun(s[k..], IsSubscriptGlyph) == m;
    assert s[..k] == symbol;
    assert s[k..k + m] == sub;
    assert s[k + m..] == rest;
  }

  /** Subscript glyphs and capitals are not lower-case letters. */
  lemma NoLowerAfter(sub: string, rest: string)
    requires forall i :: 0 <= i < |sub| ==> IsSubscriptGlyph(sub[i])
    requires rest == [] || IsUpper(rest[0])
    ensures sub + rest == [] || !IsLower((sub + rest)[0])
  {
    if sub != [] {
      assert (sub + rest)[0] == sub[0];
    } else {
      assert sub + rest == rest;
    }
  }

  lemma RenderPartParses(symbol: string, count: nat, rest: string)
    requires IsElementSymbol(symbol) && count >= 1
    requires rest == [] || IsUpper(rest[0])
    ensures ParsePart(RenderPart(symbol, count) + rest) == Some((Part(symbol, count), rest))
  {
    var sub := if count == 1 then "" else Subscript(count);
    assert RenderPart(symbol, count) + rest == symbol + sub + rest;
    ParsePartSplits(symbol, sub, rest);
    if count != 1 {
      SubscriptRoundTrip(count);
    }
  }

  /**
   * The rendered formula of two well-formed ions reads back as their symbols and
   * the balanced counts: the text determines the compound.
   */
  lemma FormulaTextParses(cation: Ion, anion: Ion)
    requires WellFormedIon(cation) && WellFormedIon(anion)
    ensures ParseFormula(FormulaText(cation, anion))
         == Some((Part(cation.symbol, FormulaCounts(cation, anion).cation),
                  Part(anion.symbol, FormulaCounts(cation, anion).anion)))
  {
    var c := FormulaCounts(cation, anion);
    var second := RenderPart(anion.symbol, c.anion);
    RenderPartParses(anion.symbol, c.anion, "");
    assert second + "" == second;
    RenderPartParses(cation.symbol, c.cation, second);
  }

  /** The rendered formulas of the example compounds are the ones the page lists. */
  lemma ExampleCompoundsAgree()
    ensures forall cmp :: cmp in ExampleCompounds ==>
      NonzeroCharges(cmp.cation, cmp.anion) && FormulaText(cmp.cation, cmp.anion) == cmp.formula
  {
    BalanceEqualCharges(1);
    BalanceCoprimeCharges(2, 1);
    BalanceCoprimeCharges(3, 2);
    assert Subscript(2) == "₂";
    assert Subscript(3) == "₃";
  }

  // ---------------------------------------------------------------------
  // Charge labels

  predicate IsDigitChar(c: char) { '0' as int <= c as int <= '9' as int }

  /** `n.toString()` for a natural `n`. */
  function DecimalString(n: nat): (s: string)
    ensures |s| == |Digits(n)|
    ensures forall i :: 0 <= i < |s| ==> IsDigitChar(s[i])
  {
    var ds := Digits(n);
    seq(|ds|, i requires 0 <= i < |ds| => ('0' as int + ds[i]) as char)
  }

  /**
   * `getChargeDisplay`: the magnitude followed by a raised sign, or the sign
   * alone when the magnitude is 1; the sign is `⁺` exactly for positive charges.
   */
  function ChargeDisplay(charge: int): (s: string)
    ensures |s| >= 1
    ensures s[|s| - 1] == '⁺' <==> charge > 0
    ensures s[|s| - 1] == '⁺' || s[|s| - 1] == '⁻'
    ensures |s| == 1 <==> Abs(charge) == 1
    ensures Abs(charge) != 1 ==> |s| == |Digits(Abs(charge))| + 1
  {
    var absCharge := Abs(charge);
    var sign := if charge > 0 then "⁺" else "⁻";
    if absCharge == 1 then sign else DecimalString(absCharge) + sign
  }

  function DigitCharValue(c: char): nat
    requires IsDigitChar(c)
  {
    c as int - '0' as int
  }

  function DecimalDigits(s: string): (ds: seq<nat>)
    requires forall i :: 0 <= i < |s| ==> IsDigitChar(s[i])
    ensures |ds| == |s|
  {
    seq(|s|, i requires 0 <= i < |s| => DigitCharValue(s[i]))
  }

  /** Reads a charge label back as a signed charge. */
  function ParseChargeDisplay(s: string): Option<int>
  {
    if s == [] then None
    else
      var sign, body := s[|s| - 1], s[..|s| - 1];
      if sign != '⁺' && sign != '⁻' then None
      else if !(forall i :: 0 <= i < |body| ==> IsDigitChar(body[i])) then None
      else
        var magnitude := if body == [] then 1 else DigitsValue(DecimalDigits(body));
        Some(if sign == '⁺' then magnitude else -magnitude)
  }

  /** A charge label reads back as the charge, so distinct charges get distinct labels. */
  lemma ChargeDisplayRoundTrip(charge: int)
    ensures ParseChargeDisplay(ChargeDisplay(charge)) == Some(charge)
  {
    var s := ChargeDisplay(charge);
    var absCharge := Abs(charge);
    var sign := if charge > 0 then '⁺' else '⁻';
    if absCharge == 1 {
      assert s == [sign];
      assert s[..0] == [];
    } else {
      var body := DecimalString(absCharge);
      assert s == body + [sign];
      assert s[..|s| - 1] == body;
      assert DecimalDigits(body) == Digits(absCharge);
      DigitsRoundTrip(absCharge);
      assert DigitsValue(DecimalDigits(body)) == absCharge;
    }
  }

  /**
   * The body of `calculateFormula` once both ions are chosen: balance the charge
   * magnitudes through their gcd and lcm, then append the two parts to `formula`.
   */
  method BuildFormula(cation: Ion, anion: Ion) returns (formula: string)
    requires NonzeroCharges(cation, anion)
    ensures formula == FormulaText(cation, anion)
  {
    var cationCharge := Abs(cation.charge);
    var anionCharge := Abs(anion.charge);
    var lcm := (cationCharge * anionCharge) / Gcd(cationCharge, anionCharge);
    var cationCount := lcm / cationCharge;
    var anionCount := lcm / anionCharge;
    ghost var counts := FormulaCounts(cation, anion);
    assert cationCount == counts.cation && anionCount == counts.anion;

    formula := "";
    if cationCount == 1 {
      formula := formula + cation.symbol;
    } else {
      formula := formula + cation.symbol + Subscript(cationCount);
    }
    assert formula == RenderPart(cation.symbol, counts.cation);
    if anionCount == 1 {
      formula := formula + anion.symbol;
    } else {
      formula := formula + anion.symbol + Subscript(anionCount);
    }
    assert formula == RenderPart(cation.symbol, counts.cation) + RenderPart(anion.symbol, counts.anion);
  }

  // ---------------------------------------------------------------------
  // The formula builder's state

  /**
   * The component's state: the example being explained, the chosen cation and
   * anion (`null` until chosen) and the last calculated formula.
   */
  class FormulaBuilder {
    var selectedCompound: Compound
    var selectedCation: Option<Ion>
    var selectedAnion: Option<Ion>
    var calculatedFormula: string

    /** Selections only ever come from the page's own lists. */
    ghost predicate Valid()
      reads this
    {
      && selectedCompound in ExampleCompounds
      && (selectedCation.Some? ==> selectedCation.value in CommonIons && selectedCation.value.kind == Cation)
      && (selectedAnion.Some? ==> selectedAnion.value in CommonIons && selectedAnion.value.kind == Anion)
    }

    constructor ()
      ensures Valid()
      ensures selectedCompound == ExampleCompounds[0]
      ensures selectedCation == None && selectedAnion == None
      ensures calculatedFormula == ""
    {
      selectedCompound := ExampleCompounds[0];
      selectedCation := None;
      selectedAnion := None;
      calculatedFormula := "";
    }

    /** A click on a cation button. */
    method SelectCation(ion: Ion)
      requires Valid() && ion in Cations()
      modifies this`selectedCation
      ensures Valid() && selectedCation == Some(ion)
    {
      FilterMembership(CommonIons, Cation, ion);
      selectedCation := Some(ion);
    }

    /** A click on an anion button. */
    method SelectAnion(ion: Ion)
      requires Valid() && ion in Anions()
      modifies this`selectedAnion
      ensures Valid() && selectedAnion == Some(ion)
    {
      FilterMembership(CommonIons, Anion, ion);
      selectedAnion := Some(ion);
    }

    /** A click on an example compound. */
    method SelectCompound(compound: Compound)
      requires Valid() && compound in ExampleCompounds
      modifies this`selectedCompound
      ensures Valid() && selectedCompound == compound
    {
      selectedCompound := compound;
    }

    /**
     * `calculateFormula`: with both ions chosen, sets the formula to the charge-balanced
     * one; with either missing, changes nothing.
     */
    method CalculateFormula()
      requires Valid()
      modifies this`calculatedFormula
      ensures Valid()
      ensures old(selectedCation).None? || old(selectedAnion).None? ==>
        calculatedFormula == old(calculatedFormula)
      ensures old(selectedCation).Some? && old(selectedAnion).Some? ==>
        NonzeroCharges(selectedCation.value, selectedAnion.value) &&
        calculatedFormula == FormulaText(selectedCation.value, selectedAnion.value)
    {
      if selectedCation.None? || selectedAnion.None? {
        return;
      }
      var cation, anion := selectedCation.value, selectedAnion.value;
      TableChargesNonzero(cation);
      TableChargesNonzero(anion);
      var formula := BuildFormula(cation, anion);
      calculatedFormula := formula;
    }
  }

  /**
   * Whatever pair the page lets a user pick, the calculated formula balances the
   * charges, is in lowest terms, and reads back as the two symbols and counts.
   */
  lemma BuilderFormulaIsBalanced(cation: Ion, anion: Ion)
    requires cation in Cations() && anion in Anions()
    ensures NonzeroCharges(cation, anion)
    ensures var c := FormulaCounts(cation, anion);
      && c.cation * cation.charge + c.anion * anion.charge == 0
      && Gcd(c.cation, c.anion) == 1
      && ParseFormula(FormulaText(cation, anion)) == Some((Part(cation.symbol, c.cation), Part(anion.symbol, c.anion)))
  {
    OfferedIons(cation, anion);
    var a, b := Abs(cation.charge), Abs(anion.charge);
    var c := FormulaCounts(cation, anion);
    assert c == Balance(a, b);
    SignedBalance(c.cation, c.anion, cation.charge, anion.charge);
    FormulaTextParses(cation, anion);
  }

  /** A balance of magnitudes is a zero sum of signed charges when the signs are opposite. */
  lemma SignedBalance(p: nat, q: nat, plus: int, minus: int)
    requires plus > 0 && minus < 0
    requires p * plus == q * -minus
    ensures p * plus + q * minus == 0
  {
  }
}
