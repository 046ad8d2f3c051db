// The expense panel of one itinerary day (src/components/DayExpenses.tsx):
// conversion into the trip's base currency, the day total, the list of
// currencies that still need a rate, the amount and rate forms, and the
// panel's local copy of the day's expenses.
module DayExpenses {
  import opened Common
  import opened Text
  import opened Numbers
  import opened Schema

  /** The `rateMap` prop: how many base units one unit of a currency is worth, keyed by upper-case code. */
  type RateMap = map<string, real>

  /** A rule turning an amount in cents of some currency into base-currency cents, or nothing. */
  type Converter = (int, string) -> Option<int>

  // ---------------------------------------------------------------------
  // Conversion and the day total

  /** `Math.round(cents * rate)`: the amount at the given rate, to the nearest cent. */
  function AtRate(cents: int, rate: real): (r: int)
    ensures var exact := cents as real * rate;
      exact - 0.5 < r as real <= exact + 0.5
  {
    Round(cents as real * rate)
  }

  /** `convert`: the amount in base cents, or nothing when the code has no rate or a rate of 0. */
  function Convert(rates: RateMap, cents: int, currency: string): (r: Option<int>)
    ensures r.None? <==> ToUpper(currency) !in rates || rates[ToUpper(currency)] == 0.0
    ensures r.Some? ==>
      var exact := cents as real * rates[ToUpper(currency)];
      exact - 0.5 < r.value as real <= exact + 0.5
  {
    var code := ToUpper(currency);
    if code !in rates || rates[code] == 0.0 then None
    else Some(AtRate(cents, rates[code]))
  }

  /** `convert` as a value, the form in which the total and its lemmas take it. */
  function AsWritten(rates: RateMap): Converter
  {
    (cents, currency) => Convert(rates, cents, currency)
  }

  /** What `conv` contributes for one expense: its converted amount, or 0 when it has none. */
  function Contribution(conv: Converter, e: Expense): int
  {
    var c := conv(e.amountCents, e.currency);
    if c.Some? then c.value else 0
  }

  /** Whether `conv` gives the expense a base-currency amount. */
  predicate Convertible(conv: Converter, e: Expense)
  {
    conv(e.amountCents, e.currency).Some?
  }

  /** `Convertible` as a filter condition. */
  function ConvertibleUnder(conv: Converter): Expense -> bool
  {
    e => Convertible(conv, e)
  }

  /** The sum of the converted amounts, in list order. */
  function Total(es: seq<Expense>, conv: Converter): int
  {
    if |es| == 0 then 0
    else Total(es[..|es| - 1], conv) + Contribution(conv, es[|es| - 1])
  }

  /** The sum of the converted amounts of expenses that all convert, with no exclusions. */
  function SumConverted(es: seq<Expense>, conv: Converter): int
    requires forall e :: e in es ==> Convertible(conv, e)
  {
    if |es| == 0 then 0
    else
      var last := es[|es| - 1];
      assert last in es && Convertible(conv, last);
      assert forall e :: e in es[..|es| - 1] ==> e in es;
      SumConverted(es[..|es| - 1], conv) + conv(last.amountCents, last.currency).value
  }

  /** `totalBase`: one pass over the local list, adding every amount that converts. */
  method TotalBase(rates: RateMap, local: seq<Expense>) returns (sum: int)
    ensures sum == Total(local, AsWritten(rates))
  {
    sum := 0;
    for i := 0 to |local|
      invariant sum == Total(local[..i], AsWritten(rates))
    {
      var conv := Convert(rates, local[i].amountCents, local[i].currency);
      if conv.Some? {
        sum := sum + conv.value;
      }
      assert local[..i + 1][..i] == local[..i];
    }
    assert local[..|local|] == local;
  }

  /**
   * The total is the plain sum over exactly the expenses that convert:
   * the others are left out, never counted at face value.
   */
  lemma {:induction false} TotalCountsExactlyConvertible(es: seq<Expense>, conv: Converter)
    ensures forall e :: e in Filter(es, ConvertibleUnder(conv)) ==> Convertible(conv, e)
    ensures Total(es, conv) == SumConverted(Filter(es, ConvertibleUnder(conv)), conv)
    decreases |es|
  {
    var keep := ConvertibleUnder(conv);
    if |es| > 0 {
      var front := es[..|es| - 1];
      var last := es[|es| - 1];
      TotalCountsExactlyConvertible(front, conv);
      if keep(last) {
        var f := Filter(front, keep) + [last];
        assert f[..|f| - 1] == Filter(front, keep);
      }
    }
  }

  /** When no expense converts, the total is 0. */
  lemma NothingConvertibleTotalsZero(es: seq<Expense>, conv: Converter)
    requires forall e :: e in es ==> !Convertible(conv, e)
    ensures Total(es, conv) == 0
  {
    TotalCountsExactlyConvertible(es, conv);
    FilterLength(es, ConvertibleUnder(conv));
  }

  // ---------------------------------------------------------------------
  // Currencies that still need a rate

  /** The upper-cased currencies of `es` that satisfy `lacks`, each once, in the order first seen. */
  function Missing(es: seq<Expense>, lacks: string -> bool): (r: seq<string>)
  {
    if |es| == 0 then []
    else
      var prev := Missing(es[..|es| - 1], lacks);
      var code := ToUpper(es[|es| - 1].currency);
      if lacks(code) && code !in prev then prev + [code] else prev
  }

  /** The rule of `missingCurrencies`: not the base currency, and absent from the rate map. */
  function NeedsRate(rates: RateMap, base: string): string -> bool
  {
    code => code != ToUpper(base) && code !in rates
  }

  /** `missingCurrencies`: a loop adding each qualifying code to an insertion-ordered set. */
  method MissingCurrencies(rates: RateMap, base: string, local: seq<Expense>) returns (missing: seq<string>)
    ensures missing == Missing(local, NeedsRate(rates, base))
  {
    missing := [];
    for i := 0 to |local|
      invariant missing == Missing(local[..i], NeedsRate(rates, base))
    {
      var code := ToUpper(local[i].currency);
      if code != ToUpper(base) && code !in rates && code !in missing {
        missing := missing + [code];
      }
      assert local[..i + 1][..i] == local[..i];
    }
    assert local[..|local|] == local;
  }

  /** The missing list has no duplicates and holds exactly the qualifying codes of the list's expenses. */
  lemma {:induction false} MissingSpec(es: seq<Expense>, lacks: string -> bool)
    ensures NoDuplicates(Missing(es, lacks))
    ensures forall code :: code in Missing(es, lacks) <==>
      lacks(code) && exists i :: 0 <= i < |es| && ToUpper(es[i].currency) == code
    decreases |es|
  {
    if |es| > 0 {
      var front := es[..|es| - 1];
      MissingSpec(front, lacks);
      forall code | lacks(code) && exists i :: 0 <= i < |es| && ToUpper(es[i].currency) == code
        ensures code in Missing(es, lacks)
      {
        var i :| 0 <= i < |es| && ToUpper(es[i].currency) == code;
        if i < |es| - 1 {
          assert ToUpper(front[i].currency) == code;
        }
      }
      forall code | code in Missing(es, lacks)
        ensures exists i :: 0 <= i < |es| && ToUpper(es[i].currency) == code
      {
        if code in Missing(front, lacks) {
          var i :| 0 <= i < |front| && ToUpper(front[i].currency) == code;
          assert es[i] == front[i];
        }
      }
    }
  }

  /**
   * A base-currency expense is dropped from the total when the rate map has
   * no entry for the base currency, and it is not listed as missing either.
   */
  lemma BaseCurrencyExpenseVanishes()
    ensures var e := Expense(1, 1, None, 0, 1000, "usd", "Food & Drink", None, None);
      && Total([e], AsWritten(map[])) == 0
      && Missing([e], NeedsRate(map[], "USD")) == []
  {
    var e := Expense(1, 1, None, 0, 1000, "usd", "Food & Drink", None, None);
    assert ToUpper("usd") == "USD";
    assert [e][..0] == [];
  }

  /** The rate a currency code is converted at: its map entry when non-zero, else 1 for the base currency without an entry. */
  function UsableRate(rates: RateMap, base: string, code: string): (r: Option<real>)
    ensures r.Some? ==> r.value != 0.0
    ensures code in rates && rates[code] != 0.0 ==> r == Some(rates[code])
    ensures code !in rates && code == ToUpper(base) ==> r == Some(1.0)
    ensures r.None? <==> (code in rates && rates[code] == 0.0) || (code !in rates && code != ToUpper(base))
  {
    if code in rates && rates[code] != 0.0 then Some(rates[code])
    else if code !in rates && code == ToUpper(base) then Some(1.0)
    else None
  }

  /** `convert` with the base currency taken at par when the map has no rate for it. */
  function ConvertAtPar(rates: RateMap, base: string, cents: int, currency: string): (r: Option<int>)
    ensures r.None? <==> UsableRate(rates, base, ToUpper(currency)).None?
    ensures r.Some? ==>
      var exact := cents as real * UsableRate(rates, base, ToUpper(currency)).value;
      exact - 0.5 < r.value as real <= exact + 0.5
  {
    var rate := UsableRate(rates, base, ToUpper(currency));
    if rate.None? then None else Some(AtRate(cents, rate.value))
  }

  /** A base-currency amount with no map entry for the base is taken unchanged. */
  lemma BaseAmountAtPar(rates: RateMap, base: string, cents: int, currency: string)
    requires ToUpper(currency) == ToUpper(base) && ToUpper(currency) !in rates
    ensures ConvertAtPar(rates, base, cents, currency) == Some(cents)
  {
    assert cents as real * 1.0 == cents as real;
    RoundProperties(0.0, 0.0, cents);
  }

  /** The corrected panel's converter and missing rule: a currency is missing exactly when it cannot be converted. */
  function Corrected(rates: RateMap, base: string): Converter
  {
    (cents, currency) => ConvertAtPar(rates, base, cents, currency)
  }

  function LacksUsableRate(rates: RateMap, base: string): string -> bool
  {
    code => UsableRate(rates, base, code).None?
  }

  /** The correction changes nothing for any currency other than the base. */
  lemma ConvertAtParAgreesOffBase(rates: RateMap, base: string, cents: int, currency: string)
    requires ToUpper(currency) != ToUpper(base)
    ensures ConvertAtPar(rates, base, cents, currency) == Convert(rates, cents, currency)
  {
    var code := ToUpper(currency);
    if code in rates && rates[code] != 0.0 {
      assert UsableRate(rates, base, code) == Some(rates[code]);
    } else {
      assert UsableRate(rates, base, code).None?;
    }
  }

  /** With the correction, every expense is either part of the total or has its currency listed as missing. */
  lemma EveryExpenseCountedOrFlagged(rates: RateMap, base: string, es: seq<Expense>)
    ensures forall e :: e in es ==>
      Convertible(Corrected(rates, base), e) || ToUpper(e.currency) in Missing(es, LacksUsableRate(rates, base))
  {
    MissingSpec(es, LacksUsableRate(rates, base));
    forall e | e in es && !Convertible(Corrected(rates, base), e)
      ensures ToUpper(e.currency) in Missing(es, LacksUsableRate(rates, base))
    {
      var i :| 0 <= i < |es| && es[i] == e;
      assert ToUpper(es[i].currency) == ToUpper(e.currency);
    }
  }

  // ---------------------------------------------------------------------
  // The amount field

  /** The characters of `s` that are decimal digits, in order (`replace(/\D+/g, "")`). */
  function Digits(s: string): (r: string)
    ensures AllDigits(r) && |r| <= |s|
  {
    var r := Filter(s, IsDigit);
    assert forall i :: 0 <= i < |r| ==> r[i] in r;
    r
  }

  /** A run of digits is its own digit string. */
  lemma DigitsOfDigitRun(s: string)
    requires AllDigits(s)
    ensures Digits(s) == s
  {
    FilterKeepsAll(s, IsDigit);
  }

  /** A blank field has no digits. */
  lemma {:induction false} BlankHasNoDigits(s: string)
    requires IsBlank(s)
    ensures Digits(s) == ""
    decreases |s|
  {
    if |s| > 0 {
      BlankHasNoDigits(s[..|s| - 1]);
      assert !IsDigit(s[|s| - 1]);
    }
  }

  /** A field that begins with a digit is not blank. */
  lemma DigitFirstNotBlank(s: string)
    requires |s| > 0 && IsDigit(s[0])
    ensures Trim(s) != ""
  {
    TrimEmptyIffBlank(s);
  }

  /** A digit run denotes 0 exactly when every digit in it is '0'. */
  lemma {:induction false} DecimalZeroIffZeros(s: string)
    requires AllDigits(s)
    ensures DecimalValue(s) == 0 <==> forall i :: 0 <= i < |s| ==> s[i] == '0'
    decreases |s|
  {
    if |s| > 0 {
      DecimalZeroIffZeros(s[..|s| - 1]);
    }
  }

  /** `submit`'s reading of the amount field: cents to send, or nothing when the form is not sent. */
  function SubmittedCents(amount: string): (r: Option<nat>)
    ensures r.Some? ==> r.value > 0 && r.value % 100 == 0
  {
    if Trim(amount) == "" then None
    else
      var units := DecimalValue(Digits(amount));
      var cents := AtLeastZero(units * 100);
      if cents <= 0 then None else Some(cents)
  }

  /** The form is sent exactly when the field has a digit other than '0'; the amount is then its digits as whole units. */
  lemma SubmittedCentsSpec(amount: string)
    ensures SubmittedCents(amount).None? <==> forall i :: 0 <= i < |Digits(amount)| ==> Digits(amount)[i] == '0'
    ensures SubmittedCents(amount).Some? ==> SubmittedCents(amount).value == DecimalValue(Digits(amount)) * 100
  {
    DecimalZeroIffZeros(Digits(amount));
    if Trim(amount) == "" {
      TrimEmptyIffBlank(amount);
      BlankHasNoDigits(amount);
    }
  }

  /** Two digits for a cent value below 100, as a price is written after the point. */
  function TwoDigits(f: nat): (s: string)
    requires f < 100
    ensures |s| == 2 && AllDigits(s) && DecimalValue(s) == f && FractionCents(s) == f
  {
    var s := [DigitChar(f / 10), DigitChar(f % 10)];
    assert s[..1][..0] == [];
    assert DecimalValue(s[..1]) == f / 10;
    s
  }

  /** Appending two digits to a digit run multiplies its value by 100 and adds theirs. */
  lemma DecimalAppendTwo(w: string, f: string)
    requires AllDigits(w) && AllDigits(f) && |f| == 2
    ensures AllDigits(w + f) && DecimalValue(w + f) == DecimalValue(w) * 100 + DecimalValue(f)
  {
    var s := w + f;
    var w' := w + [f[0]];
    assert s[..|s| - 1] == w';
    assert w'[..|w|] == w;
    assert f[..1][..0] == [];
    assert DecimalValue(f[..1]) == DigitValue(f[0]);
    assert DecimalValue(w') == DecimalValue(w) * 10 + DigitValue(f[0]);
    assert DecimalValue(s) == DecimalValue(w') * 10 + DigitValue(f[1]);
    assert DecimalValue(f) == DigitValue(f[0]) * 10 + DigitValue(f[1]);
  }

  /** The digits of "w.f" are those of w followed by those of f. */
  lemma DigitsAroundPoint(w: string, f: string)
    requires AllDigits(w) && AllDigits(f)
    ensures Digits(w + "." + f) == w + f
  {
    FilterAppend(w + ".", f, IsDigit);
    FilterAppend(w, ".", IsDigit);
    DigitsOfDigitRun(w);
    DigitsOfDigitRun(f);
    assert Filter(".", IsDigit) == "" by {
      assert "."[..0] == "";
    }
  }

  /**
   * An amount written with a point and two decimals, "units.cc", is sent as
   * a hundred times its value in cents: the point is dropped and the cents
   * are read as more whole units.
   */
  lemma PointedAmountHundredfold(units: nat, cc: nat)
    requires cc < 100 && (units > 0 || cc > 0)
    ensures SubmittedCents(NatToString(units) + "." + TwoDigits(cc)) == Some((units * 100 + cc) * 100)
  {
    var w := NatToString(units);
    var f := TwoDigits(cc);
    var s := w + "." + f;
    DigitsAroundPoint(w, f);
    DecimalAppendTwo(w, f);
    DecimalRoundTrip(units);
    assert s[0] == w[0];
    DigitFirstNotBlank(s);
  }

  /** The field "12.50" is sent as 125000 cents. */
  lemma DecimalPointIgnored()
    ensures SubmittedCents("12.50") == Some(125000)
  {
    assert NatToString(1) == "1";
    assert NatToString(12) == "12";
    assert TwoDigits(50) == "50";
    assert NatToString(12) + "." + TwoDigits(50) == "12.50";
    PointedAmountHundredfold(12, 50);
  }

  predicate IsPoint(c: char)
  {
    c == '.'
  }

  /** The text before the first '.', or all of it when there is none. */
  function WholePart(s: string): (r: string)
  {
    match FindIndex(s, IsPoint)
    case None => s
    case Some(k) => s[..k]
  }

  /** The text after the first '.', or nothing when there is none. */
  function FractionPart(s: string): (r: string)
  {
    match FindIndex(s, IsPoint)
    case None => ""
    case Some(k) => s[k + 1..]
  }

  /** A digit run followed by a point splits at that point. */
  lemma SplitAtPoint(w: string, f: string)
    requires AllDigits(w)
    ensures WholePart(w + "." + f) == w && FractionPart(w + "." + f) == f
  {
    var s := w + "." + f;
    assert forall j :: 0 <= j < |w| ==> s[j] == w[j];
    assert s[|w|] == '.';
    var k := FindIndex(s, IsPoint);
    assert k == Some(|w|);
  }

  /** A digit run has no point: all of it is the whole part. */
  lemma NoPointInDigitRun(w: string)
    requires AllDigits(w)
    ensures WholePart(w) == w && FractionPart(w) == ""
  {
    assert forall j :: 0 <= j < |w| ==> !IsPoint(w[j]);
  }

  /** The cents written by the first two fraction digits; further digits are dropped. */
  function FractionCents(f: string): (n: nat)
    requires AllDigits(f)
    ensures n < 100
  {
    if |f| == 0 then 0
    else if |f| == 1 then DigitValue(f[0]) * 10
    else DigitValue(f[0]) * 10 + DigitValue(f[1])
  }

  /** Whole units and cents as a number of cents. */
  function InCents(units: nat, cents: nat): nat
  {
    units * 100 + cents
  }

  /** The amount field read as a decimal number of currency units, in cents. */
  function CorrectedCents(amount: string): (r: Option<nat>)
    ensures r.Some? ==> r.value > 0
  {
    if IsBlank(amount) then None
    else
      var units := DecimalValue(Digits(WholePart(amount)));
      var cents := FractionCents(Digits(FractionPart(amount)));
      if units == 0 && cents == 0 then None else Some(InCents(units, cents))
  }

  /** A field "w.f" of two digit runs is read as the units w denotes and the cents f writes. */
  lemma CorrectedCentsOfSplit(w: string, f: string, units: nat, cc: nat)
    requires |w| > 0 && AllDigits(w) && AllDigits(f)
    requires DecimalValue(w) == units && FractionCents(f) == cc && (units > 0 || cc > 0)
    ensures CorrectedCents(w + "." + f) == Some(units * 100 + cc)
  {
    var s := w + "." + f;
    SplitAtPoint(w, f);
    DigitsOfDigitRun(w);
    DigitsOfDigitRun(f);
    assert !IsBlank(s) by {
      assert s[0] == w[0];
    }
    assert Digits(WholePart(s)) == w;
    assert Digits(FractionPart(s)) == f;
  }

  /** An amount written "units.cc" is read back as exactly units * 100 + cc cents. */
  lemma CorrectedCentsRoundTrip(units: nat, cc: nat)
    requires cc < 100 && (units > 0 || cc > 0)
    ensures CorrectedCents(NatToString(units) + "." + TwoDigits(cc)) == Some(units * 100 + cc)
  {
    DecimalRoundTrip(units);
    assert FractionCents(TwoDigits(cc)) == cc;
    CorrectedCentsOfSplit(NatToString(units), TwoDigits(cc), units, cc);
  }

  /** On a whole number with no point the corrected reading agrees with `submit`. */
  lemma CorrectedAgreesOnWholeUnits(units: nat)
    requires units > 0
    ensures CorrectedCents(NatToString(units)) == SubmittedCents(NatToString(units)) == Some(units * 100)
  {
    var w := NatToString(units);
    NoPointInDigitRun(w);
    DigitsOfDigitRun(w);
    DecimalRoundTrip(units);
    DigitFirstNotBlank(w);
    assert !IsBlank(w) by {
      TrimEmptyIffBlank(w);
    }
  }

  // ---------------------------------------------------------------------
  // The rate form

  /** `setRate`: the code and rate sent to the server, or nothing when the form is rejected. */
  function RateSubmission(currencyInput: string, rate: JsNumber): (r: Option<(string, real)>)
    ensures r.Some? <==> Trim(currencyInput) != "" && IsFinite(rate) && rate.value > 0.0
    ensures r.Some? ==> r.value.0 == ToUpper(Trim(currencyInput)) && r.value.1 > 0.0
  {
    var code := ToUpper(Trim(currencyInput));
    if code == "" || !IsFinite(rate) || rate.value <= 0.0 then None
    else Some((code, rate.value))
  }

  /** Once a rate the form accepts is in the map, every expense in that currency converts. */
  lemma AcceptedRateMakesConvertible(rates: RateMap, currencyInput: string, rate: JsNumber, cents: int, currency: string)
    requires RateSubmission(currencyInput, rate).Some?
    requires ToUpper(currency) == RateSubmission(currencyInput, rate).value.0
    ensures var sent := RateSubmission(currencyInput, rate).value;
      Convert(rates[sent.0 := sent.1], cents, currency).Some?
  {
  }

  // ---------------------------------------------------------------------
  // The local expense list

  /**
   * The key a successful delete filters on: the local list becomes
   * `WithoutKey(local, ExpenseId, id)`. A successful add makes it
   * `Append(local, e)`.
   */
  function ExpenseId(e: Expense): Id
  {
    e.id
  }

  /** The total of two lists run one after the other is the sum of their totals. */
  lemma {:induction false} TotalConcat(a: seq<Expense>, b: seq<Expense>, conv: Converter)
    ensures Total(a + b, conv) == Total(a, conv) + Total(b, conv)
    decreases |b|
  {
    if |b| > 0 {
      var b' := b[..|b| - 1];
      assert (a + b)[..|a + b| - 1] == a + b';
      assert (a + b)[|a + b| - 1] == b[|b| - 1];
      TotalConcat(a, b', conv);
    } else {
      assert a + b == a;
    }
  }

  /** With distinct ids, deleting one expense lowers the total by exactly its own contribution. */
  lemma RemoveLocalTotal(local: seq<Expense>, i: nat, conv: Converter)
    requires i < |local|
    requires forall j :: 0 <= j < |local| && j != i ==> local[j].id != local[i].id
    ensures Total(WithoutKey(local, ExpenseId, local[i].id), conv) == Total(local, conv) - Contribution(conv, local[i])
  {
    var before, x, after := local[..i], local[i], local[i + 1..];
    WithoutUniqueKey(local, ExpenseId, i);
    assert Total(before + after, conv) == Total(before, conv) + Total(after, conv) by {
      TotalConcat(before, after, conv);
    }
    assert Total(before + [x], conv) == Total(before, conv) + Contribution(conv, x) by {
      AddLocalTotal(before, x, conv);
    }
    assert Total(local, conv) == Total(before + [x], conv) + Total(after, conv) by {
      assert local == (before + [x]) + after;
      TotalConcat(before + [x], after, conv);
    }
  }

  /** Adding an expense raises the total by exactly its own contribution. */
  lemma AddLocalTotal(local: seq<Expense>, e: Expense, conv: Converter)
    ensures Total(Append(local, e), conv) == Total(local, conv) + Contribution(conv, e)
  {
    assert Append(local, e)[..|local|] == local;
  }
}
