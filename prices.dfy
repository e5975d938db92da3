/** `formatPrice`: how the hotel and flight helpers print an amount. */
module Prices {
  import opened Basics
  import opened Text
  import opened Numbers

  /** The JavaScript values an amount arrives as. */
  datatype Amount = Undefined | Null | Str(s: string) | Num(n: Number)

  /** The amount is absent or the literal placeholder 'N/A'. */
  predicate IsMissing(amount: Amount) {
    amount.Undefined? || amount.Null? || amount == Str("N/A")
  }

  /** The number an amount stands for: a number as is, a string through `parseFloat`. */
  function AmountNumber(amount: Amount): Number
    requires !amount.Undefined? && !amount.Null?
  {
    match amount
    case Num(n) => n
    case Str(s) => ParseFloat(s)
  }

  /** The currency argument, 'USD' when it is omitted. */
  function CurrencyOrDefault(currency: Option<string>): string {
    currency.GetOr("USD")
  }

  /** `formatPrice(amount, currency)` */
  function FormatPrice(amount: Amount, currency: Option<string>): (s: string)
    ensures IsMissing(amount) ==> s == "N/A"
    ensures !IsMissing(amount) && AmountNumber(amount).NaN? ==> s == "N/A"
    ensures !IsMissing(amount) && !AmountNumber(amount).NaN? && ToUpper(CurrencyOrDefault(currency)) == "USD" ==>
              s == "$" + ToFixed2(AmountNumber(amount))
    ensures !IsMissing(amount) && !AmountNumber(amount).NaN? && ToUpper(CurrencyOrDefault(currency)) != "USD" ==>
              s == ToFixed2(AmountNumber(amount)) + " " + CurrencyOrDefault(currency)
  {
    if IsMissing(amount) then "N/A"
    else
      var num := AmountNumber(amount);
      if num.NaN? then "N/A"
      else
        var code := CurrencyOrDefault(currency);
        if ToUpper(code) == "USD" then "$" + ToFixed2(num)
        else ToFixed2(num) + " " + code
  }

  /** Every printed number is longer than "N/A" ("0.00", "Infinity", ...). */
  lemma ToFixed2Length(n: Number)
    requires !n.NaN?
    ensures |ToFixed2(n)| > 3
  {
    if n.Finite? {
      var y := if n.r < 0.0 then -n.r else n.r;
      var c := Cents(y);
      assert |NatToString(c / 100)| >= 1;
      assert |TwoDigits(c % 100)| == 2;
    }
  }

  /** 'N/A' comes out exactly when there is no number to print. */
  lemma NotAvailableIff(amount: Amount, currency: Option<string>)
    ensures FormatPrice(amount, currency) == "N/A" <==> IsMissing(amount) || AmountNumber(amount).NaN?
  {
    if !IsMissing(amount) && !AmountNumber(amount).NaN? {
      ToFixed2Length(AmountNumber(amount));
      var s := FormatPrice(amount, currency);
      assert |s| > 3;
    }
  }

  /** Omitting the currency is the same as passing 'USD', in any letter case. */
  lemma DefaultCurrencyIsUsd(amount: Amount)
    ensures FormatPrice(amount, None) == FormatPrice(amount, Some("USD")) == FormatPrice(amount, Some("usd"))
    ensures !IsMissing(amount) && !AmountNumber(amount).NaN? ==>
              FormatPrice(amount, None) == "$" + ToFixed2(AmountNumber(amount))
  {
    assert ToUpper("usd") == "USD";
    assert ToUpper("USD") == "USD";
  }

  /** A finite amount in dollars prints as '$' and a figure that `parseFloat` reads back
      as the amount rounded to cents. */
  lemma UsdReadsBack(x: real)
    ensures var s := FormatPrice(Num(Finite(x)), None);
      |s| >= 1 && s[0] == '$' && ParseFloat(s[1..]) == Finite(Fixed2Value(x))
  {
    DefaultCurrencyIsUsd(Num(Finite(x)));
    var s := FormatPrice(Num(Finite(x)), None);
    assert s[1..] == ToFixed2(Finite(x));
    ParseFloatReadsToFixed2(x);
  }

  /** A non-dollar currency is echoed after the figure exactly as given. */
  lemma OtherCurrencyEchoed(x: real, code: string)
    requires ToUpper(code) != "USD"
    ensures var s := FormatPrice(Num(Finite(x)), Some(code));
      |s| >= |code| + 1 && s[|s| - |code|..] == code && s[|s| - |code| - 1] == ' '
      && ParseFloat(s[..|s| - |code| - 1]) == Finite(Fixed2Value(x))
  {
    var s := FormatPrice(Num(Finite(x)), Some(code));
    var t := ToFixed2(Finite(x));
    assert s == t + " " + code;
    assert s[..|s| - |code| - 1] == t;
    assert s[|s| - |code|..] == code;
    ParseFloatReadsToFixed2(x);
  }

  /** Formatting a formatted figure again changes nothing: a non-negative amount and
      its own two-decimal text print the same. */
  lemma FormatFixedText(x: real, currency: Option<string>)
    requires x >= 0.0
    ensures FormatPrice(Str(ToFixed2(Finite(x))), currency) == FormatPrice(Num(Finite(x)), currency)
  {
    var t := ToFixed2(Finite(x));
    ToFixed2Length(Finite(x));
    assert t != "N/A";
    ParseFloatReadsToFixed2(x);
    Fixed2ValueIdempotent(x);
    SameFigureSamePrice(Str(t), Num(Finite(x)), currency);
  }

  /** Two amounts whose numbers print the same figure print the same price. */
  lemma SameFigureSamePrice(a: Amount, b: Amount, currency: Option<string>)
    requires !IsMissing(a) && !IsMissing(b)
    requires !AmountNumber(a).NaN? && !AmountNumber(b).NaN?
    requires ToFixed2(AmountNumber(a)) == ToFixed2(AmountNumber(b))
    ensures FormatPrice(a, currency) == FormatPrice(b, currency)
  {
  }
}
