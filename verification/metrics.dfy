/**
 * `extract_metrics` (generate_plots.py): the keyword-line parser that turns
 * a completion's "Label: value" lines into four optional numbers.
 *
 * Each line is classified by the first keyword of an `if/elif` chain it
 * contains, cut after its first colon, cleaned of unit text, and handed to
 * the float parser `parse`; a successful parse overwrites the field and a
 * failed one leaves it. A keyword line without a colon raises, and the
 * exception ends the whole call.
 */
module Metrics {
  import opened Common
  import opened Text
  import Decimal

  /** The four fields, in the order the `elif` chain tests their keywords. */
  datatype Field = Revenue | NetIncome | TaxRate | ForeignIncome

  function Keyword(f: Field): string {
    match f
    case Revenue => "Revenue"
    case NetIncome => "Net Income"
    case TaxRate => "Effective Tax Rate"
    case ForeignIncome => "Foreign Income Percentage"
  }

  /** Position of a field's test in the `if/elif` chain. */
  function Rank(f: Field): nat {
    match f
    case Revenue => 0
    case NetIncome => 1
    case TaxRate => 2
    case ForeignIncome => 3
  }

  /** The `(revenue, net_income, tax_rate, foreign_income)` tuple. */
  datatype Metrics = Metrics(
    revenue: Option<real>,
    netIncome: Option<real>,
    taxRate: Option<real>,
    foreignIncome: Option<real>)
  {
    function Get(f: Field): Option<real> {
      match f
      case Revenue => revenue
      case NetIncome => netIncome
      case TaxRate => taxRate
      case ForeignIncome => foreignIncome
    }

    /** This tuple with field `f` set to `x`. */
    function With(f: Field, x: real): (m: Metrics)
      ensures m.Get(f) == Some(x)
      ensures forall g :: g != f ==> m.Get(g) == Get(g)
    {
      match f
      case Revenue => this.(revenue := Some(x))
      case NetIncome => this.(netIncome := Some(x))
      case TaxRate => this.(taxRate := Some(x))
      case ForeignIncome => this.(foreignIncome := Some(x))
    }
  }

  const NoMetrics := Metrics(None, None, None, None)

  /**
   * The branch of the `if/elif` chain a line takes: the first field, in
   * chain order, whose keyword the line contains.
   */
  function Classify(line: string): (r: Option<Field>)
    ensures r.Some? ==> Contains(line, Keyword(r.value))
    ensures r.Some? ==> forall g :: Rank(g) < Rank(r.value) ==> !Contains(line, Keyword(g))
    ensures r.None? <==> forall g :: !Contains(line, Keyword(g))
  {
    if Contains(line, "Revenue") then Some(Revenue)
    else if Contains(line, "Net Income") then Some(NetIncome)
    else if Contains(line, "Effective Tax Rate") then Some(TaxRate)
    else if Contains(line, "Foreign Income Percentage") then Some(ForeignIncome)
    else None
  }

  /**
   * `line.split(':', 1)[1]`: the text after the first colon, or `None`
   * where Python raises IndexError because there is no colon.
   */
  function AfterColon(line: string): (r: Option<string>)
    ensures r.None? <==> ':' !in line
    ensures r.Some? ==> |r.value| < |line|
    ensures r.Some? ==>
      var head := line[..|line| - |r.value| - 1];
      ':' !in head && line == head + ":" + r.value
    decreases |line|
  {
    var i := FirstIndex(line, ':');
    if i == |line| then
      assert line[..i] == line;
      None
    else
      assert line == line[..i] + ":" + line[i + 1..];
      Some(line[i + 1..])
  }

  /** The cleaning applied to Revenue and Net Income values. */
  function CleanMoney(v: string): string {
    Strip(RemoveAll(RemoveAll(RemoveAll(Strip(v), "$"), " million"), " billion"))
  }

  /** The cleaning applied to Effective Tax Rate and Foreign Income Percentage values. */
  function CleanPercent(v: string): string {
    Strip(RemoveAll(Strip(v), "%"))
  }

  function Clean(f: Field, v: string): string {
    if f == Revenue || f == NetIncome then CleanMoney(v) else CleanPercent(v)
  }

  /**
   * One iteration of the scan: a line without a keyword changes nothing,
   * a keyword line without a colon raises, and otherwise the field is set
   * exactly when its cleaned value parses.
   */
  function ScanLine(m: Metrics, line: string, parse: string -> Option<real>): (r: Result<Metrics>)
    ensures Classify(line).None? ==> r == Ok(m)
    ensures r.Err? <==> Classify(line).Some? && ':' !in line
    ensures r.Err? ==> r.error == MissingColon(line)
    ensures r.Ok? ==> forall g :: Classify(line) != Some(g) ==> r.value.Get(g) == m.Get(g)
    ensures r.Ok? && Classify(line).Some? ==>
      var f := Classify(line).value;
      var x := parse(Clean(f, AfterColon(line).value));
      r.value.Get(f) == if x.Some? then x else m.Get(f)
  {
    match Classify(line)
    case None => Ok(m)
    case Some(f) =>
      match AfterColon(line)
      case None => Err(MissingColon(line))
      case Some(v) =>
        match parse(Clean(f, v))
        case None => Ok(m)
        case Some(x) => Ok(m.With(f, x))
  }

  /** The `for line in lines` loop, from the tuple `m`. */
  function Scan(m: Metrics, lines: seq<string>, parse: string -> Option<real>): Result<Metrics>
    decreases |lines|
  {
    if |lines| == 0 then Ok(m)
    else
      match ScanLine(m, lines[0], parse)
      case Err(e) => Err(e)
      case Ok(m') => Scan(m', lines[1..], parse)
  }

  /** `extract_metrics(summary_text)`, with Python's `float` as `parse`. */
  function ExtractMetrics(text: string, parse: string -> Option<real>): Result<Metrics> {
    Scan(NoMetrics, Split(text, '\n'), parse)
  }

  // ---------------------------------------------------------------------
  // Reference definitions the scan is proved against.

  /** A line that sets field `f`: it takes `f`'s branch and its cleaned value parses. */
  predicate Sets(line: string, f: Field, parse: string -> Option<real>) {
    && Classify(line) == Some(f)
    && AfterColon(line).Some?
    && parse(Clean(f, AfterColon(line).value)).Some?
  }

  /** The value of the last line of `lines` that sets `f`, or `init` when none does. */
  function LastValue(lines: seq<string>, f: Field, parse: string -> Option<real>, init: Option<real>): Option<real>
    decreases |lines|
  {
    if |lines| == 0 then init
    else
      var line := lines[|lines| - 1];
      if Sets(line, f, parse) then parse(Clean(f, AfterColon(line).value))
      else LastValue(lines[..|lines| - 1], f, parse, init)
  }

  /** A keyword line without a colon: the line on which the scan raises. */
  predicate Crashes(line: string) {
    Classify(line).Some? && ':' !in line
  }

  /** Index of the first crashing line, or `|lines|`. */
  function FirstCrash(lines: seq<string>): (i: nat)
    ensures i <= |lines|
    ensures forall k :: 0 <= k < i ==> !Crashes(lines[k])
    ensures i < |lines| ==> Crashes(lines[i])
    decreases |lines|
  {
    if |lines| == 0 then 0
    else if Crashes(lines[0]) then 0
    else
      var j := FirstCrash(lines[1..]);
      assert forall k :: 1 <= k < j + 1 ==> lines[k] == lines[1..][k - 1];
      j + 1
  }

  // ---------------------------------------------------------------------
  // Properties.

  /** Peeling the first line off the right-to-left reference. */
  lemma {:induction false} LastValueFront(lines: seq<string>, f: Field, parse: string -> Option<real>, init: Option<real>)
    requires |lines| > 0
    ensures LastValue(lines, f, parse, init) == LastValue(lines[1..], f, parse, LastValue(lines[..1], f, parse, init))
    decreases |lines|
  {
    if |lines| > 1 {
      var front := lines[..|lines| - 1];
      assert front[1..] == lines[1..][..|lines[1..]| - 1];
      assert front[..1] == lines[..1];
      LastValueFront(front, f, parse, init);
    }
  }

  /**
   * Last success wins: when the scan finishes, every field holds the value
   * of the last line that set it, or its starting value if no line did.
   */
  lemma {:induction false} ScanLastWins(m: Metrics, lines: seq<string>, parse: string -> Option<real>, f: Field)
    requires Scan(m, lines, parse).Ok?
    ensures Scan(m, lines, parse).value.Get(f) == LastValue(lines, f, parse, m.Get(f))
    decreases |lines|
  {
    if |lines| > 0 {
      var m' := ScanLine(m, lines[0], parse).value;
      ScanLastWins(m', lines[1..], parse, f);
      LastValueFront(lines, f, parse, m.Get(f));
      assert lines[..1][..0] == [];
      assert m'.Get(f) == LastValue(lines[..1], f, parse, m.Get(f));
    }
  }

  /**
   * The scan raises exactly when some line is a keyword line without a
   * colon, and it raises on the first such line.
   */
  lemma {:induction false} ScanCrashes(m: Metrics, lines: seq<string>, parse: string -> Option<real>)
    ensures Scan(m, lines, parse).Err? <==> FirstCrash(lines) < |lines|
    ensures Scan(m, lines, parse).Err? ==> Scan(m, lines, parse).error == MissingColon(lines[FirstCrash(lines)])
    decreases |lines|
  {
    if |lines| > 0 && !Crashes(lines[0]) {
      ScanCrashes(ScanLine(m, lines[0], parse).value, lines[1..], parse);
    }
  }

  /** `extract_metrics` fails exactly when some line is a keyword line without a colon. */
  lemma ExtractMetricsFails(text: string, parse: string -> Option<real>)
    ensures ExtractMetrics(text, parse).Err? <==>
      exists k :: 0 <= k < |Split(text, '\n')| && Crashes(Split(text, '\n')[k])
  {
    assert ExtractMetrics(text, parse) == Scan(NoMetrics, Split(text, '\n'), parse);
    ScanFailsIff(NoMetrics, Split(text, '\n'), parse);
  }

  /** The scan fails exactly when some line crashes. */
  lemma ScanFailsIff(m: Metrics, lines: seq<string>, parse: string -> Option<real>)
    ensures Scan(m, lines, parse).Err? <==> exists k :: 0 <= k < |lines| && Crashes(lines[k])
  {
    ScanCrashes(m, lines, parse);
    var i := FirstCrash(lines);
    if i < |lines| {
      assert Crashes(lines[i]);
    }
  }

  /** When `extract_metrics` returns, every field is the last value parsed for it, or `None`. */
  lemma ExtractMetricsLastWins(text: string, parse: string -> Option<real>, f: Field)
    requires ExtractMetrics(text, parse).Ok?
    ensures ExtractMetrics(text, parse).value.Get(f) == LastValue(Split(text, '\n'), f, parse, None)
  {
    ScanLastWins(NoMetrics, Split(text, '\n'), parse, f);
  }

  /** A field no line sets keeps its starting value; from `extract_metrics` that is `None`. */
  lemma {:induction false} UnsetStaysInit(lines: seq<string>, f: Field, parse: string -> Option<real>, init: Option<real>)
    requires forall k :: 0 <= k < |lines| ==> !Sets(lines[k], f, parse)
    ensures LastValue(lines, f, parse, init) == init
    decreases |lines|
  {
    if |lines| > 0 {
      UnsetStaysInit(lines[..|lines| - 1], f, parse, init);
    }
  }

  /** Lines with no keyword can be added anywhere without changing the result. */
  lemma {:induction false} NeutralLinesIgnored(m: Metrics, a: seq<string>, line: string, b: seq<string>, parse: string -> Option<real>)
    requires Classify(line).None?
    ensures Scan(m, a + [line] + b, parse) == Scan(m, a + b, parse)
    decreases |a|
  {
    if |a| == 0 {
      assert a + [line] + b == [line] + b;
      assert ([line] + b)[1..] == b;
      assert a + b == b;
    } else {
      assert (a + [line] + b)[0] == a[0] && (a + [line] + b)[1..] == a[1..] + [line] + b;
      assert (a + b)[0] == a[0] && (a + b)[1..] == a[1..] + b;
      match ScanLine(m, a[0], parse)
      case Err(_) =>
      case Ok(m') => NeutralLinesIgnored(m', a[1..], line, b, parse);
    }
  }

  /** A character the money cleaning never touches keeps its count. */
  lemma CleanMoneyKeepsChar(v: string, c: char)
    requires !IsSpace(c) && c !in "$" && c !in " million" && c !in " billion"
    ensures multiset(CleanMoney(v))[c] == multiset(v)[c]
  {
    var a := RemoveAll(Strip(v), "$");
    var b := RemoveAll(a, " million");
    var d := RemoveAll(b, " billion");
    StripKeeps(v, c);
    RemoveAllKeeps(Strip(v), "$", c);
    RemoveAllKeeps(a, " million", c);
    RemoveAllKeeps(b, " billion", c);
    StripKeeps(d, c);
  }

  /** Money cleaning leaves no `$` behind. */
  lemma CleanMoneyDropsCurrency(v: string)
    ensures '$' !in CleanMoney(v)
  {
    var a := RemoveAll(Strip(v), "$");
    var b := RemoveAll(a, " million");
    var c := RemoveAll(b, " billion");
    assert '$' !in a;
    UnitWordsLackCurrency();
    RemoveAllKeeps(a, " million", '$');
    RemoveAllKeeps(b, " billion", '$');
    StripKeeps(c, '$');
    assert CleanMoney(v) == Strip(c);
  }

  /** Neither unit word holds a `$`, and `$` is not whitespace. */
  lemma UnitWordsLackCurrency()
    ensures '$' !in " million" && '$' !in " billion" && !IsSpace('$')
  {
  }

  /** Digits, signs, points and `%` are none of the characters either cleaning strips. */
  lemma NumeralCharFacts(c: char)
    requires Decimal.IsDigit(c) || c in {'%', '$', '+', '-', '.'}
    ensures !IsSpace(c)
    ensures c != '$' ==> c !in "$" && c !in " million" && c !in " billion"
    ensures c != '%' ==> c !in "%"
  {
  }

  /**
   * Revenue and Net Income cleaning removes every `$` but keeps every `%`,
   * digit, sign and point of the value.
   */
  lemma CleanMoneyKeeps(v: string)
    ensures '$' !in CleanMoney(v)
    ensures forall c :: (Decimal.IsDigit(c) || c in {'%', '+', '-', '.'}) ==> multiset(CleanMoney(v))[c] == multiset(v)[c]
  {
    CleanMoneyDropsCurrency(v);
    forall c | Decimal.IsDigit(c) || c in {'%', '+', '-', '.'}
      ensures multiset(CleanMoney(v))[c] == multiset(v)[c]
    {
      NumeralCharFacts(c);
      CleanMoneyKeepsChar(v, c);
    }
  }

  /** A character the percent cleaning never touches keeps its count. */
  lemma CleanPercentKeepsChar(v: string, c: char)
    requires !IsSpace(c) && c !in "%"
    ensures multiset(CleanPercent(v))[c] == multiset(v)[c]
  {
    StripKeeps(v, c);
    RemoveAllKeeps(Strip(v), "%", c);
    StripKeeps(RemoveAll(Strip(v), "%"), c);
  }

  /**
   * Tax rate and foreign income cleaning removes every `%` but keeps every
   * `$`, digit, sign and point of the value.
   */
  lemma CleanPercentKeeps(v: string)
    ensures '%' !in CleanPercent(v)
    ensures forall c :: (Decimal.IsDigit(c) || c in {'$', '+', '-', '.'}) ==> multiset(CleanPercent(v))[c] == multiset(v)[c]
  {
    var a := RemoveAll(Strip(v), "%");
    assert '%' !in a;
    StripKeeps(a, '%');
    assert multiset(Strip(a))['%'] == 0;
    forall c | Decimal.IsDigit(c) || c in {'$', '+', '-', '.'}
      ensures multiset(CleanPercent(v))[c] == multiset(v)[c]
    {
      NumeralCharFacts(c);
      CleanPercentKeepsChar(v, c);
    }
  }

  /** A `$` in a tax-rate or foreign-income value survives cleaning, so `float` rejects it. */
  lemma PercentFieldRejectsCurrency(v: string, f: Field)
    requires f == TaxRate || f == ForeignIncome
    requires '$' in v
    ensures Decimal.ParseDecimal(Clean(f, v)) == None
  {
    NumeralCharFacts('$');
    CleanPercentKeepsChar(v, '$');
    assert '$' in multiset(v);
    assert '$' in CleanPercent(v);
    Decimal.CurrencyNeverParses(CleanPercent(v));
  }

  /** The text after the colon of `head + ":" + tail`, when `head` has no colon, is `tail`. */
  lemma AfterFirstColon(head: string, tail: string)
    requires ':' !in head
    ensures AfterColon(head + ":" + tail) == Some(tail)
  {
    var line := head + ":" + tail;
    var i := FirstIndex(line, ':');
    assert line[|head|] == ':';
    assert forall j :: |head| < j <= |line| ==> line[..j][|head|] == ':';
    assert i == |head|;
    assert line[i + 1..] == tail;
  }

  /** A numeral: digits, points and signs only. */
  predicate IsNumeral(num: string) {
    forall k :: 0 <= k < |num| ==> Decimal.IsDigit(num[k]) || num[k] in ".+-"
  }

  /** A numeral holds no space, no `$` and no letter of a unit word. */
  lemma NumeralChars(num: string)
    requires IsNumeral(num)
    ensures ' ' !in num && '$' !in num && 'm' !in num && 'b' !in num
  {
    forall k | 0 <= k < |num|
      ensures num[k] !in {' ', 'm', '$', 'b'}
    {
    }
  }

  /** Regrouping the concatenations the cleaning lemmas work on. */
  lemma Regroup(sign: string, num: string, unit: string)
    ensures sign + "$" + num + unit == sign + ("$" + (num + unit))
    ensures sign + num + unit == sign + (num + unit)
  {
  }

  /** Removing `$` from `sign + "$" + num + unit`. */
  lemma DropCurrency(sign: string, num: string, unit: string)
    requires sign == "" || sign == "-"
    requires '$' !in num && '$' !in unit
    ensures RemoveAll(sign + "$" + num + unit, "$") == sign + num + unit
  {
    var t := num + unit;
    RemoveAfterFree(num, unit, "$");
    RemoveAbsent(unit, "$", 0);
    RemoveLeading("$", t);
    RemoveAfterFree(sign, "$" + t, "$");
    Regroup(sign, num, unit);
  }

  /** Removing ` million` then ` billion` from a numeral followed by either unit. */
  lemma DropUnit(n: string, unit: string)
    requires ' ' !in n && 'm' !in n
    requires unit == " million" || unit == " billion"
    ensures RemoveAll(RemoveAll(n + unit, " million"), " billion") == n
  {
    RemoveLeading(unit, "");
    assert unit + "" == unit;
    RemoveAfterFree(n, unit, unit);
    if unit == " million" {
      assert RemoveAll(n + unit, " million") == n;
      RemoveAbsent(n, " billion", 0);
    } else {
      assert 'm' !in n + unit;
      RemoveAbsent(n + unit, " million", 1);
    }
  }

  /** Money cleaning reduces `$` + a numeral + a unit word to the numeral, without scaling it. */
  lemma CleanMoneyUnit(sign: string, num: string, unit: string)
    requires sign == "" || sign == "-"
    requires |num| > 0 && IsNumeral(num)
    requires unit == " million" || unit == " billion"
    ensures CleanMoney(sign + "$" + num + unit) == sign + num
  {
    NumeralChars(num);
    UnitEnd(unit);
    MoneyInputStripped(sign, num, unit);
    DropCurrency(sign, num, unit);
    NumeralStripped(sign, num);
    DropUnit(sign + num, unit);
  }

  /** A money value `[-]$<num><unit>` has no space at either end. */
  lemma MoneyInputStripped(sign: string, num: string, unit: string)
    requires sign == "" || sign == "-"
    requires |unit| > 0 && !IsSpace(unit[|unit| - 1])
    ensures Strip(sign + "$" + num + unit) == sign + "$" + num + unit
  {
    var v := sign + "$" + num + unit;
    assert v[|v| - 1] == unit[|unit| - 1];
    if sign == "" {
      assert v[0] == '$';
    } else {
      assert v[0] == '-';
    }
  }

  /** Both unit words end in a letter. */
  lemma UnitEnd(unit: string)
    requires unit == " million" || unit == " billion"
    ensures |unit| > 0 && !IsSpace(unit[|unit| - 1])
  {
  }

  lemma NumeralStripped(sign: string, num: string)
    requires sign == "" || sign == "-"
    requires |num| > 0 && IsNumeral(num)
    ensures Strip(sign + num) == sign + num
    ensures ' ' !in sign + num && 'm' !in sign + num
  {
    var n := sign + num;
    forall k | 0 <= k < |n|
      ensures Decimal.IsDigit(n[k]) || n[k] in ".+-"
    {
      if k >= |sign| {
        assert n[k] == num[k - |sign|];
      }
    }
    NumeralChars(n);
    assert !IsSpace(n[0]) && !IsSpace(n[|n| - 1]);
  }

  /** There is no unit scaling: an amount in billions and in millions cleans to the same number. */
  lemma NoUnitScaling(sign: string, num: string)
    requires sign == "" || sign == "-"
    requires |num| > 0 && IsNumeral(num)
    ensures CleanMoney(sign + "$" + num + " billion") == CleanMoney(sign + "$" + num + " million") == sign + num
  {
    CleanMoneyUnit(sign, num, " billion");
    CleanMoneyUnit(sign, num, " million");
  }

  /** A leading space in a value does not change its cleaning. */
  lemma CleanLeadingSpace(f: Field, v: string)
    ensures Clean(f, " " + v) == Clean(f, v)
  {
    StripLeadingSpace(' ', v);
    assert [' '] + v == " " + v;
    CleanOfStripped(f, " " + v, v);
  }

  /** Both cleanings begin with `strip()`, so texts that strip alike clean alike. */
  lemma CleanOfStripped(f: Field, a: string, b: string)
    requires Strip(a) == Strip(b)
    ensures Clean(f, a) == Clean(f, b)
  {
  }

  /** Removing a trailing `%` from a value that holds no other. */
  lemma DropPercent(num: string)
    requires '%' !in num
    ensures RemoveAll(num + "%", "%") == num
  {
    RemoveAfterFree(num, "%", "%");
    RemoveLeading("%", "");
    assert "%" + "" == "%";
    assert num + "" == num;
  }

  /** Percent cleaning reduces a numeral followed by `%` to the numeral. */
  lemma CleanPercentNumeral(num: string)
    requires |num| > 0 && IsNumeral(num)
    ensures CleanPercent(num + "%") == num
  {
    PercentNumeralStripped(num);
    NumeralLacks(num, '%');
    DropPercent(num);
    UnsignedNumeralStripped(num);
  }

  /** A numeral has no space at either end. */
  lemma UnsignedNumeralStripped(num: string)
    requires |num| > 0 && IsNumeral(num)
    ensures Strip(num) == num
    ensures !IsSpace(num[0])
  {
    NumeralStripped("", num);
    assert "" + num == num;
  }

  /** A numeral followed by `%` has no space at either end. */
  lemma PercentNumeralStripped(num: string)
    requires |num| > 0 && IsNumeral(num)
    ensures Strip(num + "%") == num + "%"
  {
    var v := num + "%";
    UnsignedNumeralStripped(num);
    assert v[0] == num[0] && v[|v| - 1] == '%';
  }

  /** `m` with field `f` set when the parse `x` succeeded, and unchanged otherwise. */
  function Update(m: Metrics, f: Field, x: Option<real>): (r: Metrics)
    ensures r.Get(f) == (if x.Some? then x else m.Get(f))
    ensures forall g :: g != f ==> r.Get(g) == m.Get(g)
  {
    if x.Some? then m.With(f, x.value) else m
  }

  /** A keyword line `head:value` hands exactly `value` to the cleaning and the parser. */
  lemma KeywordLine(m: Metrics, line: string, head: string, value: string, f: Field, parse: string -> Option<real>)
    requires Classify(line) == Some(f)
    requires ':' !in head && line == head + ":" + value
    ensures ScanLine(m, line, parse) == Ok(Update(m, f, parse(Clean(f, value))))
  {
    AfterFirstColon(head, value);
  }

  /** A numeral holds no character other than digits, points and signs. */
  lemma NumeralLacks(num: string, c: char)
    requires IsNumeral(num) && !Decimal.IsDigit(c) && c != '.' && c != '+' && c != '-'
    ensures c !in num
  {
    forall k | 0 <= k < |num|
      ensures num[k] != c
    {
    }
  }

  lemma AbsentFromThree(c: char, a: string, b: string, d: string)
    requires c !in a && c !in b && c !in d
    ensures c !in a + b + d
  {
    forall k | 0 <= k < |a + b + d|
      ensures (a + b + d)[k] != c
    {
      if k < |a| {
        assert (a + b + d)[k] == a[k];
      } else if k < |a| + |b| {
        assert (a + b + d)[k] == b[k - |a|];
      } else {
        assert (a + b + d)[k] == d[k - |a| - |b|];
      }
    }
  }

  /** A `key:value` line, the shape the summary prompt asks the model for. */
  function LabelLine(key: string, value: string): string {
    key + ":" + value
  }

  /** The value part of a money line: ` [-]$<num> billion`. */
  function MoneyValue(sign: string, num: string): string {
    " " + (sign + "$" + num + " billion")
  }

  /** The value part of a percentage line: ` <num>%`. */
  function PercentValue(num: string): string {
    " " + (num + "%")
  }

  /** A line that starts with a keyword contains it. */
  lemma LabelLineContains(key: string, value: string)
    ensures Contains(LabelLine(key, value), key)
  {
    assert LabelLine(key, value)[..|key|] == key;
  }

  /** A keyword line with a colon-free key hands exactly its value to the cleaning and the parser. */
  lemma LabelLineScan(m: Metrics, key: string, value: string, f: Field, parse: string -> Option<real>)
    requires Classify(LabelLine(key, value)) == Some(f)
    requires ':' !in key
    ensures ScanLine(m, LabelLine(key, value), parse) == Ok(Update(m, f, parse(Clean(f, value))))
  {
    KeywordLine(m, LabelLine(key, value), key, value, f, parse);
  }

  /** A money value cleans to its signed numeral, in either money field. */
  lemma CleanMoneyValue(sign: string, num: string)
    requires sign == "" || sign == "-"
    requires |num| > 0 && IsNumeral(num)
    ensures Clean(Revenue, MoneyValue(sign, num)) == sign + num
    ensures Clean(NetIncome, MoneyValue(sign, num)) == sign + num
  {
    CleanLeadingSpace(Revenue, sign + "$" + num + " billion");
    CleanMoneyUnit(sign, num, " billion");
  }

  /** A percentage value cleans to its numeral, in either percentage field. */
  lemma CleanPercentValue(num: string)
    requires |num| > 0 && IsNumeral(num)
    ensures Clean(TaxRate, PercentValue(num)) == num
    ensures Clean(ForeignIncome, PercentValue(num)) == num
  {
    CleanLeadingSpace(TaxRate, num + "%");
    CleanPercentNumeral(num);
  }

  /** A net income money line holds no `R`, so the revenue test fails on it. */
  lemma NetIncomeClassified(sign: string, num: string)
    requires sign == "" || sign == "-"
    requires IsNumeral(num)
    ensures Classify(LabelLine("Net Income", MoneyValue(sign, num))) == Some(NetIncome)
  {
    var line := LabelLine("Net Income", MoneyValue(sign, num));
    assert line == ("Net Income: " + sign) + ("$" + num) + " billion";
    NumeralLacks(num, 'R');
    AbsentFromThree('R', "Net Income: ", sign, "");
    AbsentFromThree('R', "$", num, "");
    AbsentFromThree('R', "Net Income: " + sign, "$" + num, " billion");
    MissingCharNotContained(line, "Revenue", 0);
    LabelLineContains("Net Income", MoneyValue(sign, num));
  }

  /** A tax rate percentage line holds no `u` and no `N`, so the two earlier tests fail on it. */
  lemma TaxRateClassified(num: string)
    requires IsNumeral(num)
    ensures Classify(LabelLine("Effective Tax Rate", PercentValue(num))) == Some(TaxRate)
  {
    var line := LabelLine("Effective Tax Rate", PercentValue(num));
    assert line == "Effective Tax Rate: " + num + "%";
    NumeralLacks(num, 'u');
    NumeralLacks(num, 'N');
    AbsentFromThree('u', "Effective Tax Rate: ", num, "%");
    AbsentFromThree('N', "Effective Tax Rate: ", num, "%");
    MissingCharNotContained(line, "Revenue", 5);
    MissingCharNotContained(line, "Net Income", 0);
    LabelLineContains("Effective Tax Rate", PercentValue(num));
  }

  /** `Revenue: [-]$<num> billion` sets revenue to the parse of the signed numeral. */
  lemma RevenueLine(m: Metrics, sign: string, num: string, parse: string -> Option<real>)
    requires sign == "" || sign == "-"
    requires |num| > 0 && IsNumeral(num)
    ensures ScanLine(m, LabelLine("Revenue", MoneyValue(sign, num)), parse) == Ok(Update(m, Revenue, parse(sign + num)))
  {
    LabelLineContains("Revenue", MoneyValue(sign, num));
    LabelLineScan(m, "Revenue", MoneyValue(sign, num), Revenue, parse);
    CleanMoneyValue(sign, num);
  }

  /** `Net Income: [-]$<num> billion` sets net income to the parse of the signed numeral. */
  lemma NetIncomeLine(m: Metrics, sign: string, num: string, parse: string -> Option<real>)
    requires sign == "" || sign == "-"
    requires |num| > 0 && IsNumeral(num)
    ensures ScanLine(m, LabelLine("Net Income", MoneyValue(sign, num)), parse) == Ok(Update(m, NetIncome, parse(sign + num)))
  {
    NetIncomeClassified(sign, num);
    LabelLineScan(m, "Net Income", MoneyValue(sign, num), NetIncome, parse);
    CleanMoneyValue(sign, num);
  }

  /** `Effective Tax Rate: <num>%` sets the tax rate to the parse of the numeral. */
  lemma TaxRateLine(m: Metrics, num: string, parse: string -> Option<real>)
    requires |num| > 0 && IsNumeral(num)
    ensures ScanLine(m, LabelLine("Effective Tax Rate", PercentValue(num)), parse) == Ok(Update(m, TaxRate, parse(num)))
  {
    TaxRateClassified(num);
    LabelLineScan(m, "Effective Tax Rate", PercentValue(num), TaxRate, parse);
    CleanPercentValue(num);
  }

  /**
   * Keyword precedence: when every line that names field `f` also names
   * Revenue, the revenue branch takes each of them and `f` stays unset.
   */
  lemma RevenueShadows(text: string, f: Field, parse: string -> Option<real>)
    requires f != Revenue
    requires ExtractMetrics(text, parse).Ok?
    requires forall line :: line in Split(text, '\n') && Contains(line, Keyword(f)) ==> Contains(line, "Revenue")
    ensures ExtractMetrics(text, parse).value.Get(f) == None
  {
    var lines := Split(text, '\n');
    forall k | 0 <= k < |lines|
      ensures !Sets(lines[k], f, parse)
    {
      assert lines[k] in lines;
    }
    ExtractMetricsLastWins(text, parse, f);
    UnsetStaysInit(lines, f, parse, None);
  }

  /** The worked summary's three lines and the empty piece after its final newline. */
  function ExampleLines(): seq<string> {
    [LabelLine("Revenue", MoneyValue("", "5.2")),
     LabelLine("Net Income", MoneyValue("-", "1.1")),
     LabelLine("Effective Tax Rate", PercentValue("12")),
     ""]
  }

  /** The worked summary: three `key: value` lines, each ending in a newline. */
  const ExampleSummary: string :=
    "Revenue: $5.2 billion" + "\n" + "Net Income: -$1.1 billion" + "\n" + "Effective Tax Rate: 12%" + "\n"

  /** The worked summary, written out as its lines joined by newlines. */
  lemma ExampleText()
    ensures ExampleSummary == JoinWith(ExampleLines(), '\n')
  {
    var lines := ExampleLines();
    assert lines[0] == "Revenue: $5.2 billion";
    assert lines[1] == "Net Income: -$1.1 billion";
    assert lines[2] == "Effective Tax Rate: 12%";
    JoinCons(lines[2], lines[3..], '\n');
    JoinCons(lines[1], lines[2..], '\n');
    JoinCons(lines[0], lines[1..], '\n');
    assert [lines[0]] + lines[1..] == lines && [lines[1]] + lines[2..] == lines[1..] && [lines[2]] + lines[3..] == lines[2..];
    assert JoinWith(lines[3..], '\n') == "";
  }

  /** No line of the worked summary holds a newline. */
  lemma ExampleLinesOneEach()
    ensures forall k :: 0 <= k < |ExampleLines()| ==> '\n' !in ExampleLines()[k]
  {
    var lines := ExampleLines();
    assert lines[0] == "Revenue: $5.2 billion";
    assert lines[1] == "Net Income: -$1.1 billion";
    assert lines[2] == "Effective Tax Rate: 12%";
  }

  /** The worked summary splits into its three lines and one empty piece. */
  lemma ExampleSplits()
    ensures Split(ExampleSummary, '\n') == ExampleLines()
  {
    ExampleLinesOneEach();
    ExampleText();
    SplitJoin(ExampleLines(), '\n');
  }

  /** The numerals of the worked summary. */
  lemma ExampleNumerals()
    ensures IsNumeral("5.2") && IsNumeral("1.1") && IsNumeral("12")
    ensures "" + "5.2" == "5.2" && "-" + "1.1" == "-1.1"
  {
  }

  /** The revenue line of the worked summary sets revenue to 5.2. */
  lemma ExampleRevenue()
    ensures ScanLine(NoMetrics, LabelLine("Revenue", MoneyValue("", "5.2")), Decimal.ParseDecimal)
      == Ok(Metrics(Some(5.2), None, None, None))
  {
    ExampleNumerals();
    Decimal.ParseFivePointTwo("5.2");
    RevenueLine(NoMetrics, "", "5.2", Decimal.ParseDecimal);
  }

  /** The net income line of the worked summary sets net income to -1.1. */
  lemma ExampleNetIncome()
    ensures ScanLine(Metrics(Some(5.2), None, None, None), LabelLine("Net Income", MoneyValue("-", "1.1")), Decimal.ParseDecimal)
      == Ok(Metrics(Some(5.2), Some(-1.1), None, None))
  {
    ExampleNumerals();
    Decimal.ParseMinusOnePointOne("-1.1");
    NetIncomeLine(Metrics(Some(5.2), None, None, None), "-", "1.1", Decimal.ParseDecimal);
  }

  /** The tax rate line of the worked summary sets the tax rate to 12.0. */
  lemma ExampleTaxRate()
    ensures ScanLine(Metrics(Some(5.2), Some(-1.1), None, None), LabelLine("Effective Tax Rate", PercentValue("12")), Decimal.ParseDecimal)
      == Ok(Metrics(Some(5.2), Some(-1.1), Some(12.0), None))
  {
    ExampleNumerals();
    Decimal.ParseTwelve("12");
    TaxRateLine(Metrics(Some(5.2), Some(-1.1), None, None), "12", Decimal.ParseDecimal);
  }

  /** Three lines that take the tuple from `m0` to `m3`, then an empty line, scan to `m3`. */
  lemma ScanThreeLines(m0: Metrics, m1: Metrics, m2: Metrics, m3: Metrics, a: string, b: string, c: string, parse: string -> Option<real>)
    requires ScanLine(m0, a, parse) == Ok(m1)
    requires ScanLine(m1, b, parse) == Ok(m2)
    requires ScanLine(m2, c, parse) == Ok(m3)
    ensures Scan(m0, [a, b, c, ""], parse) == Ok(m3)
  {
    EmptyLineIgnored(m3, parse);
    ScanStep(m3, m3, [""], parse);
    assert [""][1..] == [];
    ScanStep(m2, m3, [c, ""], parse);
    assert [c, ""][1..] == [""];
    ScanStep(m1, m2, [b, c, ""], parse);
    assert [b, c, ""][1..] == [c, ""];
    ScanStep(m0, m1, [a, b, c, ""], parse);
    assert [a, b, c, ""][1..] == [b, c, ""];
  }

  /** The empty piece after a final newline names no keyword and changes nothing. */
  lemma EmptyLineIgnored(m: Metrics, parse: string -> Option<real>)
    ensures ScanLine(m, "", parse) == Ok(m)
  {
    forall g: Field ensures !Contains("", Keyword(g)) {
      MissingCharNotContained("", Keyword(g), 0);
    }
  }

  /** One step of the scan: a line that leaves the tuple `m'` hands it to the rest of the lines. */
  lemma ScanStep(m: Metrics, m': Metrics, lines: seq<string>, parse: string -> Option<real>)
    requires |lines| > 0 && ScanLine(m, lines[0], parse) == Ok(m')
    ensures Scan(m, lines, parse) == Scan(m', lines[1..], parse)
  {
  }

  /** Scanning the worked summary's lines with the restricted `float`. */
  lemma ExampleScan()
    ensures Scan(NoMetrics, ExampleLines(), Decimal.ParseDecimal) == Ok(Metrics(Some(5.2), Some(-1.1), Some(12.0), None))
  {
    var lines := ExampleLines();
    ExampleRevenue();
    ExampleNetIncome();
    ExampleTaxRate();
    ScanThreeLines(NoMetrics, Metrics(Some(5.2), None, None, None), Metrics(Some(5.2), Some(-1.1), None, None),
      Metrics(Some(5.2), Some(-1.1), Some(12.0), None), lines[0], lines[1], lines[2], Decimal.ParseDecimal);
    assert lines == [lines[0], lines[1], lines[2], ""];
  }

  /**
   * The summary "Revenue: $5.2 billion", "Net Income: -$1.1 billion",
   * "Effective Tax Rate: 12%", each ending in a newline, gives
   * (5.2, -1.1, 12.0, None): no unit is applied and the missing foreign
   * income stays None.
   */
  lemma WorkedExample()
    ensures ExtractMetrics(ExampleSummary, Decimal.ParseDecimal)
      == Ok(Metrics(Some(5.2), Some(-1.1), Some(12.0), None))
  {
    ExampleSplits();
    ExampleScan();
  }
}
