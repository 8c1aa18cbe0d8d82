/**
 * utils.py: the CPF check-digit validator, the input sanitiser, percentage
 * banding, age arithmetic and the catalogue-file shape check.
 */
module Utils {
  import opened Text
  import opened Wrappers
  import opened Models

  // ---------------------------------------------------------------------------
  // validate_json_structure

  const NotAnObject := "JSON deve ser um objeto"
  const MissingDoencas := "JSON deve conter chave 'doencas'"

  /** `Validator.validate_json_structure`: the verdict and the error list. */
  function ValidateJsonStructure(data: CatalogDoc): (r: (bool, seq<string>))
    ensures r.0 <==> r.1 == []
    ensures data.NonObjectDoc? ==> r.1 == [NotAnObject]
    ensures data.ObjectDoc? && data.doencas.None? ==> r.1 == [MissingDoencas]
    ensures data.ObjectDoc? && data.doencas.Some? ==> r.0
  {
    if data.NonObjectDoc? then (false, [NotAnObject])
    else
      var errors := if data.doencas.None? then [MissingDoencas] else [];
      (|errors| == 0, errors)
  }

  // ---------------------------------------------------------------------------
  // sanitize_input

  /** Leading whitespace removed. */
  function StripLeft(s: string): (r: string)
    ensures |r| <= |s| && r == s[|s| - |r|..]
    ensures r != [] ==> !IsSpace(r[0])
  {
    if s != [] && IsSpace(s[0]) then StripLeft(s[1..]) else s
  }

  /** Trailing whitespace removed. */
  function StripRight(s: string): (r: string)
    ensures r <= s
    ensures r != [] ==> !IsSpace(r[|r| - 1])
  {
    if s != [] && IsSpace(s[|s| - 1]) then StripRight(s[..|s| - 1]) else s
  }

  /** Python's `str.strip()`. */
  function Strip(s: string): string {
    StripRight(StripLeft(s))
  }

  /** Leading whitespace dropped (the rest of a run `\s+` consumes). */
  function DropSpaces(s: string): (r: string)
    ensures |r| <= |s|
    ensures r != [] ==> !IsSpace(r[0])
  {
    if s != [] && IsSpace(s[0]) then DropSpaces(s[1..]) else s
  }

  /** `re.sub(r'\s+', ' ', s)`: each maximal run of whitespace becomes one space. */
  function Collapse(s: string): (r: string)
    decreases |s|
  {
    if s == [] then []
    else if IsSpace(s[0]) then [' '] + Collapse(DropSpaces(s[1..]))
    else [s[0]] + Collapse(s[1..])
  }

  /** The only whitespace is single spaces between other characters... */
  predicate SingleSpaced(s: string) {
    && (forall i :: 0 <= i < |s| && IsSpace(s[i]) ==> s[i] == ' ')
    && (forall i :: 0 <= i < |s| - 1 ==> !(IsSpace(s[i]) && IsSpace(s[i + 1])))
  }

  /** ... and none at either end. */
  predicate Trimmed(s: string) {
    s != [] ==> !IsSpace(s[0]) && !IsSpace(s[|s| - 1])
  }

  /** Python's `t[:n]`, negative `n` counting from the end. */
  function PyPrefix(t: string, n: int): (r: string)
    ensures r <= t
    ensures 0 <= n ==> |r| == if n < |t| then n else |t|
  {
    if 0 <= n then (if n < |t| then t[..n] else t)
    else if |t| + n <= 0 then [] else t[..|t| + n]
  }

  /** `Validator.sanitize_input`. */
  function SanitizeInput(text: string, maxLength: int): string {
    if text == [] then ""
    else
      var t := Collapse(Strip(text));
      if |t| > maxLength then PyPrefix(t, maxLength) + "..." else t
  }

  /** Collapsing never lengthens, and empties only the empty string. */
  lemma {:induction false} CollapseLength(s: string)
    decreases |s|
    ensures |Collapse(s)| <= |s|
    ensures Collapse(s) != [] <==> s != []
  {
    if s != [] {
      if IsSpace(s[0]) {
        CollapseLength(DropSpaces(s[1..]));
      } else {
        CollapseLength(s[1..]);
      }
    }
  }

  /** The collapse of a string is single-spaced. */
  lemma {:induction false} CollapseSingleSpaced(s: string)
    decreases |s|
    ensures SingleSpaced(Collapse(s))
  {
    if s != [] {
      var r := Collapse(s);
      if IsSpace(s[0]) {
        var rest := DropSpaces(s[1..]);
        CollapseSingleSpaced(rest);
        assert r[1..] == Collapse(rest);
        if rest != [] {
          assert Collapse(rest)[0] == rest[0];
        }
      } else {
        CollapseSingleSpaced(s[1..]);
        assert r[1..] == Collapse(s[1..]);
      }
    }
  }

  /** The collapse ends in whitespace exactly when the string does. */
  lemma {:induction false} CollapseLast(s: string)
    decreases |s|
    requires s != []
    ensures Collapse(s) != []
    ensures IsSpace(Collapse(s)[|Collapse(s)| - 1]) <==> IsSpace(s[|s| - 1])
  {
    var r := Collapse(s);
    if IsSpace(s[0]) {
      var rest := DropSpaces(s[1..]);
      DropSpacesSuffix(s[1..]);
      if rest == [] {
        if |s| > 1 { assert IsSpace(s[1..][|s| - 2]); }
      } else {
        CollapseLast(rest);
        assert r[1..] == Collapse(rest);
      }
    } else if s[1..] != [] {
      CollapseLast(s[1..]);
      assert r[1..] == Collapse(s[1..]);
      assert s[|s| - 1] == s[1..][|s[1..]| - 1];
    }
  }

  /** `DropSpaces` removes a run of whitespace from the front and keeps the rest. */
  lemma {:induction false} DropSpacesSuffix(s: string)
    ensures |DropSpaces(s)| <= |s| && DropSpaces(s) == s[|s| - |DropSpaces(s)|..]
    ensures forall i :: 0 <= i < |s| - |DropSpaces(s)| ==> IsSpace(s[i])
  {
    if s != [] && IsSpace(s[0]) {
      DropSpacesSuffix(s[1..]);
    }
  }

  /** `strip()` leaves no whitespace at either end. */
  lemma StripTrimmed(s: string)
    ensures Trimmed(Strip(s))
  {
    var l := StripLeft(s);
    var r := StripRight(l);
    if r != [] {
      PrefixHead(r, l);
    }
  }

  /** A non-empty prefix starts like the whole. */
  lemma PrefixHead(r: string, l: string)
    requires r <= l && r != []
    ensures l != [] && r[0] == l[0]
  {
  }

  /** Without truncation the result is the trimmed, single-spaced text; with it,
      the first `maxLength` characters followed by "...". An empty text gives "". */
  lemma SanitizeShape(text: string, maxLength: int)
    requires 0 <= maxLength
    ensures |SanitizeInput(text, maxLength)| <= maxLength + 3
    ensures |Collapse(Strip(text))| <= maxLength ==>
      SanitizeInput(text, maxLength) == Collapse(Strip(text))
      && SingleSpaced(SanitizeInput(text, maxLength)) && Trimmed(SanitizeInput(text, maxLength))
    ensures |Collapse(Strip(text))| > maxLength ==>
      SanitizeInput(text, maxLength) == Collapse(Strip(text))[..maxLength] + "..."
  {
    var st := Strip(text);
    var t := Collapse(st);
    if text == [] {
      assert st == [];
      assert t == [];
    } else {
      StripTrimmed(text);
      CollapseSingleSpaced(st);
      CollapseTrimmed(st);
    }
  }

  /** Collapsing a trimmed string keeps it trimmed. */
  lemma CollapseTrimmed(s: string)
    requires Trimmed(s)
    ensures Trimmed(Collapse(s))
  {
    if s != [] {
      CollapseLast(s);
      assert Collapse(s)[0] == s[0];
    }
  }

  /** A single-spaced, trimmed string is its own collapse and strip. */
  lemma {:induction false} CollapseFixed(s: string)
    requires SingleSpaced(s)
    requires s != [] ==> !IsSpace(s[0])
    ensures Collapse(s) == s
    decreases |s|
  {
    if s != [] {
      var t := s[1..];
      if t != [] && IsSpace(t[0]) {
        assert t[0] == ' ';
        var u := t[1..];
        assert u != [] ==> !IsSpace(u[0]) by {
          if u != [] { assert u[0] == s[2]; }
        }
        assert DropSpaces(u) == u;
        assert SingleSpaced(u) by {
          forall i | 0 <= i < |u| - 1 ensures !(IsSpace(u[i]) && IsSpace(u[i + 1])) {
            assert u[i] == s[i + 2] && u[i + 1] == s[i + 3];
          }
        }
        CollapseFixed(u);
        assert Collapse(t) == [' '] + u;
      } else {
        assert SingleSpaced(t) by {
          forall i | 0 <= i < |t| - 1 ensures !(IsSpace(t[i]) && IsSpace(t[i + 1])) {
            assert t[i] == s[i + 1] && t[i + 1] == s[i + 2];
          }
        }
        CollapseFixed(t);
      }
    }
  }

  /** Sanitising an untruncated result again changes nothing. */
  lemma SanitizeIdempotent(text: string, maxLength: int)
    requires 0 <= maxLength
    requires |SanitizeInput(text, maxLength)| <= maxLength
    ensures SanitizeInput(SanitizeInput(text, maxLength), maxLength) == SanitizeInput(text, maxLength)
  {
    var s := SanitizeInput(text, maxLength);
    SanitizeShape(text, maxLength);
    if text != [] && s != [] {
      assert s == Collapse(Strip(text));
      assert StripLeft(s) == s;
      assert StripRight(s) == s;
      CollapseFixed(s);
    }
  }

  // ---------------------------------------------------------------------------
  // validar_cpf

  predicate IsDigit(c: char) {
    '0' <= c <= '9'
  }

  function DigitValue(c: char): int {
    c as int - '0' as int
  }

  /** `re.sub(r'[^\d]', '', s)`: the digits of `s`, in order. */
  function DigitsOnly(s: string): (r: string)
    ensures forall i :: 0 <= i < |r| ==> IsDigit(r[i])
    ensures |r| <= |s|
  {
    if s == [] then []
    else if IsDigit(s[0]) then [s[0]] + DigitsOnly(s[1..])
    else DigitsOnly(s[1..])
  }

  /** Σ_{i<n} digit(d[i]) · (top − i). */
  function WeightedSum(d: string, n: nat, top: int): int
    requires n <= |d|
  {
    if n == 0 then 0 else WeightedSum(d, n - 1, top) + DigitValue(d[n - 1]) * (top - (n - 1))
  }

  /** A CPF check digit from its weighted sum: 0 for a remainder below 2,
      otherwise 11 minus the remainder. */
  function CheckDigit(sum: int): int {
    var resto := sum % 11;
    if resto < 2 then 0 else 11 - resto
  }

  /** All eleven characters equal (`cpf == cpf[0] * 11`). */
  predicate Repeated(d: string) {
    |d| > 0 && forall i :: 0 <= i < |d| ==> d[i] == d[0]
  }

  /** Both check digits agree with the nine (then ten) digits before them. */
  predicate CheckDigitsMatch(d: string)
    requires |d| == 11
  {
    CheckDigit(WeightedSum(d, 9, 10)) == DigitValue(d[9]) && CheckDigit(WeightedSum(d, 10, 11)) == DigitValue(d[10])
  }

  /** `Validator.validar_cpf`. */
  function ValidarCpf(cpf: string): bool {
    var d := DigitsOnly(cpf);
    if |d| != 11 then false
    else if Repeated(d) then false
    else CheckDigitsMatch(d)
  }

  /** A check digit is a decimal digit that makes the weighted sum plus itself
      a multiple of 11, or 0 when the remainder is 0 or 1. */
  lemma CheckDigitSpec(sum: int)
    ensures 0 <= CheckDigit(sum) <= 9
    ensures sum % 11 >= 2 ==> (sum + CheckDigit(sum)) % 11 == 0
    ensures sum % 11 < 2 ==> CheckDigit(sum) == 0
  {
  }

  /** Filtering digits twice is filtering once. */
  lemma {:induction false} DigitsOnlyIdempotent(s: string)
    ensures DigitsOnly(DigitsOnly(s)) == DigitsOnly(s)
  {
    if s != [] {
      DigitsOnlyIdempotent(s[1..]);
      if IsDigit(s[0]) {
        assert ([s[0]] + DigitsOnly(s[1..]))[1..] == DigitsOnly(s[1..]);
      }
    }
  }

  /** Digit filtering distributes over concatenation. */
  lemma {:induction false} DigitsOnlyConcat(a: string, b: string)
    ensures DigitsOnly(a + b) == DigitsOnly(a) + DigitsOnly(b)
  {
    if a != [] {
      assert (a + b)[1..] == a[1..] + b;
      DigitsOnlyConcat(a[1..], b);
    } else {
      assert a + b == b;
    }
  }

  /** Punctuation does not matter: a CPF is judged on its digits alone, so
      inserting a non-digit anywhere leaves the verdict unchanged. */
  lemma CpfIgnoresNonDigits(a: string, c: char, b: string)
    requires !IsDigit(c)
    ensures ValidarCpf(a + [c] + b) == ValidarCpf(a + b)
    ensures ValidarCpf(DigitsOnly(a + b)) == ValidarCpf(a + b)
  {
    DigitsOnlyConcat(a + [c], b);
    DigitsOnlyConcat(a, [c]);
    DigitsOnlyConcat(a, b);
    assert DigitsOnly([c]) == [];
    assert DigitsOnly(a) + [] == DigitsOnly(a);
    DigitsOnlyIdempotent(a + b);
  }

  /** Digit `v` completes the weighted sum `sum` in the mod-11 scheme: it makes
      `sum + v` a multiple of 11, or is 0 when the remainder is 0 or 1. */
  predicate Completes(sum: int, v: int) {
    (sum % 11 < 2 ==> v == 0) && (sum % 11 >= 2 ==> (sum + v) % 11 == 0)
  }

  /** For a decimal digit, completing the sum is being its check digit. */
  lemma CompletesIsCheckDigit(sum: int, v: int)
    requires 0 <= v <= 9
    ensures Completes(sum, v) <==> CheckDigit(sum) == v
  {
    var r := sum % 11;
    var k := sum / 11;
    assert sum == 11 * k + r;
    if r >= 2 {
      assert sum + v == 11 * k + (r + v);
      assert 2 <= r + v <= 19;
      if (sum + v) % 11 == 0 {
        assert (r + v) % 11 == 0;
        assert r + v == 11;
      } else {
        assert r + v != 11;
      }
      if v == 11 - r {
        assert sum + v == 11 * (k + 1);
      }
    }
  }

  /** A verdict of valid means exactly eleven digits, not all the same, each
      of the last two completing the weighted sum of those before it (weights
      10..2, then 11..2) to a multiple of 11, or being 0 for a remainder below 2. */
  lemma CpfAccepts(cpf: string)
    ensures ValidarCpf(cpf) <==>
      var d := DigitsOnly(cpf);
      && |d| == 11 && !Repeated(d)
      && Completes(WeightedSum(d, 9, 10), DigitValue(d[9]))
      && Completes(WeightedSum(d, 10, 11), DigitValue(d[10]))
  {
    var d := DigitsOnly(cpf);
    if |d| == 11 {
      CompletesIsCheckDigit(WeightedSum(d, 9, 10), DigitValue(d[9]));
      CompletesIsCheckDigit(WeightedSum(d, 10, 11), DigitValue(d[10]));
    }
  }

  /** A string of digits is its own digit filter. */
  lemma {:induction false} DigitsOnlyOfDigits(s: string)
    requires forall i :: 0 <= i < |s| ==> IsDigit(s[i])
    ensures DigitsOnly(s) == s
  {
    if s != [] {
      DigitsOnlyOfDigits(s[1..]);
    }
  }

  /** "11111111111" has matching check digits and is still rejected: the
      repeated-digit guard is what refuses it. */
  lemma RepeatedDigitsRefused()
    ensures CheckDigitsMatch("11111111111")
    ensures !ValidarCpf("11111111111")
  {
    var d := "11111111111";
    assert Repeated(d);
    DigitsOnlyOfDigits(d);
    var s9 := WeightedSum(d, 9, 10);
    assert WeightedSum(d, 3, 10) == 27;
    assert WeightedSum(d, 6, 10) == 45;
    assert s9 == 54;
    assert WeightedSum(d, 4, 11) == 38;
    assert WeightedSum(d, 7, 11) == 56;
    assert WeightedSum(d, 10, 11) == 65;
  }

  /** A well-formed example is accepted. */
  lemma CpfOfDigits(d: string)
    requires forall i :: 0 <= i < |d| ==> IsDigit(d[i])
    requires |d| == 11 && !Repeated(d) && CheckDigitsMatch(d)
    ensures ValidarCpf(d)
  {
    DigitsOnlyOfDigits(d);
  }

  lemma ExampleCpfAccepted()
    ensures ValidarCpf("52998224725")
  {
    var d := "52998224725";
    assert forall i :: 0 <= i < |d| ==> IsDigit(d[i]);
    assert !Repeated(d) by { assert d[1] != d[0]; }
    ExampleFirstSum();
    ExampleSecondSum();
    assert CheckDigitsMatch(d);
    CpfOfDigits(d);
  }

  /** The first weighted sum of the example, digit by digit. */
  lemma ExampleFirstSum()
    ensures WeightedSum("52998224725", 9, 10) == 295
  {
    var d := "52998224725";
    assert WeightedSum(d, 1, 10) == 50;
    assert WeightedSum(d, 2, 10) == 68;
    assert WeightedSum(d, 3, 10) == 140;
    assert WeightedSum(d, 4, 10) == 203;
    assert WeightedSum(d, 5, 10) == 251;
    assert WeightedSum(d, 6, 10) == 261;
    assert WeightedSum(d, 7, 10) == 269;
    assert WeightedSum(d, 8, 10) == 281;
    assert WeightedSum(d, 9, 10) == 295;
  }

  /** The second weighted sum of the example, digit by digit. */
  lemma ExampleSecondSum()
    ensures WeightedSum("52998224725", 10, 11) == 347
  {
    var d := "52998224725";
    assert WeightedSum(d, 1, 11) == 55;
    assert WeightedSum(d, 2, 11) == 75;
    assert WeightedSum(d, 3, 11) == 156;
    assert WeightedSum(d, 4, 11) == 228;
    assert WeightedSum(d, 5, 11) == 284;
    assert WeightedSum(d, 6, 11) == 296;
    assert WeightedSum(d, 7, 11) == 306;
    assert WeightedSum(d, 8, 11) == 322;
    assert WeightedSum(d, 9, 11) == 343;
    assert WeightedSum(d, 10, 11) == 347;
  }

  // ---------------------------------------------------------------------------
  // porcentagem_cor

  /** The colour bands of a match percentage. */
  datatype Band = Baixa | Media | Alta {
    function Rank(): nat {
      match this
      case Baixa => 0
      case Media => 1
      case Alta => 2
    }
  }

  /** `porcentagem_cor`. */
  function PorcentagemCor(pct: real): (b: Band)
    ensures b == Alta <==> pct >= 75.0
    ensures b == Media <==> 40.0 <= pct < 75.0
    ensures b == Baixa <==> pct < 40.0
  {
    if pct >= 75.0 then Alta else if pct >= 40.0 then Media else Baixa
  }

  /** A higher percentage never gets a lower band. */
  lemma PorcentagemCorMonotone(x: real, y: real)
    requires x <= y
    ensures PorcentagemCor(x).Rank() <= PorcentagemCor(y).Rank()
  {
  }

  // ---------------------------------------------------------------------------
  // calcular_idade

  /** A calendar date, as `datetime` gives its year, month and day. */
  datatype Date = Date(year: int, month: int, day: int)

  /** `(a.month, a.day) < (b.month, b.day)`. */
  predicate MonthDayBefore(a: Date, b: Date) {
    a.month < b.month || (a.month == b.month && a.day < b.day)
  }

  /** Lexicographic order on dates. */
  predicate DateLe(a: Date, b: Date) {
    a.year < b.year || (a.year == b.year && !MonthDayBefore(b, a))
  }

  /** `calcular_idade`; `nascimento` is `None` when `strptime` refuses the text,
      and `hoje` is the current date. */
  function CalcularIdade(nascimento: Option<Date>, hoje: Date): int {
    match nascimento
    case None => 0
    case Some(n) =>
      var idade := hoje.year - n.year;
      if MonthDayBefore(hoje, n) then idade - 1 else idade
  }

  /** The age is the number of whole years: the `idade`-th birthday is on or
      before today and the next one is after it. */
  lemma IdadeIsWholeYears(n: Date, hoje: Date)
    ensures var idade := CalcularIdade(Some(n), hoje);
      && DateLe(Date(n.year + idade, n.month, n.day), hoje)
      && !DateLe(Date(n.year + idade + 1, n.month, n.day), hoje)
  {
  }

  /** Someone born on or before today has a non-negative age. */
  lemma IdadeNonNegative(n: Date, hoje: Date)
    requires DateLe(n, hoje)
    ensures CalcularIdade(Some(n), hoje) >= 0
  {
  }
}
