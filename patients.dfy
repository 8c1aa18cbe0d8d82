/**
 * The patient-registry logic that database.py and paciente.py share: the
 * `str(...)` of a field value, the filter search over active patients, the
 * duplicate-CPF scan, the `hasattr`/`setattr` update loop, Python
 * truthiness and `sum(1 for ... if ...)` counts.
 */
module Patients {
  import opened Wrappers
  import opened Text
  import opened Models

  // ---------------------------------------------------------------------------
  // str() of a field value

  function Quoted(s: string): string {
    "'" + s + "'"
  }

  /** The inside of `str(list_of_strings)`: `'a', 'b'`. */
  function RenderItems(xs: seq<string>): string {
    if xs == [] then ""
    else if |xs| == 1 then Quoted(xs[0])
    else Quoted(xs[0]) + ", " + RenderItems(xs[1..])
  }

  /** The inside of `str(dict_of_strings)`: `'k': 'v', 'k2': 'v2'`. */
  function RenderPairs(ps: seq<(string, string)>): string {
    if ps == [] then ""
    else if |ps| == 1 then Quoted(ps[0].0) + ": " + Quoted(ps[0].1)
    else Quoted(ps[0].0) + ": " + Quoted(ps[0].1) + ", " + RenderPairs(ps[1..])
  }

  /** Python's `str(v)` for the values a patient field holds. */
  function Render(v: Value): string {
    match v
    case Str(s) => s
    case StrList(xs) => "[" + RenderItems(xs) + "]"
    case StrPairs(ps) => "{" + RenderPairs(ps) + "}"
    case Bool(b) => if b then "True" else "False"
    case Null => "None"
  }

  /** Python's `bool(v)`: empty strings, lists and dicts, `False` and `None` are false. */
  predicate Truthy(v: Value) {
    match v
    case Str(s) => s != ""
    case StrList(xs) => xs != []
    case StrPairs(ps) => ps != []
    case Bool(b) => b
    case Null => false
  }

  // ---------------------------------------------------------------------------
  // Search

  /** One filter `campo=valor`: a name that is no attribute of the patient is
      ignored; otherwise `valor.lower()` must occur in `str(attr).lower()`. */
  predicate FieldMatches(p: Paciente, campo: string, valor: string) {
    match FieldOf(campo)
    case None => true
    case Some(f) => ValueMatches(Get(p, f), valor)
  }

  /** `valor.lower() in str(attr).lower()`. */
  predicate ValueMatches(attr: Value, valor: string) {
    Contains(Lower(Render(attr)), Lower(valor))
  }

  predicate MatchesAll(p: Paciente, filtros: seq<(string, string)>) {
    forall i :: 0 <= i < |filtros| ==> FieldMatches(p, filtros[i].0, filtros[i].1)
  }

  /** The inner loop of the search, with its `match` flag and early `break`. */
  method Matches(p: Paciente, filtros: seq<(string, string)>) returns (m: bool)
    ensures m <==> forall i :: 0 <= i < |filtros| ==> FieldMatches(p, filtros[i].0, filtros[i].1)
  {
    m := true;
    var i := 0;
    while i < |filtros|
      invariant 0 <= i <= |filtros|
      invariant forall j :: 0 <= j < i ==> FieldMatches(p, filtros[j].0, filtros[j].1)
    {
      if !FieldMatches(p, filtros[i].0, filtros[i].1) {
        m := false;
        break;
      }
      i := i + 1;
    }
  }

  /** The active patients, in the order given, that satisfy every filter. */
  function Search(ps: seq<Paciente>, filtros: seq<(string, string)>): seq<Paciente> {
    if ps == [] then []
    else
      var rest := Search(ps[..|ps| - 1], filtros);
      var p := ps[|ps| - 1];
      if p.ativo && MatchesAll(p, filtros) then rest + [p] else rest
  }

  /** The outer loop: skip inactive patients, keep the ones that match. */
  method SearchActive(ps: seq<Paciente>, filtros: seq<(string, string)>) returns (resultados: seq<Paciente>)
    ensures resultados == Search(ps, filtros)
  {
    resultados := [];
    var i := 0;
    while i < |ps|
      invariant 0 <= i <= |ps|
      invariant resultados == Search(ps[..i], filtros)
    {
      var p := ps[i];
      assert ps[..i + 1][..i] == ps[..i];
      if p.ativo {
        var m := Matches(p, filtros);
        if m {
          resultados := resultados + [p];
        }
      }
      i := i + 1;
    }
    assert ps[..|ps|] == ps;
  }

  /** The search finds exactly the active patients that satisfy every filter,
      each at most as often as it is listed. */
  lemma {:induction false} SearchSpec(ps: seq<Paciente>, filtros: seq<(string, string)>)
    ensures forall p :: p in Search(ps, filtros) <==> p in ps && p.ativo && MatchesAll(p, filtros)
    ensures |Search(ps, filtros)| <= |ps|
  {
    if ps != [] {
      var front := ps[..|ps| - 1];
      SearchSpec(front, filtros);
      assert ps == front + [ps[|ps| - 1]];
    }
  }

  /** The search keeps order: searching a concatenation concatenates the results. */
  lemma {:induction false} SearchConcat(a: seq<Paciente>, b: seq<Paciente>, filtros: seq<(string, string)>)
    ensures Search(a + b, filtros) == Search(a, filtros) + Search(b, filtros)
    decreases |b|
  {
    if b == [] {
      assert a + b == a;
    } else {
      var n := |b| - 1;
      assert (a + b)[..|a + b| - 1] == a + b[..n];
      SearchConcat(a, b[..n], filtros);
    }
  }

  /** A filter on a name that is no patient field changes nothing. */
  lemma {:induction false} UnknownFilterIgnored(ps: seq<Paciente>, filtros: seq<(string, string)>, campo: string, valor: string)
    requires FieldOf(campo).None?
    ensures Search(ps, filtros + [(campo, valor)]) == Search(ps, filtros)
  {
    if ps != [] {
      UnknownFilterIgnored(ps[..|ps| - 1], filtros, campo, valor);
      var p := ps[|ps| - 1];
      var more := filtros + [(campo, valor)];
      assert MatchesAll(p, more) <==> MatchesAll(p, filtros) by {
        assert forall i :: 0 <= i < |filtros| ==> more[i] == filtros[i];
        assert more[|filtros|] == (campo, valor);
      }
    }
  }

  /** The filter value's capitalisation does not matter. */
  lemma FilterIgnoresCase(p: Paciente, campo: string, valor: string)
    ensures FieldMatches(p, campo, valor) <==> FieldMatches(p, campo, Lower(valor))
  {
    LowerIdempotent(valor);
  }

  // ---------------------------------------------------------------------------
  // Duplicate CPF

  /** Some listed patient is active and has CPF `cpf`. */
  predicate ActiveWithCpf(ps: seq<Paciente>, cpf: Value) {
    exists i :: 0 <= i < |ps| && ps[i].ativo && Str(ps[i].cpf) == cpf
  }

  /** The scan that raises on the first active patient with the same CPF. */
  method FindActiveCpf(ps: seq<Paciente>, cpf: Value) returns (found: bool)
    ensures found <==> ActiveWithCpf(ps, cpf)
  {
    found := false;
    var i := 0;
    while i < |ps|
      invariant 0 <= i <= |ps|
      invariant forall j :: 0 <= j < i ==> !(ps[j].ativo && Str(ps[j].cpf) == cpf)
    {
      if Str(ps[i].cpf) == cpf && ps[i].ativo {
        found := true;
        return;
      }
      i := i + 1;
    }
  }

  // ---------------------------------------------------------------------------
  // Updates

  /** `if hasattr(p, campo): setattr(p, campo, v)`, with `hasattr` read as
      "names a field"; a value of another kind than the field holds is skipped. */
  function UpdateOne(p: Paciente, campo: string, v: Value): Paciente {
    match FieldOf(campo)
    case None => p
    case Some(f) => Set(p, f, v).GetOr(p)
  }

  /** The updates applied in order. */
  function Updated(p: Paciente, ups: seq<(string, Value)>): Paciente {
    if ups == [] then p
    else
      var (campo, v) := ups[|ups| - 1];
      UpdateOne(Updated(p, ups[..|ups| - 1]), campo, v)
  }

  /** The `for campo, valor in atualizacoes.items()` loop. */
  method ApplyUpdates(p: Paciente, ups: seq<(string, Value)>) returns (q: Paciente)
    ensures q == Updated(p, ups)
  {
    q := p;
    var i := 0;
    while i < |ups|
      invariant 0 <= i <= |ups|
      invariant q == Updated(p, ups[..i])
    {
      var (campo, valor) := ups[i];
      assert ups[..i + 1][..i] == ups[..i];
      var f := FieldOf(campo);
      if f.Some? {
        var r := Set(q, f.value, valor);
        if r.Some? {
          q := r.value;
        }
      }
      i := i + 1;
    }
    assert ups[..|ups|] == ups;
  }

  /** One update sets the field it names (when the value fits) and no other. */
  lemma UpdateOneSpec(q: Paciente, campo: string, v: Value, f: Field)
    ensures Name(f) == campo ==> Get(UpdateOne(q, campo, v), f) == if Fits(f, v) then v else Get(q, f)
    ensures Name(f) != campo ==> Get(UpdateOne(q, campo, v), f) == Get(q, f)
  {
    FieldOfName(f);
    match FieldOf(campo)
    case None =>
    case Some(g) =>
      SetSpec(q, g, v);
      if Name(f) == campo { NameInjective(f, g); }
  }

  /** With distinct names, a field named by an update holds that update's value
      (when of the field's kind), and every field no update names keeps its value. */
  lemma UpdatedSpec(p: Paciente, ups: seq<(string, Value)>)
    requires DistinctNames(ups)
    ensures forall i, f :: 0 <= i < |ups| && ups[i].0 == Name(f) ==>
      Get(Updated(p, ups), f) == if Fits(f, ups[i].1) then ups[i].1 else Get(p, f)
    ensures forall f :: (forall i :: 0 <= i < |ups| ==> ups[i].0 != Name(f)) ==>
      Get(Updated(p, ups), f) == Get(p, f)
  {
    forall i, f | 0 <= i < |ups| && ups[i].0 == Name(f)
      ensures Get(Updated(p, ups), f) == if Fits(f, ups[i].1) then ups[i].1 else Get(p, f)
    {
      var fits := v => Fits(f, v);
      UpdatedIsFinal(p, ups, f, fits);
      FinalValueSpec(ups, Name(f), fits, Get(p, f));
    }
    forall f | forall i :: 0 <= i < |ups| ==> ups[i].0 != Name(f)
      ensures Get(Updated(p, ups), f) == Get(p, f)
    {
      var fits := v => Fits(f, v);
      UpdatedIsFinal(p, ups, f, fits);
      FinalValueSpec(ups, Name(f), fits, Get(p, f));
    }
  }

  /** The value an attribute named `nm` ends with when it starts as `c`: that
      of the last update naming it with a value it `fits`, or `c` when there
      is none. */
  function FinalValue(ups: seq<(string, Value)>, nm: string, fits: Value -> bool, c: Value): Value {
    if ups == [] then c
    else
      var (campo, v) := ups[|ups| - 1];
      if nm == campo && fits(v) then v else FinalValue(ups[..|ups| - 1], nm, fits, c)
  }

  /** Applying the updates leaves each field at its final value. */
  lemma {:induction false} UpdatedIsFinal(p: Paciente, ups: seq<(string, Value)>, f: Field, fits: Value -> bool)
    requires forall v :: fits(v) == Fits(f, v)
    ensures Get(Updated(p, ups), f) == FinalValue(ups, Name(f), fits, Get(p, f))
  {
    if ups != [] {
      UpdatedIsFinal(p, ups[..|ups| - 1], f, fits);
      UpdatedStep(p, ups, f);
    }
  }

  /** With distinct names, the final value of a named attribute is its
      update's value (when it fits), and that of an unnamed one is where it began. */
  lemma {:induction false} FinalValueSpec(ups: seq<(string, Value)>, nm: string, fits: Value -> bool, c: Value)
    requires DistinctNames(ups)
    ensures forall i :: 0 <= i < |ups| && ups[i].0 == nm ==>
      FinalValue(ups, nm, fits, c) == if fits(ups[i].1) then ups[i].1 else c
    ensures (forall i :: 0 <= i < |ups| ==> ups[i].0 != nm) ==> FinalValue(ups, nm, fits, c) == c
  {
    if ups != [] {
      var n := |ups| - 1;
      DistinctFront(ups);
      FinalValueSpec(ups[..n], nm, fits, c);
      if nm == ups[n].0 {
        assert forall i :: 0 <= i < |ups| && ups[i].0 == nm ==> i == n;
      } else {
        assert forall i :: 0 <= i < |ups| && ups[i].0 == nm ==> i < n;
      }
    }
  }

  /** The last update decides field `f` when it names it; otherwise the
      earlier updates do. */
  lemma UpdatedStep(p: Paciente, ups: seq<(string, Value)>, f: Field)
    requires ups != []
    ensures var (campo, v) := ups[|ups| - 1];
      Get(Updated(p, ups), f) ==
        if Name(f) == campo && Fits(f, v) then v else Get(Updated(p, ups[..|ups| - 1]), f)
  {
    var (campo, v) := ups[|ups| - 1];
    UpdateOneSpec(Updated(p, ups[..|ups| - 1]), campo, v, f);
  }

  /** Dropping the last update keeps the names distinct, and no earlier update
      shares the last one's name. */
  lemma DistinctFront(ups: seq<(string, Value)>)
    requires DistinctNames(ups) && ups != []
    ensures DistinctNames(ups[..|ups| - 1])
    ensures forall i :: 0 <= i < |ups| - 1 ==> ups[..|ups| - 1][i] == ups[i] && ups[i].0 != ups[|ups| - 1].0
  {
    var front := ups[..|ups| - 1];
    forall i, j | 0 <= i < j < |front| ensures front[i].0 != front[j].0 {
      assert front[i] == ups[i] && front[j] == ups[j];
    }
  }

  // ---------------------------------------------------------------------------
  // Counting

  /** `sum(1 for x in s if P(x))`. */
  function Count<T>(s: seq<T>, P: T -> bool): (n: nat)
    ensures n <= |s|
  {
    if s == [] then 0
    else Count(s[..|s| - 1], P) + (if P(s[|s| - 1]) then 1 else 0)
  }

  /** A weaker condition counts at least as many. */
  lemma {:induction false} CountMono<T>(s: seq<T>, P: T -> bool, Q: T -> bool)
    requires forall x :: P(x) ==> Q(x)
    ensures Count(s, P) <= Count(s, Q)
  {
    if s != [] { CountMono(s[..|s| - 1], P, Q); }
  }

  /** Two conditions no element meets together count at most the list. */
  lemma {:induction false} CountDisjoint<T>(s: seq<T>, P: T -> bool, Q: T -> bool)
    requires forall x :: !(P(x) && Q(x))
    ensures Count(s, P) + Count(s, Q) <= |s|
  {
    if s != [] { CountDisjoint(s[..|s| - 1], P, Q); }
  }

  /** Conditions that agree on every element count the same. */
  lemma {:induction false} CountAgree<T>(s: seq<T>, P: T -> bool, Q: T -> bool)
    requires forall i :: 0 <= i < |s| ==> P(s[i]) == Q(s[i])
    ensures Count(s, P) == Count(s, Q)
  {
    if s != [] { CountAgree(s[..|s| - 1], P, Q); }
  }

  predicate IsActive(p: Paciente) {
    p.ativo
  }
}
