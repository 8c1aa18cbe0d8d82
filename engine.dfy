/**
 * engine.py: weighted symptom matching (`ResultadoDiagnostico._calcular`,
 * `to_dict`), the condition gate (`_verificar_condicoes`), and the ranking
 * engine with its unbounded result cache (`DiagnosticoEngine`).
 */
module Engine {
  import opened Wrappers
  import opened Text
  import opened Models
  import Dicts
  import opened Rounding

  // ---------------------------------------------------------------------------
  // Scoring one disease

  /** The name of a catalogue symptom: the `s` key of a record, or `str` of a bare value. */
  function EntryName(e: SymptomEntry): string {
    match e
    case Record(s, _, _) => s
    case Bare(t) => t
  }

  /** The weight of a catalogue symptom: `peso`, defaulting to 1.0. */
  function EntryWeight(e: SymptomEntry): real {
    match e
    case Record(_, peso, _) => peso.GetOr(1.0)
    case Bare(_) => 1.0
  }

  /** The entries' names in catalogue order, duplicates included. */
  function Names(es: seq<SymptomEntry>): (r: seq<string>)
    ensures |r| == |es|
    ensures forall i :: 0 <= i < |es| ==> r[i] == EntryName(es[i])
  {
    if es == [] then [] else Names(es[..|es| - 1]) + [EntryName(es[|es| - 1])]
  }

  /** The `sintomas_doenca` dict the first loop of `_calcular` builds: name to
      weight, a repeated name keeping its first position and its last weight. */
  function WeightTable(es: seq<SymptomEntry>): (t: Dicts.Dict<real>)
    ensures Dicts.Valid(t)
  {
    if es == [] then Dicts.Empty()
    else
      var last := es[|es| - 1];
      Dicts.Set(WeightTable(es[..|es| - 1]), EntryName(last), EntryWeight(last))
  }

  /** `pontuacao_maxima`: every entry's weight, each time it is listed. */
  function MaxScore(es: seq<SymptomEntry>): real {
    if es == [] then 0.0 else MaxScore(es[..|es| - 1]) + EntryWeight(es[|es| - 1])
  }

  /** The keys found in the query, in iteration order. */
  function Matched(keys: seq<string>, q: seq<string>): (r: seq<string>)
    ensures |r| <= |keys|
  {
    if keys == [] then []
    else
      var k := keys[|keys| - 1];
      Matched(keys[..|keys| - 1], q) + (if k in q then [k] else [])
  }

  /** The keys absent from the query, in iteration order. */
  function Missing(keys: seq<string>, q: seq<string>): (r: seq<string>)
    ensures |r| <= |keys|
  {
    if keys == [] then []
    else
      var k := keys[|keys| - 1];
      Missing(keys[..|keys| - 1], q) + (if k in q then [] else [k])
  }

  /** The weights of `keys` added up (a key without a weight adds nothing). */
  function SumOf(keys: seq<string>, w: map<string, real>): real {
    if keys == [] then 0.0
    else
      var k := keys[|keys| - 1];
      SumOf(keys[..|keys| - 1], w) + (if k in w then w[k] else 0.0)
  }

  /** Matched keys are the keys in the query, missing ones the others. */
  lemma {:induction false} SplitMembers(keys: seq<string>, q: seq<string>)
    ensures forall k :: k in Matched(keys, q) <==> k in keys && k in q
    ensures forall k :: k in Missing(keys, q) <==> k in keys && k !in q
  {
    if keys != [] {
      SplitMembers(keys[..|keys| - 1], q);
      assert keys == keys[..|keys| - 1] + [keys[|keys| - 1]];
    }
  }

  /** The percentage: 0 while the maximum is 0, else `round(raw / max * 100, 1)`. */
  function Percent(raw: real, max: real): real {
    if max > 0.0 then Round1(raw / max * 100.0) else 0.0
  }

  /** What `_calcular` leaves in a `ResultadoDiagnostico`. */
  datatype Score = Score(raw: real, max: real, pct: real, matched: seq<string>, missing: seq<string>)

  /** The score of disease `d` against query `q`. */
  function ScoreOf(d: Doenca, q: seq<string>): Score {
    var t := WeightTable(d.sintomas);
    var m := Matched(t.keys, q);
    var raw := SumOf(m, t.items);
    var mx := MaxScore(d.sintomas);
    Score(raw, mx, Percent(raw, mx), m, Missing(t.keys, q))
  }

  /** The first loop of `_calcular`: the name-to-weight dict and the maximum score. */
  method TabulateWeights(es: seq<SymptomEntry>) returns (table: Dicts.Dict<real>, maxScore: real)
    ensures table == WeightTable(es)
    ensures maxScore == MaxScore(es)
  {
    table := Dicts.Empty<real>();
    maxScore := 0.0;
    var i := 0;
    while i < |es|
      invariant 0 <= i <= |es|
      invariant table == WeightTable(es[..i])
      invariant maxScore == MaxScore(es[..i])
    {
      var e := es[i];
      assert es[..i + 1][..i] == es[..i];
      table := Dicts.Set(table, EntryName(e), EntryWeight(e));
      maxScore := maxScore + EntryWeight(e);
      i := i + 1;
    }
    assert es[..i] == es;
  }

  /** The second loop of `_calcular`: walk the dict in order, adding the
      weight of each name found in the query to the raw score. */
  method SplitByQuery(table: Dicts.Dict<real>, q: seq<string>)
      returns (raw: real, matched: seq<string>, missing: seq<string>)
    requires Dicts.Valid(table)
    ensures matched == Matched(table.keys, q)
    ensures missing == Missing(table.keys, q)
    ensures raw == SumOf(matched, table.items)
  {
    raw := 0.0;
    matched := [];
    missing := [];
    var j := 0;
    while j < |table.keys|
      invariant 0 <= j <= |table.keys|
      invariant matched == Matched(table.keys[..j], q)
      invariant missing == Missing(table.keys[..j], q)
      invariant raw == SumOf(matched, table.items)
    {
      var k := table.keys[j];
      SplitStep(table.keys, j, q, table.items);
      if k in q {
        raw := raw + table.items[k];
        matched := matched + [k];
      } else {
        missing := missing + [k];
      }
      j := j + 1;
    }
    assert table.keys[..j] == table.keys;
  }

  /** One more key extends the matched or the missing names, and the raw score
      by its weight when matched. */
  lemma SplitStep(keys: seq<string>, j: nat, q: seq<string>, w: map<string, real>)
    requires j < |keys|
    ensures Matched(keys[..j + 1], q) == Matched(keys[..j], q) + (if keys[j] in q then [keys[j]] else [])
    ensures Missing(keys[..j + 1], q) == Missing(keys[..j], q) + (if keys[j] in q then [] else [keys[j]])
    ensures SumOf(Matched(keys[..j + 1], q), w) ==
      SumOf(Matched(keys[..j], q), w) + (if keys[j] in q && keys[j] in w then w[keys[j]] else 0.0)
  {
    assert keys[..j + 1][..j] == keys[..j];
    var m := Matched(keys[..j], q);
    if keys[j] in q {
      assert (m + [keys[j]])[..|m|] == m;
      assert SumOf(m + [keys[j]], w) == SumOf(m, w) + (if keys[j] in w then w[keys[j]] else 0.0);
      assert Matched(keys[..j + 1], q) == m + [keys[j]];
    } else {
      assert Matched(keys[..j + 1], q) == m;
    }
  }

  /** `ResultadoDiagnostico._calcular`: both loops, then the percentage, left
      at 0 while the maximum is 0. */
  method Calcular(d: Doenca, q: seq<string>) returns (r: Score)
    ensures r == ScoreOf(d, q)
  {
    var table, maxScore := TabulateWeights(d.sintomas);
    var raw, matched, missing := SplitByQuery(table, q);
    ScoreOfParts(d, q, table, maxScore, matched, missing, raw);
    r := Score(raw, maxScore, Percent(raw, maxScore), matched, missing);
  }

  /** `ScoreOf` assembled from the results of the two loops. */
  lemma ScoreOfParts(d: Doenca, q: seq<string>, table: Dicts.Dict<real>, mx: real,
                     matched: seq<string>, missing: seq<string>, raw: real)
    requires table == WeightTable(d.sintomas) && mx == MaxScore(d.sintomas)
    requires matched == Matched(table.keys, q) && missing == Missing(table.keys, q)
    requires raw == SumOf(matched, table.items)
    ensures ScoreOf(d, q) == Score(raw, mx, Percent(raw, mx), matched, missing)
  {
  }

  // ---------------------------------------------------------------------------
  // Facts about the score

  predicate NonNegativeWeights(es: seq<SymptomEntry>) {
    forall i :: 0 <= i < |es| ==> EntryWeight(es[i]) >= 0.0
  }

  predicate DistinctNames(es: seq<SymptomEntry>) {
    forall i, j :: 0 <= i < j < |es| ==> EntryName(es[i]) != EntryName(es[j])
  }

  /** The dict holds exactly the entries' names, each with the weight of its
      last entry (so a non-negative one when all weights are). */
  lemma {:induction false} TableKeys(es: seq<SymptomEntry>)
    ensures forall k :: k in WeightTable(es).keys <==> k in Names(es)
    ensures NonNegativeWeights(es) ==> forall k :: k in WeightTable(es).items ==> WeightTable(es).items[k] >= 0.0
  {
    if es != [] {
      var init := es[..|es| - 1];
      TableKeys(init);
      assert NonNegativeWeights(es) ==> NonNegativeWeights(init);
      assert Names(es) == Names(init) + [EntryName(es[|es| - 1])];
    }
  }

  /** With distinct names the dict lists them once each, in catalogue order. */
  lemma {:induction false} TableKeysDistinct(es: seq<SymptomEntry>)
    requires DistinctNames(es)
    ensures WeightTable(es).keys == Names(es)
  {
    if es != [] {
      var init := es[..|es| - 1];
      TableKeysDistinct(init);
      TableKeys(init);
      assert EntryName(es[|es| - 1]) !in Names(init);
    }
  }

  /** Weights of keys outside the list do not matter. */
  lemma {:induction false} SumFrame(keys: seq<string>, w1: map<string, real>, w2: map<string, real>)
    requires forall k :: k in keys ==> k in w1 && k in w2 && w1[k] == w2[k]
    ensures SumOf(keys, w1) == SumOf(keys, w2)
  {
    if keys != [] {
      SumFrame(keys[..|keys| - 1], w1, w2);
    }
  }

  /** Changing the weight of a key listed once shifts the sum by the difference. */
  lemma {:induction false} SumUpdate(keys: seq<string>, w: map<string, real>, k: string, v: real)
    requires forall x :: x in keys ==> x in w
    requires forall i, j :: 0 <= i < j < |keys| ==> keys[i] != keys[j]
    ensures SumOf(keys, w[k := v]) == SumOf(keys, w) + (if k in keys then v - w[k] else 0.0)
  {
    if keys != [] {
      var init := keys[..|keys| - 1];
      var last := keys[|keys| - 1];
      SumUpdate(init, w, k, v);
      if last == k {
        assert k !in init;
      }
    }
  }

  /** Sums of non-negative weights are non-negative. */
  lemma {:induction false} SumNonNegative(keys: seq<string>, w: map<string, real>)
    requires forall k :: k in w ==> w[k] >= 0.0
    ensures SumOf(keys, w) >= 0.0
  {
    if keys != [] {
      SumNonNegative(keys[..|keys| - 1], w);
    }
  }

  /** Adding one key to the end adds its weight. */
  lemma SumSnoc(keys: seq<string>, k: string, w: map<string, real>)
    ensures SumOf(keys + [k], w) == SumOf(keys, w) + (if k in w then w[k] else 0.0)
  {
    assert (keys + [k])[..|keys|] == keys;
  }

  /** The matched part of a sum of non-negative weights is no larger than the
      whole, and grows with the query. */
  lemma {:induction false} MatchedSumBound(keys: seq<string>, w: map<string, real>, q1: seq<string>, q2: seq<string>)
    requires forall k :: k in w ==> w[k] >= 0.0
    requires forall x :: x in q1 ==> x in q2
    ensures SumOf(Matched(keys, q1), w) <= SumOf(Matched(keys, q2), w)
    ensures SumOf(Matched(keys, q2), w) <= SumOf(keys, w)
  {
    if keys != [] {
      var init := keys[..|keys| - 1];
      var k := keys[|keys| - 1];
      MatchedSumBound(init, w, q1, q2);
      var m1 := Matched(init, q1);
      var m2 := Matched(init, q2);
      var wk := if k in w then w[k] else 0.0;
      assert wk >= 0.0;
      assert SumOf(keys, w) == SumOf(init, w) + wk;
      if k in q1 {
        SumSnoc(m1, k, w);
        SumSnoc(m2, k, w);
        assert Matched(keys, q1) == m1 + [k];
        assert Matched(keys, q2) == m2 + [k];
      } else if k in q2 {
        SumSnoc(m2, k, w);
        assert Matched(keys, q1) == m1;
        assert Matched(keys, q2) == m2 + [k];
      } else {
        assert Matched(keys, q1) == m1;
        assert Matched(keys, q2) == m2;
      }
    }
  }

  /** The dict's weights add up to no more than the maximum score, and to
      exactly the maximum when the names are distinct. */
  lemma {:induction false} TableSum(es: seq<SymptomEntry>)
    requires NonNegativeWeights(es)
    ensures SumOf(WeightTable(es).keys, WeightTable(es).items) <= MaxScore(es)
    ensures DistinctNames(es) ==> SumOf(WeightTable(es).keys, WeightTable(es).items) == MaxScore(es)
  {
    if es != [] {
      var init := es[..|es| - 1];
      var e := es[|es| - 1];
      var t0 := WeightTable(init);
      assert NonNegativeWeights(init);
      assert DistinctNames(es) ==> DistinctNames(init);
      TableSum(init);
      TableKeys(init);
      var n := EntryName(e);
      if n in t0.items {
        SumUpdate(t0.keys, t0.items, n, EntryWeight(e));
        assert DistinctNames(es) ==> n !in Names(init);
      } else {
        SumFrame(t0.keys, t0.items, t0.items[n := EntryWeight(e)]);
        assert (t0.keys + [n])[..|t0.keys|] == t0.keys;
      }
    }
  }

  /** The ratio of a part to a positive whole, as a percentage, lies in [0, 100]. */
  lemma RatioRange(raw: real, max: real)
    requires 0.0 <= raw <= max && max > 0.0
    ensures 0.0 <= raw / max * 100.0 <= 100.0
  {
    assert raw / max * max == raw;
  }

  /** Dividing by a positive whole keeps order. */
  lemma RatioMonotone(r1: real, r2: real, max: real)
    requires r1 <= r2 && max > 0.0
    ensures r1 / max * 100.0 <= r2 / max * 100.0
  {
    assert r2 / max - r1 / max == (r2 - r1) / max;
  }

  /** A larger part of the same whole never has a smaller percentage. */
  lemma PercentMonotone(r1: real, r2: real, max: real)
    requires r1 <= r2
    ensures Percent(r1, max) <= Percent(r2, max)
  {
    if max > 0.0 {
      RatioMonotone(r1, r2, max);
      Round1Monotone(r1 / max * 100.0, r2 / max * 100.0);
    }
  }

  /** The whole is 100% of itself. */
  lemma PercentWhole(max: real)
    requires max > 0.0
    ensures Percent(max, max) == 100.0
  {
    assert max / max == 1.0;
    assert Round1(100.0) == 100.0;
  }

  /** The percentage of a part of a positive whole lies in [0, 100]. */
  lemma PercentRange(raw: real, max: real)
    requires 0.0 <= raw <= max
    ensures 0.0 <= Percent(raw, max) <= 100.0
  {
    if max > 0.0 {
      RatioRange(raw, max);
      Round1Range(raw / max * 100.0);
    }
  }

  /** `pontuacao_maxima` adds every entry's weight; with non-negative weights
      0 <= raw <= max and the percentage lies in [0, 100], and it is 0 while
      the maximum is 0. */
  lemma ScoreBounds(d: Doenca, q: seq<string>)
    requires NonNegativeWeights(d.sintomas)
    ensures var s := ScoreOf(d, q);
      && 0.0 <= s.raw <= s.max
      && 0.0 <= s.pct <= 100.0
      && (s.max == 0.0 ==> s.pct == 0.0)
  {
    var t := WeightTable(d.sintomas);
    var s := ScoreOf(d, q);
    TableKeys(d.sintomas);
    TableSum(d.sintomas);
    MatchedSumBound(t.keys, t.items, q, q);
    SumNonNegative(s.matched, t.items);
    PercentRange(s.raw, s.max);
    ScoreOfParts(d, q, t, s.max, s.matched, s.missing, s.raw);
  }

  /** Matched and missing split the disease's names by the query: disjoint,
      together exactly the dict's keys, matched the names in the query; with
      distinct names the keys are the names in catalogue order. */
  lemma ScorePartition(d: Doenca, q: seq<string>)
    ensures var s := ScoreOf(d, q);
      && (forall k :: k in s.matched <==> k in Names(d.sintomas) && k in q)
      && (forall k :: k in s.missing <==> k in Names(d.sintomas) && k !in q)
      && multiset(s.matched) + multiset(s.missing) == multiset(WeightTable(d.sintomas).keys)
      && (DistinctNames(d.sintomas) ==> multiset(s.matched) + multiset(s.missing) == multiset(Names(d.sintomas)))
  {
    TableKeys(d.sintomas);
    SplitMembers(WeightTable(d.sintomas).keys, q);
    SplitMultiset(WeightTable(d.sintomas).keys, q);
    if DistinctNames(d.sintomas) {
      TableKeysDistinct(d.sintomas);
    }
  }

  lemma {:induction false} SplitMultiset(keys: seq<string>, q: seq<string>)
    ensures multiset(Matched(keys, q)) + multiset(Missing(keys, q)) == multiset(keys)
  {
    if keys != [] {
      var init := keys[..|keys| - 1];
      var k := keys[|keys| - 1];
      SplitMultiset(init, q);
      assert keys == init + [k];
      assert multiset(keys) == multiset(init) + multiset{k};
      if k in q {
        assert multiset(Matched(keys, q)) == multiset(Matched(init, q)) + multiset{k};
        assert Missing(keys, q) == Missing(init, q) + [];
      } else {
        assert multiset(Missing(keys, q)) == multiset(Missing(init, q)) + multiset{k};
        assert Matched(keys, q) == Matched(init, q) + [];
      }
    }
  }

  lemma {:induction false} MatchedAll(keys: seq<string>, q: seq<string>)
    requires forall k :: k in keys ==> k in q
    ensures Matched(keys, q) == keys
    ensures Missing(keys, q) == []
  {
    if keys != [] {
      MatchedAll(keys[..|keys| - 1], q);
      assert keys == keys[..|keys| - 1] + [keys[|keys| - 1]];
    }
  }

  /** A query naming every symptom of a disease with distinct names and a
      positive maximum scores 100, with nothing missing. */
  lemma FullMatch(d: Doenca, q: seq<string>)
    requires NonNegativeWeights(d.sintomas) && DistinctNames(d.sintomas)
    requires forall i :: 0 <= i < |d.sintomas| ==> EntryName(d.sintomas[i]) in q
    requires MaxScore(d.sintomas) > 0.0
    ensures ScoreOf(d, q).pct == 100.0
    ensures ScoreOf(d, q).missing == []
  {
    var t := WeightTable(d.sintomas);
    var mx := MaxScore(d.sintomas);
    TableKeys(d.sintomas);
    assert forall k :: k in t.keys ==> k in q by {
      forall k | k in t.keys ensures k in q {
        var i :| 0 <= i < |d.sintomas| && Names(d.sintomas)[i] == k;
      }
    }
    MatchedAll(t.keys, q);
    TableSum(d.sintomas);
    PercentWhole(mx);
    ScoreOfParts(d, q, t, mx, t.keys, [], mx);
  }

  /** Naming more symptoms never lowers the raw score or the percentage. */
  lemma QueryMonotone(d: Doenca, q1: seq<string>, q2: seq<string>)
    requires NonNegativeWeights(d.sintomas)
    requires forall x :: x in q1 ==> x in q2
    ensures ScoreOf(d, q1).raw <= ScoreOf(d, q2).raw
    ensures ScoreOf(d, q1).pct <= ScoreOf(d, q2).pct
  {
    var t := WeightTable(d.sintomas);
    var mx := MaxScore(d.sintomas);
    TableKeys(d.sintomas);
    MatchedSumBound(t.keys, t.items, q1, q2);
    var r1 := SumOf(Matched(t.keys, q1), t.items);
    var r2 := SumOf(Matched(t.keys, q2), t.items);
    PercentMonotone(r1, r2, mx);
    ScoreOfParts(d, q1, t, mx, Matched(t.keys, q1), Missing(t.keys, q1), r1);
    ScoreOfParts(d, q2, t, mx, Matched(t.keys, q2), Missing(t.keys, q2), r2);
  }

  /** A name listed twice counts twice in the maximum but once in the raw
      score: a query naming it meets only 50%. */
  lemma DuplicateEntryHalves()
    ensures var d := Doenca("Gripe", "físico", "fisica", "", "", "moderada",
                            [Bare("febre"), Bare("febre")], NoConditions);
      var s := ScoreOf(d, ["febre"]);
      s.max == 2.0 && s.raw == 1.0 && s.pct == 50.0 && s.matched == ["febre"] && s.missing == []
  {
    var es := [Bare("febre"), Bare("febre")];
    assert es[..1] == [Bare("febre")];
    assert [Bare("febre")][..0] == [];
    var t := WeightTable(es);
    assert t.keys == ["febre"];
    assert t.keys[..0] == [];
    assert Matched(t.keys, ["febre"]) == ["febre"];
    assert Round1(50.0) == 50.0;
  }

  /** Names are compared exactly: a capitalised query does not match. */
  lemma NamesCaseSensitive()
    ensures var d := Doenca("Gripe", "físico", "fisica", "", "", "moderada",
                            [Bare("febre")], NoConditions);
      ScoreOf(d, ["Febre"]).matched == [] && ScoreOf(d, ["Febre"]).pct == 0.0
  {
    var es := [Bare("febre")];
    assert es[..0] == [];
    assert WeightTable(es).keys == ["febre"];
    assert "febre" != "Febre" by { assert "febre"[0] != "Febre"[0]; }
    assert Round1(0.0) == 0.0;
  }

  // ---------------------------------------------------------------------------
  // The condition gate

  /** `[s for s in sintomas_doenca if s in sintomas]`: catalogue entries (with
      repetitions) named in the query. */
  function Comuns(names: seq<string>, q: seq<string>): (r: seq<string>)
    ensures |r| <= |names|
    ensures forall k :: k in r ==> k in q
    ensures (forall k :: k in names ==> k in q) ==> r == names
  {
    if names == [] then []
    else
      var k := names[|names| - 1];
      Comuns(names[..|names| - 1], q) + (if k in q then [k] else [])
  }

  /** `_verificar_condicoes`: every required symptom is in the query, and when
      `min_sintomas` is positive at least that many entries are. */
  function Eligible(d: Doenca, q: seq<string>): (b: bool)
    ensures b && d.condicoes.minSintomas.GetOr(0) > 0 ==> |d.sintomas| >= d.condicoes.minSintomas.GetOr(0)
    ensures && (forall o :: o in d.condicoes.obrigatorios.GetOr([]) ==> o in q)
            && (forall e :: e in d.sintomas ==> EntryName(e) in q)
            && d.condicoes.minSintomas.GetOr(0) <= |d.sintomas|
            ==> b
  {
    var obrigatorios := d.condicoes.obrigatorios.GetOr([]);
    var minSintomas := d.condicoes.minSintomas.GetOr(0);
    && (forall o :: o in obrigatorios ==> o in q)
    && (minSintomas > 0 ==> |Comuns(Names(d.sintomas), q)| >= minSintomas)
  }

  lemma {:induction false} ComunsMonotone(names: seq<string>, q1: seq<string>, q2: seq<string>)
    requires forall x :: x in q1 ==> x in q2
    ensures |Comuns(names, q1)| <= |Comuns(names, q2)|
  {
    if names != [] {
      ComunsMonotone(names[..|names| - 1], q1, q2);
    }
  }

  /** The gate only opens wider as the query grows. */
  lemma EligibleMonotone(d: Doenca, q1: seq<string>, q2: seq<string>)
    requires forall x :: x in q1 ==> x in q2
    requires Eligible(d, q1)
    ensures Eligible(d, q2)
  {
    ComunsMonotone(Names(d.sintomas), q1, q2);
  }

  // ---------------------------------------------------------------------------
  // Ranking

  /** `ResultadoDiagnostico.to_dict`. */
  function ToRecord(d: Doenca, s: Score): (r: ResultRecord)
    ensures r.doenca == d.nome && r.porcentagem == s.pct
    ensures r.correspondentes == s.matched && r.faltantes == s.missing
  {
    ResultRecord(d.nome, d.tipo, d.categoria, d.descricao, d.tratamento, d.severidade,
                 s.pct, s.matched, s.missing, Round2(s.raw), Round2(s.max))
  }

  /** The result of `d` for `q` when it passes both the gate and the threshold. */
  predicate Passes(d: Doenca, q: seq<string>, minPct: real) {
    Eligible(d, q) && ScoreOf(d, q).pct >= minPct
  }

  /** The list `avaliar` builds before sorting, in catalogue order. */
  function Retained(ds: seq<Doenca>, q: seq<string>, minPct: real): seq<ResultRecord> {
    if ds == [] then []
    else
      var d := ds[|ds| - 1];
      Retained(ds[..|ds| - 1], q, minPct) + (if Passes(d, q, minPct) then [ToRecord(d, ScoreOf(d, q))] else [])
  }

  predicate NonIncreasing(s: seq<ResultRecord>) {
    forall i, j :: 0 <= i < j < |s| ==> s[j].porcentagem <= s[i].porcentagem
  }

  /** The records with percentage `v`, in order. */
  function WithPct(s: seq<ResultRecord>, v: real): seq<ResultRecord> {
    if s == [] then []
    else (if s[0].porcentagem == v then [s[0]] else []) + WithPct(s[1..], v)
  }

  lemma {:induction false} WithPctConcat(a: seq<ResultRecord>, b: seq<ResultRecord>, v: real)
    ensures WithPct(a + b, v) == WithPct(a, v) + WithPct(b, v)
  {
    if a != [] {
      assert (a + b)[1..] == a[1..] + b;
      WithPctConcat(a[1..], b, v);
    } else {
      assert a + b == b;
    }
  }

  /** Insert `x` before the first record whose percentage does not exceed its own. */
  function InsertDesc(x: ResultRecord, s: seq<ResultRecord>): (r: seq<ResultRecord>)
    requires NonIncreasing(s)
    ensures multiset(r) == multiset(s) + multiset{x}
    ensures NonIncreasing(r)
    ensures r[0] == x || (s != [] && r[0] == s[0])
  {
    if s == [] || s[0].porcentagem <= x.porcentagem then
      ConsNonIncreasing(x, s);
      [x] + s
    else
      var rest := InsertDesc(x, s[1..]);
      ConsNonIncreasing(s[0], rest);
      assert multiset(s) == multiset{s[0]} + multiset(s[1..]) by {
        assert s == [s[0]] + s[1..];
      }
      [s[0]] + rest
  }

  /** A record no lower than the head of a non-increasing list can go in front. */
  lemma ConsNonIncreasing(x: ResultRecord, s: seq<ResultRecord>)
    requires NonIncreasing(s) && (s != [] ==> s[0].porcentagem <= x.porcentagem)
    ensures NonIncreasing([x] + s)
  {
    var r := [x] + s;
    forall i, j | 0 <= i < j < |r| ensures r[j].porcentagem <= r[i].porcentagem {
      if i == 0 && j > 1 {
        assert r[j] == s[j - 1] && s[j - 1].porcentagem <= s[0].porcentagem;
      }
    }
  }

  /** Inserting `x` puts it ahead of the records of equal percentage. */
  lemma {:induction false} InsertDescStable(x: ResultRecord, s: seq<ResultRecord>, v: real)
    requires NonIncreasing(s)
    ensures WithPct(InsertDesc(x, s), v) == if v == x.porcentagem then [x] + WithPct(s, v) else WithPct(s, v)
  {
    var r := InsertDesc(x, s);
    if s == [] || s[0].porcentagem <= x.porcentagem {
      assert r[1..] == s;
    } else {
      var rest := InsertDesc(x, s[1..]);
      assert r[1..] == rest;
      InsertDescStable(x, s[1..], v);
    }
  }

  /** `list.sort(key=porcentagem, reverse=True)`: a descending sort. */
  function SortDesc(s: seq<ResultRecord>): (r: seq<ResultRecord>)
    ensures multiset(r) == multiset(s)
    ensures NonIncreasing(r)
  {
    if s == [] then []
    else
      assert multiset(s) == multiset{s[0]} + multiset(s[1..]) by {
        assert s == [s[0]] + s[1..];
      }
      InsertDesc(s[0], SortDesc(s[1..]))
  }

  /** The sort is stable: records of equal percentage keep their relative order. */
  lemma {:induction false} SortDescStable(s: seq<ResultRecord>, v: real)
    ensures WithPct(SortDesc(s), v) == WithPct(s, v)
  {
    if s != [] {
      SortDescStable(s[1..], v);
      InsertDescStable(s[0], SortDesc(s[1..]), v);
      assert WithPct(s, v) == (if s[0].porcentagem == v then [s[0]] else []) + WithPct(s[1..], v);
    }
  }

  /** `s[:n]`. */
  function Take<T>(s: seq<T>, n: nat): (r: seq<T>)
    ensures r <= s
    ensures |r| == if |s| <= n then |s| else n
  {
    if n < |s| then s[..n] else s
  }

  /** The first `n` of a non-increasing list are its best: every record left
      out scores no higher than any record kept. */
  lemma TakeTop(s: seq<ResultRecord>, n: nat)
    requires NonIncreasing(s)
    ensures multiset(Take(s, n)) <= multiset(s)
    ensures forall x, y :: x in Take(s, n) && y in multiset(s) - multiset(Take(s, n)) ==>
      y.porcentagem <= x.porcentagem
  {
    var r := Take(s, n);
    var rest := s[|r|..];
    assert s == r + rest;
    DropMultiset(r, rest);
    forall x, y | x in r && y in multiset(s) - multiset(r) ensures y.porcentagem <= x.porcentagem {
      var i :| 0 <= i < |r| && r[i] == x;
      var j :| 0 <= j < |rest| && rest[j] == y;
      assert s[i] == x && s[|r| + j] == y;
    }
  }

  /** Removing the records of a prefix leaves those of the suffix. */
  lemma DropMultiset(r: seq<ResultRecord>, rest: seq<ResultRecord>)
    ensures multiset(r) <= multiset(r + rest)
    ensures forall y :: y in multiset(r + rest) - multiset(r) ==> y in rest
  {
    assert multiset(r + rest) == multiset(r) + multiset(rest);
  }

  /** What `avaliar` returns on a cache miss for a non-empty query. */
  function Ranked(ds: seq<Doenca>, q: seq<string>, minPct: real, limit: nat): seq<ResultRecord> {
    Take(SortDesc(Retained(ds, q, minPct)), limit)
  }

  /** One more disease scanned extends the list by its record when it passes. */
  lemma RetainedStep(ds: seq<Doenca>, i: nat, q: seq<string>, minPct: real)
    requires i < |ds|
    ensures Retained(ds[..i + 1], q, minPct) == Retained(ds[..i], q, minPct)
      + (if Passes(ds[i], q, minPct) then [ToRecord(ds[i], ScoreOf(ds[i], q))] else [])
  {
    assert ds[..i + 1][..i] == ds[..i];
  }

  /** Every record kept for the ranking is a disease of the catalogue that
      passes the gate, scored against the query at or above the threshold. */
  lemma {:induction false} RetainedFromCatalog(ds: seq<Doenca>, q: seq<string>, minPct: real)
    ensures forall r :: r in Retained(ds, q, minPct) ==>
      exists d :: d in ds && Passes(d, q, minPct) && r == ToRecord(d, ScoreOf(d, q))
  {
    if ds != [] {
      var init := ds[..|ds| - 1];
      RetainedFromCatalog(init, q, minPct);
      forall r | r in Retained(ds, q, minPct)
        ensures exists d :: d in ds && Passes(d, q, minPct) && r == ToRecord(d, ScoreOf(d, q))
      {
        if r in Retained(init, q, minPct) {
          var d :| d in init && Passes(d, q, minPct) && r == ToRecord(d, ScoreOf(d, q));
          assert d in ds;
        } else {
          assert ds[|ds| - 1] in ds;
        }
      }
    }
  }

  /** Every ranked record is one of the retained ones. */
  lemma RankedSubset(ds: seq<Doenca>, q: seq<string>, minPct: real, limit: nat)
    ensures forall x :: x in Ranked(ds, q, minPct, limit) ==> x in Retained(ds, q, minPct)
  {
    var sorted := SortDesc(Retained(ds, q, minPct));
    forall x | x in Ranked(ds, q, minPct, limit) ensures x in Retained(ds, q, minPct) {
      assert x in sorted;
      assert x in multiset(sorted);
    }
  }

  /** Records of equal percentage leave the ranking in catalogue order: those
      ranked are a prefix of those retained. */
  lemma RankedStable(ds: seq<Doenca>, q: seq<string>, minPct: real, limit: nat, v: real)
    ensures WithPct(Ranked(ds, q, minPct, limit), v) <= WithPct(Retained(ds, q, minPct), v)
  {
    var kept := Retained(ds, q, minPct);
    SortDescStable(kept, v);
    TakeWithPct(SortDesc(kept), limit, v);
  }

  /** Cutting a list short keeps a prefix of its records of each percentage. */
  lemma TakeWithPct(s: seq<ResultRecord>, n: nat, v: real)
    ensures WithPct(Take(s, n), v) <= WithPct(s, v)
  {
    var r := Take(s, n);
    assert s == r + s[|r|..];
    WithPctConcat(r, s[|r|..], v);
  }

  /** The ranking: every result at or above the threshold and from a disease
      that passed the gate, non-increasing in percentage, at most `limit`
      long, all of the kept results when they fit, and equal percentages in
      the order of the catalogue (a prefix of the kept ones). */
  lemma RankedSpec(ds: seq<Doenca>, q: seq<string>, minPct: real, limit: nat)
    ensures var r := Ranked(ds, q, minPct, limit);
      && NonIncreasing(r)
      && (forall x :: x in r ==> x.porcentagem >= minPct)
      && (forall x :: x in r ==> exists d :: d in ds && Passes(d, q, minPct) && x == ToRecord(d, ScoreOf(d, q)))
      && |r| == (if |Retained(ds, q, minPct)| <= limit then |Retained(ds, q, minPct)| else limit)
      && multiset(r) <= multiset(Retained(ds, q, minPct))
      && (|Retained(ds, q, minPct)| <= limit ==> multiset(r) == multiset(Retained(ds, q, minPct)))
      && (forall x, y :: x in r && y in multiset(Retained(ds, q, minPct)) - multiset(r) ==>
            y.porcentagem <= x.porcentagem)
      && (forall v :: WithPct(r, v) <= WithPct(Retained(ds, q, minPct), v))
  {
    RankedSources(ds, q, minPct, limit);
    RankedTop(ds, q, minPct, limit);
    RankedOrder(ds, q, minPct, limit);
  }

  /** Every ranked record comes from a catalogue disease that passed the gate
      and the threshold. */
  lemma RankedSources(ds: seq<Doenca>, q: seq<string>, minPct: real, limit: nat)
    ensures forall x :: x in Ranked(ds, q, minPct, limit) ==> x.porcentagem >= minPct
    ensures forall x :: x in Ranked(ds, q, minPct, limit) ==>
      exists d :: d in ds && Passes(d, q, minPct) && x == ToRecord(d, ScoreOf(d, q))
  {
    RetainedFromCatalog(ds, q, minPct);
    RankedSubset(ds, q, minPct, limit);
  }

  /** The ranking is non-increasing, and ties keep catalogue order. */
  lemma RankedOrder(ds: seq<Doenca>, q: seq<string>, minPct: real, limit: nat)
    ensures NonIncreasing(Ranked(ds, q, minPct, limit))
    ensures forall v :: WithPct(Ranked(ds, q, minPct, limit), v) <= WithPct(Retained(ds, q, minPct), v)
  {
    var sorted := SortDesc(Retained(ds, q, minPct));
    assert Ranked(ds, q, minPct, limit) <= sorted;
    forall v ensures WithPct(Ranked(ds, q, minPct, limit), v) <= WithPct(Retained(ds, q, minPct), v) {
      RankedStable(ds, q, minPct, limit, v);
    }
  }

  /** The cut keeps `limit` records, or all of them, and they are the best:
      every retained record left out scores no higher than any kept one. */
  lemma RankedTop(ds: seq<Doenca>, q: seq<string>, minPct: real, limit: nat)
    ensures var r := Ranked(ds, q, minPct, limit);
      var kept := Retained(ds, q, minPct);
      && |r| == (if |kept| <= limit then |kept| else limit)
      && multiset(r) <= multiset(kept)
      && (|kept| <= limit ==> multiset(r) == multiset(kept))
      && (forall x, y :: x in r && y in multiset(kept) - multiset(r) ==> y.porcentagem <= x.porcentagem)
  {
    var kept := Retained(ds, q, minPct);
    var sorted := SortDesc(kept);
    TakeTop(sorted, limit);
  }

  /** A disease whose every catalogue entry fails the gate never appears in
      the results. */
  lemma IneligibleAbsent(ds: seq<Doenca>, q: seq<string>, minPct: real, limit: nat, nome: string)
    requires forall d :: d in ds && d.nome == nome ==> !Eligible(d, q)
    ensures forall x :: x in Ranked(ds, q, minPct, limit) ==> x.doenca != nome
  {
    RankedSpec(ds, q, minPct, limit);
  }

  // ---------------------------------------------------------------------------
  // The cache key

  /** `','.join(sorted(sintomas))`, the text `_gerar_cache_key` hashes. */
  function KeyText(q: seq<string>): string {
    JoinComma(SortStrings(q))
  }

  /** The key text depends only on the multiset of query names: any
      permutation gives the same key. */
  lemma KeyTextPermutation(a: seq<string>, b: seq<string>)
    requires multiset(a) == multiset(b)
    ensures KeyText(a) == KeyText(b)
  {
    SortedUnique(SortStrings(a), SortStrings(b));
  }

  /** Repetitions are not removed: `["a", "a"]` and `["a"]` give different key texts. */
  lemma KeyTextKeepsDuplicates()
    ensures KeyText(["a", "a"]) != KeyText(["a"])
  {
    assert SortStrings(["a"]) == ["a"];
    assert ["a", "a"][1..] == ["a"];
    assert SortStrings(["a", "a"]) == ["a", "a"] by {
      StrLeRefl("a");
    }
    assert KeyText(["a", "a"]) == "a,a";
  }

  /** A name containing the separator shares its key text with the split
      names: `["a,b"]` and `["a", "b"]` both give "a,b". */
  lemma KeyTextSeparatorCollision()
    ensures KeyText(["a,b"]) == KeyText(["a", "b"])
  {
    assert SortStrings(["a,b"]) == ["a,b"];
    assert ["a", "b"][1..] == ["b"];
    assert StrLe("a", "b");
    assert SortStrings(["a", "b"]) == ["a", "b"];
  }

  // ---------------------------------------------------------------------------
  // The engine

  /** `DiagnosticoEngine`: the catalogue, the configured threshold
      (`PORCENTAGEM_MINIMA`) and result limit (`LIMITE_RESULTADOS`), the MD5
      digest taken as a given function, and the result cache. */
  class DiagnosticoEngine {
    const doencas: seq<Doenca>
    const minPct: real
    const limit: nat
    const digest: string -> string
    var cache: map<string, seq<ResultRecord>>

    constructor (doencas: seq<Doenca>, minPct: real, limit: nat, digest: string -> string)
      ensures this.doencas == doencas && this.minPct == minPct && this.limit == limit
      ensures this.digest == digest && cache == map[]
    {
      this.doencas := doencas;
      this.minPct := minPct;
      this.limit := limit;
      this.digest := digest;
      cache := map[];
    }

    /** `_gerar_cache_key`. */
    function CacheKey(q: seq<string>): string {
      digest(KeyText(q))
    }

    /** `avaliar`: an empty query gives `[]` without touching the cache; a
        cached key returns the stored list; otherwise the ranking is computed,
        stored under the key (nothing is ever evicted) and returned. */
    method Avaliar(sintomas: seq<string>) returns (r: seq<ResultRecord>)
      modifies this
      ensures sintomas == [] ==> r == [] && cache == old(cache)
      ensures sintomas != [] && CacheKey(sintomas) in old(cache) ==>
        r == old(cache)[CacheKey(sintomas)] && cache == old(cache)
      ensures sintomas != [] && CacheKey(sintomas) !in old(cache) ==>
        r == Ranked(doencas, sintomas, minPct, limit) && cache == old(cache)[CacheKey(sintomas) := r]
    {
      if sintomas == [] {
        return [];
      }
      var key := CacheKey(sintomas);
      if key in cache {
        return cache[key];
      }
      var resultados := Scan(sintomas);
      resultados := SortDesc(resultados);
      resultados := Take(resultados, limit);
      cache := cache[key := resultados];
      r := resultados;
    }

    /** The loop of `avaliar` over the catalogue: gate, score, threshold. */
    method Scan(sintomas: seq<string>) returns (resultados: seq<ResultRecord>)
      ensures resultados == Retained(doencas, sintomas, minPct)
    {
      resultados := [];
      var i := 0;
      while i < |doencas|
        invariant 0 <= i <= |doencas|
        invariant resultados == Retained(doencas[..i], sintomas, minPct)
      {
        var d := doencas[i];
        RetainedStep(doencas, i, sintomas, minPct);
        if Eligible(d, sintomas) {
          var s := Calcular(d, sintomas);
          if s.pct >= minPct {
            resultados := resultados + [ToRecord(d, s)];
          }
        }
        i := i + 1;
      }
      assert doencas[..i] == doencas;
    }

    /** `clear_cache`. */
    method ClearCache()
      modifies this
      ensures cache == map[]
    {
      cache := map[];
    }
  }

  /** Two calls with permutations of the same query give the same list: the
      second is answered from the cache. */
  method PermutedQueriesAgree(e: DiagnosticoEngine, a: seq<string>, b: seq<string>)
      returns (r1: seq<ResultRecord>, r2: seq<ResultRecord>)
    requires multiset(a) == multiset(b)
    modifies e
    ensures r1 == r2
    ensures e.cache == old(e.cache) || (a != [] && e.cache == old(e.cache)[e.CacheKey(a) := r1])
  {
    r1 := e.Avaliar(a);
    KeyTextPermutation(a, b);
    if a == [] {
      assert b == [] by { assert |b| == |multiset(b)|; }
    } else {
      assert b != [] by { assert |b| == |multiset(b)|; }
    }
    r2 := e.Avaliar(b);
  }

  /** After `clear_cache` the next non-empty query is computed afresh. */
  method ClearForcesRecompute(e: DiagnosticoEngine, q: seq<string>) returns (r: seq<ResultRecord>)
    requires q != []
    modifies e
    ensures r == Ranked(e.doencas, q, e.minPct, e.limit)
    ensures e.cache == map[e.CacheKey(q) := r]
  {
    e.ClearCache();
    r := e.Avaliar(q);
  }
}
