/**
 * data_manager.py: the hit-counting cache with time-to-live and eviction of
 * the least-hit entry, its statistics, and the catalogue normaliser that
 * fills defaults and turns bare symptoms into `{s, peso, tipo}` records.
 */
module DataManager {
  import opened Wrappers
  import opened Models
  import opened Rounding
  import Dicts
  import Engine

  // ---------------------------------------------------------------------------
  // The cache

  /** `CacheEntry`: the cached value, when it was stored, and how often it was read. */
  datatype CacheEntry<T> = CacheEntry(data: T, timestamp: real, hits: int)

  /** The hit counts of the entries, in iteration order. */
  function Hits<T>(c: Dicts.Dict<CacheEntry<T>>): (hs: seq<int>)
    requires Dicts.Valid(c)
    ensures |hs| == |c.keys|
    ensures forall i :: 0 <= i < |c.keys| ==> hs[i] == c.items[c.keys[i]].hits
  {
    seq(|c.keys|, i requires 0 <= i < |c.keys| && c.keys[i] in c.items => c.items[c.keys[i]].hits)
  }

  /** Position of the first smallest count: what `min(keys, key=hits)` picks. */
  function FirstMinIndex(hs: seq<int>): (i: nat)
    requires |hs| > 0
    ensures i < |hs|
    ensures forall j :: 0 <= j < |hs| ==> hs[i] <= hs[j]
    ensures forall j :: 0 <= j < i ==> hs[i] < hs[j]
  {
    if |hs| == 1 then 0
    else
      var k := FirstMinIndex(hs[1..]) + 1;
      if hs[0] <= hs[k] then 0 else k
  }

  /** `sum(entry.hits for entry in cache.values())`. */
  function TotalHits(hs: seq<int>): int {
    if hs == [] then 0 else TotalHits(hs[..|hs| - 1]) + hs[|hs| - 1]
  }

  /** The cache before a write: when it holds `maxSize` entries or more, the
      first entry with the fewest hits is removed. */
  function Evict<T>(c: Dicts.Dict<CacheEntry<T>>, maxSize: int): (r: Dicts.Dict<CacheEntry<T>>)
    requires Dicts.Valid(c)
    requires |c.keys| >= maxSize ==> |c.keys| > 0
    ensures Dicts.Valid(r)
  {
    if |c.keys| >= maxSize then Dicts.RemoveAt(c, FirstMinIndex(Hits(c))) else c
  }

  /** `get_cache_stats`. */
  datatype CacheStats = CacheStats(totalEntradas: int, totalHits: int, avgHits: real, ttl: real)

  /** Counts of at least 1 add up to at least their number. */
  lemma {:induction false} TotalHitsAtLeast(hs: seq<int>)
    requires forall i :: 0 <= i < |hs| ==> hs[i] >= 1
    ensures TotalHits(hs) >= |hs|
  {
    if hs != [] {
      TotalHitsAtLeast(hs[..|hs| - 1]);
    }
  }

  /** Raising one count by 1 raises the total by 1. */
  lemma {:induction false} TotalHitsBump(hs: seq<int>, i: nat)
    requires i < |hs|
    ensures TotalHits(hs[i := hs[i] + 1]) == TotalHits(hs) + 1
  {
    var n := |hs| - 1;
    if i < n {
      assert hs[i := hs[i] + 1][..n] == hs[..n][i := hs[i] + 1];
      TotalHitsBump(hs[..n], i);
    } else {
      assert hs[i := hs[i] + 1][..n] == hs[..n];
    }
  }

  /** `DataManager`'s cache, with the configured `CACHE_TTL` and `CACHE_MAX_SIZE`;
      the current time is passed in by each call. */
  class DataManager<T> {
    const cacheTtl: real
    const cacheMaxSize: int
    var cache: Dicts.Dict<CacheEntry<T>>

    /** The dict is well formed and every stored entry has been counted once
        at least (writes store `hits = 1`, reads only add). */
    ghost predicate Valid()
      reads this
    {
      && Dicts.Valid(cache)
      && forall k :: k in cache.items ==> cache.items[k].hits >= 1
    }

    constructor (cacheTtl: real, cacheMaxSize: int)
      ensures Valid()
      ensures this.cacheTtl == cacheTtl && this.cacheMaxSize == cacheMaxSize
      ensures cache == Dicts.Empty()
    {
      this.cacheTtl := cacheTtl;
      this.cacheMaxSize := cacheMaxSize;
      cache := Dicts.Empty();
    }

    /** `_get_from_cache`: a live entry has its hits raised by exactly 1 and its
        data returned; an expired one is deleted; an absent key changes nothing. */
    method GetFromCache(key: string, now: real) returns (r: Option<T>)
      requires Valid()
      modifies this
      ensures Valid()
      ensures key !in old(cache.items) ==> r.None? && cache == old(cache)
      ensures key in old(cache.items) && now - old(cache.items[key].timestamp) < cacheTtl ==>
        && r == Some(old(cache.items[key].data))
        && cache == Dicts.Set(old(cache), key, old(cache.items[key]).(hits := old(cache.items[key].hits) + 1))
      ensures key in old(cache.items) && !(now - old(cache.items[key].timestamp) < cacheTtl) ==>
        r.None? && cache == Dicts.Remove(old(cache), key)
    {
      if key in cache.items {
        var entry := cache.items[key];
        if now - entry.timestamp < cacheTtl {
          cache := Dicts.Set(cache, key, entry.(hits := entry.hits + 1));
          return Some(entry.data);
        } else {
          cache := Dicts.Remove(cache, key);
        }
      }
      return None;
    }

    /** `_save_to_cache`. With the cache at its size limit the first entry with
        the fewest hits goes first; the new entry has `hits = 1` and the current
        time. `ok` is false where `min` of an empty cache raises (a limit of 0
        or less), and then nothing changes. The size never passes the limit. */
    method SaveToCache(key: string, data: T, now: real) returns (ok: bool)
      requires Valid()
      modifies this
      ensures Valid()
      ensures ok <==> !(|old(cache.keys)| >= cacheMaxSize && |old(cache.keys)| == 0)
      ensures !ok ==> cache == old(cache)
      ensures ok ==> cache == Dicts.Set(Evict(old(cache), cacheMaxSize), key, CacheEntry(data, now, 1))
      ensures ok ==> key in cache.items && cache.items[key] == CacheEntry(data, now, 1)
      ensures |old(cache.keys)| <= cacheMaxSize ==> |cache.keys| <= cacheMaxSize
    {
      if |cache.keys| >= cacheMaxSize {
        if |cache.keys| == 0 {
          return false;
        }
        var i := FirstMinIndex(Hits(cache));
        cache := Dicts.RemoveAt(cache, i);
      }
      cache := Dicts.Set(cache, key, CacheEntry(data, now, 1));
      ok := true;
    }

    /** `clear_cache`. */
    method ClearCache()
      requires Valid()
      modifies this
      ensures Valid()
      ensures cache == Dicts.Empty()
    {
      cache := Dicts.Empty();
    }

    /** `get_cache_stats`: the number of entries, the sum of their hits, the
        average rounded to two places (0 when empty, at least 1 otherwise),
        and the TTL. */
    function Stats(): (s: CacheStats)
      requires Valid()
      reads this
      ensures s.totalEntradas == |cache.keys| && s.ttl == cacheTtl
      ensures s.totalHits >= s.totalEntradas
      ensures s.totalEntradas == 0 ==> s.avgHits == 0.0
      ensures s.totalEntradas > 0 ==> s.avgHits >= 1.0
    {
      var hs := Hits(cache);
      TotalHitsAtLeast(hs);
      CacheStats(|cache.keys|, TotalHits(hs), AvgHits(TotalHits(hs), |cache.keys|), cacheTtl)
    }
  }

  /** `round(total_hits / total_size if total_size > 0 else 0, 2)`. */
  function AvgHits(total: int, size: int): (a: real)
    ensures size <= 0 ==> a == 0.0
    ensures 0 < size <= total ==> a >= 1.0
  {
    if size > 0 then
      var avg := total as real / size as real;
      assert total >= size ==> avg >= 1.0 by {
        if total >= size {
          assert avg * size as real == total as real;
        }
      }
      if total >= size then
        Round2Monotone(1.0, avg);
        Round2Whole(1);
        Round2(avg)
      else Round2(avg)
    else
      Round2Whole(0);
      Round2(0 as real)
  }

  /** A read that hits raises the reported total of hits by exactly 1 and
      leaves the number of entries alone. */
  lemma HitRaisesTotal<T>(c: Dicts.Dict<CacheEntry<T>>, key: string)
    requires Dicts.Valid(c) && key in c.items
    ensures var c2 := Dicts.Set(c, key, c.items[key].(hits := c.items[key].hits + 1));
      && |c2.keys| == |c.keys|
      && TotalHits(Hits(c2)) == TotalHits(Hits(c)) + 1
  {
    var c2 := Dicts.Set(c, key, c.items[key].(hits := c.items[key].hits + 1));
    var i := Dicts.IndexOf(c, key);
    var hs := Hits(c);
    assert Hits(c2) == hs[i := hs[i] + 1];
    TotalHitsBump(hs, i);
  }

  // ---------------------------------------------------------------------------
  // The catalogue normaliser

  /** One symptom after normalisation: a record keeps its own `peso` and
      `tipo` and takes 1.0 and the disease's type where they are missing; a
      bare value becomes `{s: str(v), peso: 1.0, tipo}`. */
  function NormalizeSymptom(e: SymptomEntry, tipo: string): (r: SymptomEntry)
    ensures r.Record? && r.peso.Some? && r.tipo.Some?
    ensures Engine.EntryName(r) == Engine.EntryName(e)
    ensures Engine.EntryWeight(r) == Engine.EntryWeight(e)
    ensures e.Bare? ==> r == Record(e.text, Some(1.0), Some(tipo))
    ensures e.Record? && e.peso.Some? ==> r.peso == e.peso
    ensures e.Record? && e.tipo.Some? ==> r.tipo == e.tipo
  {
    match e
    case Record(s, peso, t) => Record(s, Some(peso.GetOr(1.0)), Some(t.GetOr(tipo)))
    case Bare(v) => Record(v, Some(1.0), Some(tipo))
  }

  /** The normalised symptom list, entry for entry. */
  function NormalizeSymptoms(es: seq<SymptomEntry>, tipo: string): (r: seq<SymptomEntry>)
    ensures |r| == |es|
    ensures forall i :: 0 <= i < |es| ==> r[i] == NormalizeSymptom(es[i], tipo)
  {
    if es == [] then [] else NormalizeSymptoms(es[..|es| - 1], tipo) + [NormalizeSymptom(es[|es| - 1], tipo)]
  }

  /** `condicoes` after both `setdefault`s. */
  function NormalizeConditions(c: Option<Conditions>): Conditions {
    var k := c.GetOr(NoConditions);
    Conditions(Some(k.minSintomas.GetOr(0)), Some(k.obrigatorios.GetOr([])))
  }

  /** The disease dict `_normalizar_doenca` leaves behind. */
  function Normalized(d: DiseaseDict): DiseaseDict
    requires d.tipo.Some?
  {
    d.(descricao := Some(d.descricao.GetOr("")),
       tratamento := Some(d.tratamento.GetOr("")),
       severidade := Some(d.severidade.GetOr("moderada")),
       sintomas := Some(NormalizeSymptoms(d.sintomas.GetOr([]), d.tipo.value)),
       condicoes := Some(NormalizeConditions(d.condicoes)))
  }

  /** `_normalizar_doenca`: `setdefault` on the disease's keys, the loop that
      rebuilds the symptom list, then `setdefault` on its conditions. The
      type is set by the caller before this runs. */
  method NormalizarDoenca(d: DiseaseDict) returns (n: DiseaseDict)
    requires d.tipo.Some?
    ensures n == Normalized(d)
  {
    n := d.(descricao := Some(d.descricao.GetOr("")),
            tratamento := Some(d.tratamento.GetOr("")),
            severidade := Some(d.severidade.GetOr("moderada")),
            condicoes := Some(d.condicoes.GetOr(NoConditions)),
            sintomas := Some(d.sintomas.GetOr([])));
    var sintomas := n.sintomas.value;
    var normalizados: seq<SymptomEntry> := [];
    var i := 0;
    while i < |sintomas|
      invariant 0 <= i <= |sintomas|
      invariant normalizados == NormalizeSymptoms(sintomas[..i], d.tipo.value)
    {
      assert sintomas[..i + 1][..i] == sintomas[..i];
      normalizados := normalizados + [NormalizeSymptom(sintomas[i], d.tipo.value)];
      i := i + 1;
    }
    assert sintomas[..i] == sintomas;
    n := n.(sintomas := Some(normalizados));
    n := n.(condicoes := Some(NormalizeConditions(n.condicoes)));
  }

  /** Every symptom is a complete record. */
  predicate IsNormalized(d: DiseaseDict) {
    && d.descricao.Some? && d.tratamento.Some? && d.severidade.Some?
    && d.sintomas.Some? && d.condicoes.Some?
    && d.condicoes.value.minSintomas.Some? && d.condicoes.value.obrigatorios.Some?
    && forall i :: 0 <= i < |d.sintomas.value| ==>
         d.sintomas.value[i].Record? && d.sintomas.value[i].peso.Some? && d.sintomas.value[i].tipo.Some?
  }

  /** Normalisation only fills what is missing: present keys keep their value,
      absent ones get their default; symptoms keep their number, order, names
      and weights; every symptom ends up a complete record. */
  lemma NormalizedSpec(d: DiseaseDict)
    requires d.tipo.Some?
    ensures var n := Normalized(d);
      && IsNormalized(n)
      && n.doenca == d.doenca && n.tipo == d.tipo && n.categoria == d.categoria
      && (d.descricao.Some? ==> n.descricao == d.descricao) && (d.descricao.None? ==> n.descricao == Some(""))
      && (d.tratamento.Some? ==> n.tratamento == d.tratamento) && (d.tratamento.None? ==> n.tratamento == Some(""))
      && (d.severidade.Some? ==> n.severidade == d.severidade) && (d.severidade.None? ==> n.severidade == Some("moderada"))
      && |n.sintomas.value| == |d.sintomas.GetOr([])|
      && (forall i :: 0 <= i < |n.sintomas.value| ==>
            && Engine.EntryName(n.sintomas.value[i]) == Engine.EntryName(d.sintomas.value[i])
            && Engine.EntryWeight(n.sintomas.value[i]) == Engine.EntryWeight(d.sintomas.value[i]))
      && (d.condicoes.Some? && d.condicoes.value.minSintomas.Some? ==>
            n.condicoes.value.minSintomas == d.condicoes.value.minSintomas)
      && (d.condicoes.Some? && d.condicoes.value.obrigatorios.Some? ==>
            n.condicoes.value.obrigatorios == d.condicoes.value.obrigatorios)
      && (d.condicoes.Some? && d.condicoes.value.minSintomas.None? ==> n.condicoes.value.minSintomas == Some(0))
      && (d.condicoes.Some? && d.condicoes.value.obrigatorios.None? ==> n.condicoes.value.obrigatorios == Some([]))
      && (d.condicoes.None? ==> n.condicoes == Some(Conditions(Some(0), Some([]))))
  {
  }

  /** Normalising twice is normalising once. */
  lemma NormalizedIdempotent(d: DiseaseDict)
    requires d.tipo.Some?
    ensures Normalized(Normalized(d)) == Normalized(d)
  {
    var n := Normalized(d);
    var es := n.sintomas.value;
    var again := NormalizeSymptoms(es, d.tipo.value);
    assert again == es by {
      assert |again| == |es|;
      forall i | 0 <= i < |es| ensures again[i] == es[i] {
        var e := d.sintomas.value[i];
        assert es[i] == NormalizeSymptom(e, d.tipo.value);
      }
    }
  }

  /** The dict of names to weights depends on names and weights alone. */
  lemma {:induction false} WeightTableAgrees(a: seq<SymptomEntry>, b: seq<SymptomEntry>)
    requires |a| == |b|
    requires forall i :: 0 <= i < |a| ==>
      Engine.EntryName(a[i]) == Engine.EntryName(b[i]) && Engine.EntryWeight(a[i]) == Engine.EntryWeight(b[i])
    ensures Engine.WeightTable(a) == Engine.WeightTable(b)
    ensures Engine.MaxScore(a) == Engine.MaxScore(b)
    ensures Engine.Names(a) == Engine.Names(b)
  {
    if a != [] {
      WeightTableAgrees(a[..|a| - 1], b[..|b| - 1]);
    }
  }

  /** Normalisation does not change how a disease scores or whether it
      passes the gate, for any query. */
  lemma NormalizedScoresAlike(d: DiseaseDict, q: seq<string>)
    requires d.tipo.Some?
    ensures Engine.ScoreOf(DoencaFromDict(Normalized(d)), q) == Engine.ScoreOf(DoencaFromDict(d), q)
    ensures Engine.Eligible(DoencaFromDict(Normalized(d)), q) <==> Engine.Eligible(DoencaFromDict(d), q)
  {
    var a := d.sintomas.GetOr([]);
    var b := NormalizeSymptoms(a, d.tipo.value);
    WeightTableAgrees(b, a);
  }

  // ---------------------------------------------------------------------------
  // _processar_dados

  /** The dict elements of one group, each given the group's type and
      category and then normalised; other elements are dropped. */
  function ProcessGroup(items: seq<CatalogItem>, tipo: string, categoria: string): seq<DiseaseDict> {
    if items == [] then []
    else
      var rest := ProcessGroup(items[..|items| - 1], tipo, categoria);
      match items[|items| - 1]
      case Object(d) => rest + [Normalized(d.(tipo := Some(tipo), categoria := Some(categoria)))]
      case NonObject => rest
  }

  /** The groups of a parsed catalogue: physical, then mental; absent ones are empty. */
  function Groups(data: CatalogDoc): (seq<CatalogItem>, seq<CatalogItem>) {
    match data
    case NonObjectDoc => ([], [])
    case ObjectDoc(None) => ([], [])
    case ObjectDoc(Some(g)) => (g.fisicas.GetOr([]), g.mentais.GetOr([]))
  }

  /** What `_processar_dados` returns. */
  function Processed(data: CatalogDoc): seq<DiseaseDict> {
    ProcessGroup(Groups(data).0, "físico", "fisica") + ProcessGroup(Groups(data).1, "psicológico", "mental")
  }

  /** `_processar_dados`: one loop per group, physical diseases first. */
  method ProcessarDados(data: CatalogDoc) returns (doencas: seq<DiseaseDict>)
    ensures doencas == Processed(data)
  {
    var (fisicas, mentais) := Groups(data);
    doencas := [];
    var i := 0;
    while i < |fisicas|
      invariant 0 <= i <= |fisicas|
      invariant doencas == ProcessGroup(fisicas[..i], "físico", "fisica")
    {
      assert fisicas[..i + 1][..i] == fisicas[..i];
      if fisicas[i].Object? {
        var d := fisicas[i].d.(tipo := Some("físico"), categoria := Some("fisica"));
        var n := NormalizarDoenca(d);
        doencas := doencas + [n];
      }
      i := i + 1;
    }
    assert fisicas[..i] == fisicas;
    var fisicasProcessadas := doencas;
    var j := 0;
    while j < |mentais|
      invariant 0 <= j <= |mentais|
      invariant doencas == fisicasProcessadas + ProcessGroup(mentais[..j], "psicológico", "mental")
    {
      assert mentais[..j + 1][..j] == mentais[..j];
      if mentais[j].Object? {
        var d := mentais[j].d.(tipo := Some("psicológico"), categoria := Some("mental"));
        var n := NormalizarDoenca(d);
        doencas := doencas + [n];
      }
      j := j + 1;
    }
    assert mentais[..j] == mentais;
  }

  /** The dict elements of a group, in order. */
  function Objects(items: seq<CatalogItem>): seq<DiseaseDict> {
    if items == [] then []
    else
      var rest := Objects(items[..|items| - 1]);
      match items[|items| - 1]
      case Object(d) => rest + [d]
      case NonObject => rest
  }

  /** A processed group: the group's dict elements in their order, each given
      the group's type and category and then normalised. */
  lemma {:induction false} ProcessGroupSpec(items: seq<CatalogItem>, tipo: string, categoria: string)
    ensures var r := ProcessGroup(items, tipo, categoria);
      && |r| == |Objects(items)|
      && forall i :: 0 <= i < |r| ==>
           && r[i] == Normalized(Objects(items)[i].(tipo := Some(tipo), categoria := Some(categoria)))
           && r[i].doenca == Objects(items)[i].doenca
           && r[i].tipo == Some(tipo) && r[i].categoria == Some(categoria) && IsNormalized(r[i])
  {
    if items != [] {
      ProcessGroupSpec(items[..|items| - 1], tipo, categoria);
      var last := items[|items| - 1];
      if last.Object? {
        NormalizedSpec(last.d.(tipo := Some(tipo), categoria := Some(categoria)));
      }
    }
  }

  /** Every physical disease comes before every mental one, each group in its
      input order; non-dict elements are dropped; all results are normalised. */
  lemma ProcessedSpec(data: CatalogDoc)
    ensures var r := Processed(data);
      var fis := Objects(Groups(data).0);
      var men := Objects(Groups(data).1);
      && |r| == |fis| + |men|
      && (forall i :: 0 <= i < |fis| ==>
            r[i] == Normalized(fis[i].(tipo := Some("físico"), categoria := Some("fisica"))))
      && (forall i :: 0 <= i < |men| ==>
            r[|fis| + i] == Normalized(men[i].(tipo := Some("psicológico"), categoria := Some("mental"))))
      && (forall i :: 0 <= i < |fis| ==> r[i].tipo == Some("físico") && r[i].categoria == Some("fisica"))
      && (forall i :: |fis| <= i < |r| ==> r[i].tipo == Some("psicológico") && r[i].categoria == Some("mental"))
      && (forall i :: 0 <= i < |r| ==> IsNormalized(r[i]))
  {
    var a := ProcessGroup(Groups(data).0, "físico", "fisica");
    var b := ProcessGroup(Groups(data).1, "psicológico", "mental");
    ProcessGroupSpec(Groups(data).0, "físico", "fisica");
    ProcessGroupSpec(Groups(data).1, "psicológico", "mental");
    assert Processed(data) == a + b;
    assert forall i :: 0 <= i < |a| ==> (a + b)[i] == a[i];
    assert forall i :: 0 <= i < |b| ==> (a + b)[|a| + i] == b[i];
  }
}
