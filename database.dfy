/**
 * database.py's `Database`: the patient dictionary, the diagnosis history
 * (newest first, capped) and the loaded disease catalogue, with the
 * in-memory part of each operation. Every save to disk is the `saved`
 * argument; the current time is the `now` argument.
 */
module Database {
  import opened Wrappers
  import opened Text
  import opened Models
  import opened Patients
  import Dicts
  import Engine

  /** The message of the `ValueError` for a duplicate CPF. */
  function DuplicateCpfMessage(cpf: string): string {
    "Paciente com CPF " + cpf + " já cadastrado"
  }

  /** `historico.insert(0, d)` followed by the cut to the first `cap` items. */
  function Prepend(historico: seq<Diagnostico>, d: Diagnostico, cap: nat): (r: seq<Diagnostico>)
    ensures |r| == if |historico| + 1 <= cap then |historico| + 1 else cap
    ensures cap > 0 ==> r[0] == d
    ensures cap > 0 ==> r[1..] <= historico
  {
    var h := [d] + historico;
    if |h| > cap then h[..cap] else h
  }

  /** The diagnoses of one patient, in history order. */
  function HistoryOf(historico: seq<Diagnostico>, pacienteId: string): (r: seq<Diagnostico>)
    ensures forall d :: d in r <==> d in historico && d.pacienteId == pacienteId
    ensures |r| <= |historico|
  {
    if historico == [] then []
    else
      var rest := HistoryOf(historico[..|historico| - 1], pacienteId);
      var d := historico[|historico| - 1];
      assert historico == historico[..|historico| - 1] + [d];
      if d.pacienteId == pacienteId then rest + [d] else rest
  }

  /** The filter keeps order: filtering a concatenation concatenates the filtered parts. */
  lemma {:induction false} HistoryOfConcat(a: seq<Diagnostico>, b: seq<Diagnostico>, pacienteId: string)
    ensures HistoryOf(a + b, pacienteId) == HistoryOf(a, pacienteId) + HistoryOf(b, pacienteId)
    decreases |b|
  {
    if b == [] {
      assert a + b == a;
    } else {
      var n := |b| - 1;
      assert (a + b)[..|a + b| - 1] == a + b[..n];
      HistoryOfConcat(a, b[..n], pacienteId);
    }
  }

  /** The names of a list of catalogue symptoms (`s` of a record, `str` of a bare value). */
  function EntryNames(es: seq<SymptomEntry>): set<string> {
    if es == [] then {}
    else EntryNames(es[..|es| - 1]) + {Engine.EntryName(es[|es| - 1])}
  }

  /** A name is collected exactly when some listed entry carries it. */
  lemma {:induction false} EntryNamesSpec(es: seq<SymptomEntry>, x: string)
    ensures x in EntryNames(es) <==> exists j :: 0 <= j < |es| && Engine.EntryName(es[j]) == x
  {
    if es != [] {
      var n := |es| - 1;
      var front := es[..n];
      EntryNamesSpec(front, x);
      if x in EntryNames(es) && Engine.EntryName(es[n]) != x {
        var j :| 0 <= j < |front| && Engine.EntryName(front[j]) == x;
        assert front[j] == es[j];
      }
      if x !in EntryNames(es) {
        forall j | 0 <= j < |es| ensures Engine.EntryName(es[j]) != x {
          if j < n { assert front[j] == es[j]; }
        }
      }
    }
  }

  /** Every symptom name of every listed disease. */
  function SymptomNames(ds: seq<Doenca>): set<string> {
    if ds == [] then {}
    else SymptomNames(ds[..|ds| - 1]) + EntryNames(ds[|ds| - 1].sintomas)
  }

  /** A name is collected exactly when some listed disease has it among its symptoms. */
  lemma SymptomNamesSpec(ds: seq<Doenca>)
    ensures forall x :: x in SymptomNames(ds) <==> exists i :: 0 <= i < |ds| && x in EntryNames(ds[i].sintomas)
  {
    forall x ensures x in SymptomNames(ds) <==> exists i :: 0 <= i < |ds| && x in EntryNames(ds[i].sintomas) {
      SymptomNamesAt(ds, x);
    }
  }

  /** `SymptomNamesSpec` for one name, by induction on the catalogue. */
  lemma {:induction false} SymptomNamesAt(ds: seq<Doenca>, x: string)
    ensures x in SymptomNames(ds) <==> exists i :: 0 <= i < |ds| && x in EntryNames(ds[i].sintomas)
  {
    if ds != [] {
      var n := |ds| - 1;
      var front := ds[..n];
      SymptomNamesAt(front, x);
      if x in SymptomNames(ds) {
        if x in EntryNames(ds[n].sintomas) {
          assert 0 <= n < |ds|;
        } else {
          var i :| 0 <= i < |front| && x in EntryNames(front[i].sintomas);
          assert front[i] == ds[i];
        }
      } else {
        assert x !in SymptomNames(front) && x !in EntryNames(ds[n].sintomas);
        forall i | 0 <= i < |ds| ensures x !in EntryNames(ds[i].sintomas) {
          if i < n { assert front[i] == ds[i]; }
        }
      }
    }
  }

  /** Patient counts of `get_estatisticas`. */
  datatype PatientCounts = PatientCounts(total: int, ativos: int, inativos: int, homens: int, mulheres: int)

  /** The whole `get_estatisticas` dictionary. */
  datatype Statistics = Statistics(
    pacientes: PatientCounts,
    diagnosticosTotal: int,
    diagnosticosUltimoMes: int,
    doencasTotal: int,
    fisicas: int,
    psicologicas: int)

  const MaleTerms: seq<string> := ["m", "masculino", "homem"]

  predicate IsActiveMale(p: Paciente) {
    p.ativo && Lower(p.sexo) in MaleTerms
  }

  predicate IsPhysical(d: Doenca) {
    d.tipo == "físico"
  }

  predicate IsPsychological(d: Doenca) {
    d.tipo == "psicológico"
  }

  class Database {
    var pacientes: Dicts.Dict<Paciente>
    var historico: seq<Diagnostico>
    const doencas: seq<Doenca>
    /** `MAX_HIST_ITENS`. */
    const maxHist: nat

    ghost predicate Valid()
      reads this
    {
      Dicts.Valid(pacientes)
    }

    /** The state after the loaders have run on what the files held. */
    constructor (pacientes: Dicts.Dict<Paciente>, historico: seq<Diagnostico>, doencas: seq<Doenca>, maxHist: nat)
      requires Dicts.Valid(pacientes)
      ensures Valid()
      ensures this.pacientes == pacientes && this.historico == historico
      ensures this.doencas == doencas && this.maxHist == maxHist
    {
      this.pacientes := pacientes;
      this.historico := historico;
      this.doencas := doencas;
      this.maxHist := maxHist;
    }

    /** `adicionar_paciente`: a non-empty CPF already held by an active patient
        raises and stores nothing; otherwise the patient is stored under its
        id and the save's outcome is returned. */
    method AdicionarPaciente(p: Paciente, saved: bool) returns (r: Result<bool, string>)
      requires Valid()
      modifies this
      ensures Valid()
      ensures historico == old(historico)
      ensures p.cpf != "" && ActiveWithCpf(Dicts.Values(old(pacientes)), Str(p.cpf)) ==>
        r == Err(DuplicateCpfMessage(p.cpf)) && pacientes == old(pacientes)
      ensures !(p.cpf != "" && ActiveWithCpf(Dicts.Values(old(pacientes)), Str(p.cpf))) ==>
        r == Ok(saved) && pacientes == Dicts.Set(old(pacientes), p.id, p)
    {
      if p.cpf != "" {
        var dup := FindActiveCpf(Dicts.Values(pacientes), Str(p.cpf));
        if dup {
          return Err(DuplicateCpfMessage(p.cpf));
        }
      }
      pacientes := Dicts.Set(pacientes, p.id, p);
      r := Ok(saved);
    }

    /** `buscar_pacientes`: the active patients, in dictionary order, that
        satisfy every filter. */
    method BuscarPacientes(filtros: seq<(string, string)>) returns (resultados: seq<Paciente>)
      requires Valid()
      ensures resultados == Search(Dicts.Values(pacientes), filtros)
      ensures forall p :: p in resultados <==> p in pacientes.items.Values && p.ativo && MatchesAll(p, filtros)
    {
      var ps := Dicts.Values(pacientes);
      resultados := SearchActive(ps, filtros);
      SearchSpec(ps, filtros);
      forall p ensures p in ps <==> p in pacientes.items.Values {
        if p in pacientes.items.Values {
          var k :| k in pacientes.items && pacientes.items[k] == p;
          var i := Dicts.IndexOf(pacientes, k);
          assert ps[i] == p;
        }
      }
    }

    /** `atualizar_paciente`: an unknown id returns false and changes nothing;
        otherwise the named attributes are set, `data_atualizacao` becomes
        `now`, the patient stays under its id and the save's outcome is returned. */
    method AtualizarPaciente(id: string, ups: seq<(string, Value)>, now: string, saved: bool) returns (ok: bool)
      requires Valid()
      modifies this
      ensures Valid()
      ensures historico == old(historico)
      ensures id !in old(pacientes.items) ==> !ok && pacientes == old(pacientes)
      ensures id in old(pacientes.items) ==> ok == saved
      ensures id in old(pacientes.items) ==>
        pacientes == Dicts.Set(old(pacientes), id, Updated(old(pacientes.items[id]), ups).(dataAtualizacao := now))
    {
      if id !in pacientes.items {
        return false;
      }
      var p := ApplyUpdates(pacientes.items[id], ups);
      pacientes := Dicts.Set(pacientes, id, p.(dataAtualizacao := now));
      ok := saved;
    }

    /** `adicionar_diagnostico`: the new diagnosis goes first, the rest keep
        their order behind it, and the list is cut to `maxHist`. */
    method AdicionarDiagnostico(d: Diagnostico, saved: bool) returns (ok: bool)
      modifies this
      ensures pacientes == old(pacientes)
      ensures historico == Prepend(old(historico), d, maxHist)
      ensures ok == saved
    {
      historico := [d] + historico;
      if |historico| > maxHist {
        historico := historico[..maxHist];
      }
      ok := saved;
    }

    /** `obter_historico_paciente`: the patient's diagnoses, newest first as
        the history keeps them. */
    function ObterHistoricoPaciente(pacienteId: string): (r: seq<Diagnostico>)
      reads this
      ensures forall d :: d in r <==> d in historico && d.pacienteId == pacienteId
    {
      HistoryOf(historico, pacienteId)
    }

    /** `obter_sintomas_unicos`: the distinct symptom names of the catalogue, sorted. */
    method ObterSintomasUnicos() returns (r: seq<string>)
      ensures StrictlySorted(r)
      ensures forall x :: x in r <==> x in SymptomNames(doencas)
    {
      var found := CollectNames();
      var listed := ListSet(found);
      r := SortStrings(listed);
      DistinctCounts(listed);
      DistinctCounts(r);
      assert forall x :: x in r <==> x in multiset(r);
    }

    /** The nested loop that fills `sintomas_set`. */
    method CollectNames() returns (found: set<string>)
      ensures found == SymptomNames(doencas)
    {
      found := {};
      var i := 0;
      while i < |doencas|
        invariant 0 <= i <= |doencas|
        invariant found == SymptomNames(doencas[..i])
      {
        var es := doencas[i].sintomas;
        var j := 0;
        while j < |es|
          invariant 0 <= j <= |es|
          invariant found == SymptomNames(doencas[..i]) + EntryNames(es[..j])
        {
          assert es[..j + 1][..j] == es[..j];
          found := found + {Engine.EntryName(es[j])};
          j := j + 1;
        }
        assert es[..j] == es;
        assert doencas[..i + 1][..i] == doencas[..i];
        i := i + 1;
      }
      assert doencas[..i] == doencas;
    }

    /** `get_estatisticas`; `recent` stands for `_dentro_do_ultimo_mes`. */
    function Estatisticas(recent: string -> bool): (s: Statistics)
      requires Valid()
      reads this
      ensures s.pacientes.total == |pacientes.items|
      ensures s.pacientes.inativos == s.pacientes.total - s.pacientes.ativos >= 0
      ensures 0 <= s.pacientes.homens <= s.pacientes.ativos
      ensures s.pacientes.mulheres == s.pacientes.ativos - s.pacientes.homens >= 0
      ensures s.diagnosticosTotal == |historico| && 0 <= s.diagnosticosUltimoMes <= s.diagnosticosTotal
      ensures s.doencasTotal == |doencas| && s.fisicas >= 0 && s.psicologicas >= 0
      ensures s.fisicas + s.psicologicas <= s.doencasTotal
    {
      var ps := Dicts.Values(pacientes);
      Dicts.LenIsSize(pacientes);
      CountMono(ps, IsActiveMale, IsActive);
      CountDisjoint(doencas, IsPhysical, IsPsychological);
      var total := |pacientes.keys|;
      var ativos := Count(ps, IsActive);
      var homens := Count(ps, IsActiveMale);
      Statistics(
        PatientCounts(total, ativos, total - ativos, homens, ativos - homens),
        |historico|,
        Count(historico, (d: Diagnostico) => recent(d.dataHora)),
        |doencas|,
        Count(doencas, IsPhysical),
        Count(doencas, IsPsychological))
    }
  }

  /** Lists the elements of a set, in whatever order, once each (the
      iteration `sorted` performs over a Python `set`). */
  method ListSet(s: set<string>) returns (listed: seq<string>)
    ensures Distinct(listed)
    ensures forall x :: x in listed <==> x in s
  {
    listed := [];
    var rest := s;
    while rest != {}
      invariant forall x :: x in listed <==> x in s && x !in rest
      invariant rest <= s
      invariant Distinct(listed)
      decreases |rest|
    {
      var x :| x in rest;
      listed := listed + [x];
      rest := rest - {x};
    }
  }

  /** Once stored, a patient with a CPF makes a second registration of that
      CPF fail while it is active. */
  method DuplicateAfterAdd(db: Database, p: Paciente, q: Paciente, saved: bool) returns (first: Result<bool, string>, second: Result<bool, string>)
    requires db.Valid()
    requires p.ativo && p.cpf != "" && q.cpf == p.cpf
    modifies db
    ensures db.Valid()
    ensures first.Ok? ==> second == Err(DuplicateCpfMessage(p.cpf))
  {
    first := db.AdicionarPaciente(p, saved);
    if first.Ok? {
      assert Dicts.Values(db.pacientes)[Dicts.IndexOf(db.pacientes, p.id)] == p;
    }
    second := db.AdicionarPaciente(q, saved);
  }
}
