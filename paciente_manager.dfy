/**
 * paciente.py: its strict `Paciente.criar_novo` (every field without a
 * default must be passed) and `PacienteManager`, the patient dictionary with
 * registration, search, update, logical deletion and statistics. Every save
 * to disk is the `saved` argument; the uuid and the current time are the
 * `id` and `now` arguments.
 */
module PacienteManager {
  import opened Wrappers
  import opened Text
  import opened Models
  import opened Patients
  import Dicts

  // ---------------------------------------------------------------------------
  // Paciente.criar_novo (paciente.py)

  /** The value `criar_novo`'s `defaults` dictionary gives field `f`, if any. */
  function DefaultValue(f: Field, id: string, now: string): Option<Value> {
    match f
    case Id => Some(Str(id))
    case Alergias => Some(StrList([]))
    case MedicamentosUso => Some(StrList([]))
    case DoencasCronicas => Some(StrList([]))
    case CirurgiasPrevias => Some(StrList([]))
    case HistoricoFamiliar => Some(StrPairs([]))
    case Observacoes => Some(Str(""))
    case DataCadastro => Some(Str(now))
    case DataAtualizacao => Some(Str(now))
    case Ativo => Some(Bool(true))
    case _ => None
  }

  /** The `defaults` dictionary itself. */
  function NovoDefaults(id: string, now: string): map<string, Value> {
    map[
      "id" := Str(id),
      "alergias" := StrList([]),
      "medicamentos_uso" := StrList([]),
      "doencas_cronicas" := StrList([]),
      "cirurgias_previas" := StrList([]),
      "historico_familiar" := StrPairs([]),
      "observacoes" := Str(""),
      "data_cadastro" := Str(now),
      "data_atualizacao" := Str(now),
      "ativo" := Bool(true)]
  }

  /** The first listed field `kw` does not give. */
  function FirstMissing(fs: seq<Field>, kw: map<string, Value>): Option<Field> {
    if fs == [] then None
    else if Name(fs[0]) !in kw then Some(fs[0])
    else FirstMissing(fs[1..], kw)
  }

  lemma {:induction false} FirstMissingSpec(fs: seq<Field>, kw: map<string, Value>)
    ensures FirstMissing(fs, kw).Some? ==> FirstMissing(fs, kw).value in fs && Name(FirstMissing(fs, kw).value) !in kw
    ensures FirstMissing(fs, kw).None? ==> forall f :: f in fs ==> Name(f) in kw
  {
    if fs != [] && Name(fs[0]) in kw {
      FirstMissingSpec(fs[1..], kw);
      assert forall f :: f in fs ==> f == fs[0] || f in fs[1..] by {
        assert fs == [fs[0]] + fs[1..];
      }
    }
  }

  /** `Paciente(**kw)` for the dataclass without defaults: an unknown key or a
      missing field is a `TypeError`. */
  function Build(kw: map<string, Value>): Result<Paciente, PatientError> {
    if exists k | k in kw.Keys :: FieldOf(k).None? then Err(UnexpectedField)
    else
      match FirstMissing(AllFields, kw)
      case Some(f) => Err(MissingField(Name(f)))
      case None => Construct(kw, Defaults("", "", ""))
  }

  /** `Build` succeeds exactly when the keys are the fields, each with a value
      of its kind, and then every field holds its key's value. */
  lemma BuildSpec(kw: map<string, Value>)
    ensures Build(kw).Ok? <==>
      (forall k :: k in kw ==> FieldOf(k).Some? && Fits(FieldOf(k).value, kw[k])) &&
      (forall f :: Name(f) in kw)
    ensures Build(kw).Ok? ==> forall f :: Get(Build(kw).value, f) == kw[Name(f)]
  {
    if !exists k | k in kw.Keys :: FieldOf(k).None? {
      ConstructSpec(kw, Defaults("", "", ""));
      FirstMissingSpec(AllFields, kw);
      match FirstMissing(AllFields, kw)
      case Some(f) =>
      case None =>
        forall f ensures Name(f) in kw { AllFieldsComplete(f); }
    }
  }

  /** paciente.py `Paciente.criar_novo`: the defaults updated with `dados`. */
  function CriarNovo(dados: map<string, Value>, id: string, now: string): Result<Paciente, PatientError> {
    Build(NovoDefaults(id, now) + dados)
  }

  /** Every passed argument overrides its default; a field with neither an
      argument nor a default, an unknown name or a value of the wrong kind
      makes construction fail. */
  lemma CriarNovoSpec(dados: map<string, Value>, id: string, now: string)
    ensures CriarNovo(dados, id, now).Ok? <==>
      (forall k :: k in dados ==> FieldOf(k).Some? && Fits(FieldOf(k).value, dados[k])) &&
      (forall f :: Name(f) in dados || DefaultValue(f, id, now).Some?)
    ensures CriarNovo(dados, id, now).Ok? ==>
      forall f :: Get(CriarNovo(dados, id, now).value, f) ==
                  (if Name(f) in dados then dados[Name(f)] else DefaultValue(f, id, now).value)
  {
    var d := NovoDefaults(id, now);
    var kw := d + dados;
    BuildSpec(kw);
    forall f ensures Name(f) in d <==> DefaultValue(f, id, now).Some?
      ensures Name(f) in d ==> d[Name(f)] == DefaultValue(f, id, now).value
    {
      DefaultAt(f, id, now);
    }
    DefaultsFit(id, now);
  }

  /** Every default names a field and has that field's kind. */
  lemma DefaultsFit(id: string, now: string)
    ensures forall k :: k in NovoDefaults(id, now) ==> FieldOf(k).Some? && Fits(FieldOf(k).value, NovoDefaults(id, now)[k])
  {
    var d := NovoDefaults(id, now);
    forall k | k in d ensures FieldOf(k).Some? && Fits(FieldOf(k).value, d[k]) {
      var f := DefaultKey(k, id, now);
      FieldOfName(f);
    }
  }

  /** The field a key of `defaults` names; its default is of its kind. */
  lemma DefaultKey(k: string, id: string, now: string) returns (f: Field)
    requires k in NovoDefaults(id, now)
    ensures Name(f) == k && DefaultValue(f, id, now) == Some(NovoDefaults(id, now)[k])
    ensures Fits(f, NovoDefaults(id, now)[k])
  {
    DefaultKeys(id, now);
    if k == Name(Id) { f := Id; }
    else if k == Name(Alergias) { f := Alergias; }
    else if k == Name(MedicamentosUso) { f := MedicamentosUso; }
    else if k == Name(DoencasCronicas) { f := DoencasCronicas; }
    else if k == Name(CirurgiasPrevias) { f := CirurgiasPrevias; }
    else if k == Name(HistoricoFamiliar) { f := HistoricoFamiliar; }
    else if k == Name(Observacoes) { f := Observacoes; }
    else if k == Name(DataCadastro) { f := DataCadastro; }
    else if k == Name(DataAtualizacao) { f := DataAtualizacao; }
    else { f := Ativo; }
    DefaultAt(f, id, now);
  }

  /** The keys of `defaults` are the names of the defaulted fields. */
  lemma DefaultKeys(id: string, now: string)
    ensures NovoDefaults(id, now).Keys == {Name(Id), Name(Alergias), Name(MedicamentosUso), Name(DoencasCronicas),
                      Name(CirurgiasPrevias), Name(HistoricoFamiliar), Name(Observacoes),
                      Name(DataCadastro), Name(DataAtualizacao), Name(Ativo)}
  {
  }

  /** The `defaults` dictionary holds exactly the fields with a default, under their names. */
  lemma DefaultAt(f: Field, id: string, now: string)
    ensures Name(f) in NovoDefaults(id, now) <==> DefaultValue(f, id, now).Some?
    ensures Name(f) in NovoDefaults(id, now) ==> NovoDefaults(id, now)[Name(f)] == DefaultValue(f, id, now).value
  {
  }

  /** `CriarNovoSpec` for one field. */
  lemma CriarNovoField(dados: map<string, Value>, id: string, now: string, f: Field)
    requires CriarNovo(dados, id, now).Ok?
    ensures Name(f) in dados ==> Get(CriarNovo(dados, id, now).value, f) == dados[Name(f)]
    ensures Name(f) !in dados ==> DefaultValue(f, id, now) == Some(Get(CriarNovo(dados, id, now).value, f))
  {
    var kw := NovoDefaults(id, now) + dados;
    assert CriarNovo(dados, id, now) == Build(kw);
    BuildSpec(kw);
    assert Get(Build(kw).value, f) == kw[Name(f)];
    DefaultAt(f, id, now);
  }

  // ---------------------------------------------------------------------------
  // Registration

  /** Why `cadastrar_paciente` raises. */
  datatype RegistrationError =
    | MissingRequired(campo: string)
    | DuplicateCpf(cpf: Value)
    | Invalid(error: PatientError)

  /** The required arguments: `nome`, `data_nascimento`, `sexo` and `cpf`. */
  const Obrigatorios: seq<string> := [Name(Nome), Name(DataNascimento), Name(Sexo), Name(Cpf)]

  /** `dados.get(k)`. */
  function Lookup(dados: map<string, Value>, k: string): Value {
    if k in dados then dados[k] else Null
  }

  /** The first listed name whose argument is missing or false. */
  function FirstFalsy(campos: seq<string>, dados: map<string, Value>): (r: Option<string>)
    ensures r.None? <==> forall i :: 0 <= i < |campos| ==> Truthy(Lookup(dados, campos[i]))
    ensures r.Some? ==> exists i :: (0 <= i < |campos| && campos[i] == r.value &&
      !Truthy(Lookup(dados, campos[i])) && forall j :: 0 <= j < i ==> Truthy(Lookup(dados, campos[j])))
  {
    if campos == [] then None
    else if !Truthy(Lookup(dados, campos[0])) then Some(campos[0])
    else
      var r := FirstFalsy(campos[1..], dados);
      assert forall i :: 0 < i < |campos| ==> campos[i] == campos[1..][i - 1];
      r
  }

  // ---------------------------------------------------------------------------
  // Statistics

  /** The dictionary `get_estatisticas` returns. */
  datatype PatientStatistics = PatientStatistics(
    totalPacientes: int,
    ativos: int,
    inativos: int,
    homens: int,
    mulheres: int,
    comAlergias: int,
    comMedicamentos: int)

  const MaleTerms: seq<string> := ["m", "masculino"]

  predicate IsMale(p: Paciente) {
    Lower(p.sexo) in MaleTerms
  }

  predicate IsActiveMale(p: Paciente) {
    p.ativo && IsMale(p)
  }

  predicate HasAllergies(p: Paciente) {
    p.alergias != [] && p.ativo
  }

  predicate TakesMedication(p: Paciente) {
    p.medicamentosUso != [] && p.ativo
  }

  /** The statistics as paciente.py computes them: `homens` counts inactive
      patients too, while `mulheres` subtracts it from the active count. */
  function StatisticsAsWritten(ps: seq<Paciente>): PatientStatistics {
    var ativos := Count(ps, IsActive);
    var homens := Count(ps, IsMale);
    PatientStatistics(|ps|, ativos, |ps| - ativos, homens, ativos - homens,
                      Count(ps, HasAllergies), Count(ps, TakesMedication))
  }

  /** One inactive man: the statistics as written report -1 women. */
  lemma NegativeWomenAsWritten()
    ensures var p := Defaults("p1", "", "").(sexo := "m", ativo := false);
      StatisticsAsWritten([p]).mulheres == -1
  {
    var p := Defaults("p1", "", "").(sexo := "m", ativo := false);
    assert Lower("m") == "m" by { assert Lower("m")[0] == 'm'; }
    assert [p][..0] == [];
  }

  /** The statistics with `homens` restricted to active patients, as database.py
      counts them: every count is a part of the active or the whole population. */
  function Statistics(ps: seq<Paciente>): (s: PatientStatistics)
    ensures s.totalPacientes == |ps|
    ensures s.inativos == s.totalPacientes - s.ativos >= 0
    ensures 0 <= s.homens <= s.ativos
    ensures s.mulheres == s.ativos - s.homens >= 0
    ensures 0 <= s.comAlergias <= s.ativos && 0 <= s.comMedicamentos <= s.ativos
  {
    CountMono(ps, IsActiveMale, IsActive);
    CountMono(ps, HasAllergies, IsActive);
    CountMono(ps, TakesMedication, IsActive);
    var ativos := Count(ps, IsActive);
    var homens := Count(ps, IsActiveMale);
    PatientStatistics(|ps|, ativos, |ps| - ativos, homens, ativos - homens,
                      Count(ps, HasAllergies), Count(ps, TakesMedication))
  }

  /** The two agree while no patient is inactive. */
  lemma StatisticsAgreeWhenAllActive(ps: seq<Paciente>)
    requires forall i :: 0 <= i < |ps| ==> ps[i].ativo
    ensures StatisticsAsWritten(ps) == Statistics(ps)
  {
    CountAgree(ps, IsMale, IsActiveMale);
  }

  // ---------------------------------------------------------------------------
  // The manager

  class PacienteManager {
    var pacientes: Dicts.Dict<Paciente>

    ghost predicate Valid()
      reads this
    {
      Dicts.Valid(pacientes)
    }

    /** The state after `_carregar_pacientes` has run on what the file held. */
    constructor (pacientes: Dicts.Dict<Paciente>)
      requires Dicts.Valid(pacientes)
      ensures Valid() && this.pacientes == pacientes
    {
      this.pacientes := pacientes;
    }

    /** `cadastrar_paciente`: a missing or empty required field, an active
        patient with the same CPF or a failed construction raises and inserts
        nothing; otherwise the new patient is stored under its id whether or
        not the save succeeds, and is returned only when it does. */
    method CadastrarPaciente(dados: map<string, Value>, id: string, now: string, saved: bool)
      returns (r: Result<Option<Paciente>, RegistrationError>)
      requires Valid()
      modifies this
      ensures Valid()
      ensures FirstFalsy(Obrigatorios, dados).Some? ==>
        r == Err(MissingRequired(FirstFalsy(Obrigatorios, dados).value)) && pacientes == old(pacientes)
      ensures FirstFalsy(Obrigatorios, dados).None? && ActiveWithCpf(Dicts.Values(old(pacientes)), Lookup(dados, Name(Cpf))) ==>
        r == Err(DuplicateCpf(Lookup(dados, Name(Cpf)))) && pacientes == old(pacientes)
      ensures FirstFalsy(Obrigatorios, dados).None? && !ActiveWithCpf(Dicts.Values(old(pacientes)), Lookup(dados, Name(Cpf))) ==>
        match CriarNovo(dados, id, now)
        case Err(e) => r == Err(Invalid(e)) && pacientes == old(pacientes)
        case Ok(p) => pacientes == Dicts.Set(old(pacientes), p.id, p) && r == Ok(if saved then Some(p) else None)
    {
      var i := 0;
      while i < |Obrigatorios|
        invariant 0 <= i <= |Obrigatorios|
        invariant FirstFalsy(Obrigatorios, dados) == FirstFalsy(Obrigatorios[i..], dados)
      {
        var campo := Obrigatorios[i];
        if !Truthy(Lookup(dados, campo)) {
          return Err(MissingRequired(campo));
        }
        assert Obrigatorios[i..][1..] == Obrigatorios[i + 1..];
        i := i + 1;
      }
      var cpf := Lookup(dados, Name(Cpf));
      var dup := FindActiveCpf(Dicts.Values(pacientes), cpf);
      if dup {
        return Err(DuplicateCpf(cpf));
      }
      match CriarNovo(dados, id, now)
      case Err(e) =>
        r := Err(Invalid(e));
      case Ok(p) =>
        pacientes := Dicts.Set(pacientes, p.id, p);
        r := Ok(if saved then Some(p) else None);
    }

    /** `buscar_paciente`: the active patients, in dictionary order, that
        satisfy every filter. */
    method BuscarPaciente(filtros: seq<(string, string)>) returns (resultados: seq<Paciente>)
      requires Valid()
      ensures resultados == Search(Dicts.Values(pacientes), filtros)
    {
      resultados := SearchActive(Dicts.Values(pacientes), filtros);
    }

    /** `atualizar_paciente`: an unknown id returns false and changes nothing;
        otherwise the named attributes are set, `data_atualizacao` becomes
        `now` and the save's outcome is returned. */
    method AtualizarPaciente(id: string, ups: seq<(string, Value)>, now: string, saved: bool) returns (ok: bool)
      requires Valid()
      modifies this
      ensures Valid()
      ensures id !in old(pacientes.items) ==> !ok && pacientes == old(pacientes)
      ensures id in old(pacientes.items) ==> ok == saved
      ensures id in old(pacientes.items) ==>
        pacientes == Dicts.Set(old(pacientes), id, Updated(old(pacientes.items[id]), ups).(dataAtualizacao := now))
    {
      if id !in pacientes.items {
        return false;
      }
      var p := ApplyUpdates(pacientes.items[id], ups);
      pacientes := Dicts.Set(pacientes, id, p.(dataAtualizacao := now));
      ok := saved;
    }

    /** `inativar_paciente`: the patient stays in the dictionary, inactive and
        with `data_atualizacao` set to `now`; an unknown id returns false and
        changes nothing. */
    method InativarPaciente(id: string, now: string, saved: bool) returns (ok: bool)
      requires Valid()
      modifies this
      ensures Valid()
      ensures id !in old(pacientes.items) ==> !ok && pacientes == old(pacientes)
      ensures id in old(pacientes.items) ==> ok == saved
      ensures id in old(pacientes.items) ==>
        pacientes == Dicts.Set(old(pacientes), id, old(pacientes.items[id]).(ativo := false, dataAtualizacao := now))
    {
      if id in pacientes.items {
        var p := pacientes.items[id];
        pacientes := Dicts.Set(pacientes, id, p.(ativo := false, dataAtualizacao := now));
        return saved;
      }
      return false;
    }

    /** `get_estatisticas`, with `homens` counting active patients only. */
    function Estatisticas(): (s: PatientStatistics)
      requires Valid()
      reads this
      ensures s.totalPacientes == |pacientes.items|
      ensures s.mulheres >= 0 && s.inativos >= 0
    {
      Dicts.LenIsSize(pacientes);
      Statistics(Dicts.Values(pacientes))
    }
  }

  /** After a successful registration, registering the same CPF again is
      refused while the new patient is active. */
  method SecondRegistrationRefused(m: PacienteManager, dados: map<string, Value>, id1: string, id2: string,
                                   now: string, saved: bool)
    returns (first: Result<Option<Paciente>, RegistrationError>, second: Result<Option<Paciente>, RegistrationError>)
    requires m.Valid()
    requires CriarNovo(dados, id1, now).Ok? && CriarNovo(dados, id1, now).value.ativo
    modifies m
    ensures m.Valid()
    ensures first.Ok? ==> second == Err(DuplicateCpf(Lookup(dados, Name(Cpf))))
  {
    first := m.CadastrarPaciente(dados, id1, now, saved);
    if first.Ok? {
      RegisteredIsFound(old(m.pacientes), dados, id1, now);
    }
    second := m.CadastrarPaciente(dados, id2, now, saved);
  }

  /** Once a registration is stored, its CPF is that of an active patient. */
  lemma RegisteredIsFound(d: Dicts.Dict<Paciente>, dados: map<string, Value>, id: string, now: string)
    requires Dicts.Valid(d) && FirstFalsy(Obrigatorios, dados).None?
    requires CriarNovo(dados, id, now).Ok? && CriarNovo(dados, id, now).value.ativo
    ensures ActiveWithCpf(Dicts.Values(Dicts.Set(d, CriarNovo(dados, id, now).value.id, CriarNovo(dados, id, now).value)),
      Lookup(dados, Name(Cpf)))
  {
    assert Truthy(Lookup(dados, Obrigatorios[3]));
    RegisteredCpf(dados, id, now);
    StoredIsFound(d, CriarNovo(dados, id, now).value, Lookup(dados, Name(Cpf)));
  }

  /** The constructed patient carries the CPF it was given. */
  lemma RegisteredCpf(dados: map<string, Value>, id: string, now: string)
    requires CriarNovo(dados, id, now).Ok?
    requires Name(Cpf) in dados
    ensures Get(CriarNovo(dados, id, now).value, Cpf) == dados[Name(Cpf)]
  {
    CriarNovoField(dados, id, now, Cpf);
  }

  /** A stored active patient is found by the duplicate-CPF check. */
  lemma StoredIsFound(d: Dicts.Dict<Paciente>, p: Paciente, cpf: Value)
    requires Dicts.Valid(d) && p.ativo && Get(p, Cpf) == cpf
    ensures ActiveWithCpf(Dicts.Values(Dicts.Set(d, p.id, p)), cpf)
  {
    var e := Dicts.Set(d, p.id, p);
    assert Dicts.Values(e)[Dicts.IndexOf(e, p.id)] == p;
  }

  /** An inactivated patient no longer appears in any search. */
  method InactiveNotFound(m: PacienteManager, id: string, now: string, saved: bool, filtros: seq<(string, string)>)
    returns (found: seq<Paciente>)
    requires m.Valid() && id in m.pacientes.items
    modifies m
    ensures m.Valid()
    ensures id in m.pacientes.items && m.pacientes.items[id] !in found
    ensures forall p :: p in found ==> p.ativo
  {
    var _ := m.InativarPaciente(id, now, saved);
    found := m.BuscarPaciente(filtros);
    SearchSpec(Dicts.Values(m.pacientes), filtros);
  }
}
