/**
 * The records of models.py: diseases (`Doenca`), patients (`Paciente`) and
 * diagnosis history entries (`Diagnostico`), with their defaulting
 * constructors, plus the raw catalogue-file shapes the loaders hand over.
 */
module Models {
  import opened Wrappers

  // ---------------------------------------------------------------------------
  // Catalogue data

  /** One entry of a disease's `sintomas` list: a `{s, peso, tipo}` object
      whose optional keys may be absent, or a bare value (kept as its `str`). */
  datatype SymptomEntry =
    | Record(s: string, peso: Option<real>, tipo: Option<string>)
    | Bare(text: string)

  /** The `condicoes` object: both keys optional. */
  datatype Conditions = Conditions(minSintomas: Option<int>, obrigatorios: Option<seq<string>>)

  const NoConditions := Conditions(None, None)

  /** models.py `Doenca`. */
  datatype Doenca = Doenca(
    nome: string,
    tipo: string,
    categoria: string,
    descricao: string,
    tratamento: string,
    severidade: string,
    sintomas: seq<SymptomEntry>,
    condicoes: Conditions)

  /** A disease object as it stands in the catalogue file: every key optional. */
  datatype DiseaseDict = DiseaseDict(
    doenca: Option<string>,
    tipo: Option<string>,
    categoria: Option<string>,
    descricao: Option<string>,
    tratamento: Option<string>,
    severidade: Option<string>,
    sintomas: Option<seq<SymptomEntry>>,
    condicoes: Option<Conditions>)

  const EmptyDiseaseDict := DiseaseDict(None, None, None, None, None, None, None, None)

  /** An element of the catalogue's `fisicas` / `mentais` lists. */
  datatype CatalogItem = Object(d: DiseaseDict) | NonObject

  /** The value under the catalogue's `doencas` key. */
  datatype DiseaseGroups = DiseaseGroups(fisicas: Option<seq<CatalogItem>>, mentais: Option<seq<CatalogItem>>)

  /** The parsed catalogue file: a JSON object (with or without `doencas`) or anything else. */
  datatype CatalogDoc = ObjectDoc(doencas: Option<DiseaseGroups>) | NonObjectDoc

  /** `Doenca.from_dict`: the name comes from key `doenca`; every missing key
      takes the dataclass default. */
  function DoencaFromDict(d: DiseaseDict): (r: Doenca)
    ensures r.nome == d.doenca.GetOr("")
    ensures d.tipo.None? ==> r.tipo == "físico"
    ensures d.categoria.None? ==> r.categoria == "fisica"
    ensures d.severidade.None? ==> r.severidade == "moderada"
    ensures d.sintomas.None? ==> r.sintomas == []
    ensures d.condicoes.None? ==> r.condicoes == NoConditions
  {
    Doenca(
      d.doenca.GetOr(""),
      d.tipo.GetOr("físico"),
      d.categoria.GetOr("fisica"),
      d.descricao.GetOr(""),
      d.tratamento.GetOr(""),
      d.severidade.GetOr("moderada"),
      d.sintomas.GetOr([]),
      d.condicoes.GetOr(NoConditions))
  }

  /** The catalogue-file object that describes `d` with every key present. */
  function DiseaseDictOf(d: Doenca): DiseaseDict {
    DiseaseDict(Some(d.nome), Some(d.tipo), Some(d.categoria), Some(d.descricao),
                Some(d.tratamento), Some(d.severidade), Some(d.sintomas), Some(d.condicoes))
  }

  /** `from_dict` reads back every field of a fully written disease object. */
  lemma DoencaRoundTrip(d: Doenca)
    ensures DoencaFromDict(DiseaseDictOf(d)) == d
  {
  }

  /** An empty object yields the dataclass defaults. */
  lemma DoencaDefaults()
    ensures DoencaFromDict(EmptyDiseaseDict) == Doenca("", "físico", "fisica", "", "", "moderada", [], NoConditions)
  {
  }

  /** One element of the engine's output (`ResultadoDiagnostico.to_dict`), the
      record that history entries embed. */
  datatype ResultRecord = ResultRecord(
    doenca: string,
    tipo: string,
    categoria: string,
    descricao: string,
    tratamento: string,
    severidade: string,
    porcentagem: real,
    correspondentes: seq<string>,
    faltantes: seq<string>,
    pontuacaoBruta: real,
    pontuacaoMaxima: real)

  // ---------------------------------------------------------------------------
  // Patients

  /** A keyword-argument or dictionary value as the patient code receives it. */
  datatype Value =
    | Str(s: string)
    | StrList(items: seq<string>)
    | StrPairs(pairs: seq<(string, string)>)
    | Bool(b: bool)
    | Null

  /** The `Paciente` dataclass (the same field set in models.py and paciente.py). */
  datatype Paciente = Paciente(
    id: string,
    nome: string,
    dataNascimento: string,
    sexo: string,
    telefone: string,
    email: string,
    cpf: string,
    endereco: string,
    cidade: string,
    estado: string,
    cep: string,
    alergias: seq<string>,
    medicamentosUso: seq<string>,
    doencasCronicas: seq<string>,
    cirurgiasPrevias: seq<string>,
    historicoFamiliar: seq<(string, string)>,
    observacoes: string,
    dataCadastro: string,
    dataAtualizacao: string,
    ativo: bool)

  /** The dataclass's fields, one constructor each. */
  datatype Field =
    | Id | Nome | DataNascimento | Sexo | Telefone | Email | Cpf | Endereco | Cidade | Estado | Cep
    | Alergias | MedicamentosUso | DoencasCronicas | CirurgiasPrevias | HistoricoFamiliar | Observacoes
    | DataCadastro | DataAtualizacao | Ativo

  /** The attribute name of each field. */
  function Name(f: Field): string {
    match f
    case Id => "id"
    case Nome => "nome"
    case DataNascimento => "data_nascimento"
    case Sexo => "sexo"
    case Telefone => "telefone"
    case Email => "email"
    case Cpf => "cpf"
    case Endereco => "endereco"
    case Cidade => "cidade"
    case Estado => "estado"
    case Cep => "cep"
    case Alergias => "alergias"
    case MedicamentosUso => "medicamentos_uso"
    case DoencasCronicas => "doencas_cronicas"
    case CirurgiasPrevias => "cirurgias_previas"
    case HistoricoFamiliar => "historico_familiar"
    case Observacoes => "observacoes"
    case DataCadastro => "data_cadastro"
    case DataAtualizacao => "data_atualizacao"
    case Ativo => "ativo"
  }

  /** The fields in declaration order. */
  const AllFields: seq<Field> := [
    Id, Nome, DataNascimento, Sexo, Telefone, Email, Cpf, Endereco, Cidade, Estado, Cep,
    Alergias, MedicamentosUso, DoencasCronicas, CirurgiasPrevias, HistoricoFamiliar, Observacoes,
    DataCadastro, DataAtualizacao, Ativo]

  /** The first field of `fs` named `s`, if any. */
  function FieldIn(fs: seq<Field>, s: string): (r: Option<Field>)
    ensures r.Some? ==> r.value in fs && Name(r.value) == s
    ensures r.None? ==> forall f :: f in fs ==> Name(f) != s
  {
    if fs == [] then None
    else if Name(fs[0]) == s then Some(fs[0])
    else
      assert forall f :: f in fs ==> f == fs[0] || f in fs[1..] by {
        assert fs == [fs[0]] + fs[1..];
      }
      FieldIn(fs[1..], s)
  }

  /** The dataclass field an attribute name denotes. `hasattr` is modelled as
      "names a field": methods and dunder attributes count as absent. */
  function FieldOf(s: string): (r: Option<Field>)
    ensures r.Some? ==> Name(r.value) == s
    ensures r.None? ==> forall f :: Name(f) != s
  {
    AllFieldsListed();
    FieldIn(AllFields, s)
  }

  lemma AllFieldsComplete(f: Field)
    ensures f in AllFields
  {
  }

  lemma AllFieldsListed()
    ensures forall f :: f in AllFields
  {
    forall f ensures f in AllFields {
      AllFieldsComplete(f);
    }
  }

  /** The position of each field in `AllFields`. */
  function Position(f: Field): nat {
    match f
    case Id => 0
    case Nome => 1
    case DataNascimento => 2
    case Sexo => 3
    case Telefone => 4
    case Email => 5
    case Cpf => 6
    case Endereco => 7
    case Cidade => 8
    case Estado => 9
    case Cep => 10
    case Alergias => 11
    case MedicamentosUso => 12
    case DoencasCronicas => 13
    case CirurgiasPrevias => 14
    case HistoricoFamiliar => 15
    case Observacoes => 16
    case DataCadastro => 17
    case DataAtualizacao => 18
    case Ativo => 19
  }

  lemma PositionsListed()
    ensures forall i :: 0 <= i < |AllFields| ==> Position(AllFields[i]) == i
  {
  }

  /** No field is listed twice. */
  lemma AllFieldsDistinct()
    ensures forall i, j :: 0 <= i < j < |AllFields| ==> AllFields[i] != AllFields[j]
  {
    PositionsListed();
  }

  lemma NameInjective(f: Field, g: Field)
    requires Name(f) == Name(g)
    ensures f == g
  {
  }

  /** Every field is found under its own name. */
  lemma FieldOfName(f: Field)
    ensures FieldOf(Name(f)) == Some(f)
  {
    NameInjective(FieldOf(Name(f)).value, f);
  }

  /** Why building or updating a patient fails (a `TypeError` in the source). */
  datatype PatientError =
    | UnexpectedField
    | MissingField(name: string)
    | TypeMismatch(name: string)

  /** `getattr(p, Name(f))`. */
  function Get(p: Paciente, f: Field): Value {
    match f
    case Id => Str(p.id)
    case Nome => Str(p.nome)
    case DataNascimento => Str(p.dataNascimento)
    case Sexo => Str(p.sexo)
    case Telefone => Str(p.telefone)
    case Email => Str(p.email)
    case Cpf => Str(p.cpf)
    case Endereco => Str(p.endereco)
    case Cidade => Str(p.cidade)
    case Estado => Str(p.estado)
    case Cep => Str(p.cep)
    case Alergias => StrList(p.alergias)
    case MedicamentosUso => StrList(p.medicamentosUso)
    case DoencasCronicas => StrList(p.doencasCronicas)
    case CirurgiasPrevias => StrList(p.cirurgiasPrevias)
    case HistoricoFamiliar => StrPairs(p.historicoFamiliar)
    case Observacoes => Str(p.observacoes)
    case DataCadastro => Str(p.dataCadastro)
    case DataAtualizacao => Str(p.dataAtualizacao)
    case Ativo => Bool(p.ativo)
  }

  /** `v` is of the kind field `f` holds. */
  predicate Fits(f: Field, v: Value) {
    match f
    case Alergias | MedicamentosUso | DoencasCronicas | CirurgiasPrevias => v.StrList?
    case HistoricoFamiliar => v.StrPairs?
    case Ativo => v.Bool?
    case _ => v.Str?
  }

  /** `setattr(p, Name(f), v)`; `None` when `v` is of another kind. */
  function Set(p: Paciente, f: Field, v: Value): Option<Paciente> {
    if !Fits(f, v) then None
    else match f
      case Id => Some(p.(id := v.s))
      case Nome => Some(p.(nome := v.s))
      case DataNascimento => Some(p.(dataNascimento := v.s))
      case Sexo => Some(p.(sexo := v.s))
      case Telefone => Some(p.(telefone := v.s))
      case Email => Some(p.(email := v.s))
      case Cpf => Some(p.(cpf := v.s))
      case Endereco => Some(p.(endereco := v.s))
      case Cidade => Some(p.(cidade := v.s))
      case Estado => Some(p.(estado := v.s))
      case Cep => Some(p.(cep := v.s))
      case Alergias => Some(p.(alergias := v.items))
      case MedicamentosUso => Some(p.(medicamentosUso := v.items))
      case DoencasCronicas => Some(p.(doencasCronicas := v.items))
      case CirurgiasPrevias => Some(p.(cirurgiasPrevias := v.items))
      case HistoricoFamiliar => Some(p.(historicoFamiliar := v.pairs))
      case Observacoes => Some(p.(observacoes := v.s))
      case DataCadastro => Some(p.(dataCadastro := v.s))
      case DataAtualizacao => Some(p.(dataAtualizacao := v.s))
      case Ativo => Some(p.(ativo := v.b))
  }

  /** A `setattr` with a value of the right kind changes exactly that field, to
      that value. */
  lemma SetSpec(p: Paciente, f: Field, v: Value)
    ensures Set(p, f, v).Some? <==> Fits(f, v)
    ensures Fits(f, v) ==> Get(Set(p, f, v).value, f) == v
    ensures Fits(f, v) ==> forall g :: g != f ==> Get(Set(p, f, v).value, g) == Get(p, g)
  {
  }

  /** A field always holds a value of its own kind. */
  lemma GetFits(p: Paciente, f: Field)
    ensures Fits(f, Get(p, f))
  {
  }

  /** Two patients whose fields all agree are the same patient. */
  lemma FieldsDetermine(p: Paciente, q: Paciente)
    requires forall f :: Get(p, f) == Get(q, f)
    ensures p == q
  {
    assert p.id == q.id by { assert Get(p, Id) == Get(q, Id); }
    assert p.nome == q.nome by { assert Get(p, Nome) == Get(q, Nome); }
    assert p.dataNascimento == q.dataNascimento by { assert Get(p, DataNascimento) == Get(q, DataNascimento); }
    assert p.sexo == q.sexo by { assert Get(p, Sexo) == Get(q, Sexo); }
    assert p.telefone == q.telefone by { assert Get(p, Telefone) == Get(q, Telefone); }
    assert p.email == q.email by { assert Get(p, Email) == Get(q, Email); }
    assert p.cpf == q.cpf by { assert Get(p, Cpf) == Get(q, Cpf); }
    assert p.endereco == q.endereco by { assert Get(p, Endereco) == Get(q, Endereco); }
    assert p.cidade == q.cidade by { assert Get(p, Cidade) == Get(q, Cidade); }
    assert p.estado == q.estado by { assert Get(p, Estado) == Get(q, Estado); }
    assert p.cep == q.cep by { assert Get(p, Cep) == Get(q, Cep); }
    assert p.alergias == q.alergias by { assert Get(p, Alergias) == Get(q, Alergias); }
    assert p.medicamentosUso == q.medicamentosUso by { assert Get(p, MedicamentosUso) == Get(q, MedicamentosUso); }
    assert p.doencasCronicas == q.doencasCronicas by { assert Get(p, DoencasCronicas) == Get(q, DoencasCronicas); }
    assert p.cirurgiasPrevias == q.cirurgiasPrevias by { assert Get(p, CirurgiasPrevias) == Get(q, CirurgiasPrevias); }
    assert p.historicoFamiliar == q.historicoFamiliar by { assert Get(p, HistoricoFamiliar) == Get(q, HistoricoFamiliar); }
    assert p.observacoes == q.observacoes by { assert Get(p, Observacoes) == Get(q, Observacoes); }
    assert p.dataCadastro == q.dataCadastro by { assert Get(p, DataCadastro) == Get(q, DataCadastro); }
    assert p.dataAtualizacao == q.dataAtualizacao by { assert Get(p, DataAtualizacao) == Get(q, DataAtualizacao); }
    assert p.ativo == q.ativo by { assert Get(p, Ativo) == Get(q, Ativo); }
  }

  /** The argument `kw` gives for field `f`, if any. */
  function Given(kw: map<string, Value>, f: Field): Option<Value> {
    if Name(f) in kw then Some(kw[Name(f)]) else None
  }

  /** Sets, in the order of `fs`, every listed field that `kw` gives. */
  function Fill(fs: seq<Field>, kw: map<string, Value>, p: Paciente): Result<Paciente, PatientError> {
    if fs == [] then Ok(p)
    else
      match Given(kw, fs[0])
      case None => Fill(fs[1..], kw, p)
      case Some(v) =>
        match Set(p, fs[0], v)
        case None => Err(TypeMismatch(Name(fs[0])))
        case Some(q) => Fill(fs[1..], kw, q)
  }

  /** Every listed field that `kw` gives takes that value, every other field
      keeps its value; `Fill` fails exactly when a given value has the wrong kind. */
  lemma {:induction false} FillSpec(fs: seq<Field>, kw: map<string, Value>, p: Paciente)
    requires forall i, j :: 0 <= i < j < |fs| ==> fs[i] != fs[j]
    ensures Fill(fs, kw, p).Ok? <==> forall f :: f in fs && Given(kw, f).Some? ==> Fits(f, Given(kw, f).value)
    ensures Fill(fs, kw, p).Ok? ==> forall f :: Get(Fill(fs, kw, p).value, f) ==
                                              if f in fs && Given(kw, f).Some? then Given(kw, f).value else Get(p, f)
  {
    if fs != [] {
      var f := fs[0];
      assert forall g :: g in fs[1..] ==> g != f by {
        forall g | g in fs[1..] ensures g != f {
          var j :| 0 <= j < |fs[1..]| && fs[1..][j] == g;
          assert fs[j + 1] == g;
        }
      }
      assert forall g :: g in fs <==> g == f || g in fs[1..] by {
        assert fs == [f] + fs[1..];
      }
      match Given(kw, f)
      case None =>
        FillSpec(fs[1..], kw, p);
      case Some(v) =>
        SetSpec(p, f, v);
        if Fits(f, v) {
          FillSpec(fs[1..], kw, Set(p, f, v).value);
        }
    }
  }

  /** `Paciente(**kw)` with `base` supplying every field `kw` does not give; a
      key that names no field is a `TypeError`. */
  function Construct(kw: map<string, Value>, base: Paciente): Result<Paciente, PatientError> {
    if exists k | k in kw.Keys :: FieldOf(k).None? then Err(UnexpectedField)
    else Fill(AllFields, kw, base)
  }

  /** With every key naming a field, the keys' values fit their fields exactly
      when every field's given value fits it. */
  lemma KnownKeysFit(kw: map<string, Value>)
    requires forall k :: k in kw ==> FieldOf(k).Some?
    ensures (forall k :: k in kw ==> Fits(FieldOf(k).value, kw[k])) <==>
            (forall f :: f in AllFields && Given(kw, f).Some? ==> Fits(f, Given(kw, f).value))
  {
    if forall k :: k in kw ==> Fits(FieldOf(k).value, kw[k]) {
      forall f | f in AllFields && Given(kw, f).Some? ensures Fits(f, Given(kw, f).value) {
        FieldOfName(f);
      }
    } else {
      var k :| k in kw && !Fits(FieldOf(k).value, kw[k]);
      var f := FieldOf(k).value;
      AllFieldsComplete(f);
      assert Given(kw, f) == Some(kw[k]);
    }
  }

  /** `Construct` succeeds exactly when every key names a field and carries a
      value of that field's kind; the result takes every given value and
      `base`'s value for every other field. */
  lemma ConstructSpec(kw: map<string, Value>, base: Paciente)
    ensures Construct(kw, base).Ok? <==>
      forall k :: k in kw ==> FieldOf(k).Some? && Fits(FieldOf(k).value, kw[k])
    ensures Construct(kw, base).Ok? ==> forall f :: Get(Construct(kw, base).value, f) ==
                                                  if Name(f) in kw then kw[Name(f)] else Get(base, f)
  {
    if !exists k | k in kw.Keys :: FieldOf(k).None? {
      AllFieldsDistinct();
      FillSpec(AllFields, kw, base);
      KnownKeysFit(kw);
      AllFieldsListed();
    }
  }

  /** The dataclass defaults of models.py; `id` and the two timestamps are the
      values the `uuid4` and `datetime.now` factories would produce. */
  function Defaults(id: string, cadastro: string, atualizacao: string): (p: Paciente)
    ensures p.ativo && p.alergias == [] && p.nome == "" && p.cpf == ""
  {
    Paciente(id, "", "", "", "", "", "", "", "", "", "", [], [], [], [], [], "", cadastro, atualizacao, true)
  }

  /** A keyword argument `Paciente.criar_novo` (models.py) keeps: neither `None` nor `""`. */
  predicate Kept(v: Value) {
    v != Null && v != Str("")
  }

  /** The dictionary of kept keyword arguments, later ones overriding earlier ones. */
  function KeepGiven(kwargs: seq<(string, Value)>): (m: map<string, Value>)
    ensures forall k :: k in m ==> Kept(m[k])
  {
    if kwargs == [] then map[]
    else
      var rest := KeepGiven(kwargs[..|kwargs| - 1]);
      var (k, v) := kwargs[|kwargs| - 1];
      if Kept(v) then rest[k := v] else rest
  }

  /** Keyword arguments with no repeated name (as a Python `**kwargs` dict). */
  predicate DistinctNames<V>(kwargs: seq<(string, V)>) {
    forall i, j :: 0 <= i < j < |kwargs| ==> kwargs[i].0 != kwargs[j].0
  }

  /** With distinct names, `KeepGiven` holds exactly the kept arguments. */
  lemma {:induction false} KeepGivenSpec(kwargs: seq<(string, Value)>)
    requires DistinctNames(kwargs)
    ensures forall i :: 0 <= i < |kwargs| && Kept(kwargs[i].1) ==>
      kwargs[i].0 in KeepGiven(kwargs) && KeepGiven(kwargs)[kwargs[i].0] == kwargs[i].1
    ensures forall i :: 0 <= i < |kwargs| && !Kept(kwargs[i].1) ==> kwargs[i].0 !in KeepGiven(kwargs)
    ensures forall k :: k in KeepGiven(kwargs) ==> exists i :: 0 <= i < |kwargs| && kwargs[i].0 == k
  {
    if kwargs != [] {
      var n := |kwargs| - 1;
      var front := kwargs[..n];
      assert DistinctNames(front) by {
        forall i, j | 0 <= i < j < |front| ensures front[i].0 != front[j].0 {
          assert front[i] == kwargs[i] && front[j] == kwargs[j];
        }
      }
      KeepGivenSpec(front);
      forall k | k in KeepGiven(kwargs) ensures exists i :: 0 <= i < |kwargs| && kwargs[i].0 == k {
        if k != kwargs[n].0 {
          var i :| 0 <= i < |front| && front[i].0 == k;
          assert kwargs[i].0 == k;
        }
      }
      forall i | 0 <= i < n ensures kwargs[i] == front[i] && kwargs[i].0 != kwargs[n].0 { }
    }
  }

  /** models.py `Paciente.criar_novo`: empty arguments fall back to the defaults. */
  function CriarNovoPaciente(kwargs: seq<(string, Value)>, id: string, cadastro: string, atualizacao: string)
    : Result<Paciente, PatientError>
  {
    Construct(KeepGiven(kwargs), Defaults(id, cadastro, atualizacao))
  }

  /** `criar_novo` keeps every non-empty argument verbatim and gives every field
      whose argument is `None` or `""`, or that has no argument, its default; it
      fails exactly on a kept argument with an unknown name or a value of the
      wrong kind. */
  lemma CriarNovoPacienteSpec(kwargs: seq<(string, Value)>, id: string, cadastro: string, atualizacao: string)
    requires DistinctNames(kwargs)
    ensures var r := CriarNovoPaciente(kwargs, id, cadastro, atualizacao);
      && (r.Ok? <==> forall i :: 0 <= i < |kwargs| && Kept(kwargs[i].1) ==>
            FieldOf(kwargs[i].0).Some? && Fits(FieldOf(kwargs[i].0).value, kwargs[i].1))
      && (r.Ok? ==> forall i, f :: 0 <= i < |kwargs| && kwargs[i].0 == Name(f) ==>
            Get(r.value, f) == if Kept(kwargs[i].1) then kwargs[i].1 else Get(Defaults(id, cadastro, atualizacao), f))
      && (r.Ok? ==> forall f :: (forall i :: 0 <= i < |kwargs| ==> kwargs[i].0 != Name(f)) ==>
            Get(r.value, f) == Get(Defaults(id, cadastro, atualizacao), f))
  {
    var base := Defaults(id, cadastro, atualizacao);
    var m := KeepGiven(kwargs);
    KeepGivenSpec(kwargs);
    ConstructSpec(m, base);
  }

  /** `dataclasses.asdict`: every field under its name, and nothing else. */
  function PacienteToDict(p: Paciente): (m: map<string, Value>)
    ensures forall f :: Name(f) in m && m[Name(f)] == Get(p, f)
    ensures forall k :: k in m ==> exists f :: Name(f) == k
  {
    var m := FieldsToDict(AllFields, p);
    AllFieldsListed();
    m
  }

  /** The listed fields of `p` under their names. */
  function FieldsToDict(fs: seq<Field>, p: Paciente): (m: map<string, Value>)
    ensures forall f :: f in fs ==> Name(f) in m && m[Name(f)] == Get(p, f)
    ensures forall k :: k in m ==> exists f :: f in fs && Name(f) == k
  {
    if fs == [] then map[]
    else
      var rest := FieldsToDict(fs[1..], p);
      var m := rest[Name(fs[0]) := Get(p, fs[0])];
      assert forall f :: f in fs ==> Name(f) in m && m[Name(f)] == Get(p, f) by {
        forall f | f in fs ensures Name(f) in m && m[Name(f)] == Get(p, f) {
          if Name(f) == Name(fs[0]) {
            NameInjective(f, fs[0]);
          } else {
            assert f in fs[1..];
          }
        }
      }
      assert forall k :: k in m ==> exists f :: f in fs && Name(f) == k by {
        forall k | k in m ensures exists f :: f in fs && Name(f) == k {
          if k == Name(fs[0]) {
            assert fs[0] in fs;
          } else {
            var f :| f in fs[1..] && Name(f) == k;
            assert f in fs;
          }
        }
      }
      m
  }

  /** `Paciente.from_dict`: `Paciente(**data)`, the defaults filling what is missing. */
  function PacienteFromDict(data: map<string, Value>, id: string, cadastro: string, atualizacao: string)
    : Result<Paciente, PatientError>
  {
    Construct(data, Defaults(id, cadastro, atualizacao))
  }

  /** `from_dict(to_dict(p))` rebuilds `p`, whatever the default factories give. */
  lemma PacienteRoundTrip(p: Paciente, id: string, cadastro: string, atualizacao: string)
    ensures PacienteFromDict(PacienteToDict(p), id, cadastro, atualizacao) == Ok(p)
  {
    var base := Defaults(id, cadastro, atualizacao);
    var m := PacienteToDict(p);
    forall k | k in m ensures FieldOf(k).Some? && Fits(FieldOf(k).value, m[k]) {
      var f :| Name(f) == k;
      FieldOfName(f);
      GetFits(p, f);
    }
    ConstructSpec(m, base);
    FieldsDetermine(Construct(m, base).value, p);
  }

  // ---------------------------------------------------------------------------
  // Diagnosis history entries

  /** models.py `Diagnostico`. */
  datatype Diagnostico = Diagnostico(
    id: string,
    pacienteId: string,
    pacienteNome: string,
    sintomas: seq<string>,
    dataHora: string,
    resultados: seq<ResultRecord>,
    topResultado: string,
    topPorcentagem: real)

  /** At most this many results are stored with a diagnosis. */
  const StoredResults := 10

  /** `Diagnostico.criar_novo`; `id` and `dataHora` are what the factories give. */
  function CriarNovoDiagnostico(p: Paciente, sintomas: seq<string>, resultados: seq<ResultRecord>,
                                id: string, dataHora: string): (d: Diagnostico)
    ensures resultados != [] ==> d.topResultado == resultados[0].doenca && d.topPorcentagem == resultados[0].porcentagem
    ensures resultados == [] ==> d.topResultado == "Nenhum resultado" && d.topPorcentagem == 0.0
    ensures d.resultados <= resultados
    ensures |d.resultados| == if |resultados| < StoredResults then |resultados| else StoredResults
    ensures d.pacienteId == p.id && d.pacienteNome == p.nome && d.sintomas == sintomas
  {
    var top := if resultados != [] then resultados[0].doenca else "Nenhum resultado";
    var pct := if resultados != [] then resultados[0].porcentagem else 0.0;
    var kept := if |resultados| < StoredResults then resultados else resultados[..StoredResults];
    Diagnostico(id, p.id, p.nome, sintomas, dataHora, kept, top, pct)
  }
}
