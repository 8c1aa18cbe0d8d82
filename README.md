# Weighted symptom matching for a medical diagnosis assistant

This project models the core of a small diagnosis assistant in Dafny and proves
properties of that model. The assistant is a Python desktop application that
keeps patients and a diagnosis history. Its core is a matching engine that scores
each disease in a catalogue against a list of selected symptoms. Each disease
carries weighted symptoms (`peso`, default 1.0) and eligibility conditions
(`sintomas_obrigatorios`, `min_sintomas`). The engine drops diseases that fail
those conditions and diseases whose percentage is below `PORCENTAGEM_MINIMA`. It
ranks the rest by percentage, stable and descending, cuts the list at
`LIMITE_RESULTADOS`, and caches the list under a key derived from the sorted
query.

Around the engine, the model covers:

- the data manager's hit-counting cache, which has a time-to-live and evicts
  the entry with the fewest hits;
- the catalogue normaliser;
- the record constructors of `models.py`;
- the validators and helpers of `utils.py`: the CPF check digits, the input
  sanitiser, percentage bands and age arithmetic;
- the in-memory patient registry and history operations of `database.py` and
  `paciente.py`.

Modules (one file each):

| file | module | models |
|---|---|---|
| `wrappers.dfy` | `Wrappers` | `Option`, `Result` (a raised exception is an `Err`) |
| `rounding.dfy` | `Rounding` | `round(x, 1)` and `round(x, 2)` on reals |
| `dicts.dfy` | `Dicts` | an insertion-ordered Python `dict` with string keys |
| `text.dfy` | `Text` | `str.isspace`, `str.lower`, substring `in`, string order, `sorted`, `','.join` |
| `models.dfy` | `Models` | `models.py` |
| `engine.dfy` | `Engine` | `engine.py` |
| `data_manager.dfy` | `DataManager` | `data_manager.py` |
| `utils.dfy` | `Utils` | `utils.py` |
| `patients.dfy` | `Patients` | search, CPF scan, `setattr` loop and counting shared by `database.py` and `paciente.py` |
| `database.dfy` | `Database` | `database.py` |
| `paciente_manager.dfy` | `PacienteManager` | `paciente.py` |

Configuration values become constructor parameters: `PORCENTAGEM_MINIMA`,
`LIMITE_RESULTADOS`, `MAX_HIST_ITENS`, `CACHE_TTL` and `CACHE_MAX_SIZE` (config.py:16-23).
The MD5 digest is the engine's `digest` parameter, an arbitrary function of the
key text. Everything about the key is proved on the text `','.join(sorted(q))`
that the source hashes. The current time, the generated uuid and each
file save's success are arguments of the operations that use them.

Behaviour of the code worth noting:

- the engine's cache is an unbounded dict with no eviction;
- its key does not remove duplicate symptoms, so `["a", "a"]` and `["a"]` give
  different keys;
- symptom names are compared by exact string equality;
- the catalogue the engine scans is built by `Doenca.from_dict` and is not
  normalised (bare symptom strings are scored with weight 1.0).

## Model

| member | source | states |
|---|---|---|
| `Engine.TabulateWeights` | engine.py:29-38 | the first loop builds the name-to-weight dict (a repeated name keeps its first place and last weight) and the maximum score, which adds every listed entry's weight, default 1.0, duplicates included |
| `Engine.SplitByQuery` | engine.py:40-46 | the second loop walks the dict in order: names found in the query go to matched and add their weight to the raw score, the others go to missing |
| `Engine.Calcular` | engine.py:26-50 | `_calcular` yields exactly the specified score: both loops, then the percentage, left at 0 while the maximum is 0 |
| `Engine.ScoreBounds` | engine.py:29-50 | with non-negative weights 0 <= raw <= max, the percentage lies in [0, 100], and it is 0 whenever the maximum is 0 |
| `Engine.PercentRange` | engine.py:49-50 | a part between 0 and the whole has a percentage in [0, 100] |
| `Engine.ScorePartition` | engine.py:40-46 | matched and missing are disjoint and together are the disease's distinct names; matched are exactly the names in the query; with distinct names their union is the catalogue's names counted once each |
| `Engine.FullMatch` | engine.py:40-50 | a query naming every symptom of a disease with distinct names and positive total weight scores 100 with nothing missing |
| `Engine.QueryMonotone` | engine.py:40-50 | naming more symptoms never lowers the raw score or the percentage |
| `Engine.DuplicateEntryHalves` | engine.py:29-46 | a name listed twice counts twice in the maximum but once in the raw score (a query naming it scores 50%) |
| `Engine.NamesCaseSensitive` | engine.py:42 | names are compared exactly: "Febre" does not match "febre" |
| `Engine.Eligible` | engine.py:111-134 | `_verificar_condicoes`: a disease with a positive `min_sintomas` passes only if it lists at least that many entries; a query naming every required symptom and every entry of a disease with at least `min_sintomas` entries passes (partners: `EligibleMonotone`, `IneligibleAbsent`) |
| `Engine.EligibleMonotone` | engine.py:111-134 | a disease that passes the gate for a query passes it for every larger query |
| `Engine.ToRecord` | engine.py:52-66 | the output record carries the disease's name and the score's percentage, matched and missing lists |
| `Engine.SortDesc` | engine.py:101 | the sort returns a permutation of its input that is non-increasing in percentage |
| `Engine.SortDescStable` | engine.py:101 | the sort is stable: records of equal percentage keep their relative order |
| `Engine.Take` | engine.py:104 | `s[:n]` is the prefix of exactly `min(n, len(s))` items |
| `Engine.RankedSpec` | engine.py:86-104 | every ranked result comes from a catalogue disease that passed the gate and scored at least the threshold; the list is non-increasing and holds exactly `min(LIMITE_RESULTADOS, kept)` of the kept results (all of them when they fit); every kept result that was cut scores no higher than any ranked one; ties appear in catalogue order |
| `Engine.IneligibleAbsent` | engine.py:88-91 | a disease that fails the gate never appears in the results, whatever its percentage |
| `Engine.KeyTextPermutation` | engine.py:136-140 | any permutation of the query gives the same cache key text |
| `Engine.KeyTextKeepsDuplicates` | engine.py:138-139 | repetitions are kept in the key: `["a","a"]` and `["a"]` differ |
| `Engine.KeyTextSeparatorCollision` | engine.py:138-139 | a name containing the separator shares its key text with the split names: `["a,b"]` and `["a","b"]` |
| `Engine.DiagnosticoEngine.constructor` | engine.py:71-73 | the engine starts with the given catalogue and an empty cache |
| `Engine.DiagnosticoEngine.Scan` | engine.py:86-98 | the catalogue loop keeps, in catalogue order, the record of every disease that passes the gate and reaches the threshold |
| `Engine.DiagnosticoEngine.Avaliar` | engine.py:76-109 | an empty query returns `[]` and leaves the cache alone; a cached key returns the stored list unchanged; otherwise the ranking is returned and stored under the key, with no other entry changed |
| `Engine.DiagnosticoEngine.ClearCache` | engine.py:142-144 | the cache is empty afterwards |
| `Engine.PermutedQueriesAgree` | engine.py:82-84 | two calls with permutations of the same query return the same list (the second one from the cache) |
| `Engine.ClearForcesRecompute` | engine.py:142-144 | after `clear_cache` the next non-empty query is recomputed from the catalogue, and it is then the only cached entry |
| `Rounding.Round1Monotone` | engine.py:50 | rounding to one decimal keeps order |
| `Rounding.Round1Range` | engine.py:50 | rounding to one decimal keeps a value in [0, 100] |
| `DataManager.FirstMinIndex` | data_manager.py:226-229 | `min` with a key picks the first position with the smallest hit count |
| `DataManager.DataManager.constructor` | data_manager.py:27-39 | the cache starts empty with the configured TTL and size limit |
| `DataManager.DataManager.GetFromCache` | data_manager.py:204-218 | a live entry has its hits raised by exactly 1 and its data returned, no other entry changing; an expired entry is deleted and None returned; an absent key returns None with nothing changed |
| `DataManager.DataManager.SaveToCache` | data_manager.py:220-236 | at the size limit the first least-hit entry is removed first; the new entry has hits 1 and the current time; the size never passes a limit of 1 or more; a limit of 0 or less on an empty cache fails where `min` raises |
| `DataManager.DataManager.ClearCache` | data_manager.py:238-242 | the cache is empty afterwards |
| `DataManager.DataManager.Stats` | data_manager.py:244-256 | the entry count is the cache's size, the total is at least the count, and the average is 0 on an empty cache and at least 1 otherwise |
| `DataManager.AvgHits` | data_manager.py:249 | the average is 0 for an empty cache and at least 1 when every entry has been hit at least once |
| `DataManager.HitRaisesTotal` | data_manager.py:207-213 | a read that hits raises the reported total hits by exactly 1 and keeps the entry count |
| `DataManager.NormalizeSymptom` | data_manager.py:139-148 | a symptom becomes a complete `{s, peso, tipo}` record with the same name and weight: a bare value gets `str(v)`, 1.0 and the disease's type, and a record keeps its own `peso` and `tipo` |
| `DataManager.NormalizeSymptoms` | data_manager.py:137-150 | the normalised list has the same length, entry for entry |
| `DataManager.NormalizarDoenca` | data_manager.py:127-155 | the in-place normaliser produces the specified normal form |
| `DataManager.NormalizedSpec` | data_manager.py:127-155 | present keys keep their value (setdefault), absent ones get "", "", "moderada", {}, []; symptoms keep their number, order, names and weights; `condicoes` gains `min_sintomas` 0 and `sintomas_obrigatorios` [] only where missing |
| `DataManager.NormalizedIdempotent` | data_manager.py:127-155 | normalising twice is normalising once |
| `DataManager.NormalizedScoresAlike` | data_manager.py:136-155 | normalisation never changes a disease's score or its gate verdict for any query |
| `DataManager.ProcessarDados` | data_manager.py:103-125 | the two group loops produce the specified list |
| `DataManager.ProcessGroupSpec` | data_manager.py:107-114 | the i-th result is the group's i-th dict element, given the group's type and category and normalised (so names keep input order); non-dict elements are dropped |
| `DataManager.ProcessedSpec` | data_manager.py:103-125 | the physical group's processed dict elements, in order, followed by the mental group's, each normalised with its group's type and category; non-dict elements are dropped |
| `Models.DoencaFromDict` | models.py:102-114 | the name comes from key `doenca`, and every missing key takes its default (`físico`, `fisica`, `moderada`, no symptoms, no conditions) |
| `Models.DoencaRoundTrip` | models.py:102-114 | a fully written disease object is read back field for field |
| `Models.DoencaDefaults` | models.py:90-114 | an empty object gives the dataclass defaults |
| `Models.ConstructSpec` | models.py:46 | `Paciente(**kw)` succeeds exactly when every key names a field with a value of its kind; given fields take their value, the others the default |
| `Models.KeepGiven` | models.py:41-44 | only arguments that are neither `None` nor `""` are kept |
| `Models.KeepGivenSpec` | models.py:41-44 | with distinct names, the kept dict holds exactly the kept arguments with their values |
| `Models.CriarNovoPacienteSpec` | models.py:37-46 | `criar_novo` keeps every non-empty argument verbatim and gives every field with a `None`, `""` or no argument its default; it fails exactly on a kept argument of unknown name or wrong kind |
| `Models.PacienteToDict` | models.py:48-50 | `asdict` maps every field's name to its value and holds nothing else |
| `Models.PacienteRoundTrip` | models.py:48-55 | `from_dict(to_dict(p))` rebuilds `p` exactly |
| `Models.CriarNovoDiagnostico` | models.py:69-88 | the top result and percentage come from the first result, or are "Nenhum resultado" and 0.0 with none; at most the first 10 results are stored; patient id and name are copied |
| `Utils.ValidateJsonStructure` | utils.py:95-107 | a non-object is rejected at once, a missing `doencas` key is reported, and the verdict is valid exactly when the error list is empty |
| `Utils.SanitizeShape` | utils.py:109-120 | the result is at most `max_length + 3` long; untruncated it is the trimmed, single-spaced text; otherwise the first `max_length` characters plus "..."; empty input gives "" |
| `Utils.SanitizeIdempotent` | utils.py:109-120 | sanitising an untruncated result again changes nothing |
| `Utils.CollapseSingleSpaced` | utils.py:115 | after `re.sub(r'\s+', ' ', …)` the only whitespace is single spaces |
| `Utils.CollapseLength` | utils.py:115 | collapsing never lengthens and empties only the empty string |
| `Utils.StripTrimmed` | utils.py:115 | `strip()` leaves no whitespace at either end |
| `Utils.DigitsOnly` | utils.py:125 | the digit filter keeps only digits and never lengthens |
| `Utils.DigitsOnlyIdempotent` | utils.py:125 | filtering digits twice is filtering once |
| `Utils.CpfIgnoresNonDigits` | utils.py:125-128 | inserting a non-digit anywhere does not change the verdict, and a CPF is judged on its digits alone |
| `Utils.CpfAccepts` | utils.py:122-147 | valid exactly when 11 digits remain, not all equal, and each of the last two makes the weighted sum of those before it (weights 10..2, then 11..2) plus itself a multiple of 11, or is 0 when that sum leaves remainder 0 or 1 |
| `Utils.CheckDigitSpec` | utils.py:136-137 | a check digit is 0 for a remainder below 2 and otherwise completes the sum to a multiple of 11; it is always a decimal digit |
| `Utils.RepeatedDigitsRefused` | utils.py:130-132 | "11111111111" has matching check digits and is refused by the repeated-digit guard |
| `Utils.CpfOfDigits` | utils.py:122-147 | 11 digits, not all equal, with matching check digits, are accepted |
| `Utils.ExampleCpfAccepted` | utils.py:122-147 | the well-formed CPF "52998224725" is accepted |
| `Utils.PorcentagemCor` | utils.py:167-174 | "alta" iff >= 75, "media" iff in [40, 75), "baixa" iff < 40 |
| `Utils.PorcentagemCorMonotone` | utils.py:167-174 | a higher percentage never gets a lower band |
| `Utils.IdadeIsWholeYears` | utils.py:176-188 | the age is the number of whole years: that birthday is on or before today and the next one after it |
| `Utils.IdadeNonNegative` | utils.py:182-188 | someone born on or before today has a non-negative age |
| `Patients.Matches` | database.py:190-196 | the flag loop with `break` is true exactly when every filter matches |
| `Patients.SearchActive` | database.py:182-201 | the search loop returns the specified filtered list, in dict order |
| `Patients.SearchSpec` | database.py:182-201 | the search finds exactly the active patients that match every filter, never more than listed |
| `Patients.SearchConcat` | database.py:186-199 | the search keeps order: searching a concatenation concatenates the results |
| `Patients.UnknownFilterIgnored` | database.py:192 | a filter naming no patient field changes nothing |
| `Patients.FilterIgnoresCase` | database.py:194 | the filter value's capitalisation does not matter |
| `Patients.FindActiveCpf` | database.py:171-174 | the scan finds a patient exactly when some active patient has the CPF |
| `Patients.ApplyUpdates` | database.py:215-217 | the `setattr` loop yields the updates applied in order |
| `Patients.UpdateOneSpec` | database.py:216-217 | one update sets the field it names (when the value fits) and no other |
| `Patients.UpdatedSpec` | database.py:215-217 | a named field takes its update's value and every unnamed field keeps its value |
| `Database.Prepend` | database.py:255-259 | the new diagnosis is first, the old ones follow in order, and the length is capped at `MAX_HIST_ITENS` |
| `Database.HistoryOf` | database.py:266-271 | exactly the diagnoses of that patient, never more than the history |
| `Database.HistoryOfConcat` | database.py:266-271 | the history filter keeps order |
| `Database.SymptomNamesSpec` | database.py:280-287 | a name is collected exactly when some disease lists it |
| `Database.Database.constructor` | database.py:28-52 | the registry starts from what the loaders read |
| `Database.Database.AdicionarPaciente` | database.py:167-180 | a non-empty CPF held by an active patient raises and stores nothing; otherwise the patient is stored under its id and the save's outcome returned |
| `Database.Database.BuscarPacientes` | database.py:182-201 | the result is the ordered search over the dict's values: exactly the active, matching patients |
| `Database.Database.AtualizarPaciente` | database.py:207-223 | an unknown id returns False with nothing changed; otherwise only existing attributes are set and `data_atualizacao` refreshed |
| `Database.Database.AdicionarDiagnostico` | database.py:252-264 | the history becomes the new diagnosis followed by the old history, capped; patients are untouched |
| `Database.Database.ObterHistoricoPaciente` | database.py:266-271 | exactly the patient's diagnoses, in history order |
| `Database.Database.CollectNames` | database.py:280-287 | the nested loop collects every symptom name of the catalogue |
| `Database.Database.ObterSintomasUnicos` | database.py:278-289 | the list is strictly sorted (so duplicate-free) and holds exactly the catalogue's symptom names |
| `Database.Database.Estatisticas` | database.py:291-318 | inactive = total - active; men counts active patients only, so women = active - men >= 0; last-month and type counts are bounded by their totals |
| `Database.DuplicateAfterAdd` | database.py:171-176 | once a patient with a CPF is stored, a second registration with that CPF fails |
| `PacienteManager.BuildSpec` | paciente.py:16-42 | the dataclass without defaults builds exactly when every field is given with a value of its kind |
| `PacienteManager.CriarNovoSpec` | paciente.py:44-63 | every passed argument overrides its default (empty lists, `ativo` True, equal timestamps, new id); a missing field without default, an unknown name or a wrong kind fails |
| `PacienteManager.FirstFalsy` | paciente.py:123-126 | the first required field that is missing or empty, or none when all are present |
| `PacienteManager.PacienteManager.constructor` | paciente.py:68-71 | the manager starts from what the loader read |
| `PacienteManager.PacienteManager.CadastrarPaciente` | paciente.py:119-147 | a missing required field, an active patient with the same CPF or a failed construction raises and inserts nothing; otherwise the patient is stored under its id even when the save fails, and returned only when it succeeds |
| `PacienteManager.PacienteManager.BuscarPaciente` | paciente.py:149-168 | the active patients whose known filter fields contain the value, case-insensitively, in dict order |
| `PacienteManager.PacienteManager.AtualizarPaciente` | paciente.py:174-195 | an unknown id returns False with nothing changed; otherwise only existing attributes are set and `data_atualizacao` refreshed |
| `PacienteManager.PacienteManager.InativarPaciente` | paciente.py:197-207 | the patient stays in the dict with `ativo` False; an unknown id returns False with nothing changed |
| `PacienteManager.PacienteManager.Estatisticas` | paciente.py:209-224 | the corrected statistics: no negative count of women or inactive patients |
| `PacienteManager.Statistics` | paciente.py:209-224 | inactive = total - active; men, patients with allergies and patients on medication count only active patients, so women = active - men >= 0 |
| `PacienteManager.StatisticsAgreeWhenAllActive` | paciente.py:211-214 | while every patient is active, the counts as written and as corrected agree |
| `PacienteManager.NegativeWomenAsWritten` | paciente.py:213-214 | as written, one inactive man gives -1 women |
| `PacienteManager.SecondRegistrationRefused` | paciente.py:129-136 | after a successful registration, registering the same CPF again is refused |
| `PacienteManager.RegisteredIsFound` | paciente.py:129-136 | a stored registration's CPF is found by the duplicate check |
| `PacienteManager.InactiveNotFound` | paciente.py:153-155 | an inactivated patient stays stored but is found by no search |

## Findings

| source | as written | input that shows it | evidently intended | confidence | as-written member | corrected member |
|---|---|---|---|---|---|---|
| paciente.py:213-214 | `homens` counts men among all patients while `mulheres = ativos - homens` subtracts them from the active count only | one patient, `sexo = "m"`, `ativo = False`: `mulheres == -1` | count men among active patients only, as database.py:295-296 does | high (not executed) | `PacienteManager.NegativeWomenAsWritten` | `PacienteManager.Statistics` |

## Left out

- Floating point: weights, scores and percentages are reals. `round(x, 1)` and `round(x, 2)` are exact round-half-up, not IEEE round-half-to-even on binary floats.
- MD5: the hash is an arbitrary function parameter. Every key property is proved on the pre-hash text, so a digest collision is not modelled.
- Time, uuid and file saves: `time.time()`, `datetime.now()` and `uuid4` are arguments. Every save (`salvar_pacientes`, `_salvar_pacientes`, `salvar_historico`) is a boolean argument standing for its outcome.
- Concurrency: the `Database` singleton's `threading.Lock` and the `DataManager` `RLock` are not modelled. Every operation runs sequentially.
- File and JSON I/O: all loaders and savers, `carregar_banco`, `carregar_historico`, `DataManager.salvar_historico`, `BackupManager` and logging are not modelled. Constructors take the loaded state as arguments.
- Date parsing: `formatar_data`, `_dentro_do_ultimo_mes` and the `strptime` of `calcular_idade` are not modelled. The last-month test is a predicate parameter of `Database.Database.Estatisticas`, and `Utils.CalcularIdade` takes the parsed date, or None for an unparseable text, plus today's date.
- Python dynamic typing: patient fields have fixed kinds. Symptom entries are a record or an already-stringified bare value, and `peso` is a real, so `float()` failures are not modelled.
- Patients.UpdatedSpec: an update whose value is of another kind than the field's is skipped, where Python's `setattr` would store it.
- Patients.UpdateOneSpec: same restriction as `Patients.UpdatedSpec`.
- Models.ConstructSpec: a keyword argument of the wrong kind is an error, where the dataclass would store it.
- PacienteManager.BuildSpec: same restriction as `Models.ConstructSpec`.
- Search filter values are strings. Python's `str()` of a list or dict field is modelled for string elements only.
- Utils.DigitsOnly: only the ASCII digits 0-9 are recognised, where Python's `\d` on a `str` also keeps every other Unicode decimal digit (such as fullwidth `５`) and `int()` reads it; so a CPF written in such digits is refused by the model and accepted by the code.
- Utils.CpfIgnoresNonDigits: "non-digit" means not an ASCII digit, so it also covers Unicode decimal digits that the code keeps and counts (see `Utils.DigitsOnly`).
- Patients.UnknownFilterIgnored: `hasattr` is modelled as "names a dataclass field". Methods and dunder attributes (`to_dict`, `criar_novo`, `__class__`) count as absent, where Python would filter on `str()` of them, and `setattr` in the update loops would shadow them.
- Engine cache aliasing: `avaliar` returns the cached list object itself, so a caller that mutates it changes the cache. The model's lists are values and cannot alias.
- `str.lower` is modelled for ASCII and Latin-1 capitals only. Other scripts compare as written.
- `obter_paciente` and `obter_doencas` are plain lookups with nothing to prove and are not modelled.
- UI, export, entry points and `ConfigManager` are outside the core and not modelled.
