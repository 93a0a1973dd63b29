/** The HTTP handlers of `SolicitacaoController` (src/controllers/SolicitacaoController.js):
    `create` stores a request with its steps and parameters and starts the pipeline,
    `getProgress` and `getResultado` read a request back, and `resume` restarts it.
    A handler's reply is a status code and a body; the request's JSON body is a `Json`
    value and the protocol id `uuidv4()` would draw is a parameter. */
module SolicitacaoController {
  import opened Wrappers
  import opened Js
  import opened Bindings
  import opened Store
  import opened Registry
  import opened ProcessingService

  /** The bodies the handlers send. */
  datatype Body =
    | ErrorMessage(error: string)
    | Accepted(protocoloUid: string)
    | ProgressReport(status: Status, prompts: seq<PromptRow>)
    | ResultadoDados(resultado: Context)
    | Resumed

  datatype Response = Response(code: int, body: Body)

  const InvalidPrompts := "Prompts inválidos."
  const InternalError := "Erro interno do servidor."
  const NotFoundMessage := "Solicitação não encontrada."
  const AlreadyCompleted := "Solicitação já foi concluída."

  /** `!prompts || !Array.isArray(prompts)` fails exactly when the body holds no array:
      an array is never falsy. */
  predicate IsArray(prompts: Option<Json>) {
    prompts.Some? && prompts.value.JArr?
  }

  /** A property of a value that is not null (so the read does not throw). */
  function Field(v: Json, key: string): Option<Json>
    requires v != JNull
  {
    Prop(v, key).value
  }

  /** A value as a text column receives it: undefined and null are stored as NULL,
      anything else as its string form. */
  function Column(v: Option<Json>): (r: Option<string>)
    ensures r.None? <==> v.None? || v.value == JNull
    ensures v.Some? && v.value.JStr? ==> r == Some(v.value.s)
  {
    if v.None? || v.value == JNull then None else Some(ToJsString(v.value))
  }

  /** The entries `create` walks for one step: `prompt_parameters` when it is an array
      (an array is never falsy, so only `Array.isArray` decides), none otherwise. */
  function ParameterList(item: Json): seq<Json>
    requires item != JNull
  {
    var pp := Field(item, "prompt_parameters");
    if pp.Some? && pp.value.JArr? then pp.value.items else []
  }

  predicate NoNull(vs: seq<Json>) {
    forall j :: 0 <= j < |vs| ==> vs[j] != JNull
  }

  /** The position of the first null entry, where `parametro.name` throws, or the length
      of the list when there is none. */
  function FirstNull(vs: seq<Json>): (k: nat)
    ensures k <= |vs| && NoNull(vs[..k])
    ensures forall j :: 0 <= j < k ==> vs[j] != JNull
    ensures k < |vs| ==> vs[k] == JNull
  {
    if vs == [] || vs[0] == JNull then 0
    else
      var k := 1 + FirstNull(vs[1..]);
      assert forall j :: 1 <= j < k ==> vs[..k][j] == vs[1..][..k - 1][j - 1];
      k
  }

  /** A list without a null entry up to `j` and a null entry at `j` has its first null
      entry at `j`. */
  lemma FirstNullAt(vs: seq<Json>, j: nat)
    requires j < |vs| && NoNull(vs[..j]) && vs[j] == JNull
    ensures FirstNull(vs) == j
  {
    NoNullPrefix(vs, j);
  }

  lemma NoNullPrefix(vs: seq<Json>, j: nat)
    requires j <= |vs| && NoNull(vs[..j])
    ensures forall i :: 0 <= i < j ==> vs[i] != JNull
  {
    forall i | 0 <= i < j
      ensures vs[i] != JNull
    {
      assert vs[..j][i] == vs[i];
    }
  }

  /** A parameter entry as `insertParametro` receives it. */
  datatype ParamInput = ParamInput(nome: Option<string>, valor: Option<string>)

  /** An element of the array as `insertPrompt` and its parameter loop receive it. */
  datatype StepInput = StepInput(
    conteudo: Option<string>,
    engine: Option<string>,
    modelo: Option<string>,
    parametrosModelo: Option<Json>,
    parametros: seq<ParamInput>)

  /** `parametro.name` and `parametro.value`. */
  function ReadParam(p: Json): ParamInput
    requires p != JNull
  {
    ParamInput(Column(Field(p, "name")), Column(Field(p, "value")))
  }

  function ReadParams(ps: seq<Json>): (r: seq<ParamInput>)
    requires NoNull(ps)
    ensures |r| == |ps|
  {
    if ps == [] then []
    else
      var n := |ps| - 1;
      ReadParams(ps[..n]) + [ReadParam(ps[n])]
  }

  /** What `create` reads from one element: `prompt`, `engine`, `model`,
      `model_parameters` and its parameter entries. None when a read throws: the
      element, or one of its parameter entries, is null. */
  function ReadStep(item: Json): (r: Option<StepInput>)
    ensures r.Some? <==> item != JNull && NoNull(ParameterList(item))
    ensures r.Some? ==> |r.value.parametros| == |ParameterList(item)|
  {
    if item == JNull || !NoNull(ParameterList(item)) then None
    else
      Some(StepInput(Column(Field(item, "prompt")), Column(Field(item, "engine")), Column(Field(item, "model")),
                     Field(item, "model_parameters"), ReadParams(ParameterList(item))))
  }

  /** What `create` has read from a non-null element when it stops: its columns and the
      parameter entries before the first null one. */
  function StoredStep(item: Json): (r: StepInput)
    requires item != JNull
    ensures |r.parametros| == FirstNull(ParameterList(item))
  {
    var ps := ParameterList(item);
    StepInput(Column(Field(item, "prompt")), Column(Field(item, "engine")), Column(Field(item, "model")),
              Field(item, "model_parameters"), ReadParams(ps[..FirstNull(ps)]))
  }

  /** An element that reads in full is stored exactly as read. */
  lemma StoredStepOfRead(item: Json)
    requires ReadStep(item).Some?
    ensures StoredStep(item) == ReadStep(item).value
  {
    var ps := ParameterList(item);
    assert ps[..FirstNull(ps)] == ps;
  }

  /** Reading the elements of an array in order with `read`, as the loop of `create`
      does; None as soon as one of them throws. */
  function ReadAll<U>(read: Json -> Option<U>, items: seq<Json>): (r: Option<seq<U>>)
    ensures r.Some? ==> |r.value| == |items|
  {
    if items == [] then Some([])
    else
      var n := |items| - 1;
      var init := ReadAll(read, items[..n]);
      var last := read(items[n]);
      if init.Some? && last.Some? then Some(init.value + [last.value]) else None
  }

  /** What `create` reads from the whole array; None when some element throws. */
  function ReadSteps(items: seq<Json>): (r: Option<seq<StepInput>>)
    ensures r.Some? ==> |r.value| == |items|
  {
    ReadAll(ReadStep, items)
  }

  /** The array is read in full exactly when no element throws. */
  lemma ReadAllSucceeds<U>(read: Json -> Option<U>, items: seq<Json>)
    ensures ReadAll(read, items).Some? <==> forall i :: 0 <= i < |items| ==> read(items[i]).Some?
  {
    if ReadAll(read, items).Some? {
      forall i | 0 <= i < |items|
        ensures read(items[i]).Some?
      {
        ReadAllAt(read, items, i);
      }
    } else {
      FirstFailureReads(read, items);
      FirstFailureLeast(read, items);
    }
  }

  /** Element `i` is read as `read` reads it on its own. */
  lemma {:induction false} ReadAllAt<U>(read: Json -> Option<U>, items: seq<Json>, i: nat)
    requires ReadAll(read, items).Some? && i < |items|
    ensures read(items[i]) == Some(ReadAll(read, items).value[i])
  {
    var n := |items| - 1;
    if i < n {
      ReadAllAt(read, items[..n], i);
      assert items[..n][i] == items[i];
    }
  }

  /** A prefix of an array read in full is read in full. */
  lemma {:induction false} ReadAllPrefix<U>(read: Json -> Option<U>, items: seq<Json>, k: nat)
    requires k <= |items| && ReadAll(read, items).Some?
    ensures ReadAll(read, items[..k]).Some?
    decreases |items|
  {
    if k < |items| {
      var n := |items| - 1;
      ReadAllPrefix(read, items[..n], k);
      assert items[..n][..k] == items[..k];
    } else {
      assert items[..k] == items;
    }
  }

  /** Reading one more element of the array. */
  lemma ReadAllNext<U>(read: Json -> Option<U>, items: seq<Json>, index: nat)
    requires index < |items|
    ensures ReadAll(read, items[..index + 1])
            == if ReadAll(read, items[..index]).Some? && read(items[index]).Some?
               then Some(ReadAll(read, items[..index]).value + [read(items[index]).value])
               else None
  {
    assert items[..index + 1][..index] == items[..index];
  }

  /** A prefix that does not read makes the whole array unreadable. */
  lemma UnreadPrefixFailsAll<U>(read: Json -> Option<U>, items: seq<Json>, k: nat)
    requires k <= |items| && ReadAll(read, items[..k]).None?
    ensures ReadAll(read, items).None?
  {
    if ReadAll(read, items).Some? {
      ReadAllPrefix(read, items, k);
    }
  }

  /** An element that cannot be read makes the whole array unreadable. */
  lemma FailedReadFailsAll<U>(read: Json -> Option<U>, items: seq<Json>, index: nat)
    requires index < |items| && read(items[index]).None?
    ensures ReadAll(read, items).None?
  {
    ReadAllNext(read, items, index);
    UnreadPrefixFailsAll(read, items, index + 1);
  }

  /** The position of the first element whose read throws, or the length of the array
      when none does: `create` stores the elements before it and no later one. */
  function FirstFailure<U>(read: Json -> Option<U>, items: seq<Json>): (k: nat)
    ensures k <= |items|
  {
    if ReadAll(read, items).Some? then |items|
    else
      var n := |items| - 1;
      if ReadAll(read, items[..n]).Some? then n else FirstFailure(read, items[..n])
  }

  /** What was read from the elements before `FirstFailure`. */
  function ReadBeforeFailure<U>(read: Json -> Option<U>, items: seq<Json>): seq<U> {
    if ReadAll(read, items).Some? then ReadAll(read, items).value
    else ReadBeforeFailure(read, items[..|items| - 1])
  }

  /** Every element before `FirstFailure` reads, and the one at it throws. */
  lemma FirstFailureLeast<U>(read: Json -> Option<U>, items: seq<Json>)
    ensures forall i :: 0 <= i < FirstFailure(read, items) ==> read(items[i]).Some?
    ensures FirstFailure(read, items) < |items| ==> read(items[FirstFailure(read, items)]).None?
  {
    var k := FirstFailure(read, items);
    FirstFailureReads(read, items);
    forall i | 0 <= i < k
      ensures read(items[i]).Some?
    {
      ReadAllAt(read, items[..k], i);
    }
    if k < |items| {
      FirstFailureStops(read, items);
      ReadAllNext(read, items, k);
    }
  }

  /** The prefix that ends with `FirstFailure`'s element does not read. */
  lemma {:induction false} FirstFailureStops<U>(read: Json -> Option<U>, items: seq<Json>)
    ensures FirstFailure(read, items) < |items| ==> ReadAll(read, items[..FirstFailure(read, items) + 1]).None?
  {
    if ReadAll(read, items).None? {
      var n := |items| - 1;
      var init := items[..n];
      if ReadAll(read, init).Some? {
        assert items[..n + 1] == items;
      } else {
        FirstFailureReads(read, init);
        FirstFailureStops(read, init);
        var k := FirstFailure(read, init);
        assert init[..k + 1] == items[..k + 1];
      }
    }
  }

  /** The array fails to read exactly when some element throws, and the elements before
      the first such one are read in full, into `ReadBeforeFailure`. */
  lemma {:induction false} FirstFailureReads<U>(read: Json -> Option<U>, items: seq<Json>)
    ensures ReadAll(read, items).None? <==> FirstFailure(read, items) < |items|
    ensures ReadAll(read, items[..FirstFailure(read, items)]) == Some(ReadBeforeFailure(read, items))
  {
    if ReadAll(read, items).Some? {
      assert items[..|items|] == items;
    } else {
      var n := |items| - 1;
      if ReadAll(read, items[..n]).None? {
        FirstFailureReads(read, items[..n]);
        assert items[..n][..FirstFailure(read, items[..n])] == items[..FirstFailure(read, items)];
      }
    }
  }

  /** What was read before the first prefix that does not read. */
  lemma {:induction false} ReadBeforeFailureAt<U>(read: Json -> Option<U>, items: seq<Json>, index: nat)
    requires index < |items| && ReadAll(read, items[..index]).Some? && ReadAll(read, items[..index + 1]).None?
    ensures ReadBeforeFailure(read, items) == ReadAll(read, items[..index]).value
    ensures FirstFailure(read, items) == index
  {
    UnreadPrefixFailsAll(read, items, index + 1);
    var n := |items| - 1;
    var init := items[..n];
    if index < n {
      PrefixOfPrefix(items, n, index);
      UnreadPrefixFailsAll(read, init, index + 1);
      ReadBeforeFailureAt(read, init, index);
    } else {
      assert init == items[..index];
    }
  }

  lemma PrefixOfPrefix(items: seq<Json>, n: nat, index: nat)
    requires index < n <= |items|
    ensures items[..n][..index] == items[..index] && items[..n][..index + 1] == items[..index + 1]
  {
  }

  /** The row `insertPrompt` stores for element `index`, under prompt id `id`:
      `model_parameters` only when truthy. */
  function PromptRowOf(solicitacaoId: nat, id: nat, index: nat, step: StepInput): PromptRow {
    PromptRow(id, solicitacaoId, step.conteudo, step.engine, step.modelo, index + 1,
              if FalsyOpt(step.parametrosModelo) then None else step.parametrosModelo)
  }

  /** The rows of a whole array, ids handed out from `firstId` on: element `i` is the
      row of id `firstId + i` and order `i + 1`. */
  function NewPrompts(solicitacaoId: nat, firstId: nat, steps: seq<StepInput>): (r: seq<PromptRow>)
    ensures |r| == |steps|
  {
    if steps == [] then []
    else
      var n := |steps| - 1;
      NewPrompts(solicitacaoId, firstId, steps[..n]) + [PromptRowOf(solicitacaoId, firstId + n, n, steps[n])]
  }

  /** The parameter rows of one step: entry `j` is row `j`. */
  function ParamRows(promptId: nat, ps: seq<ParamInput>): (r: seq<ParametroRow>)
    ensures |r| == |ps|
  {
    if ps == [] then []
    else
      var n := |ps| - 1;
      ParamRows(promptId, ps[..n]) + [ParametroRow(promptId, ps[n].nome, ps[n].valor)]
  }

  /** Entry `j` of a step's parameters becomes row `j`, under the step's prompt id. */
  lemma {:induction false} ParamRowsAt(promptId: nat, ps: seq<ParamInput>)
    ensures forall j :: 0 <= j < |ps| ==> ParamRows(promptId, ps)[j] == ParametroRow(promptId, ps[j].nome, ps[j].valor)
  {
    if ps != [] {
      ParamRowsAt(promptId, ps[..|ps| - 1]);
    }
  }

  /** Every row of a step's parameters carries the step's prompt id. */
  lemma ParamRowsOwned(promptId: nat, ps: seq<ParamInput>)
    ensures forall j :: 0 <= j < |ps| ==> ParamRows(promptId, ps)[j].promptId == promptId
  {
    ParamRowsAt(promptId, ps);
  }

  /** The parameter rows of a whole array, step by step; all belong to the new steps. */
  function NewParametros(firstId: nat, steps: seq<StepInput>): (r: seq<ParametroRow>)
    ensures forall j :: 0 <= j < |r| ==> firstId <= r[j].promptId < firstId + |steps|
  {
    if steps == [] then []
    else
      var n := |steps| - 1;
      ParamRowsOwned(firstId + n, steps[n].parametros);
      NewParametros(firstId, steps[..n]) + ParamRows(firstId + n, steps[n].parametros)
  }

  /** Reading one more parameter entry adds its row. */
  lemma ParamRowsNext(promptId: nat, ps: seq<Json>, j: nat)
    requires j < |ps| && NoNull(ps[..j]) && ps[j] != JNull
    ensures NoNull(ps[..j + 1])
    ensures ParamRows(promptId, ReadParams(ps[..j + 1]))
            == ParamRows(promptId, ReadParams(ps[..j])) + [ParametroRow(promptId, ReadParam(ps[j]).nome, ReadParam(ps[j]).valor)]
  {
    assert ps[..j + 1][..j] == ps[..j];
    assert ReadParams(ps[..j + 1]) == ReadParams(ps[..j]) + [ReadParam(ps[j])];
    assert (ReadParams(ps[..j]) + [ReadParam(ps[j])])[..j] == ReadParams(ps[..j]);
  }

  /** The inner loop of `create`: one `insertParametro` per entry, in order; a null
      entry throws on `parametro.name` after the entries before it are stored. */
  method InsertParametros(db: Database, promptId: nat, ps: seq<Json>) returns (ok: bool)
    requires db.Valid() && promptId < db.nextPromptId
    modifies db`parametros
    ensures db.Valid()
    ensures ok <==> NoNull(ps)
    ensures ok ==> db.parametros == old(db.parametros) + ParamRows(promptId, ReadParams(ps))
    ensures db.parametros == old(db.parametros) + ParamRows(promptId, ReadParams(ps[..FirstNull(ps)]))
  {
    var j := 0;
    while j < |ps|
      invariant 0 <= j <= |ps| && NoNull(ps[..j])
      invariant db.Valid()
      invariant db.parametros == old(db.parametros) + ParamRows(promptId, ReadParams(ps[..j]))
    {
      if ps[j] == JNull {
        FirstNullAt(ps, j);
        return false;
      }
      var p := ReadParam(ps[j]);
      db.InsertParametro(promptId, p.nome, p.valor);
      ParamRowsNext(promptId, ps, j);
      j := j + 1;
    }
    assert ps[..j] == ps;
    assert ps[..FirstNull(ps)] == ps;
    ok := true;
  }

  /** The prompt rows one element leaves, whether or not it throws: none for a null
      element, otherwise its own row, of id `id` and order `index + 1`. */
  function ElementPrompts(solicitacaoId: nat, id: nat, index: nat, item: Json): (r: seq<PromptRow>)
    ensures |r| <= 1
    ensures forall row :: row in r ==> row.id == id && row.ordem == index + 1
  {
    if item == JNull then [] else [PromptRowOf(solicitacaoId, id, index, StoredStep(item))]
  }

  /** The parameter rows one element leaves: those of its entries before the first null
      one, under its prompt id. */
  function ElementParametros(id: nat, item: Json): (r: seq<ParametroRow>)
    ensures forall row :: row in r ==> row.promptId == id
    ensures item == JNull ==> r == []
  {
    if item == JNull then []
    else
      ParamRowsOwned(id, StoredStep(item).parametros);
      ParamRows(id, StoredStep(item).parametros)
  }

  /** One iteration of the outer loop of `create`: a null element throws before
      anything is stored; otherwise the step's row, then its parameters up to the
      first null entry. */
  method InsertStep(db: Database, solicitacaoId: nat, index: nat, prompt: Json) returns (ok: bool)
    requires db.Valid() && solicitacaoId < db.nextSolicitacaoId
    modifies db`prompts, db`nextPromptId, db`parametros
    ensures db.Valid()
    ensures ok <==> ReadStep(prompt).Some?
    ensures ok ==> && db.nextPromptId == old(db.nextPromptId) + 1
                   && db.prompts == old(db.prompts) + [PromptRowOf(solicitacaoId, old(db.nextPromptId), index, ReadStep(prompt).value)]
                   && db.parametros == old(db.parametros) + ParamRows(old(db.nextPromptId), ReadStep(prompt).value.parametros)
    ensures db.prompts == old(db.prompts) + ElementPrompts(solicitacaoId, old(db.nextPromptId), index, prompt)
    ensures db.parametros == old(db.parametros) + ElementParametros(old(db.nextPromptId), prompt)
    ensures db.nextPromptId == old(db.nextPromptId) + |ElementPrompts(solicitacaoId, old(db.nextPromptId), index, prompt)|
  {
    if prompt == JNull {
      return false;
    }
    var promptId := db.InsertPrompt(solicitacaoId, Column(Field(prompt, "prompt")), Column(Field(prompt, "engine")),
                                    Column(Field(prompt, "model")), index + 1, Field(prompt, "model_parameters"));
    ok := InsertParametros(db, promptId, ParameterList(prompt));
    if ok {
      StoredStepOfRead(prompt);
    }
  }

  /** After an element threw, the tables hold the rows that were there before the loop,
      then the rows of the elements before the first one that throws, then what that
      element left: no row of a later element is stored. */
  predicate StoredUpToFailure(items: seq<Json>, solicitacaoId: nat, firstId: nat,
                              promptsBefore: seq<PromptRow>, prompts: seq<PromptRow>,
                              parametrosBefore: seq<ParametroRow>, parametros: seq<ParametroRow>, nextPromptId: nat)
  {
    var k := FirstFailure(ReadStep, items);
    && k < |items|
    && StoppedAt(solicitacaoId, firstId, k, ReadBeforeFailure(ReadStep, items), items[k],
                 promptsBefore, prompts, parametrosBefore, parametros, nextPromptId)
  }

  /** The tables after the steps `steps` were stored and element `k`, `item`, threw. */
  predicate StoppedAt(solicitacaoId: nat, firstId: nat, k: nat, steps: seq<StepInput>, item: Json,
                      promptsBefore: seq<PromptRow>, prompts: seq<PromptRow>,
                      parametrosBefore: seq<ParametroRow>, parametros: seq<ParametroRow>, nextPromptId: nat)
  {
    && prompts == promptsBefore + NewPrompts(solicitacaoId, firstId, steps) + ElementPrompts(solicitacaoId, firstId + k, k, item)
    && parametros == parametrosBefore + NewParametros(firstId, steps) + ElementParametros(firstId + k, item)
    && nextPromptId == firstId + k + |ElementPrompts(solicitacaoId, firstId + k, k, item)|
  }

  /** The outer loop of `create`: element `index` becomes the step of order `index + 1`,
      followed by its parameters. An element that throws stops the loop, with the
      elements before it stored. */
  method InsertPrompts(db: Database, solicitacaoId: nat, items: seq<Json>) returns (ok: bool)
    requires db.Valid() && solicitacaoId < db.nextSolicitacaoId
    modifies db`prompts, db`nextPromptId, db`parametros
    ensures db.Valid()
    ensures ok <==> ReadSteps(items).Some?
    ensures ok ==> && db.prompts == old(db.prompts) + NewPrompts(solicitacaoId, old(db.nextPromptId), ReadSteps(items).value)
                   && db.parametros == old(db.parametros) + NewParametros(old(db.nextPromptId), ReadSteps(items).value)
                   && db.nextPromptId == old(db.nextPromptId) + |items|
    ensures !ok ==> StoredUpToFailure(items, solicitacaoId, old(db.nextPromptId), old(db.prompts), db.prompts,
                                      old(db.parametros), db.parametros, db.nextPromptId)
  {
    ghost var firstId, prompts0, parametros0 := db.nextPromptId, db.prompts, db.parametros;
    ghost var steps: seq<StepInput> := [];
    var index := 0;
    while index < |items|
      invariant 0 <= index <= |items| && ReadSteps(items[..index]) == Some(steps) && |steps| == index
      invariant db.Valid() && db.nextPromptId == firstId + index
      invariant db.prompts == prompts0 + NewPrompts(solicitacaoId, firstId, steps)
      invariant db.parametros == parametros0 + NewParametros(firstId, steps)
    {
      var inserted := InsertNext(db, solicitacaoId, items, index, firstId, steps, prompts0, parametros0);
      if !inserted {
        FailureStored(items, solicitacaoId, firstId, index, steps, prompts0, db.prompts, parametros0, db.parametros,
                      db.nextPromptId);
        return false;
      }
      steps := steps + [ReadStep(items[index]).value];
      index := index + 1;
    }
    assert items[..index] == items;
    ok := true;
  }

  /** The rows of the first n elements have orders 1 to n. */
  lemma {:induction false} NewPromptsOrdem(solicitacaoId: nat, firstId: nat, steps: seq<StepInput>)
    ensures forall row :: row in NewPrompts(solicitacaoId, firstId, steps) ==> 1 <= row.ordem <= |steps|
  {
    if steps != [] {
      NewPromptsOrdem(solicitacaoId, firstId, steps[..|steps| - 1]);
    }
  }

  /** Every new prompt row belongs to the new request, and row `i` has order `i + 1`. */
  lemma {:induction false} NewPromptsRequest(solicitacaoId: nat, firstId: nat, steps: seq<StepInput>)
    ensures forall i :: 0 <= i < |steps| ==>
              && PromptSolicitacao(NewPrompts(solicitacaoId, firstId, steps)[i]) == solicitacaoId
              && NewPrompts(solicitacaoId, firstId, steps)[i].ordem == i + 1
  {
    if steps != [] {
      NewPromptsRequest(solicitacaoId, firstId, steps[..|steps| - 1]);
    }
  }

  /** After an element threw, no row of a later element is stored: every new step has an
      order up to that of the failing element, and every new parameter row belongs to a
      prompt id handed out up to it. */
  lemma NoLaterRowStored(items: seq<Json>, solicitacaoId: nat, firstId: nat,
                         promptsBefore: seq<PromptRow>, prompts: seq<PromptRow>,
                         parametrosBefore: seq<ParametroRow>, parametros: seq<ParametroRow>, nextPromptId: nat)
    requires StoredUpToFailure(items, solicitacaoId, firstId, promptsBefore, prompts, parametrosBefore, parametros, nextPromptId)
    ensures promptsBefore <= prompts && parametrosBefore <= parametros
    ensures forall row :: row in prompts[|promptsBefore|..] ==> row.ordem <= FirstFailure(ReadStep, items) + 1
    ensures forall row :: row in parametros[|parametrosBefore|..] ==> firstId <= row.promptId <= firstId + FirstFailure(ReadStep, items)
    ensures nextPromptId <= firstId + FirstFailure(ReadStep, items) + 1
  {
    var k := FirstFailure(ReadStep, items);
    FirstFailureReads(ReadStep, items);
    StoppedAtBounds(solicitacaoId, firstId, k, ReadBeforeFailure(ReadStep, items), items[k],
                    promptsBefore, prompts, parametrosBefore, parametros, nextPromptId);
  }

  lemma StoppedAtBounds(solicitacaoId: nat, firstId: nat, k: nat, steps: seq<StepInput>, item: Json,
                        promptsBefore: seq<PromptRow>, prompts: seq<PromptRow>,
                        parametrosBefore: seq<ParametroRow>, parametros: seq<ParametroRow>, nextPromptId: nat)
    requires |steps| == k
    requires StoppedAt(solicitacaoId, firstId, k, steps, item, promptsBefore, prompts, parametrosBefore, parametros, nextPromptId)
    ensures promptsBefore <= prompts && parametrosBefore <= parametros
    ensures forall row :: row in prompts[|promptsBefore|..] ==> row.ordem <= k + 1
    ensures forall row :: row in parametros[|parametrosBefore|..] ==> firstId <= row.promptId <= firstId + k
    ensures nextPromptId <= firstId + k + 1
  {
    PromptRowsBounded(solicitacaoId, firstId, k, steps, item, promptsBefore, prompts);
    ParametroRowsBounded(firstId, k, steps, item, parametrosBefore, parametros);
  }

  lemma PromptRowsBounded(solicitacaoId: nat, firstId: nat, k: nat, steps: seq<StepInput>, item: Json,
                          promptsBefore: seq<PromptRow>, prompts: seq<PromptRow>)
    requires |steps| == k
    requires prompts == promptsBefore + NewPrompts(solicitacaoId, firstId, steps) + ElementPrompts(solicitacaoId, firstId + k, k, item)
    ensures promptsBefore <= prompts
    ensures forall row :: row in prompts[|promptsBefore|..] ==> row.ordem <= k + 1
  {
    NewPromptsOrdem(solicitacaoId, firstId, steps);
    var rows := NewPrompts(solicitacaoId, firstId, steps) + ElementPrompts(solicitacaoId, firstId + k, k, item);
    assert prompts[|promptsBefore|..] == rows;
  }

  lemma ParametroRowsBounded(firstId: nat, k: nat, steps: seq<StepInput>, item: Json,
                             parametrosBefore: seq<ParametroRow>, parametros: seq<ParametroRow>)
    requires |steps| == k
    requires parametros == parametrosBefore + NewParametros(firstId, steps) + ElementParametros(firstId + k, item)
    ensures parametrosBefore <= parametros
    ensures forall row :: row in parametros[|parametrosBefore|..] ==> firstId <= row.promptId <= firstId + k
  {
    ParametroRowsBetween(parametrosBefore, parametros, NewParametros(firstId, steps), ElementParametros(firstId + k, item),
                         firstId, firstId + k);
  }

  lemma ParametroRowsBetween(before: seq<ParametroRow>, all: seq<ParametroRow>, init: seq<ParametroRow>, last: seq<ParametroRow>,
                             lo: int, hi: int)
    requires lo <= hi && all == before + init + last
    requires forall j :: 0 <= j < |init| ==> lo <= init[j].promptId < hi
    requires forall row :: row in last ==> row.promptId == hi
    ensures before <= all
    ensures forall row :: row in all[|before|..] ==> lo <= row.promptId <= hi
  {
    assert all[|before|..] == init + last;
    forall row | row in init + last
      ensures lo <= row.promptId <= hi
    {
      if row in init {
        var j :| 0 <= j < |init| && init[j] == row;
      }
    }
  }

  /** The loop stopping at the first element that throws leaves the tables
      `StoredUpToFailure` describes. */
  lemma FailureStored(items: seq<Json>, solicitacaoId: nat, firstId: nat, index: nat, steps: seq<StepInput>,
                      promptsBefore: seq<PromptRow>, prompts: seq<PromptRow>,
                      parametrosBefore: seq<ParametroRow>, parametros: seq<ParametroRow>, nextPromptId: nat)
    requires index < |items| && ReadSteps(items[..index]) == Some(steps) && ReadSteps(items[..index + 1]).None?
    requires StoppedAt(solicitacaoId, firstId, index, steps, items[index], promptsBefore, prompts, parametrosBefore, parametros,
                       nextPromptId)
    ensures StoredUpToFailure(items, solicitacaoId, firstId, promptsBefore, prompts, parametrosBefore, parametros, nextPromptId)
  {
    ReadBeforeFailureAt(ReadStep, items, index);
  }

  /** The outer loop's body: the rows of the elements read so far are grown by those
      of element `index`, or the loop stops because that element throws. */
  method InsertNext(db: Database, solicitacaoId: nat, items: seq<Json>, index: nat, ghost firstId: nat,
                    ghost steps: seq<StepInput>, ghost basePrompts: seq<PromptRow>, ghost baseParametros: seq<ParametroRow>)
    returns (ok: bool)
    requires db.Valid() && solicitacaoId < db.nextSolicitacaoId
    requires index < |items| && ReadSteps(items[..index]) == Some(steps) && |steps| == index
    requires db.nextPromptId == firstId + index
    requires db.prompts == basePrompts + NewPrompts(solicitacaoId, firstId, steps)
    requires db.parametros == baseParametros + NewParametros(firstId, steps)
    modifies db`prompts, db`nextPromptId, db`parametros
    ensures db.Valid()
    ensures !ok ==> ReadSteps(items).None? && ReadSteps(items[..index + 1]).None?
    ensures !ok ==> StoppedAt(solicitacaoId, firstId, index, steps, items[index], basePrompts, db.prompts,
                              baseParametros, db.parametros, db.nextPromptId)
    ensures ok ==> ReadStep(items[index]).Some? &&
                   var grown := steps + [ReadStep(items[index]).value];
                   && ReadSteps(items[..index + 1]) == Some(grown)
                   && db.nextPromptId == firstId + index + 1
                   && db.prompts == basePrompts + NewPrompts(solicitacaoId, firstId, grown)
                   && db.parametros == baseParametros + NewParametros(firstId, grown)
  {
    ghost var prompts0, parametros0, id := db.prompts, db.parametros, db.nextPromptId;
    ok := InsertStep(db, solicitacaoId, index, items[index]);
    if !ok {
      StoppedAtElement(solicitacaoId, firstId, index, steps, items[index], basePrompts, prompts0, db.prompts,
                       baseParametros, parametros0, db.parametros, id, db.nextPromptId);
      FailedReadFailsAll(ReadStep, items, index);
      ReadAllNext(ReadStep, items, index);
      return;
    }
    ReadAllNext(ReadStep, items, index);
    var step := ReadStep(items[index]).value;
    ExtendPrompts(solicitacaoId, firstId, steps, step, id);
    ExtendParametros(firstId, steps, step, id);
    Grow(prompts0, basePrompts, NewPrompts(solicitacaoId, firstId, steps),
         [PromptRowOf(solicitacaoId, id, index, step)], db.prompts, NewPrompts(solicitacaoId, firstId, steps + [step]));
    Grow(parametros0, baseParametros, NewParametros(firstId, steps),
         ParamRows(id, step.parametros), db.parametros, NewParametros(firstId, steps + [step]));
  }

  /** The tables the stopped loop leaves are those before the element grown by what the
      element left. */
  lemma StoppedAtElement(solicitacaoId: nat, firstId: nat, k: nat, steps: seq<StepInput>, item: Json,
                         promptsBefore: seq<PromptRow>, prompts0: seq<PromptRow>, prompts: seq<PromptRow>,
                         parametrosBefore: seq<ParametroRow>, parametros0: seq<ParametroRow>, parametros: seq<ParametroRow>,
                         id: nat, nextPromptId: nat)
    requires id == firstId + k
    requires prompts0 == promptsBefore + NewPrompts(solicitacaoId, firstId, steps)
    requires prompts == prompts0 + ElementPrompts(solicitacaoId, id, k, item)
    requires parametros0 == parametrosBefore + NewParametros(firstId, steps)
    requires parametros == parametros0 + ElementParametros(id, item)
    requires nextPromptId == id + |ElementPrompts(solicitacaoId, id, k, item)|
    ensures StoppedAt(solicitacaoId, firstId, k, steps, item, promptsBefore, prompts, parametrosBefore, parametros, nextPromptId)
  {
    var rows, params := ElementPrompts(solicitacaoId, id, k, item), ElementParametros(id, item);
    assert prompts == promptsBefore + NewPrompts(solicitacaoId, firstId, steps) + rows;
    assert parametros == parametrosBefore + NewParametros(firstId, steps) + params;
  }

  lemma ExtendPrompts(solicitacaoId: nat, firstId: nat, steps: seq<StepInput>, step: StepInput, id: nat)
    requires id == firstId + |steps|
    ensures NewPrompts(solicitacaoId, firstId, steps + [step])
            == NewPrompts(solicitacaoId, firstId, steps) + [PromptRowOf(solicitacaoId, id, |steps|, step)]
  {
    assert (steps + [step])[..|steps|] == steps;
  }

  lemma ExtendParametros(firstId: nat, steps: seq<StepInput>, step: StepInput, id: nat)
    requires id == firstId + |steps|
    ensures NewParametros(firstId, steps + [step]) == NewParametros(firstId, steps) + ParamRows(id, step.parametros)
  {
    assert (steps + [step])[..|steps|] == steps;
  }

  lemma Grow<T>(before: seq<T>, base: seq<T>, done: seq<T>, added: seq<T>, after: seq<T>, grown: seq<T>)
    requires before == base + done && after == before + added && grown == done + added
    ensures after == base + grown
  {
  }

  /** The prompts of a request just created are exactly the posted elements, and the
      query hands them back in the order they were posted: the stored order is the
      array index plus one. */
  lemma {:induction false} CreatedStepsInPostedOrder(before: seq<PromptRow>, solicitacaoId: nat, firstId: nat, steps: seq<StepInput>)
    requires forall i :: 0 <= i < |before| ==> before[i].solicitacaoId < solicitacaoId
    ensures SortByOrdem(PromptsOf(before + NewPrompts(solicitacaoId, firstId, steps), solicitacaoId))
            == NewPrompts(solicitacaoId, firstId, steps)
  {
    var rows := NewPrompts(solicitacaoId, firstId, steps);
    WhereAppend(before, rows, PromptSolicitacao, solicitacaoId);
    WhereNone(before, PromptSolicitacao, solicitacaoId);
    NewPromptsRequest(solicitacaoId, firstId, steps);
    WhereAll(rows, PromptSolicitacao, solicitacaoId);
    assert [] + rows == rows;
    assert SortedByOrdem(rows);
    SortByOrdemSorted(rows);
  }

  /** Each created step sees exactly the parameters posted with it. */
  lemma CreatedStepParameters(before: seq<ParametroRow>, firstId: nat, steps: seq<StepInput>, i: nat)
    requires i < |steps|
    requires forall j :: 0 <= j < |before| ==> before[j].promptId < firstId
    ensures ParametrosOf(before + NewParametros(firstId, steps), firstId + i) == ParamRows(firstId + i, steps[i].parametros)
  {
    ParametrosOfAfter(before, NewParametros(firstId, steps), firstId + i);
    OwnParameters(firstId, steps, i);
  }

  lemma {:induction false} OwnParameters(firstId: nat, steps: seq<StepInput>, i: nat)
    requires i < |steps|
    ensures ParametrosOf(NewParametros(firstId, steps), firstId + i) == ParamRows(firstId + i, steps[i].parametros)
    decreases |steps|
  {
    var n: nat := |steps| - 1;
    if i == n {
      OwnParametersLast(firstId, steps, n);
    } else {
      var init, own := NewParametrosLast(firstId, steps);
      ParametrosOfBefore(init, own, firstId + i);
      OwnParameters(firstId, steps[..n], i);
      assert steps[..n][i] == steps[i];
    }
  }

  /** The last step's parameters are the rows added last. */
  lemma OwnParametersLast(firstId: nat, steps: seq<StepInput>, n: nat)
    requires n + 1 == |steps|
    ensures ParametrosOf(NewParametros(firstId, steps), firstId + n) == ParamRows(firstId + n, steps[n].parametros)
  {
    var init, own := NewParametrosLast(firstId, steps);
    OwnRowsFound(init, own, firstId + n);
  }

  /** The rows of a non-empty array: those of the earlier steps, then the last step's
      own, which all carry its prompt id. */
  lemma NewParametrosLast(firstId: nat, steps: seq<StepInput>) returns (init: seq<ParametroRow>, own: seq<ParametroRow>)
    requires steps != []
    ensures init == NewParametros(firstId, steps[..|steps| - 1])
    ensures own == ParamRows(firstId + |steps| - 1, steps[|steps| - 1].parametros)
    ensures NewParametros(firstId, steps) == init + own
    ensures forall i :: 0 <= i < |init| ==> init[i].promptId < firstId + |steps| - 1
    ensures forall j :: 0 <= j < |own| ==> own[j].promptId == firstId + |steps| - 1
  {
    var n := |steps| - 1;
    init, own := NewParametros(firstId, steps[..n]), ParamRows(firstId + n, steps[n].parametros);
    ParamRowsOwned(firstId + n, steps[n].parametros);
  }

  /** Rows of one prompt placed after rows of other prompts are found whole. */
  lemma OwnRowsFound(others: seq<ParametroRow>, own: seq<ParametroRow>, promptId: nat)
    requires forall i :: 0 <= i < |others| ==> others[i].promptId != promptId
    requires forall j :: 0 <= j < |own| ==> own[j].promptId == promptId
    ensures ParametrosOf(others + own, promptId) == own
  {
    ParametrosOfAfter(others, own, promptId);
    WhereAll(own, ParametroPrompt, promptId);
  }

  /** `create`. Without an array: 400 and nothing stored. With one: a request under
      the fresh protocol id, its steps and parameters; then, if an element throws, 500
      with what was stored before it left in place and the pipeline not started;
      otherwise 202 with the protocol id, and the pipeline runs the posted steps in
      order from an empty context. */
  method Create(db: Database, prompts: Option<Json>, protocoloUid: string, call: LlmCall)
    returns (response: Response, ghost run: Option<Run>)
    requires db.Valid() && protocoloUid !in db.solicitacoes
    modifies db`solicitacoes, db`nextSolicitacaoId, db`prompts, db`nextPromptId, db`parametros,
             db`statusWrites, db`resultados
    ensures db.Valid()
    ensures !IsArray(prompts) ==>
              && response == Response(400, ErrorMessage(InvalidPrompts)) && run.None?
              && unchanged(db)
    ensures IsArray(prompts) ==>
              CreatedFrom(prompts.value.items, protocoloUid, call, response, run, old(db.Snapshot()), db.Snapshot())
  {
    if !IsArray(prompts) {
      return Response(400, ErrorMessage(InvalidPrompts)), None;
    }
    response, run := CreateFromArray(db, prompts.value.items, protocoloUid, call);
  }

  /** What `create` leaves behind for an array `items`, from the tables `before` it ran
      to those `after`: 500 when an element throws, otherwise 202 and the pipeline's run. */
  predicate CreatedFrom(items: seq<Json>, protocoloUid: string, call: LlmCall, response: Response,
                        run: Option<Run>, before: Tables, after: Tables)
  {
    && (ReadSteps(items).None? ==> CreateFailed(items, protocoloUid, response, run, before, after))
    && (ReadSteps(items).Some? ==> CreateAccepted(ReadSteps(items).value, protocoloUid, call, response, run, before, after))
  }

  /** 500, the request left as created, and the rows of the elements before the one that
      threw stored. */
  predicate CreateFailed(items: seq<Json>, protocoloUid: string, response: Response, run: Option<Run>,
                         before: Tables, after: Tables)
  {
    var id := before.nextSolicitacaoId;
    && response == Response(500, ErrorMessage(InternalError)) && run.None?
    && after.solicitacoes == before.solicitacoes[protocoloUid := Solicitacao(id, Created, None)]
    && after.nextSolicitacaoId == id + 1
    && StoredUpToFailure(items, id, before.nextPromptId, before.prompts, after.prompts,
                         before.parametros, after.parametros, after.nextPromptId)
    && after.statusWrites == before.statusWrites && after.resultados == before.resultados
  }

  /** 202, the rows of every step stored, and the pipeline run over them in order from an
      empty context, its results logged and the request concluded. */
  predicate CreateAccepted(steps: seq<StepInput>, protocoloUid: string, call: LlmCall, response: Response,
                           run: Option<Run>, before: Tables, after: Tables)
  {
    var id := before.nextSolicitacaoId;
    var rows := NewPrompts(id, before.nextPromptId, steps);
    && response == Response(202, Accepted(protocoloUid))
    && after.nextSolicitacaoId == id + 1 && after.nextPromptId == before.nextPromptId + |steps|
    && after.prompts == before.prompts + rows
    && after.parametros == before.parametros + NewParametros(before.nextPromptId, steps)
    && run.Some?
    && run.value == ExecuteSteps(rows, map[], StepOf(after.parametros, call))
    && after.resultados == before.resultados + ResultRows(id, run.value.rows)
    && after.statusWrites == before.statusWrites + [(protocoloUid, InProgress), (protocoloUid, EndStatus(run.value.end))]
    && after.solicitacoes == before.solicitacoes[protocoloUid := Concluded(Solicitacao(id, Created, None), run.value.end)]
  }

  /** `create` once the body holds an array. */
  method CreateFromArray(db: Database, items: seq<Json>, protocoloUid: string, call: LlmCall)
    returns (response: Response, ghost run: Option<Run>)
    requires db.Valid() && protocoloUid !in db.solicitacoes
    modifies db`solicitacoes, db`nextSolicitacaoId, db`prompts, db`nextPromptId, db`parametros,
             db`statusWrites, db`resultados
    ensures db.Valid()
    ensures CreatedFrom(items, protocoloUid, call, response, run, old(db.Snapshot()), db.Snapshot())
  {
    ghost var before := db.Snapshot();
    var solicitacaoId := db.CreateSolicitacao(protocoloUid);
    response, run := InsertThenProcess(db, items, protocoloUid, solicitacaoId, call, before);
  }

  /** The rest of `create` once `createSolicitacao` has stored the request of tables
      `before`: the inserts, then the answer and, on success, the pipeline. */
  method InsertThenProcess(db: Database, items: seq<Json>, protocoloUid: string, solicitacaoId: nat, call: LlmCall,
                           ghost before: Tables)
    returns (response: Response, ghost run: Option<Run>)
    requires db.Valid() && solicitacaoId == before.nextSolicitacaoId
    requires db.Snapshot() == before.(solicitacoes := before.solicitacoes[protocoloUid := Solicitacao(solicitacaoId, Created, None)],
                                      nextSolicitacaoId := solicitacaoId + 1)
    requires forall i :: 0 <= i < |before.prompts| ==> before.prompts[i].solicitacaoId < solicitacaoId
    modifies db`solicitacoes, db`prompts, db`nextPromptId, db`parametros, db`statusWrites, db`resultados
    ensures db.Valid()
    ensures CreatedFrom(items, protocoloUid, call, response, run, before, db.Snapshot())
  {
    assert db.prompts == before.prompts && db.parametros == before.parametros && db.nextPromptId == before.nextPromptId;
    var ok := InsertPrompts(db, solicitacaoId, items);
    if !ok {
      return Response(500, ErrorMessage(InternalError)), None;
    }
    response := Response(202, Accepted(protocoloUid));
    ghost var r := StartPipeline(db, protocoloUid, call, solicitacaoId, before.nextPromptId, ReadSteps(items).value,
                                 before.prompts);
    run := Some(r);
    AcceptedCreate(ReadSteps(items).value, protocoloUid, call, r, before, db.Snapshot());
  }

  /** The tables after every element was stored and the pipeline ran are those `create`
      answers 202 with. */
  lemma AcceptedCreate(steps: seq<StepInput>, protocoloUid: string, call: LlmCall, run: Run, before: Tables, after: Tables)
    requires var rows := NewPrompts(before.nextSolicitacaoId, before.nextPromptId, steps);
             && after.nextSolicitacaoId == before.nextSolicitacaoId + 1 && after.nextPromptId == before.nextPromptId + |steps|
             && after.prompts == before.prompts + rows
             && after.parametros == before.parametros + NewParametros(before.nextPromptId, steps)
             && run == ExecuteSteps(rows, map[], StepOf(after.parametros, call))
             && after.resultados == before.resultados + ResultRows(before.nextSolicitacaoId, run.rows)
             && after.statusWrites == before.statusWrites + [(protocoloUid, InProgress), (protocoloUid, EndStatus(run.end))]
             && after.solicitacoes == before.solicitacoes[protocoloUid := Solicitacao(before.nextSolicitacaoId, Created, None)]
                                                         [protocoloUid := Concluded(Solicitacao(before.nextSolicitacaoId, Created, None), run.end)]
    ensures CreateAccepted(steps, protocoloUid, call, Response(202, Accepted(protocoloUid)), Some(run), before, after)
  {
    var request := Solicitacao(before.nextSolicitacaoId, Created, None);
    StatusOverwritten(before.solicitacoes, protocoloUid, request, Concluded(request, run.end));
  }

  /** Storing the concluded request over the created one leaves only the concluded one. */
  lemma StatusOverwritten(solicitacoes: map<string, Solicitacao>, protocoloUid: string, created: Solicitacao,
                          concluded: Solicitacao)
    ensures solicitacoes[protocoloUid := created][protocoloUid := concluded] == solicitacoes[protocoloUid := concluded]
  {
  }

  /** `ProcessingService.process(protocoloUid)` right after the inserts of `create`:
      the run is the posted steps, in order, from an empty context. */
  method StartPipeline(db: Database, protocoloUid: string, call: LlmCall, ghost solicitacaoId: nat,
                       ghost firstId: nat, ghost steps: seq<StepInput>, ghost before: seq<PromptRow>)
    returns (ghost run: Run)
    requires db.Valid()
    requires protocoloUid in db.solicitacoes && db.solicitacoes[protocoloUid] == Solicitacao(solicitacaoId, Created, None)
    requires forall i :: 0 <= i < |before| ==> before[i].solicitacaoId < solicitacaoId
    requires db.prompts == before + NewPrompts(solicitacaoId, firstId, steps)
    modifies db`solicitacoes, db`statusWrites, db`resultados
    ensures db.Valid()
    ensures run == ExecuteSteps(NewPrompts(solicitacaoId, firstId, steps), map[], StepOf(db.parametros, call))
    ensures db.resultados == old(db.resultados) + ResultRows(solicitacaoId, run.rows)
    ensures db.statusWrites == old(db.statusWrites) + [(protocoloUid, InProgress), (protocoloUid, EndStatus(run.end))]
    ensures db.solicitacoes == old(db.solicitacoes)[protocoloUid := Concluded(Solicitacao(solicitacaoId, Created, None), run.end)]
  {
    CreatedStepsInPostedOrder(before, solicitacaoId, firstId, steps);
    assert db.GetPromptsBySolicitacao(solicitacaoId) == NewPrompts(solicitacaoId, firstId, steps);
    run := Process(db, protocoloUid, call);
  }

  /** `getProgress`: 404 for an unknown protocol; otherwise 200 with the request's
      status and all its steps, in ascending order. */
  function GetProgress(db: Database, protocoloUid: string): (r: Response)
    reads db`solicitacoes, db`prompts
    ensures r.code == 404 <==> protocoloUid !in db.solicitacoes
    ensures r.code == 404 ==> r.body == ErrorMessage(NotFoundMessage)
    ensures r.code != 404 ==>
              && r.code == 200 && r.body.ProgressReport?
              && r.body.status == db.solicitacoes[protocoloUid].status
              && SortedByOrdem(r.body.prompts)
              && multiset(r.body.prompts) == multiset(PromptsOf(db.prompts, db.solicitacoes[protocoloUid].id))
  {
    match db.GetSolicitacaoByProtocolo(protocoloUid)
    case None => Response(404, ErrorMessage(NotFoundMessage))
    case Some(s) =>
      SortByOrdemSpec(PromptsOf(db.prompts, s.id));
      Response(200, ProgressReport(s.status, db.GetPromptsBySolicitacao(s.id)))
  }

  /** The body of a found request's result: `resultado_dados || '{}'`; a request with
      no stored aggregate reads as the empty object. */
  function ResultadoBody(s: Solicitacao): Body {
    ResultadoDados(if s.resultado.Some? then s.resultado.value else map[])
  }

  /** `getResultado`: 404 for an unknown protocol, otherwise 200 with the result. */
  function GetResultado(db: Database, protocoloUid: string): (r: Response)
    reads db`solicitacoes
    ensures r.code == 404 <==> protocoloUid !in db.solicitacoes
    ensures r.code == 404 ==> r.body == ErrorMessage(NotFoundMessage)
    ensures r.code != 404 ==> r == Response(200, ResultadoBody(db.solicitacoes[protocoloUid]))
  {
    match db.GetSolicitacaoByProtocolo(protocoloUid)
    case None => Response(404, ErrorMessage(NotFoundMessage))
    case Some(s) => Response(200, ResultadoBody(s))
  }

  /** After a run, the result a request reports is the run's final context when the
      run completed, and what it reported before when the run failed. */
  lemma ResultadoAfterRun(s: Solicitacao, end: Result<Context, Error>)
    ensures end.Success? ==> ResultadoBody(Concluded(s, end)) == ResultadoDados(end.value)
    ensures end.Failure? ==> ResultadoBody(Concluded(s, end)) == ResultadoBody(s)
  {
  }

  /** `resume`: 404 for an unknown protocol and 400 for a completed one, both without
      touching the store; otherwise the service resumes the request and the reply is
      202. The service's own not-found path is never reached from here. */
  method ResumeRequest(db: Database, protocoloUid: string, call: LlmCall)
    returns (response: Response, ghost run: Option<Run>)
    requires db.Valid()
    modifies db`solicitacoes, db`statusWrites, db`resultados
    ensures db.Valid()
    ensures protocoloUid !in old(db.solicitacoes) ==>
              && response == Response(404, ErrorMessage(NotFoundMessage)) && run.None?
              && unchanged(db)
    ensures protocoloUid in old(db.solicitacoes) && old(db.solicitacoes[protocoloUid].status) == Completed ==>
              && response == Response(400, ErrorMessage(AlreadyCompleted)) && run.None?
              && unchanged(db)
    ensures protocoloUid in old(db.solicitacoes) && old(db.solicitacoes[protocoloUid].status) != Completed ==>
              var s := old(db.solicitacoes[protocoloUid]);
              && response == Response(202, Resumed)
              && run.Some?
              && run.value == ExecuteSteps(Pending(old(db.GetPromptsBySolicitacao(s.id)),
                                                   OrdemInicio(old(db.GetUltimoPromptResultado(s.id)))),
                                           map[], StepOf(db.parametros, call))
              && db.resultados == old(db.resultados) + ResultRows(s.id, run.value.rows)
              && db.statusWrites == old(db.statusWrites) + [(protocoloUid, InProgress), (protocoloUid, EndStatus(run.value.end))]
              && db.solicitacoes == old(db.solicitacoes)[protocoloUid := Concluded(s, run.value.end)]
  {
    var solicitacao := db.GetSolicitacaoByProtocolo(protocoloUid);
    if solicitacao.None? {
      return Response(404, ErrorMessage(NotFoundMessage)), None;
    }
    if solicitacao.value.status == Completed {
      return Response(400, ErrorMessage(AlreadyCompleted)), None;
    }
    run := Resume(db, protocoloUid, call);
    response := Response(202, Resumed);
  }
}
