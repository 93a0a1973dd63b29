/** The pipeline engine (src/services/ProcessingService.js): `process` walks a request's
    steps in order, rendering each step's content against the accumulated context,
    dispatching it to the engine registry, merging the result into the context and
    logging a result row; `resume` does the same from the step after the last logged
    result. Any error ends the run and marks the request as failed. */
module ProcessingService {
  import opened Wrappers
  import opened Js
  import opened Bindings
  import opened Store
  import opened Templates
  import opened Merge
  import opened Registry

  /** One call of `LLMIntegration.processPrompt`: the rendered content, the engine
      name and the model. */
  datatype Dispatch = Dispatch(content: string, engine: Option<string>, modelo: Option<string>)

  /** What a run does: the calls it makes, the results it logs (with the step each one
      belongs to), and how it ends — with the final context, or with the error thrown. */
  datatype Run = Run(dispatched: seq<Dispatch>, rows: seq<(PromptRow, Json)>, end: Result<Context, Error>)

  /** What one step does with the context: the call it makes, if it gets that far,
      and either the engine's result with the context it leads to, or the error. */
  datatype StepOutcome = StepOutcome(dispatch: Option<Dispatch>, result: Result<(Json, Context), Error>)

  /** One iteration of the loop. A NULL content throws on `.replace` before the call;
      an engine error, and a result `Object.entries` rejects, throw after it. */
  function Step(prompt: PromptRow, parametros: seq<ParametroRow>, resultadoGlobal: Context, call: LlmCall)
    : (o: StepOutcome)
    ensures o.dispatch.None? <==> prompt.conteudo.None?
    ensures o.dispatch.Some? ==> o.dispatch.value.engine == prompt.engine && o.dispatch.value.modelo == prompt.modelo
    ensures o.result.Success? ==>
              && o.dispatch.Some?
              && LlmProcessPrompt(o.dispatch.value.content, prompt.engine, prompt.modelo, call)
                   == Success(o.result.value.0)
              && MergeResult(resultadoGlobal, o.result.value.0) == Success(o.result.value.1)
  {
    match prompt.conteudo
    case None => StepOutcome(None, Failure(TypeError("Cannot read properties of null (reading 'replace')")))
    case Some(conteudo) =>
      var content := ReplacePlaceholders(conteudo, Overlay(resultadoGlobal, parametros));
      var d := Dispatch(content, prompt.engine, prompt.modelo);
      match LlmProcessPrompt(content, prompt.engine, prompt.modelo, call)
      case Failure(e) => StepOutcome(Some(d), Failure(e))
      case Success(resultado) =>
        match MergeResult(resultadoGlobal, resultado)
        case Failure(e) => StepOutcome(Some(d), Failure(e))
        case Success(next) => StepOutcome(Some(d), Success((resultado, next)))
  }

  /** A step as the run sees it: from a step row and the context to its outcome. */
  type Stepper = (PromptRow, Context) -> StepOutcome

  /** The step of the pipeline over the parameter table `parametros` and the engines. */
  function StepOf(parametros: seq<ParametroRow>, call: LlmCall): Stepper {
    (prompt: PromptRow, resultadoGlobal: Context) =>
      Step(prompt, ParametrosOf(parametros, prompt.id), resultadoGlobal, call)
  }

  /** `step` is the pipeline's step over `parametros` and the engines. The equation is
      only used where the `Step` term it names is already in play, which keeps the loop
      proofs, where `step` stays abstract, small. */
  ghost predicate StepsAs(step: Stepper, parametros: seq<ParametroRow>, call: LlmCall) {
    forall prompt: PromptRow, resultadoGlobal: Context
      {:trigger Step(prompt, ParametrosOf(parametros, prompt.id), resultadoGlobal, call)} ::
      step(prompt, resultadoGlobal) == Step(prompt, ParametrosOf(parametros, prompt.id), resultadoGlobal, call)
  }

  lemma StepOfStepsAs(parametros: seq<ParametroRow>, call: LlmCall)
    ensures StepsAs(StepOf(parametros, call), parametros, call)
  {
  }

  /** `run` with `dispatched` and `rows` done before it. */
  function Prepend(dispatched: seq<Dispatch>, rows: seq<(PromptRow, Json)>, run: Run): Run {
    Run(dispatched + run.dispatched, rows + run.rows, run.end)
  }

  /** The steps run in order from `resultadoGlobal`, stopping at the first error: a
      row is logged for each step before the failing one, and for every step when the
      run completes. */
  function ExecuteSteps(prompts: seq<PromptRow>, resultadoGlobal: Context, step: Stepper): (r: Run)
    ensures |r.rows| <= |prompts| && |r.dispatched| <= |prompts|
    ensures r.end.Success? ==> |r.rows| == |prompts|
    ensures r.end.Failure? ==> |r.rows| < |prompts|
    decreases |prompts|
  {
    if prompts == [] then Run([], [], Success(resultadoGlobal))
    else
      var o := step(prompts[0], resultadoGlobal);
      var ds := if o.dispatch.Some? then [o.dispatch.value] else [];
      match o.result
      case Failure(e) => Run(ds, [], Failure(e))
      case Success(r) => Prepend(ds, [(prompts[0], r.0)], ExecuteSteps(prompts[1..], r.1, step))
  }

  /** Each logged row belongs to the step at its position: the run logs a prefix of
      the steps, in order. */
  lemma {:induction false} RowsFollowSteps(prompts: seq<PromptRow>, resultadoGlobal: Context, step: Stepper)
    ensures var r := ExecuteSteps(prompts, resultadoGlobal, step);
            forall i :: 0 <= i < |r.rows| ==> r.rows[i].0 == prompts[i]
  {
    if prompts != [] {
      var o := step(prompts[0], resultadoGlobal);
      if o.result.Success? {
        RowsFollowSteps(prompts[1..], o.result.value.1, step);
      }
    }
  }

  /** Running `a + b` is running `a` and then, if it completed, running `b` from the
      context `a` ended with; an error in `a` means no step of `b` is called. */
  lemma {:induction false} ExecuteStepsAppend(a: seq<PromptRow>, b: seq<PromptRow>, resultadoGlobal: Context,
                                              step: Stepper)
    ensures var ra := ExecuteSteps(a, resultadoGlobal, step);
            ExecuteSteps(a + b, resultadoGlobal, step)
              == if ra.end.Failure? then ra
                 else Prepend(ra.dispatched, ra.rows, ExecuteSteps(b, ra.end.value, step))
  {
    if a == [] {
      assert a + b == b;
      PrependNothing(ExecuteSteps(b, resultadoGlobal, step));
    } else {
      assert (a + b)[0] == a[0];
      assert (a + b)[1..] == a[1..] + b;
      var o := step(a[0], resultadoGlobal);
      if o.result.Success? {
        var ds := if o.dispatch.Some? then [o.dispatch.value] else [];
        var row := [(a[0], o.result.value.0)];
        var ctx := o.result.value.1;
        ExecuteStepsAppend(a[1..], b, ctx, step);
        var ra' := ExecuteSteps(a[1..], ctx, step);
        if ra'.end.Success? {
          PrependPrepend(ds, row, ra'.dispatched, ra'.rows, ExecuteSteps(b, ra'.end.value, step));
        }
      }
    }
  }

  /** One more step of a run in progress: a failing step ends it, a completed step
      logs its row and leaves the remaining steps to run from the new context. */
  lemma RunAdvance(rest: seq<PromptRow>, resultadoGlobal: Context, step: Stepper,
                   dispatched: seq<Dispatch>, rows: seq<(PromptRow, Json)>)
    requires rest != []
    ensures var o := step(rest[0], resultadoGlobal);
            var ds := if o.dispatch.Some? then [o.dispatch.value] else [];
            var before := Prepend(dispatched, rows, ExecuteSteps(rest, resultadoGlobal, step));
            && (o.result.Failure? ==> before == Run(dispatched + ds, rows, Failure(o.result.error)))
            && (o.result.Success? ==>
                  before == Prepend(dispatched + ds, rows + [(rest[0], o.result.value.0)],
                                    ExecuteSteps(rest[1..], o.result.value.1, step)))
  {
    var o := step(rest[0], resultadoGlobal);
    var ds := if o.dispatch.Some? then [o.dispatch.value] else [];
    if o.result.Success? {
      PrependPrepend(dispatched, rows, ds, [(rest[0], o.result.value.0)],
                     ExecuteSteps(rest[1..], o.result.value.1, step));
    } else {
      assert rows + [] == rows;
    }
  }

  /** A run with no steps left ends with the context it has. */
  lemma RunFinish(resultadoGlobal: Context, step: Stepper, dispatched: seq<Dispatch>, rows: seq<(PromptRow, Json)>)
    ensures Prepend(dispatched, rows, ExecuteSteps([], resultadoGlobal, step))
            == Run(dispatched, rows, Success(resultadoGlobal))
  {
    assert dispatched + [] == dispatched && rows + [] == rows;
  }

  lemma SuffixStep<T>(s: seq<T>, i: nat)
    requires i < |s|
    ensures s[i..] != [] && s[i..][0] == s[i] && s[i..][1..] == s[i + 1..]
  {
  }

  lemma PrependNothing(run: Run)
    ensures Prepend([], [], run) == run
  {
  }

  lemma PrependPrepend(d1: seq<Dispatch>, r1: seq<(PromptRow, Json)>, d2: seq<Dispatch>, r2: seq<(PromptRow, Json)>,
                       run: Run)
    ensures Prepend(d1, r1, Prepend(d2, r2, run)) == Prepend(d1 + d2, r1 + r2, run)
  {
    assert d1 + (d2 + run.dispatched) == d1 + d2 + run.dispatched;
    assert r1 + (r2 + run.rows) == r1 + r2 + run.rows;
  }

  /** In the pipeline every call belongs to the step at its position, carrying that
      step's engine and model; only the failing step, if any, is called without a row
      being logged, and a completed run calls every step exactly once. */
  lemma DispatchesInOrder(prompts: seq<PromptRow>, parametros: seq<ParametroRow>,
                          resultadoGlobal: Context, call: LlmCall)
    ensures var r := ExecuteSteps(prompts, resultadoGlobal, StepOf(parametros, call));
            && |r.rows| <= |r.dispatched|
            && (forall i :: 0 <= i < |r.dispatched| ==>
                  r.dispatched[i].engine == prompts[i].engine && r.dispatched[i].modelo == prompts[i].modelo)
            && (r.end.Success? ==> |r.dispatched| == |prompts|)
            && (r.end.Failure? ==> |r.dispatched| <= |r.rows| + 1)
  {
    var step := StepOf(parametros, call);
    forall prompt, ctx ensures CallsOwnEngine(step, prompt, ctx) {
      assert step(prompt, ctx) == Step(prompt, ParametrosOf(parametros, prompt.id), ctx, call);
    }
    DispatchesFollowSteps(prompts, resultadoGlobal, step);
  }

  /** A step that calls at most once, with its own engine and model, and only
      completes after calling. */
  ghost predicate CallsOwnEngine(step: Stepper, prompt: PromptRow, resultadoGlobal: Context) {
    var o := step(prompt, resultadoGlobal);
    && (o.dispatch.Some? ==> o.dispatch.value.engine == prompt.engine && o.dispatch.value.modelo == prompt.modelo)
    && (o.result.Success? ==> o.dispatch.Some?)
  }

  lemma {:induction false} DispatchesFollowSteps(prompts: seq<PromptRow>, resultadoGlobal: Context, step: Stepper)
    requires forall prompt, ctx :: CallsOwnEngine(step, prompt, ctx)
    ensures var r := ExecuteSteps(prompts, resultadoGlobal, step);
            && |r.rows| <= |r.dispatched|
            && (forall i :: 0 <= i < |r.dispatched| ==>
                  r.dispatched[i].engine == prompts[i].engine && r.dispatched[i].modelo == prompts[i].modelo)
            && (r.end.Success? ==> |r.dispatched| == |prompts|)
            && (r.end.Failure? ==> |r.dispatched| <= |r.rows| + 1)
  {
    if prompts != [] {
      var o := step(prompts[0], resultadoGlobal);
      assert CallsOwnEngine(step, prompts[0], resultadoGlobal);
      if o.result.Success? {
        DispatchesFollowSteps(prompts[1..], o.result.value.1, step);
      }
    }
  }

  /** The rows the result log gains for a request. */
  function ResultRows(solicitacaoId: nat, rows: seq<(PromptRow, Json)>): (r: seq<ResultadoRow>)
    ensures |r| == |rows|
    ensures forall i :: 0 <= i < |rows| ==>
              r[i] == ResultadoRow(solicitacaoId, rows[i].0.id, rows[i].0.ordem, rows[i].1)
  {
    seq(|rows|, i requires 0 <= i < |rows| => ResultadoRow(solicitacaoId, rows[i].0.id, rows[i].0.ordem, rows[i].1))
  }

  lemma ResultRowsSnoc(solicitacaoId: nat, rows: seq<(PromptRow, Json)>, row: (PromptRow, Json))
    ensures ResultRows(solicitacaoId, rows + [row])
            == ResultRows(solicitacaoId, rows) + [ResultadoRow(solicitacaoId, row.0.id, row.0.ordem, row.1)]
  {
  }

  /** The loop body shared by `process` and `resume`: render, call, merge, log. */
  method ExecutePrompt(db: Database, solicitacaoId: nat, prompt: PromptRow, resultadoGlobal: Context, call: LlmCall,
                       ghost step: Stepper)
    returns (dispatch: Option<Dispatch>, result: Result<Context, Error>)
    requires db.Valid() && solicitacaoId < db.nextSolicitacaoId && StepsAs(step, db.parametros, call)
    modifies db`resultados
    ensures db.Valid()
    ensures var o := step(prompt, resultadoGlobal);
            && dispatch == o.dispatch
            && (o.result.Failure? ==> result == Failure(o.result.error) && db.resultados == old(db.resultados))
            && (o.result.Success? ==>
                  result == Success(o.result.value.1) &&
                  db.resultados == old(db.resultados) + [ResultadoRow(solicitacaoId, prompt.id, prompt.ordem, o.result.value.0)])
  {
    assert step(prompt, resultadoGlobal) == Step(prompt, ParametrosOf(db.parametros, prompt.id), resultadoGlobal, call);
    var parametros := db.GetParametrosByPrompt(prompt.id);
    var substituicoes := PrepareSubstituicoes(parametros, resultadoGlobal);
    if prompt.conteudo.None? {
      return None, Failure(TypeError("Cannot read properties of null (reading 'replace')"));
    }
    var promptConteudo := ReplacePlaceholders(prompt.conteudo.value, substituicoes);
    dispatch := Some(Dispatch(promptConteudo, prompt.engine, prompt.modelo));
    var resultado := LlmProcessPrompt(promptConteudo, prompt.engine, prompt.modelo, call);
    if resultado.Failure? {
      return dispatch, Failure(resultado.error);
    }
    result := MergeInto(resultadoGlobal, resultado.value);
    if result.Success? {
      db.InsertPromptResultado(solicitacaoId, prompt.id, prompt.ordem, resultado.value);
    }
  }

  /** `process(protocoloUid)`. An unknown protocol throws at once: the failure status is
      written to no row and nothing else happens. Otherwise the request goes to
      `InProgress`, its steps run in ascending order from an empty context, each logged
      result is appended to the result log, and the request ends `Completed` with the
      whole accumulated context as its result, or `Failed` with its earlier result kept
      and the rows logged so far left in place. */
  method Process(db: Database, protocoloUid: string, call: LlmCall) returns (ghost run: Run)
    requires db.Valid()
    modifies db`solicitacoes, db`statusWrites, db`resultados
    ensures db.Valid()
    ensures protocoloUid !in old(db.solicitacoes) ==>
              && db.solicitacoes == old(db.solicitacoes)
              && db.resultados == old(db.resultados)
              && db.statusWrites == old(db.statusWrites) + [(protocoloUid, Failed)]
              && run == Run([], [], Failure(NotFound))
    ensures protocoloUid in old(db.solicitacoes) ==>
              run == ExecuteSteps(old(db.GetPromptsBySolicitacao(db.solicitacoes[protocoloUid].id)), map[],
                                  StepOf(db.parametros, call))
    ensures protocoloUid in old(db.solicitacoes) ==>
              var s := old(db.solicitacoes[protocoloUid]);
              && db.resultados == old(db.resultados) + ResultRows(s.id, run.rows)
              && db.statusWrites == old(db.statusWrites) + [(protocoloUid, InProgress), (protocoloUid, EndStatus(run.end))]
              && db.solicitacoes == old(db.solicitacoes)[protocoloUid := Concluded(s, run.end)]
  {
    var solicitacao := db.GetSolicitacaoByProtocolo(protocoloUid);
    if solicitacao.None? {
      db.UpdateSolicitacaoStatus(protocoloUid, Failed, None);
      return Run([], [], Failure(NotFound));
    }
    StepOfStepsAs(db.parametros, call);
    run := ProcessFound(db, protocoloUid, call, StepOf(db.parametros, call));
  }

  /** `process` for a protocol that exists. */
  method ProcessFound(db: Database, protocoloUid: string, call: LlmCall, ghost step: Stepper) returns (ghost run: Run)
    requires db.Valid() && protocoloUid in db.solicitacoes && StepsAs(step, db.parametros, call)
    modifies db`solicitacoes, db`statusWrites, db`resultados
    ensures db.Valid()
    ensures run == ExecuteSteps(old(db.GetPromptsBySolicitacao(db.solicitacoes[protocoloUid].id)), map[], step)
    ensures var s := old(db.solicitacoes[protocoloUid]);
            && db.resultados == old(db.resultados) + ResultRows(s.id, run.rows)
            && db.statusWrites == old(db.statusWrites) + [(protocoloUid, InProgress), (protocoloUid, EndStatus(run.end))]
            && db.solicitacoes == old(db.solicitacoes)[protocoloUid := Concluded(s, run.end)]
  {
    var s := db.solicitacoes[protocoloUid];
    ghost var before := db.solicitacoes;
    ghost var writes := db.statusWrites;
    Start(db, protocoloUid);
    ghost var started := db.solicitacoes;
    var prompts := db.GetPromptsBySolicitacao(s.id);
    var result;
    result, run := RunSteps(db, s.id, prompts, call, step);
    Conclude(db, protocoloUid, result);
    assert Concluded(started[protocoloUid], result) == Concluded(s, result);
    OverwriteTwice(before, protocoloUid, started[protocoloUid], db.solicitacoes[protocoloUid]);
    AppendTwo(writes, (protocoloUid, InProgress), (protocoloUid, EndStatus(result)));
  }

  lemma AppendTwo<T>(s: seq<T>, a: T, b: T)
    ensures s + [a] + [b] == s + [a, b]
  {
  }

  lemma OverwriteTwice<K, V>(m: map<K, V>, k: K, v1: V, v2: V)
    ensures m[k := v1][k := v2] == m[k := v2]
  {
  }

  /** The status a run leaves: `Completed` when it ran to the end, `Failed` when a
      step threw. */
  function EndStatus(end: Result<Context, Error>): Status {
    if end.Success? then Completed else Failed
  }

  /** The request as a run leaves it: the final context becomes its result when the
      run completes; a failed run keeps the result it had. */
  function Concluded(s: Solicitacao, end: Result<Context, Error>): Solicitacao {
    s.(status := EndStatus(end), resultado := if end.Success? then Some(end.value) else s.resultado)
  }

  /** The first status write of a run: the request is `InProgress`, its result kept. */
  method Start(db: Database, protocoloUid: string)
    requires db.Valid() && protocoloUid in db.solicitacoes
    modifies db`solicitacoes, db`statusWrites
    ensures db.Valid()
    ensures db.statusWrites == old(db.statusWrites) + [(protocoloUid, InProgress)]
    ensures db.solicitacoes == old(db.solicitacoes)[protocoloUid := old(db.solicitacoes[protocoloUid]).(status := InProgress)]
  {
    db.UpdateSolicitacaoStatus(protocoloUid, InProgress, None);
  }

  /** The last status write of a run: `Completed` with the final context as the
      request's result, or `Failed` with the result it had kept. */
  method Conclude(db: Database, protocoloUid: string, result: Result<Context, Error>)
    requires db.Valid() && protocoloUid in db.solicitacoes
    modifies db`solicitacoes, db`statusWrites
    ensures db.Valid()
    ensures db.statusWrites == old(db.statusWrites) + [(protocoloUid, EndStatus(result))]
    ensures db.solicitacoes == old(db.solicitacoes)[protocoloUid := Concluded(old(db.solicitacoes[protocoloUid]), result)]
  {
    if result.Success? {
      db.UpdateSolicitacaoStatus(protocoloUid, Completed, Some(result.value));
    } else {
      db.UpdateSolicitacaoStatus(protocoloUid, Failed, None);
    }
  }

  /** The loop of `process`: every step in the order given, from an empty context,
      until one throws. */
  method RunSteps(db: Database, solicitacaoId: nat, prompts: seq<PromptRow>, call: LlmCall, ghost step: Stepper)
    returns (result: Result<Context, Error>, ghost run: Run)
    requires db.Valid() && solicitacaoId < db.nextSolicitacaoId && StepsAs(step, db.parametros, call)
    modifies db`resultados
    ensures db.Valid()
    ensures run == ExecuteSteps(prompts, map[], step) && result == run.end
    ensures db.resultados == old(db.resultados) + ResultRows(solicitacaoId, run.rows)
  {
    run := ExecuteSteps(prompts, map[], step);
    ghost var dispatched: seq<Dispatch> := [];
    ghost var rows: seq<(PromptRow, Json)> := [];
    var resultadoGlobal: Context := map[];
    var failure: Option<Error> := None;
    var i := 0;
    while i < |prompts| && failure.None?
      invariant 0 <= i <= |prompts|
      invariant db.Valid() && StepsAs(step, db.parametros, call)
      invariant db.resultados == old(db.resultados) + ResultRows(solicitacaoId, rows)
      invariant failure.None? ==>
                  run == Prepend(dispatched, rows, ExecuteSteps(prompts[i..], resultadoGlobal, step))
      invariant failure.Some? ==> run == Run(dispatched, rows, Failure(failure.value))
    {
      SuffixStep(prompts, i);
      failure, resultadoGlobal, dispatched, rows :=
        AdvanceRun(db, solicitacaoId, prompts[i], resultadoGlobal, call, step, prompts[i..], dispatched, rows,
                   old(db.resultados));
      i := i + 1;
    }
    if failure.None? {
      assert prompts[|prompts|..] == [];
      RunFinish(resultadoGlobal, step, dispatched, rows);
      result := Success(resultadoGlobal);
    } else {
      result := Failure(failure.value);
    }
  }

  /** One iteration of the loops of `process` and `resume`, with the run's bookkeeping:
      `rest`, the steps still to run, starts with `prompt`; what is left of the run after
      it, and the rows it has logged. */
  method AdvanceRun(db: Database, solicitacaoId: nat, prompt: PromptRow, resultadoGlobal: Context,
                    call: LlmCall, ghost step: Stepper, ghost rest: seq<PromptRow>, ghost dispatched: seq<Dispatch>,
                    ghost rows: seq<(PromptRow, Json)>, ghost logged: seq<ResultadoRow>)
    returns (failure: Option<Error>, next: Context, ghost dispatched': seq<Dispatch>,
             ghost rows': seq<(PromptRow, Json)>)
    requires db.Valid() && solicitacaoId < db.nextSolicitacaoId && StepsAs(step, db.parametros, call)
    requires rest != [] && rest[0] == prompt && db.resultados == logged + ResultRows(solicitacaoId, rows)
    modifies db`resultados
    ensures db.Valid() && db.resultados == logged + ResultRows(solicitacaoId, rows')
    ensures var before := Prepend(dispatched, rows, ExecuteSteps(rest, resultadoGlobal, step));
            && (failure.None? ==> before == Prepend(dispatched', rows', ExecuteSteps(rest[1..], next, step)))
            && (failure.Some? ==> before == Run(dispatched', rows', Failure(failure.value)))
  {
    ghost var o := step(prompt, resultadoGlobal);
    RunAdvance(rest, resultadoGlobal, step, dispatched, rows);
    var dispatch, stepResult := ExecutePrompt(db, solicitacaoId, prompt, resultadoGlobal, call, step);
    dispatched' := dispatched + if dispatch.Some? then [dispatch.value] else [];
    if stepResult.Failure? {
      failure, next, rows' := Some(stepResult.error), resultadoGlobal, rows;
    } else {
      ResultRowsSnoc(solicitacaoId, rows, (prompt, o.result.value.0));
      failure, next, rows' := None, stepResult.value, rows + [(prompt, o.result.value.0)];
    }
  }

  /** Where `resume` restarts: after the order of the last logged result, or at order 1
      when nothing was logged. */
  function OrdemInicio(ultimo: Option<ResultadoRow>): (r: int)
    ensures ultimo.Some? ==> r > ultimo.value.ordem
    ensures ultimo.None? ==> r == 1
  {
    if ultimo.Some? then ultimo.value.ordem + 1 else 1
  }

  /** The steps `resume` runs, in order: those whose order is not below `ordemInicio`. */
  function Pending(prompts: seq<PromptRow>, ordemInicio: int): (r: seq<PromptRow>)
    ensures |r| <= |prompts|
    ensures forall x :: x in r ==> x in prompts && x.ordem >= ordemInicio
  {
    if prompts == [] then []
    else if prompts[0].ordem < ordemInicio then Pending(prompts[1..], ordemInicio)
    else [prompts[0]] + Pending(prompts[1..], ordemInicio)
  }

  /** A step is pending exactly when it is a step of the request at or after the
      restart order; none is dropped. */
  lemma {:induction false} PendingMembers(prompts: seq<PromptRow>, ordemInicio: int, x: PromptRow)
    ensures x in Pending(prompts, ordemInicio) <==> x in prompts && x.ordem >= ordemInicio
  {
    if prompts != [] {
      PendingMembers(prompts[1..], ordemInicio, x);
      assert x in prompts <==> x == prompts[0] || x in prompts[1..];
    }
  }

  /** With every order at or after the restart, nothing is skipped. */
  lemma {:induction false} PendingAll(prompts: seq<PromptRow>, ordemInicio: int)
    requires forall i :: 0 <= i < |prompts| ==> prompts[i].ordem >= ordemInicio
    ensures Pending(prompts, ordemInicio) == prompts
  {
    if prompts != [] {
      PendingAll(prompts[1..], ordemInicio);
      assert [prompts[0]] + prompts[1..] == prompts;
    }
  }

  /** Steps numbered `base`, `base + 1`, ... in order, as `create` numbers them from 1:
      restarting at order `k` runs exactly the suffix from the step numbered `k`. */
  lemma {:induction false} PendingOfNumbered(prompts: seq<PromptRow>, base: int, k: int)
    requires forall i :: 0 <= i < |prompts| ==> prompts[i].ordem == base + i
    requires base <= k <= base + |prompts|
    ensures Pending(prompts, k) == prompts[k - base..]
  {
    if k == base {
      PendingAll(prompts, k);
    } else {
      PendingOfNumbered(prompts[1..], base + 1, k);
      assert prompts[1..][k - (base + 1)..] == prompts[k - base..];
    }
  }

  /** After a run over steps numbered 1..n that logged rows for its first `m` steps,
      `resume` restarts at the step that failed: the steps it runs are exactly the ones
      without a row. */
  lemma ResumePicksUpAfterLastRow(prompts: seq<PromptRow>, resultadoGlobal: Context, step: Stepper,
                                  solicitacaoId: nat)
    requires forall i :: 0 <= i < |prompts| ==> prompts[i].ordem == i + 1
    ensures var r := ExecuteSteps(prompts, resultadoGlobal, step);
            var logged := ResultRows(solicitacaoId, r.rows);
            var ultimo := if logged == [] then None else Some(logged[|logged| - 1]);
            Pending(prompts, OrdemInicio(ultimo)) == prompts[|r.rows|..]
  {
    var r := ExecuteSteps(prompts, resultadoGlobal, step);
    RowsFollowSteps(prompts, resultadoGlobal, step);
    PendingOfNumbered(prompts, 1, |r.rows| + 1);
  }

  /** The context `resume` starts from is empty even when results were logged: a step
      "{{a}}" resumed after a logged result {"a": "x"} is sent "" as written, where the
      awaited results would have had it sent "x". */
  lemma UnawaitedResultsAreNotSeen(prompt: PromptRow, call: LlmCall)
    requires prompt.conteudo == Some("{{a}}")
    ensures Step(prompt, [], map[], call).dispatch == Some(Dispatch("", prompt.engine, prompt.modelo))
    ensures Step(prompt, [], LoadResultadosGlobais([JObj([("a", JStr("x"))])]), call).dispatch
            == Some(Dispatch("x", prompt.engine, prompt.modelo))
  {
    ResumedStepSendsEmpty(prompt, call);
    AwaitedStepSendsX(prompt, call);
  }

  lemma ResumedStepSendsEmpty(prompt: PromptRow, call: LlmCall)
    requires prompt.conteudo == Some("{{a}}")
    ensures Step(prompt, [], map[], call).dispatch == Some(Dispatch("", prompt.engine, prompt.modelo))
  {
    StepRenders(prompt, map[], call);
    RenderBareA(map[]);
    NoParametros(map[]);
    DisplayMissingA();
  }

  lemma AwaitedStepSendsX(prompt: PromptRow, call: LlmCall)
    requires prompt.conteudo == Some("{{a}}")
    ensures Step(prompt, [], LoadResultadosGlobais([JObj([("a", JStr("x"))])]), call).dispatch
            == Some(Dispatch("x", prompt.engine, prompt.modelo))
  {
    var loaded := LoadResultadosGlobais([JObj([("a", JStr("x"))])]);
    LoadedOne();
    StepRenders(prompt, loaded, call);
    RenderBareA(loaded);
    NoParametros(loaded);
    DisplayX();
  }

  /** "a" is not a property of `Object.prototype`, so an empty context renders it as "". */
  lemma DisplayMissingA()
    ensures Display(map[], "a") == ""
  {
    assert !Inherited("a");
  }

  lemma DisplayX()
    ensures Display(map["a" := JStr("x")], "a") == "x"
  {
    assert !Falsy(JStr("x"));
  }

  lemma StepRenders(prompt: PromptRow, ctx: Context, call: LlmCall)
    requires prompt.conteudo.Some?
    ensures Step(prompt, [], ctx, call).dispatch
            == Some(Dispatch(ReplacePlaceholders(prompt.conteudo.value, Overlay(ctx, [])), prompt.engine, prompt.modelo))
  {
  }

  lemma LoadedOne()
    ensures LoadResultadosGlobais([JObj([("a", JStr("x"))])]) == map["a" := JStr("x")]
  {
    var r := JObj([("a", JStr("x"))]);
    assert [r][..0] == [];
    assert LoadResultadosGlobais([r]) == ApplyWrites(map[], [("a", JStr("x"))]);
    assert [("a", JStr("x"))][..0] == [];
  }

  /** "{{a}}" renders as the display of "a": the key is plain, already trimmed, and
      "{{a}}" is the placeholder built from it. */
  lemma RenderBareA(ctx: Context)
    ensures ReplacePlaceholders("{{a}}", ctx) == Display(ctx, "a")
  {
    assert !IsLineTerminator('a');
    assert !IsSpace('a');
    TrimSpec("a");
    assert "{{" + "a" + "}}" == "{{a}}";
    RenderBare("a", ctx);
  }

  /** A content that is a single placeholder renders as its binding. */
  lemma RenderBare(k: string, ctx: Context)
    requires PlainKey(k)
    ensures ReplacePlaceholders("{{" + k + "}}", ctx) == Display(ctx, Trim(k))
  {
    ReplaceBare(k, ctx, Replacement);
  }

  lemma NoParametros(ctx: Context)
    ensures Overlay(ctx, []) == ctx
  {
    assert ParamWrites([]) == [];
  }

  /** `resume(protocoloUid)`. An unknown protocol writes the failure status to no row; a
      request already `Completed` is left exactly as it is and no step runs (`None`).
      Otherwise the request goes to `InProgress` and the steps from the one after the
      last logged result run from an EMPTY context: the earlier results are loaded
      without being awaited, so the live context never sees them. */
  method Resume(db: Database, protocoloUid: string, call: LlmCall) returns (ghost run: Option<Run>)
    requires db.Valid()
    modifies db`solicitacoes, db`statusWrites, db`resultados
    ensures db.Valid()
    ensures protocoloUid !in old(db.solicitacoes) ==>
              && db.solicitacoes == old(db.solicitacoes)
              && db.resultados == old(db.resultados)
              && db.statusWrites == old(db.statusWrites) + [(protocoloUid, Failed)]
              && run == Some(Run([], [], Failure(NotFound)))
    ensures protocoloUid in old(db.solicitacoes) && old(db.solicitacoes[protocoloUid].status) == Completed ==>
              && run.None?
              && db.solicitacoes == old(db.solicitacoes)
              && db.resultados == old(db.resultados)
              && db.statusWrites == old(db.statusWrites)
    ensures protocoloUid in old(db.solicitacoes) && old(db.solicitacoes[protocoloUid].status) != Completed ==>
              var s := old(db.solicitacoes[protocoloUid]);
              && run.Some?
              && run.value == ExecuteSteps(Pending(old(db.GetPromptsBySolicitacao(s.id)),
                                                   OrdemInicio(old(db.GetUltimoPromptResultado(s.id)))),
                                           map[], StepOf(db.parametros, call))
              && db.resultados == old(db.resultados) + ResultRows(s.id, run.value.rows)
              && db.statusWrites == old(db.statusWrites) + [(protocoloUid, InProgress), (protocoloUid, EndStatus(run.value.end))]
              && db.solicitacoes == old(db.solicitacoes)[protocoloUid := Concluded(s, run.value.end)]
  {
    var solicitacao := db.GetSolicitacaoByProtocolo(protocoloUid);
    if solicitacao.None? {
      db.UpdateSolicitacaoStatus(protocoloUid, Failed, None);
      return Some(Run([], [], Failure(NotFound)));
    }
    if solicitacao.value.status == Completed {
      return None;
    }
    StepOfStepsAs(db.parametros, call);
    ghost var r := ResumeFound(db, protocoloUid, call, StepOf(db.parametros, call));
    run := Some(r);
  }

  /** `resume` for a request that exists and is not `Completed`. */
  method ResumeFound(db: Database, protocoloUid: string, call: LlmCall, ghost step: Stepper) returns (ghost run: Run)
    requires db.Valid() && protocoloUid in db.solicitacoes && StepsAs(step, db.parametros, call)
    modifies db`solicitacoes, db`statusWrites, db`resultados
    ensures db.Valid()
    ensures var s := old(db.solicitacoes[protocoloUid]);
            run == ExecuteSteps(Pending(old(db.GetPromptsBySolicitacao(s.id)), OrdemInicio(old(db.GetUltimoPromptResultado(s.id)))),
                                map[], step)
    ensures var s := old(db.solicitacoes[protocoloUid]);
            && db.resultados == old(db.resultados) + ResultRows(s.id, run.rows)
            && db.statusWrites == old(db.statusWrites) + [(protocoloUid, InProgress), (protocoloUid, EndStatus(run.end))]
            && db.solicitacoes == old(db.solicitacoes)[protocoloUid := Concluded(s, run.end)]
  {
    var s := db.solicitacoes[protocoloUid];
    ghost var before := db.solicitacoes;
    ghost var writes := db.statusWrites;
    Start(db, protocoloUid);
    ghost var started := db.solicitacoes;
    var prompts := db.GetPromptsBySolicitacao(s.id);
    var ultimoPromptResultado := db.GetUltimoPromptResultado(s.id);
    var ordemInicio := OrdemInicio(ultimoPromptResultado);
    var result;
    result, run := RunPendingSteps(db, s.id, prompts, ordemInicio, call, step);
    Conclude(db, protocoloUid, result);
    assert Concluded(started[protocoloUid], result) == Concluded(s, result);
    OverwriteTwice(before, protocoloUid, started[protocoloUid], db.solicitacoes[protocoloUid]);
    AppendTwo(writes, (protocoloUid, InProgress), (protocoloUid, EndStatus(result)));
  }

  /** The loop of `resume`: steps below `ordemInicio` are passed over, the others run in
      order from an empty context until one throws. */
  method RunPendingSteps(db: Database, solicitacaoId: nat, prompts: seq<PromptRow>, ordemInicio: int,
                         call: LlmCall, ghost step: Stepper)
    returns (result: Result<Context, Error>, ghost run: Run)
    requires db.Valid() && solicitacaoId < db.nextSolicitacaoId && StepsAs(step, db.parametros, call)
    modifies db`resultados
    ensures db.Valid()
    ensures run == ExecuteSteps(Pending(prompts, ordemInicio), map[], step) && result == run.end
    ensures db.resultados == old(db.resultados) + ResultRows(solicitacaoId, run.rows)
  {
    run := ExecuteSteps(Pending(prompts, ordemInicio), map[], step);
    ghost var dispatched: seq<Dispatch> := [];
    ghost var rows: seq<(PromptRow, Json)> := [];
    var resultadoGlobal: Context := map[];
    var failure: Option<Error> := None;
    var i := 0;
    assert prompts[0..] == prompts;
    while i < |prompts| && failure.None?
      invariant 0 <= i <= |prompts|
      invariant db.Valid() && StepsAs(step, db.parametros, call)
      invariant db.resultados == old(db.resultados) + ResultRows(solicitacaoId, rows)
      invariant failure.None? ==>
                  run == Prepend(dispatched, rows, ExecuteSteps(Pending(prompts[i..], ordemInicio), resultadoGlobal, step))
      invariant failure.Some? ==> run == Run(dispatched, rows, Failure(failure.value))
    {
      PendingStep(prompts, i, ordemInicio);
      if prompts[i].ordem < ordemInicio {
        i := i + 1;
        continue;
      }
      failure, resultadoGlobal, dispatched, rows :=
        AdvanceRun(db, solicitacaoId, prompts[i], resultadoGlobal, call, step, Pending(prompts[i..], ordemInicio),
                   dispatched, rows, old(db.resultados));
      i := i + 1;
    }
    if failure.None? {
      assert prompts[|prompts|..] == [];
      RunFinish(resultadoGlobal, step, dispatched, rows);
      result := Success(resultadoGlobal);
    } else {
      result := Failure(failure.value);
    }
  }

  /** What the loop of `resume` sees at position `i`: a skipped step leaves the pending
      steps as they were, a kept one is the first of them. */
  lemma PendingStep(prompts: seq<PromptRow>, i: nat, ordemInicio: int)
    requires i < |prompts|
    ensures prompts[i].ordem < ordemInicio ==> Pending(prompts[i..], ordemInicio) == Pending(prompts[i + 1..], ordemInicio)
    ensures prompts[i].ordem >= ordemInicio ==>
              var rest := Pending(prompts[i..], ordemInicio);
              rest != [] && rest[0] == prompts[i] && rest[1..] == Pending(prompts[i + 1..], ordemInicio)
  {
    SuffixStep(prompts, i);
  }
}
