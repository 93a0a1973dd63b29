/** The persistence the pipeline reads and writes, kept in memory: requests
    ("solicitações", keyed by their protocol id), their steps ("prompts"), each step's
    substitution parameters ("parâmetros") and the append-only log of step results
    ("prompt resultados"). The methods are the repository calls the core makes; the
    functions are its queries. */
module Store {
  import opened Wrappers
  import opened Js
  import opened Bindings

  /** Request status. The source writes 'em_progresso', 'concluido' and 'erro'; the
      status a fresh request starts with is `Created`. */
  datatype Status = Created | InProgress | Completed | Failed

  /** A request; `resultado` is the aggregate stored when it completes. */
  datatype Solicitacao = Solicitacao(id: nat, status: Status, resultado: Option<Context>)

  /** A step. Text columns are None when SQL NULL. */
  datatype PromptRow = PromptRow(
    id: nat,
    solicitacaoId: nat,
    conteudo: Option<string>,
    engine: Option<string>,
    modelo: Option<string>,
    ordem: int,
    parametrosModelo: Option<Json>)

  /** A substitution parameter of one step. */
  datatype ParametroRow = ParametroRow(promptId: nat, nome: Option<string>, valor: Option<string>)

  /** One step's result; `ordem` is the order of the step it belongs to, which the
      query for the latest result joins in. */
  datatype ResultadoRow = ResultadoRow(solicitacaoId: nat, promptId: nat, ordem: int, resultado: Json)

  predicate SortedByOrdem(rows: seq<PromptRow>) {
    forall i, j :: 0 <= i < j < |rows| ==> rows[i].ordem <= rows[j].ordem
  }

  /** Inserts `x` into `rows` after the trailing rows whose order is larger. */
  function InsertByOrdem(x: PromptRow, rows: seq<PromptRow>): (r: seq<PromptRow>)
    ensures |r| == |rows| + 1
  {
    if rows == [] || rows[|rows| - 1].ordem <= x.ordem then rows + [x]
    else InsertByOrdem(x, rows[..|rows| - 1]) + [rows[|rows| - 1]]
  }

  /** Insertion adds `x` and loses nothing. */
  lemma {:induction false} InsertByOrdemPermutes(x: PromptRow, rows: seq<PromptRow>)
    ensures multiset(InsertByOrdem(x, rows)) == multiset(rows) + multiset{x}
  {
    if rows != [] && rows[|rows| - 1].ordem > x.ordem {
      var init := rows[..|rows| - 1];
      InsertByOrdemPermutes(x, init);
      InitLast(rows);
    }
  }

  lemma {:induction false} InsertByOrdemSorted(x: PromptRow, rows: seq<PromptRow>)
    requires SortedByOrdem(rows)
    ensures SortedByOrdem(InsertByOrdem(x, rows))
  {
    if rows != [] && rows[|rows| - 1].ordem > x.ordem {
      var init, last := rows[..|rows| - 1], rows[|rows| - 1];
      SortedInit(rows);
      InsertByOrdemSorted(x, init);
      var r' := InsertByOrdem(x, init);
      InsertByOrdemPermutes(x, init);
      forall i | 0 <= i < |r'| ensures r'[i].ordem <= last.ordem {
        assert r'[i] in multiset(r');
        assert r'[i] in multiset(init) || r'[i] == x;
      }
      SortedSnoc(r', last);
    }
  }

  lemma SortedInit(rows: seq<PromptRow>)
    requires SortedByOrdem(rows) && rows != []
    ensures SortedByOrdem(rows[..|rows| - 1])
    ensures forall i :: 0 <= i < |rows| - 1 ==> rows[i].ordem <= rows[|rows| - 1].ordem
  {
  }

  lemma SortedSnoc(rows: seq<PromptRow>, last: PromptRow)
    requires SortedByOrdem(rows)
    requires forall i :: 0 <= i < |rows| ==> rows[i].ordem <= last.ordem
    ensures SortedByOrdem(rows + [last])
  {
  }

  /** `ORDER BY ordem ASC`, taken as a stable sort: rows with equal order keep their
      insertion order. */
  function SortByOrdem(rows: seq<PromptRow>): seq<PromptRow>
  {
    if rows == [] then []
    else InsertByOrdem(rows[|rows| - 1], SortByOrdem(rows[..|rows| - 1]))
  }

  /** The query returns every step of the request, and in ascending order. */
  lemma {:induction false} SortByOrdemSpec(rows: seq<PromptRow>)
    ensures SortedByOrdem(SortByOrdem(rows))
    ensures multiset(SortByOrdem(rows)) == multiset(rows)
  {
    if rows != [] {
      var init := rows[..|rows| - 1];
      SortByOrdemSpec(init);
      InsertByOrdemSorted(rows[|rows| - 1], SortByOrdem(init));
      InsertByOrdemPermutes(rows[|rows| - 1], SortByOrdem(init));
      InitLast(rows);
    }
  }

  /** Rows already in order come back as they are. */
  lemma {:induction false} SortByOrdemSorted(rows: seq<PromptRow>)
    requires SortedByOrdem(rows)
    ensures SortByOrdem(rows) == rows
  {
    if rows != [] {
      var init, last := rows[..|rows| - 1], rows[|rows| - 1];
      SortedInitLast(rows);
      SortByOrdemSorted(init);
      InsertAtEnd(last, init);
      InitLast(rows);
    }
  }

  lemma InitLast<T>(s: seq<T>)
    requires s != []
    ensures s[..|s| - 1] + [s[|s| - 1]] == s
  {
  }

  lemma SortedInitLast(rows: seq<PromptRow>)
    requires SortedByOrdem(rows) && rows != []
    ensures SortedByOrdem(rows[..|rows| - 1])
    ensures |rows| >= 2 ==> rows[|rows| - 2].ordem <= rows[|rows| - 1].ordem
  {
  }

  lemma InsertAtEnd(x: PromptRow, rows: seq<PromptRow>)
    requires rows == [] || rows[|rows| - 1].ordem <= x.ordem
    ensures InsertByOrdem(x, rows) == rows + [x]
  {
  }

  /** `WHERE column = ?` over a table: the rows whose `column` holds `id`, in the order
      they were stored. */
  function Where<T>(rows: seq<T>, column: T -> nat, id: nat): (r: seq<T>)
    ensures forall x :: x in r ==> x in rows && column(x) == id
  {
    if rows == [] then []
    else
      var init := Where(rows[..|rows| - 1], column, id);
      if column(rows[|rows| - 1]) == id then init + [rows[|rows| - 1]] else init
  }

  /** Filtering a concatenation filters each part. */
  lemma {:induction false} WhereAppend<T>(a: seq<T>, b: seq<T>, column: T -> nat, id: nat)
    ensures Where(a + b, column, id) == Where(a, column, id) + Where(b, column, id)
    decreases |b|
  {
    if b != [] {
      var init := b[..|b| - 1];
      assert (a + b)[..|a + b| - 1] == a + init;
      assert (a + b)[|a + b| - 1] == b[|b| - 1];
      WhereAppend(a, init, column, id);
      assert Where(a, column, id) + (Where(init, column, id) + [b[|b| - 1]])
          == (Where(a, column, id) + Where(init, column, id)) + [b[|b| - 1]];
    } else {
      assert a + b == a;
    }
  }

  /** Rows holding another id only: the filter keeps none of them. */
  lemma {:induction false} WhereNone<T>(rows: seq<T>, column: T -> nat, id: nat)
    requires forall i :: 0 <= i < |rows| ==> column(rows[i]) != id
    ensures Where(rows, column, id) == []
  {
    if rows != [] {
      WhereNone(rows[..|rows| - 1], column, id);
    }
  }

  /** Rows holding this id only: the filter keeps them all, in order. */
  lemma {:induction false} WhereAll<T>(rows: seq<T>, column: T -> nat, id: nat)
    requires forall i :: 0 <= i < |rows| ==> column(rows[i]) == id
    ensures Where(rows, column, id) == rows
  {
    if rows != [] {
      WhereAll(rows[..|rows| - 1], column, id);
      InitLast(rows);
    }
  }

  /** The columns the queries filter on. */
  function PromptSolicitacao(row: PromptRow): nat { row.solicitacaoId }

  function ParametroPrompt(row: ParametroRow): nat { row.promptId }

  function ResultadoSolicitacao(row: ResultadoRow): nat { row.solicitacaoId }

  /** `SELECT * FROM prompts WHERE solicitacao_id = ?`, before the ordering. */
  function PromptsOf(rows: seq<PromptRow>, solicitacaoId: nat): seq<PromptRow> {
    Where(rows, PromptSolicitacao, solicitacaoId)
  }

  /** A step's parameter rows. */
  function ParametrosOf(rows: seq<ParametroRow>, promptId: nat): seq<ParametroRow> {
    Where(rows, ParametroPrompt, promptId)
  }

  /** A request's result rows, in the order they were logged. */
  function ResultadosOf(rows: seq<ResultadoRow>, solicitacaoId: nat): seq<ResultadoRow> {
    Where(rows, ResultadoSolicitacao, solicitacaoId)
  }

  /** Rows of other steps placed before the rows looked for do not change the answer. */
  lemma ParametrosOfAfter(a: seq<ParametroRow>, b: seq<ParametroRow>, promptId: nat)
    requires forall i :: 0 <= i < |a| ==> a[i].promptId != promptId
    ensures ParametrosOf(a + b, promptId) == ParametrosOf(b, promptId)
  {
    WhereAppend(a, b, ParametroPrompt, promptId);
    WhereNone(a, ParametroPrompt, promptId);
    assert [] + ParametrosOf(b, promptId) == ParametrosOf(b, promptId);
  }

  /** Nor do rows of other steps placed after them. */
  lemma ParametrosOfBefore(a: seq<ParametroRow>, b: seq<ParametroRow>, promptId: nat)
    requires forall i :: 0 <= i < |b| ==> b[i].promptId != promptId
    ensures ParametrosOf(a + b, promptId) == ParametrosOf(a, promptId)
  {
    WhereAppend(a, b, ParametroPrompt, promptId);
    WhereNone(b, ParametroPrompt, promptId);
    assert ParametrosOf(a, promptId) + [] == ParametrosOf(a, promptId);
  }

  /** The contents of every table at one moment, with the status writes issued so far. */
  datatype Tables = Tables(solicitacoes: map<string, Solicitacao>, nextSolicitacaoId: nat,
                           prompts: seq<PromptRow>, nextPromptId: nat, parametros: seq<ParametroRow>,
                           resultados: seq<ResultadoRow>, statusWrites: seq<(string, Status)>)

  class Database {
    var solicitacoes: map<string, Solicitacao>
    var prompts: seq<PromptRow>
    var parametros: seq<ParametroRow>
    var resultados: seq<ResultadoRow>
    var nextSolicitacaoId: nat
    var nextPromptId: nat
    /** Every status write issued, in order, with the protocol it was addressed to. */
    ghost var statusWrites: seq<(string, Status)>

    /** Ids are handed out from counters, so every stored id is below its counter and
        no two requests share an id. */
    ghost predicate Valid()
      reads this
    {
      && (forall p :: p in solicitacoes ==> solicitacoes[p].id < nextSolicitacaoId)
      && (forall p, q :: p in solicitacoes && q in solicitacoes && p != q ==>
            solicitacoes[p].id != solicitacoes[q].id)
      && (forall i :: 0 <= i < |prompts| ==>
            prompts[i].id < nextPromptId && prompts[i].solicitacaoId < nextSolicitacaoId)
      && (forall i :: 0 <= i < |parametros| ==> parametros[i].promptId < nextPromptId)
      && (forall i :: 0 <= i < |resultados| ==> resultados[i].solicitacaoId < nextSolicitacaoId)
    }

    ghost function Snapshot(): Tables
      reads this
    {
      Tables(solicitacoes, nextSolicitacaoId, prompts, nextPromptId, parametros, resultados, statusWrites)
    }

    constructor ()
      ensures Valid()
      ensures solicitacoes == map[] && prompts == [] && parametros == [] && resultados == []
      ensures statusWrites == []
    {
      solicitacoes, prompts, parametros, resultados := map[], [], [], [];
      nextSolicitacaoId, nextPromptId := 0, 0;
      statusWrites := [];
    }

    function GetSolicitacaoByProtocolo(protocolo: string): Option<Solicitacao>
      reads this`solicitacoes
    {
      if protocolo in solicitacoes then Some(solicitacoes[protocolo]) else None
    }

    function GetPromptsBySolicitacao(solicitacaoId: nat): seq<PromptRow>
      reads this`prompts
    {
      SortByOrdem(PromptsOf(prompts, solicitacaoId))
    }

    function GetParametrosByPrompt(promptId: nat): seq<ParametroRow>
      reads this`parametros
    {
      ParametrosOf(parametros, promptId)
    }

    /** The most recently stored result of the request. */
    function GetUltimoPromptResultado(solicitacaoId: nat): Option<ResultadoRow>
      reads this`resultados
    {
      var rs := ResultadosOf(resultados, solicitacaoId);
      if rs == [] then None else Some(rs[|rs| - 1])
    }

    function GetResultadosBySolicitacao(solicitacaoId: nat): seq<ResultadoRow>
      reads this`resultados
    {
      ResultadosOf(resultados, solicitacaoId)
    }

    method CreateSolicitacao(protocolo: string) returns (id: nat)
      requires Valid() && protocolo !in solicitacoes
      modifies this`solicitacoes, this`nextSolicitacaoId
      ensures Valid()
      ensures id == old(nextSolicitacaoId) && nextSolicitacaoId == id + 1
      ensures solicitacoes == old(solicitacoes)[protocolo := Solicitacao(id, Created, None)]
    {
      id := nextSolicitacaoId;
      solicitacoes := solicitacoes[protocolo := Solicitacao(id, Created, None)];
      nextSolicitacaoId := nextSolicitacaoId + 1;
    }

    /** Writes a status and, when one is given, the aggregate result; a protocol with no
        request matches no row and changes nothing. */
    method UpdateSolicitacaoStatus(protocolo: string, status: Status, resultado: Option<Context>)
      requires Valid()
      modifies this`solicitacoes, this`statusWrites
      ensures Valid()
      ensures solicitacoes == if protocolo in old(solicitacoes) then
                old(solicitacoes)[protocolo := old(solicitacoes)[protocolo].(
                  status := status,
                  resultado := if resultado.Some? then resultado else old(solicitacoes)[protocolo].resultado)]
              else old(solicitacoes)
      ensures statusWrites == old(statusWrites) + [(protocolo, status)]
    {
      if protocolo in solicitacoes {
        var s := solicitacoes[protocolo];
        solicitacoes := solicitacoes[protocolo := s.(
          status := status,
          resultado := if resultado.Some? then resultado else s.resultado)];
      }
      statusWrites := statusWrites + [(protocolo, status)];
    }

    /** Stores `parametrosModelo` only when it is truthy, as the two SQL forms do. */
    method InsertPrompt(solicitacaoId: nat, conteudo: Option<string>, engine: Option<string>,
                        modelo: Option<string>, ordem: int, parametrosModelo: Option<Json>)
      returns (id: nat)
      requires Valid() && solicitacaoId < nextSolicitacaoId
      modifies this`prompts, this`nextPromptId
      ensures Valid()
      ensures id == old(nextPromptId) && nextPromptId == id + 1
      ensures prompts == old(prompts) + [PromptRow(id, solicitacaoId, conteudo, engine, modelo, ordem,
                                                   if FalsyOpt(parametrosModelo) then None else parametrosModelo)]
    {
      id := nextPromptId;
      prompts := prompts + [PromptRow(id, solicitacaoId, conteudo, engine, modelo, ordem,
                                      if FalsyOpt(parametrosModelo) then None else parametrosModelo)];
      nextPromptId := nextPromptId + 1;
    }

    method InsertParametro(promptId: nat, nome: Option<string>, valor: Option<string>)
      requires Valid() && promptId < nextPromptId
      modifies this`parametros
      ensures Valid()
      ensures parametros == old(parametros) + [ParametroRow(promptId, nome, valor)]
    {
      parametros := parametros + [ParametroRow(promptId, nome, valor)];
    }

    method InsertPromptResultado(solicitacaoId: nat, promptId: nat, ordem: int, resultado: Json)
      requires Valid() && solicitacaoId < nextSolicitacaoId
      modifies this`resultados
      ensures Valid()
      ensures resultados == old(resultados) + [ResultadoRow(solicitacaoId, promptId, ordem, resultado)]
    {
      resultados := resultados + [ResultadoRow(solicitacaoId, promptId, ordem, resultado)];
    }
  }
}
