/** How a step's result enters the context (src/services/ProcessingService.js:29-39 and
    83-93), and how stored results are folded together by `loadResultadosGlobais`
    (src/services/ProcessingService.js:116-122). */
module Merge {
  import opened Wrappers
  import opened Js
  import opened Bindings

  /** `Object.entries(v)`: null throws; booleans and numbers have no own entries; a
      string has one entry per character and an array one per element, keyed by index;
      an object has its fields in order. */
  function Entries(v: Json): (r: Result<seq<(string, Json)>, Error>)
    ensures r.Failure? <==> v == JNull
    ensures v.JObj? ==> r == Success(v.fields)
    ensures v.JArr? ==> r.Success? && |r.value| == |v.items|
  {
    match v
    case JNull => Failure(TypeError("Cannot convert undefined or null to object"))
    case JBool(_) => Success([])
    case JNum(_) => Success([])
    case JStr(s) => Success(seq(|s|, i requires 0 <= i < |s| => (NatToString(i), JStr([s[i]]))))
    case JArr(items) => Success(seq(|items|, i requires 0 <= i < |items| => (NatToString(i), items[i])))
    case JObj(fields) => Success(fields)
  }

  /** The key an array element is stored under: `${key}.${index}`. */
  function IndexKey(key: string, i: nat): (r: string)
    ensures |r| > |key| && r[..|key|] == key && r[|key|] == '.'
  {
    key + "." + NatToString(i)
  }

  /** The assignments one entry makes: an array spreads over `key.0 … key.(n-1)`, any
      other value is assigned to `key` as it is. */
  function EntryWrites(key: string, value: Json): seq<(string, Json)> {
    if value.JArr? then
      seq(|value.items|, i requires 0 <= i < |value.items| => (IndexKey(key, i), value.items[i]))
    else [(key, value)]
  }

  /** The assignments of all entries, first entry first. */
  function Writes(entries: seq<(string, Json)>): seq<(string, Json)> {
    if entries == [] then []
    else Writes(entries[..|entries| - 1]) + EntryWrites(entries[|entries| - 1].0, entries[|entries| - 1].1)
  }

  /** The context after the result of a step is merged into it; the merge throws when
      the result has no entries to list. */
  function MergeResult(resultadoGlobal: Context, resultado: Json): Result<Context, Error> {
    match Entries(resultado)
    case Failure(e) => Failure(e)
    case Success(entries) => Success(ApplyWrites(resultadoGlobal, Writes(entries)))
  }

  /** Merging entry by entry: the context after all entries is the context after all
      but the last, with the last entry's assignments on top. */
  lemma MergeEntriesStep(resultadoGlobal: Context, entries: seq<(string, Json)>, key: string, value: Json)
    ensures ApplyWrites(resultadoGlobal, Writes(entries + [(key, value)]))
            == ApplyWrites(ApplyWrites(resultadoGlobal, Writes(entries)), EntryWrites(key, value))
  {
    assert (entries + [(key, value)])[..|entries|] == entries;
    ApplyWritesAppend(resultadoGlobal, Writes(entries), EntryWrites(key, value));
  }

  /** An array value under `key` binds `key.i` to its i-th element for every index, and
      leaves `key` itself, and every key not of the form `key.i`, as it was. */
  lemma ArrayEntryBindsIndices(m: Context, key: string, items: seq<Json>)
    ensures forall i :: 0 <= i < |items| ==>
              IndexKey(key, i) in ApplyWrites(m, EntryWrites(key, JArr(items))) &&
              ApplyWrites(m, EntryWrites(key, JArr(items)))[IndexKey(key, i)] == items[i]
    ensures forall k :: (forall i :: 0 <= i < |items| ==> k != IndexKey(key, i)) ==>
              (k in ApplyWrites(m, EntryWrites(key, JArr(items))) <==> k in m) &&
              (k in m ==> ApplyWrites(m, EntryWrites(key, JArr(items)))[k] == m[k])
    ensures key in ApplyWrites(m, EntryWrites(key, JArr(items))) <==> key in m
  {
    var ws := EntryWrites(key, JArr(items));
    forall i | 0 <= i < |items|
      ensures IndexKey(key, i) in ApplyWrites(m, ws) && ApplyWrites(m, ws)[IndexKey(key, i)] == items[i]
    {
      forall j | i < j < |ws| ensures ws[j].0 != IndexKey(key, i) {
        if ws[j].0 == IndexKey(key, i) {
          IndexKeyInjective(key, j, i);
        }
      }
      LastWriteAt(ws, IndexKey(key, i), i);
      LastWriteWins(m, ws, IndexKey(key, i));
    }
    forall k | forall i :: 0 <= i < |items| ==> k != IndexKey(key, i)
      ensures (k in ApplyWrites(m, ws) <==> k in m) && (k in m ==> ApplyWrites(m, ws)[k] == m[k])
    {
      LastWriteWins(m, ws, k);
    }
    forall i | 0 <= i < |items| ensures key != IndexKey(key, i) {
      assert |IndexKey(key, i)| > |key|;
    }
  }

  lemma IndexKeyInjective(key: string, i: nat, j: nat)
    requires IndexKey(key, i) == IndexKey(key, j)
    ensures i == j
  {
    var a, b := IndexKey(key, i), IndexKey(key, j);
    assert NatToString(i) == a[|key| + 1..];
    assert NatToString(j) == b[|key| + 1..];
    NatToStringInjective(i, j);
  }

  /** Any value that is not an array, objects included, is bound under its own key as
      it is: nested values are not flattened. */
  lemma ScalarEntryBindsKey(m: Context, key: string, value: Json)
    requires !value.JArr?
    ensures ApplyWrites(m, EntryWrites(key, value)) == m[key := value]
  {
    assert [(key, value)][..0] == [];
  }

  /** The merge throws on a null result, and a boolean or numeric result leaves the
      context as it was. */
  lemma MergeResultOfPrimitives(resultadoGlobal: Context, resultado: Json)
    ensures resultado == JNull ==> MergeResult(resultadoGlobal, resultado).Failure?
    ensures resultado.JBool? || resultado.JNum? ==> MergeResult(resultadoGlobal, resultado) == Success(resultadoGlobal)
  {
  }

  /** Keys that no entry names, and that are not `k.i` for an array entry `k`, keep
      their value. */
  lemma {:induction false} MergeKeepsUntouched(resultadoGlobal: Context, entries: seq<(string, Json)>, key: string)
    requires forall e :: e in entries ==> e.0 != key
    requires forall e, i :: e in entries && e.1.JArr? && 0 <= i < |e.1.items| ==> IndexKey(e.0, i) != key
    ensures key in ApplyWrites(resultadoGlobal, Writes(entries)) <==> key in resultadoGlobal
    ensures key in resultadoGlobal ==> ApplyWrites(resultadoGlobal, Writes(entries))[key] == resultadoGlobal[key]
  {
    if entries != [] {
      var init, last := entries[..|entries| - 1], entries[|entries| - 1];
      assert entries == init + [last];
      MergeKeepsUntouched(resultadoGlobal, init, key);
      MergeEntriesStep(resultadoGlobal, init, last.0, last.1);
      var m := ApplyWrites(resultadoGlobal, Writes(init));
      if last.1.JArr? {
        ArrayEntryBindsIndices(m, last.0, last.1.items);
      } else {
        ScalarEntryBindsKey(m, last.0, last.1);
      }
    }
  }

  /** The merge loop of `process` and `resume`: for each entry of the result, either
      each element of an array value is assigned to `key.index`, or the value is
      assigned to `key`; a null result throws before anything is assigned. */
  method MergeInto(resultadoGlobal: Context, resultado: Json) returns (r: Result<Context, Error>)
    ensures r == MergeResult(resultadoGlobal, resultado)
  {
    var entries := Entries(resultado);
    if entries.Failure? {
      return Failure(entries.error);
    }
    var es := entries.value;
    var ctx := resultadoGlobal;
    for i := 0 to |es|
      invariant ctx == ApplyWrites(resultadoGlobal, Writes(es[..i]))
    {
      var key, value := es[i].0, es[i].1;
      ghost var before := ctx;
      if value.JArr? {
        ctx := AssignIndices(ctx, key, value.items);
      } else {
        ScalarEntryBindsKey(before, key, value);
        ctx := ctx[key := value];
      }
      MergePrefixStep(resultadoGlobal, es, i);
    }
    assert es[..|es|] == es;
    return Success(ctx);
  }

  lemma MergePrefixStep(resultadoGlobal: Context, es: seq<(string, Json)>, i: nat)
    requires i < |es|
    ensures ApplyWrites(resultadoGlobal, Writes(es[..i + 1]))
            == ApplyWrites(ApplyWrites(resultadoGlobal, Writes(es[..i])), EntryWrites(es[i].0, es[i].1))
  {
    assert es[..i + 1] == es[..i] + [(es[i].0, es[i].1)];
    MergeEntriesStep(resultadoGlobal, es[..i], es[i].0, es[i].1);
  }

  /** `value.forEach((item, index) => { resultadoGlobal[`${key}.${index}`] = item; })`. */
  method AssignIndices(resultadoGlobal: Context, key: string, items: seq<Json>) returns (r: Context)
    ensures r == ApplyWrites(resultadoGlobal, EntryWrites(key, JArr(items)))
  {
    var ws := EntryWrites(key, JArr(items));
    r := resultadoGlobal;
    for j := 0 to |items|
      invariant r == ApplyWrites(resultadoGlobal, ws[..j])
    {
      ApplyWritesPrefix(resultadoGlobal, ws, j);
      r := r[IndexKey(key, j) := items[j]];
    }
    assert ws[..|items|] == ws;
  }

  /** One more write on a prefix of `ws` is the next longer prefix. */
  lemma ApplyWritesPrefix<V>(m: map<string, V>, ws: seq<(string, V)>, j: nat)
    requires j < |ws|
    ensures ApplyWrites(m, ws[..j + 1]) == ApplyWrites(m, ws[..j])[ws[j].0 := ws[j].1]
  {
    assert ws[..j + 1][..j] == ws[..j];
  }

  /** `{ ...acumulado, ...parsed }`: spreading a value copies its own enumerable
      entries; null and primitives other than strings contribute nothing. */
  function SpreadEntries(v: Json): (r: seq<(string, Json)>)
    ensures v.JObj? ==> r == v.fields
    ensures v == JNull || v.JBool? || v.JNum? ==> r == []
  {
    if v == JNull then [] else Entries(v).value
  }

  /** `loadResultadosGlobais`: the stored results folded left to right with object
      spread. Later results win, and arrays are kept whole under their key. */
  function LoadResultadosGlobais(resultados: seq<Json>): Context {
    if resultados == [] then map[]
    else ApplyWrites(LoadResultadosGlobais(resultados[..|resultados| - 1]), SpreadEntries(resultados[|resultados| - 1]))
  }

  /** Among object results, a key is bound to its value in the last result that has it;
      an array value is bound whole, never as `key.i`. */
  lemma LoadLaterWins(resultados: seq<Json>, key: string, value: Json)
    requires resultados != [] && resultados[|resultados| - 1].JObj?
    requires FindField(resultados[|resultados| - 1].fields, key) == Some(value)
    ensures key in LoadResultadosGlobais(resultados) && LoadResultadosGlobais(resultados)[key] == value
  {
    var fields := resultados[|resultados| - 1].fields;
    LastWriteIsFindField(fields, key);
    LastWriteWins(LoadResultadosGlobais(resultados[..|resultados| - 1]), fields, key);
  }

  /** A key absent from the last result keeps the binding the earlier results gave it. */
  lemma LoadKeepsEarlier(resultados: seq<Json>, key: string)
    requires resultados != [] && resultados[|resultados| - 1].JObj?
    requires FindField(resultados[|resultados| - 1].fields, key).None?
    ensures LoadResultadosGlobais(resultados) == ApplyWrites(LoadResultadosGlobais(resultados[..|resultados| - 1]),
                                                             resultados[|resultados| - 1].fields)
    ensures var earlier := LoadResultadosGlobais(resultados[..|resultados| - 1]);
            (key in LoadResultadosGlobais(resultados) <==> key in earlier) &&
            (key in earlier ==> LoadResultadosGlobais(resultados)[key] == earlier[key])
  {
    var fields := resultados[|resultados| - 1].fields;
    LastWriteIsFindField(fields, key);
    LastWriteWins(LoadResultadosGlobais(resultados[..|resultados| - 1]), fields, key);
  }

  lemma {:induction false} LastWriteIsFindField(fields: seq<(string, Json)>, key: string)
    ensures LastWrite(fields, key) == FindField(fields, key)
  {
    if fields != [] && fields[|fields| - 1].0 != key {
      LastWriteIsFindField(fields[..|fields| - 1], key);
    }
  }

  /** The two folds disagree on arrays: one stored result `{"a": [1]}` binds "a" to the
      whole array when loaded, while merging it binds "a.0" and leaves "a" unbound. */
  lemma LoadKeepsArraysWhole()
    ensures var r := JObj([("a", JArr([JNum(1)]))]);
            && LoadResultadosGlobais([r]) == map["a" := JArr([JNum(1)])]
            && MergeResult(map[], r) == Success(map["a.0" := JNum(1)])
  {
    var r := JObj([("a", JArr([JNum(1)]))]);
    assert [r][..0] == [];
    assert LoadResultadosGlobais([r]) == ApplyWrites(map[], [("a", JArr([JNum(1)]))]);
    assert NatToString(0) == "0";
    assert IndexKey("a", 0) == "a.0";
    assert EntryWrites("a", JArr([JNum(1)])) == [("a.0", JNum(1))];
    assert [("a", JArr([JNum(1)]))][..0] == [];
    assert Writes([("a", JArr([JNum(1)]))]) == [("a.0", JNum(1))];
  }
}
