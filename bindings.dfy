/** A JavaScript object used as a dictionary (`obj[key] = value`), as the pipeline's
    context, the per-step substitution table and the cURL header table all are. A run
    of assignments is a sequence of writes performed in order. */
module Bindings {
  import opened Wrappers
  import opened Js

  /** The accumulated context (`resultadoGlobal`) and a step's substitution table. */
  type Context = map<string, Json>

  /** Performs `m[k] = v` for each write `(k, v)`, first to last. */
  function ApplyWrites<V>(m: map<string, V>, ws: seq<(string, V)>): map<string, V>
  {
    if ws == [] then m
    else ApplyWrites(m, ws[..|ws| - 1])[ws[|ws| - 1].0 := ws[|ws| - 1].1]
  }

  /** The value of the last write to `key`, if any. */
  function LastWrite<V>(ws: seq<(string, V)>, key: string): (r: Option<V>)
    ensures r.None? <==> forall i :: 0 <= i < |ws| ==> ws[i].0 != key
    ensures r.Some? ==> exists i :: 0 <= i < |ws| && ws[i] == (key, r.value)
  {
    if ws == [] then None
    else if ws[|ws| - 1].0 == key then
      assert ws[|ws| - 1] == (key, ws[|ws| - 1].1);
      Some(ws[|ws| - 1].1)
    else
      var r := LastWrite(ws[..|ws| - 1], key);
      assert forall i :: 0 <= i < |ws| - 1 ==> ws[..|ws| - 1][i] == ws[i];
      r
  }

  /** Last write wins: after the writes, `key` is bound to its last written value, and a
      key no write touches keeps its previous binding (or stays unbound). */
  lemma {:induction false} LastWriteWins<V>(m: map<string, V>, ws: seq<(string, V)>, key: string)
    ensures key in ApplyWrites(m, ws) <==> key in m || LastWrite(ws, key).Some?
    ensures LastWrite(ws, key).Some? ==> ApplyWrites(m, ws)[key] == LastWrite(ws, key).value
    ensures LastWrite(ws, key).None? && key in m ==> ApplyWrites(m, ws)[key] == m[key]
  {
    if ws != [] {
      LastWriteWins(m, ws[..|ws| - 1], key);
    }
  }

  /** Writing `a` and then `b` is writing `a + b`. */
  lemma {:induction false} ApplyWritesAppend<V>(m: map<string, V>, a: seq<(string, V)>, b: seq<(string, V)>)
    ensures ApplyWrites(m, a + b) == ApplyWrites(ApplyWrites(m, a), b)
  {
    if b == [] {
      assert a + b == a;
    } else {
      assert (a + b)[..|a + b| - 1] == a + b[..|b| - 1];
      ApplyWritesAppend(m, a, b[..|b| - 1]);
    }
  }

  /** The write at index `i` is the last one to `key`, so its value is the one that stays. */
  lemma {:induction false} LastWriteAt<V>(ws: seq<(string, V)>, key: string, i: nat)
    requires i < |ws| && ws[i].0 == key
    requires forall j :: i < j < |ws| ==> ws[j].0 != key
    ensures LastWrite(ws, key) == Some(ws[i].1)
  {
    if i < |ws| - 1 {
      LastWriteAt(ws[..|ws| - 1], key, i);
    }
  }
}
