/** Template rendering for one step (src/services/ProcessingService.js:104-114): the
    substitution table is the context overlaid with the step's parameters, and every
    `{{key}}` in the step's content is replaced by the binding of the trimmed key. */
module Templates {
  import opened Wrappers
  import opened Js
  import opened Bindings
  import opened Store

  /** A parameter's name as a property key: a NULL name becomes the key "null". */
  function ParamKey(p: ParametroRow): string {
    p.nome.GetOr("null")
  }

  /** A parameter's value: a NULL value is `null`. */
  function ParamValue(p: ParametroRow): Json {
    if p.valor.Some? then JStr(p.valor.value) else JNull
  }

  function ParamWrites(parametros: seq<ParametroRow>): (ws: seq<(string, Json)>)
    ensures |ws| == |parametros|
    ensures forall i :: 0 <= i < |parametros| ==> ws[i] == (ParamKey(parametros[i]), ParamValue(parametros[i]))
  {
    seq(|parametros|, i requires 0 <= i < |parametros| => (ParamKey(parametros[i]), ParamValue(parametros[i])))
  }

  /** `{ ...resultadoGlobal }` followed by one assignment per parameter, in order. */
  function Overlay(resultadoGlobal: Context, parametros: seq<ParametroRow>): Context {
    ApplyWrites(resultadoGlobal, ParamWrites(parametros))
  }

  /** Copies the context and assigns each parameter into the copy. The context itself is
      a value and is left as it was. */
  method PrepareSubstituicoes(parametros: seq<ParametroRow>, resultadoGlobal: Context)
    returns (substituicoes: Context)
    ensures substituicoes == Overlay(resultadoGlobal, parametros)
  {
    substituicoes := resultadoGlobal;
    for i := 0 to |parametros|
      invariant substituicoes == ApplyWrites(resultadoGlobal, ParamWrites(parametros)[..i])
    {
      var parametro := parametros[i];
      assert ParamWrites(parametros)[..i + 1][..i] == ParamWrites(parametros)[..i];
      substituicoes := substituicoes[ParamKey(parametro) := ParamValue(parametro)];
    }
    assert ParamWrites(parametros)[..|parametros|] == ParamWrites(parametros);
  }

  /** A parameter wins over a context key of the same name, the last parameter of a name
      wins over earlier ones, and every other context key keeps its value. */
  lemma OverlayPrecedence(resultadoGlobal: Context, parametros: seq<ParametroRow>, key: string)
    ensures key in Overlay(resultadoGlobal, parametros) <==>
              key in resultadoGlobal || exists i :: 0 <= i < |parametros| && ParamKey(parametros[i]) == key
    ensures forall i :: 0 <= i < |parametros| && ParamKey(parametros[i]) == key &&
                        (forall j :: i < j < |parametros| ==> ParamKey(parametros[j]) != key) ==>
              Overlay(resultadoGlobal, parametros)[key] == ParamValue(parametros[i])
    ensures (forall i :: 0 <= i < |parametros| ==> ParamKey(parametros[i]) != key) && key in resultadoGlobal ==>
              Overlay(resultadoGlobal, parametros)[key] == resultadoGlobal[key]
  {
    var ws := ParamWrites(parametros);
    LastWriteWins(resultadoGlobal, ws, key);
    forall i | 0 <= i < |parametros| && ParamKey(parametros[i]) == key &&
               (forall j :: i < j < |parametros| ==> ParamKey(parametros[j]) != key)
      ensures Overlay(resultadoGlobal, parametros)[key] == ParamValue(parametros[i])
    {
      LastWriteAt(ws, key, i);
    }
  }

  /** `}}` starts at index `i` of `s`. */
  predicate ClosesAt(s: string, i: int) {
    0 <= i && i + 1 < |s| && s[i] == '}' && s[i + 1] == '}'
  }

  /** The index of the first `}}` at or after `j`, provided no line terminator comes
      before it: where the lazy `(.*?)` of `/\{\{(.*?)\}\}/g` stops. */
  function FindClose(s: string, j: nat): (r: Option<nat>)
    requires j <= |s|
    ensures r.Some? ==> j <= r.value && ClosesAt(s, r.value)
    decreases |s| - j
  {
    if j + 2 > |s| then None
    else if ClosesAt(s, j) then Some(j)
    else if IsLineTerminator(s[j]) then None
    else FindClose(s, j + 1)
  }

  /** `substituicoes[key] || ''`, written as a string. */
  function Display(substituicoes: Context, key: string): string {
    if key in substituicoes then
      if Falsy(substituicoes[key]) then "" else ToJsString(substituicoes[key])
    else InheritedText(key)
  }

  /** A match of `/\{\{(.*?)\}\}/` starts at the beginning of `s`. */
  predicate MatchesAtStart(s: string) {
    |s| >= 2 && s[0] == '{' && s[1] == '{' && FindClose(s, 2).Some?
  }

  /** `content.replace(/\{\{(.*?)\}\}/g, replacer)`: scanning left to right, each match is
      replaced by the replacer's value on its captured key, and the scan resumes after it.
      The table the replacer closes over is passed to it as its first argument. */
  function ReplaceWith(content: string, substituicoes: Context, replacer: (Context, string) -> string): string
    decreases |content|
  {
    if MatchesAtStart(content) then
      var j := FindClose(content, 2).value;
      replacer(substituicoes, content[2..j]) + ReplaceWith(content[j + 2..], substituicoes, replacer)
    else if |content| == 0 then []
    else [content[0]] + ReplaceWith(content[1..], substituicoes, replacer)
  }

  /** The replacer of `replacePlaceholders`: `(_, key) => substituicoes[key.trim()] || ''`. */
  function Replacement(substituicoes: Context, key: string): string {
    Display(substituicoes, Trim(key))
  }

  function ReplacePlaceholders(content: string, substituicoes: Context): string {
    ReplaceWith(content, substituicoes, Replacement)
  }

  /** No `{{…}}` match starts anywhere in `s`. */
  predicate NoPlaceholder(s: string) {
    forall i :: 0 <= i < |s| ==> !MatchesAtStart(s[i..])
  }

  /** Text in which no placeholder matches comes back unchanged, whatever the replacer. */
  lemma {:induction false} ReplaceWithoutPlaceholder(content: string, substituicoes: Context, replacer: (Context, string) -> string)
    requires NoPlaceholder(content)
    ensures ReplaceWith(content, substituicoes, replacer) == content
  {
    if content != [] {
      assert content[0..] == content;
      assert !MatchesAtStart(content);
      forall i | 0 <= i < |content[1..]| ensures !MatchesAtStart(content[1..][i..]) {
        assert content[1..][i..] == content[i + 1..];
      }
      ReplaceWithoutPlaceholder(content[1..], substituicoes, replacer);
    }
  }

  /** `k` can sit between `{{` and `}}` as one whole match: no line terminator, no `}}`
      inside, and no final `}` that would close the match one character early. */
  predicate PlainKey(k: string) {
    && (forall i :: 0 <= i < |k| ==> !IsLineTerminator(k[i]))
    && (forall i {:trigger ClosesAt(k, i)} :: 0 <= i < |k| - 1 ==> !ClosesAt(k, i))
    && (k != [] ==> k[|k| - 1] != '}')
  }

  lemma FindCloseOfKey(k: string, rest: string)
    requires PlainKey(k)
    ensures FindClose("{{" + k + "}}" + rest, 2) == Some(|k| + 2)
  {
    var s := "{{" + k + "}}" + rest;
    var j := 2;
    while j < |k| + 2
      invariant 2 <= j <= |k| + 2
      invariant FindClose(s, j) == FindClose(s, 2)
    {
      assert s[j] == k[j - 2];
      assert j + 1 < |k| + 2 ==> s[j + 1] == k[j - 1] && !ClosesAt(k, j - 2);
      j := j + 1;
    }
  }

  /** Text without `{` is copied as it stands, whatever follows it. */
  lemma {:induction false} ReplacePlainPrefix(p: string, t: string, substituicoes: Context, replacer: (Context, string) -> string)
    requires forall i :: 0 <= i < |p| ==> p[i] != '{'
    ensures ReplaceWith(p + t, substituicoes, replacer) == p + ReplaceWith(t, substituicoes, replacer)
  {
    if p != [] {
      ConsRegroup(p, t);
      ReplaceAtPlainChar(p[0], p[1..] + t, substituicoes, replacer);
      ReplacePlainPrefix(p[1..], t, substituicoes, replacer);
      ConsRegroup(p, ReplaceWith(t, substituicoes, replacer));
    } else {
      EmptyRegroup(t);
      EmptyRegroup(ReplaceWith(t, substituicoes, replacer));
    }
  }

  /** Text up to the first `{` is copied, a well-formed placeholder is replaced by the
      binding of its trimmed key (read through `Object.prototype` when the table does not
      own it, and the empty string when that is missing or falsy), and rendering carries
      on after it. */
  lemma ReplaceOnePlaceholder(p: string, k: string, rest: string, substituicoes: Context)
    requires forall i :: 0 <= i < |p| ==> p[i] != '{'
    requires PlainKey(k)
    ensures ReplacePlaceholders(p + "{{" + k + "}}" + rest, substituicoes)
            == p + Display(substituicoes, Trim(k)) + ReplacePlaceholders(rest, substituicoes)
  {
    ReplaceOneMatch(p, k, rest, substituicoes, Replacement);
  }

  /** The same for any replacer: the placeholder becomes the replacer's value on its key. */
  lemma ReplaceOneMatch(p: string, k: string, rest: string, substituicoes: Context, replacer: (Context, string) -> string)
    requires forall i :: 0 <= i < |p| ==> p[i] != '{'
    requires PlainKey(k)
    ensures ReplaceWith(p + "{{" + k + "}}" + rest, substituicoes, replacer) == p + replacer(substituicoes, k) + ReplaceWith(rest, substituicoes, replacer)
  {
    PlaceholderRegroup(p, k, rest);
    ReplacePlainPrefix(p, "{{" + k + "}}" + rest, substituicoes, replacer);
    ReplaceAtPlaceholder(k, rest, substituicoes, replacer);
    AppendRegroup(p, replacer(substituicoes, k), ReplaceWith(rest, substituicoes, replacer));
  }

  lemma ConsRegroup(p: string, t: string)
    requires p != []
    ensures [p[0]] + (p[1..] + t) == p + t
  {
    assert p == [p[0]] + p[1..];
  }

  lemma PlaceholderRegroup(p: string, k: string, rest: string)
    ensures p + "{{" + k + "}}" + rest == p + ("{{" + k + "}}" + rest)
  {
  }

  lemma EmptyRegroup(t: string)
    ensures [] + t == t
  {
  }

  lemma AppendRegroup(p: string, d: string, r: string)
    ensures p + (d + r) == p + d + r
  {
  }

  lemma ReplaceAtPlaceholder(k: string, rest: string, substituicoes: Context, replacer: (Context, string) -> string)
    requires PlainKey(k)
    ensures ReplaceWith("{{" + k + "}}" + rest, substituicoes, replacer) == replacer(substituicoes, k) + ReplaceWith(rest, substituicoes, replacer)
  {
    var t := "{{" + k + "}}" + rest;
    FindCloseOfKey(k, rest);
    PlaceholderSlices(k, rest);
    ReplaceAtClose(t, |k| + 2, substituicoes, replacer);
  }

  /** The pieces of `{{k}}rest`: the opening braces, the key and what follows. */
  lemma PlaceholderSlices(k: string, rest: string)
    ensures var t := "{{" + k + "}}" + rest;
      |t| >= 2 && t[0] == '{' && t[1] == '{' && t[2..|k| + 2] == k && t[|k| + 4..] == rest
  {
    var t := "{{" + k + "}}" + rest;
    assert t[2..|k| + 2] == k;
    assert t[|k| + 4..] == rest;
  }

  /** A match at the start is replaced by the replacer's value on its key. */
  lemma ReplaceAtClose(t: string, j: nat, substituicoes: Context, replacer: (Context, string) -> string)
    requires |t| >= 2 && t[0] == '{' && t[1] == '{' && FindClose(t, 2) == Some(j)
    ensures ReplaceWith(t, substituicoes, replacer) == replacer(substituicoes, t[2..j]) + ReplaceWith(t[j + 2..], substituicoes, replacer)
  {
    assert MatchesAtStart(t);
  }

  lemma ReplaceAtPlainChar(c: char, t: string, substituicoes: Context, replacer: (Context, string) -> string)
    requires c != '{'
    ensures ReplaceWith([c] + t, substituicoes, replacer) == [c] + ReplaceWith(t, substituicoes, replacer)
  {
    assert ([c] + t)[1..] == t;
  }

  /** A falsy binding renders as the empty string and a string binding as itself; a key
      the table does not own is looked up on `Object.prototype`, so it renders as the empty
      string unless it names an inherited property. */
  lemma DisplayPolicy(substituicoes: Context, key: string)
    ensures key in substituicoes && Falsy(substituicoes[key]) ==> Display(substituicoes, key) == ""
    ensures key in substituicoes && substituicoes[key].JStr? ==> Display(substituicoes, key) == substituicoes[key].s
    ensures key !in substituicoes ==> (Display(substituicoes, key) == "" <==> !Inherited(key))
    ensures key !in substituicoes && key == "constructor" ==>
              Display(substituicoes, key) == "function Object() { [native code] }"
  {
  }

  /** A placeholder with no binding is not an error: it renders as the empty string unless
      its trimmed key names a property inherited from `Object.prototype`. */
  lemma MissingBindingReadsPrototype(k: string, substituicoes: Context)
    requires PlainKey(k) && Trim(k) !in substituicoes
    ensures ReplacePlaceholders("{{" + k + "}}", substituicoes) == InheritedText(Trim(k))
    ensures ReplacePlaceholders("{{" + k + "}}", substituicoes) == "" <==> !Inherited(Trim(k))
  {
    ReplaceBare(k, substituicoes, Replacement);
    InheritedWhenMissing(substituicoes, Trim(k));
    InheritedTextEmpty(ReplacePlaceholders("{{" + k + "}}", substituicoes), Trim(k));
  }

  lemma InheritedWhenMissing(substituicoes: Context, key: string)
    requires key !in substituicoes
    ensures Display(substituicoes, key) == InheritedText(key)
  {
  }

  lemma InheritedTextEmpty(out: string, key: string)
    requires out == InheritedText(key)
    ensures out == "" <==> !Inherited(key)
  {
  }

  /** A template that is one placeholder renders as the replacer's value on its key. */
  lemma ReplaceBare(k: string, substituicoes: Context, replacer: (Context, string) -> string)
    requires PlainKey(k)
    ensures ReplaceWith("{{" + k + "}}", substituicoes, replacer) == replacer(substituicoes, k)
  {
    ReplaceOneMatch("", k, "", substituicoes, replacer);
    BarePlaceholderText(k);
    assert ReplaceWith("", substituicoes, replacer) == "";
    EmptyAround(replacer(substituicoes, k));
  }

  lemma BarePlaceholderText(k: string)
    ensures "" + "{{" + k + "}}" + "" == "{{" + k + "}}"
  {
  }

  lemma EmptyAround(d: string)
    ensures "" + d + "" == d
  {
  }
}
