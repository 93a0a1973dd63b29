/** The cURL engine (src/engines/CURLIntegration.js). `parseCurlCommand` turns a cURL
    command line into an axios request configuration with a handful of regular
    expressions, and `process` parses the command and sends the request. Each regular
    expression is modelled by the first position where it matches and by what its group
    captures there, greedy runs and the engine's backtracking included. */
module CurlIntegration {
  import opened Wrappers
  import opened Js
  import opened Bindings
  import opened Scan

  datatype Auth = Auth(username: string, password: string)

  /** The configuration handed to axios. Absent fields are None. */
  datatype CurlConfig = CurlConfig(
    httpMethod: string,
    url: string,
    headers: map<string, string>,
    data: Option<string>,
    auth: Option<Auth>,
    maxRedirects: Option<nat>)

  /** What `value.trim()` throws when a header has no colon. */
  const TrimOfUndefined := TypeError("Cannot read properties of undefined (reading 'trim')")

  const FormUrlEncoded := "application/x-www-form-urlencoded"

  predicate IsQuote(c: char) {
    c == '"' || c == '\''
  }

  predicate NotQuote(c: char) {
    !IsQuote(c)
  }

  predicate NotColon(c: char) {
    c != ':'
  }

  /** `[^ ]`: anything but the space character itself. */
  predicate NotBlank(c: char) {
    c != ' '
  }

  /** `\w`. */
  predicate IsWordChar(c: char) {
    'a' <= c <= 'z' || 'A' <= c <= 'Z' || '0' <= c <= '9' || c == '_'
  }

  /** `[^\s'"]`. */
  predicate IsUrlChar(c: char) {
    !IsSpace(c) && !IsQuote(c)
  }

  // ---------------------------------------------------------------- method (-X)

  /** `/-X\s+(\w+)/` tried at position `i`: the word after the flag. */
  function MethodWordAt(s: string, i: nat): Option<string> {
    if !StartsAt(s, i, "-X") then None
    else
      var p := Span(s, i + 2, IsSpace);
      var e := Span(s, p, IsWordChar);
      if p == i + 2 || e == p then None else Some(s[p..e])
  }

  function MethodWords(s: string): nat -> Option<string> {
    (i: nat) => MethodWordAt(s, i)
  }

  /** `config.method`: the lowercased word after the first `-X`, or `get` without one. */
  function MethodOf(s: string): string {
    match First(0, |s|, MethodWords(s))
    case None => "get"
    case Some((_, w)) => ToLower(w)
  }

  // ---------------------------------------------------------------- url

  /** Where the group of `/(?:^|\s)['"]?(https?:\/\/[^\s'"]+)['"]?/` may begin: at the
      start of the command or after white space, possibly behind one quote. Each start
      of a match allows at most one such position, and they come in the same order as
      the starts, so the leftmost match is the one whose group begins first. */
  predicate UrlBoundary(s: string, j: nat)
    requires j <= |s|
  {
    j == 0 || IsSpace(s[j - 1]) || (IsQuote(s[j - 1]) && (j == 1 || IsSpace(s[j - 2])))
  }

  /** The URL group when it begins at `j`: `http://` or `https://` followed by the
      longest nonempty run of characters other than white space and quotes. */
  function UrlAt(s: string, j: nat): Option<string> {
    if StartsAt(s, j, "https://") then UrlFrom(s, j, j + 8)
    else if StartsAt(s, j, "http://") then UrlFrom(s, j, j + 7)
    else None
  }

  function UrlFrom(s: string, j: nat, p: nat): Option<string>
    requires j <= p <= |s|
  {
    var e := Span(s, p, IsUrlChar);
    if e == p then None else Some(s[j..e])
  }

  function UrlCandidate(s: string, j: nat): Option<string> {
    if j <= |s| && UrlBoundary(s, j) then UrlAt(s, j) else None
  }

  function UrlCandidates(s: string): nat -> Option<string> {
    (j: nat) => UrlCandidate(s, j)
  }

  /** `config.url`: the first URL that begins at a boundary; None is the
      `URL não encontrada` error. */
  function UrlOf(s: string): Option<string> {
    match First(0, |s|, UrlCandidates(s))
    case None => None
    case Some((j, u)) => Some(u)
  }

  // ---------------------------------------------------------------- flag arguments

  /** What `\s+["']?([^"']+)["']?` matches from `p0`: the group and the end of the match. */
  datatype Arg = Arg(value: string, end: nat)

  /** After the white space that ends at `p`, an argument that is not empty: an unquoted
      character, or a quote followed by an unquoted character. */
  predicate ArgFollows(s: string, p: nat) {
    p < |s| && (NotQuote(s[p]) || (p + 1 < |s| && NotQuote(s[p + 1])))
  }

  /** The optional closing quote. */
  function Closing(s: string, e: nat): nat
    requires e <= |s|
  {
    if e < |s| && IsQuote(s[e]) then e + 1 else e
  }

  /** `\s+["']?([^"']+)["']?` from `p0`. The group runs up to the next quote, white
      space included. When the white space is followed by an empty quoted string or by
      the end of the command, the engine gives the last white-space character back to
      the group, so the group is that one character (and with a single white-space
      character there is no match). */
  function ArgAt(s: string, p0: nat): (r: Option<Arg>)
    requires p0 <= |s|
    ensures r.Some? ==> p0 < |s| && IsSpace(s[p0]) && p0 < r.value.end <= |s|
  {
    var p := Span(s, p0, IsSpace);
    if p == p0 then None
    else if p < |s| && NotQuote(s[p]) then
      var e := Span(s, p, NotQuote);
      Some(Arg(s[p..e], Closing(s, e)))
    else if p + 1 < |s| && NotQuote(s[p + 1]) then
      var e := Span(s, p + 1, NotQuote);
      Some(Arg(s[p + 1..e], Closing(s, e)))
    else if p - p0 >= 2 then
      Some(Arg(s[p - 1..p], Closing(s, p)))
    else None
  }

  // ---------------------------------------------------------------- headers (-H)

  function HeaderAt(s: string, i: nat): Option<Arg> {
    if StartsAt(s, i, "-H") then ArgAt(s, i + 2) else None
  }

  /** A header match begins with the flag and white space. */
  predicate Flagged(m: string) {
    |m| >= 3 && m[..2] == "-H" && IsSpace(m[2])
  }

  predicate AllFlagged(ms: seq<string>) {
    forall k :: 0 <= k < |ms| ==> Flagged(ms[k])
  }

  /** `curlCommand.match(/-H\s+["']?([^"']+)["']?/g) || []` from position `i`: the
      matched texts left to right, each search resuming where the previous match ended. */
  function HeaderMatches(s: string, i: nat): (r: seq<string>)
    requires i <= |s|
    ensures AllFlagged(r)
    decreases |s| - i
  {
    if i == |s| then []
    else
      match HeaderAt(s, i)
      case Some(a) =>
        assert s[i..a.end][..2] == s[i..i + 2];
        [s[i..a.end]] + HeaderMatches(s, a.end)
      case None => HeaderMatches(s, i + 1)
  }

  /** `.replace(/^['"]|['"]$/g, '')`: a leading and a trailing quote go; a lone quote is
      removed once. */
  function Unquote(t: string): string {
    if |t| == 0 then t
    else if |t| == 1 then (if IsQuote(t[0]) then [] else t)
    else t[(if IsQuote(t[0]) then 1 else 0)..(if IsQuote(t[|t| - 1]) then |t| - 1 else |t|)]
  }

  /** `header.replace(/-H\s+/, '').replace(/^['"]|['"]$/g, '')`. A match begins with the
      flag and its white space, so the first replacement removes exactly those. */
  function CleanHeader(m: string): string
    requires Flagged(m)
  {
    Unquote(m[Span(m, 2, IsSpace)..])
  }

  /** `const [key, value] = cleanHeader.split(/:\s*\/)` and the two `trim()`s: the key is
      the text before the first colon, the value the text after that colon and its white
      space, up to the next colon. Without a colon `value` is undefined (None). */
  function SplitHeader(h: string): Option<(string, string)> {
    var c := Span(h, 0, NotColon);
    if c == |h| then None
    else
      var v := Span(h, c + 1, IsSpace);
      var e := Span(h, v, NotColon);
      Some((Trim(h[..c]), Trim(h[v..e])))
  }

  /** The assignment `config.headers[key] = value` one header match makes; None is the
      throw of a header without a colon. Every match is flagged, so the last case does
      not arise. */
  function HeaderWrite(m: string): Option<(string, string)> {
    if Flagged(m) then SplitHeader(CleanHeader(m)) else None
  }

  /** Every item yields a write: no call of the `forEach` callback throws. */
  predicate AllWrite<T>(xs: seq<T>, f: T -> Option<(string, string)>) {
    forall k :: 0 <= k < |xs| ==> f(xs[k]).Some?
  }

  /** The writes the items yield, in order. */
  function Writes<T>(xs: seq<T>, f: T -> Option<(string, string)>): (r: seq<(string, string)>)
    requires AllWrite(xs, f)
    ensures |r| == |xs|
    ensures forall k :: 0 <= k < |xs| ==> r[k] == f(xs[k]).value
  {
    seq(|xs|, k requires 0 <= k < |xs| => f(xs[k]).value)
  }

  /** `xs.forEach(x => { obj[key] = value })` into an empty object, where computing the
      write may throw: the object after every write, or None at the first throw. The
      values are strings, so a write to `__proto__` hits the inherited accessor, which
      ignores it: that key never becomes a property. */
  method WriteEach<T>(xs: seq<T>, f: T -> Option<(string, string)>) returns (r: Option<map<string, string>>)
    ensures r.Some? <==> AllWrite(xs, f)
    ensures r.Some? ==> r.value == ApplyWrites(map[], Writes(xs, f)) - {ProtoKey}
  {
    var obj: map<string, string> := map[];
    ghost var writes: seq<(string, string)> := [];
    var i := 0;
    while i < |xs|
      invariant 0 <= i <= |xs|
      invariant |writes| == i
      invariant forall k :: 0 <= k < i ==> f(xs[k]) == Some(writes[k])
      invariant obj == ApplyWrites(map[], writes) - {ProtoKey}
    {
      var w := f(xs[i]);
      if w.None? {
        return None;
      }
      WriteOneMore(writes, w.value);
      if w.value.0 != ProtoKey {
        obj := obj[w.value.0 := w.value.1];
      }
      writes := writes + [w.value];
      i := i + 1;
    }
    assert writes == Writes(xs, f);
    return Some(obj);
  }

  /** One more write updates the object built so far, unless it names `__proto__`. */
  lemma WriteOneMore(ws: seq<(string, string)>, w: (string, string))
    ensures ApplyWrites(map[], ws + [w]) == ApplyWrites(map[], ws)[w.0 := w.1]
    ensures (ws + [w])[..|ws|] == ws
    ensures ApplyWrites(map[], ws + [w]) - {ProtoKey}
              == if w.0 == ProtoKey then ApplyWrites(map[], ws) - {ProtoKey}
                 else (ApplyWrites(map[], ws) - {ProtoKey})[w.0 := w.1]
  {
    assert (ws + [w])[..|ws|] == ws;
    var m := ApplyWrites(map[], ws);
    if w.0 == ProtoKey {
      assert m[w.0 := w.1] - {ProtoKey} == m - {ProtoKey};
    } else {
      assert m[w.0 := w.1] - {ProtoKey} == (m - {ProtoKey})[w.0 := w.1];
    }
  }

  // ---------------------------------------------------------------- body (--data)

  /** `/--data(?:-urlencode)?\s+['"]?([^'"]+)['"]?/` tried at `i`. After `--data-urlencode`
      the shorter alternative would need white space where the `-` is, so only the longer
      one can match there. */
  function DataAt(s: string, i: nat): Option<string> {
    if !StartsAt(s, i, "--data") then None
    else
      var a := if StartsAt(s, i + 6, "-urlencode") then ArgAt(s, i + 16) else ArgAt(s, i + 6);
      if a.Some? then Some(a.value.value) else None
  }

  function DataMatches(s: string): nat -> Option<string> {
    (i: nat) => DataAt(s, i)
  }

  /** The group of the first `--data` match. */
  function DataArg(s: string): Option<string> {
    match First(0, |s|, DataMatches(s))
    case None => None
    case Some((_, d)) => Some(d)
  }

  /** `config.data`: the first `--data` argument, through `qs.stringify` when the
      `Content-Type` header is exactly the form encoding. */
  function DataOf(s: string, headers: map<string, string>, stringify: string -> string): Option<string> {
    match DataArg(s)
    case None => None
    case Some(d) =>
      Some(if "Content-Type" in headers && headers["Content-Type"] == FormUrlEncoded then stringify(d) else d)
  }

  // ---------------------------------------------------------------- basic auth (-u)

  /** `/-u\s+([^:]+):([^ ]+)/` tried at `i`. The user name runs to the first colon; when
      the colon comes straight after the white space, the engine gives the last
      white-space character back to the user name. The password runs to the next space. */
  function AuthAt(s: string, i: nat): Option<Auth> {
    if !StartsAt(s, i, "-u") then None
    else
      var p := Span(s, i + 2, IsSpace);
      var c := Span(s, p, NotColon);
      if p == i + 2 || c == |s| then None
      else
        var e := Span(s, c + 1, NotBlank);
        if e == c + 1 then None
        else if c > p then Some(Auth(s[p..c], s[c + 1..e]))
        else if p - (i + 2) >= 2 then Some(Auth(s[p - 1..p], s[c + 1..e]))
        else None
  }

  function AuthMatches(s: string): nat -> Option<Auth> {
    (i: nat) => AuthAt(s, i)
  }

  /** `config.auth`: set from the first `-u` match, absent without one. */
  function AuthOf(s: string): Option<Auth> {
    match First(0, |s|, AuthMatches(s))
    case None => None
    case Some((_, a)) => Some(a)
  }

  /** `config.maxRedirects`. */
  function Redirects(s: string): Option<nat> {
    if Includes(s, "-L") then Some(5) else None
  }

  // ---------------------------------------------------------------- parse and process

  /** The configuration `parseCurlCommand` returns, or what it throws: no URL first, then
      a header without a colon. */
  function CurlConfigOf(s: string, stringify: string -> string): Result<CurlConfig, Error> {
    match UrlOf(s)
    case None => Failure(UrlNotFound)
    case Some(url) =>
      var ms := HeaderMatches(s, 0);
      if !AllWrite(ms, HeaderWrite) then Failure(TrimOfUndefined)
      else
        var headers := ApplyWrites(map[], Writes(ms, HeaderWrite)) - {ProtoKey};
        Success(CurlConfig(MethodOf(s), url, headers, DataOf(s, headers, stringify), AuthOf(s), Redirects(s)))
  }

  /** `parseCurlCommand`: fills the configuration field by field, writing the headers one
      match at a time. `stringify` is `qs.stringify`. The `-F` branch is not modelled. */
  method ParseCurlCommand(s: string, stringify: string -> string) returns (r: Result<CurlConfig, Error>)
    ensures r == CurlConfigOf(s, stringify)
  {
    var httpMethod := MethodOf(s);
    var url := UrlOf(s);
    if url.None? {
      return Failure(UrlNotFound);
    }
    var headers := WriteEach(HeaderMatches(s, 0), HeaderWrite);
    if headers.None? {
      return Failure(TrimOfUndefined);
    }
    r := Success(CurlConfig(httpMethod, url.value, headers.value, DataOf(s, headers.value, stringify), AuthOf(s), Redirects(s)));
  }

  /** `process(curlCommand)`: what parsing throws is re-thrown and no request is sent;
      otherwise the outcome of sending the request (`send` is axios). */
  method Process(s: string, stringify: string -> string, send: CurlConfig -> Result<Json, Error>)
    returns (r: Result<Json, Error>)
    ensures CurlConfigOf(s, stringify).Failure? ==> r == Failure(CurlConfigOf(s, stringify).error)
    ensures CurlConfigOf(s, stringify).Success? ==> r == send(CurlConfigOf(s, stringify).value)
  {
    var config := ParseCurlCommand(s, stringify);
    if config.Failure? {
      return Failure(config.error);
    }
    r := send(config.value);
  }

  // ---------------------------------------------------------------- properties

  /** The method is `get` when no `-X` occurs. */
  lemma MethodDefault(s: string)
    requires forall i: nat :: !StartsAt(s, i, "-X")
    ensures MethodOf(s) == "get"
  {
    assert forall k: nat :: MethodWords(s)(k).None?;
  }

  /** Otherwise it is the word after the first `-X` that has one, lowercased. */
  lemma MethodFirstWord(s: string, i: nat)
    requires i <= |s| && MethodWordAt(s, i).Some?
    requires forall k: nat :: k < i ==> MethodWordAt(s, k).None?
    ensures MethodOf(s) == ToLower(MethodWordAt(s, i).value)
  {
    assert forall k: nat :: MethodWords(s)(k) == MethodWordAt(s, k);
    FirstIs(|s|, MethodWords(s), i);
  }

  /** The method holds no upper-case letter. */
  lemma MethodLowercase(s: string)
    ensures forall k :: 0 <= k < |MethodOf(s)| ==> !('A' <= MethodOf(s)[k] <= 'Z')
  {
    var r := MethodOf(s);
    if r != "get" {
      forall k | 0 <= k < |r|
        ensures !('A' <= r[k] <= 'Z')
      {
        var w := First(0, |s|, MethodWords(s)).value.1;
        assert r == ToLower(w);
        assert r[k] == LowerChar(w[k]);
      }
    }
  }

  /** The URL is the first group that begins at a boundary, and there is none exactly
      when no position qualifies. */
  lemma UrlOfSpec(s: string)
    ensures UrlOf(s).None? <==> forall j: nat :: j <= |s| ==> UrlCandidate(s, j).None?
    ensures UrlOf(s).Some? ==> exists j: nat :: j <= |s| && UrlCandidate(s, j) == UrlOf(s)
                                 && forall k: nat :: k < j ==> UrlCandidate(s, k).None?
  {
    assert forall j: nat :: UrlCandidates(s)(j) == UrlCandidate(s, j);
  }

  /** The body is the group of the first `--data` match, and absent without one. */
  lemma DataArgSpec(s: string)
    ensures DataArg(s).None? <==> forall i: nat :: i <= |s| ==> DataAt(s, i).None?
    ensures DataArg(s).Some? ==> exists i: nat :: i <= |s| && DataAt(s, i) == DataArg(s)
                                   && forall k: nat :: k < i ==> DataAt(s, k).None?
  {
    assert forall i: nat :: DataMatches(s)(i) == DataAt(s, i);
  }

  /** The credentials come from the first `-u` match, and are absent without one. */
  lemma AuthOfSpec(s: string)
    ensures AuthOf(s).None? <==> forall i: nat :: i <= |s| ==> AuthAt(s, i).None?
    ensures AuthOf(s).Some? ==> exists i: nat :: i <= |s| && AuthAt(s, i) == AuthOf(s)
                                  && forall k: nat :: k < i ==> AuthAt(s, k).None?
  {
    assert forall i: nat :: AuthMatches(s)(i) == AuthAt(s, i);
  }

  /** Parsing throws `URL não encontrada` exactly when there is no URL, and otherwise
      throws only on a header without a colon. */
  lemma ParseErrors(s: string, stringify: string -> string)
    ensures CurlConfigOf(s, stringify) == Failure(UrlNotFound) <==> UrlOf(s).None?
    ensures CurlConfigOf(s, stringify).Failure? && UrlOf(s).Some? ==>
              CurlConfigOf(s, stringify) == Failure(TrimOfUndefined)
              && exists k :: 0 <= k < |HeaderMatches(s, 0)| && HeaderWrite(HeaderMatches(s, 0)[k]).None?
  {
  }

  /** A header without a colon has no value. */
  lemma SplitNeedsColon(h: string)
    ensures SplitHeader(h).Some? <==> ':' in h
  {
    var c := Span(h, 0, NotColon);
    if ':' in h {
      var k :| 0 <= k < |h| && h[k] == ':';
      assert c <= k;
    }
  }

  /** A later header with the same key overwrites an earlier one: each key holds the
      value of its last header, and only keys some header names are set, except
      `__proto__`, whose assignment is ignored. */
  lemma HeadersLastWins(s: string, stringify: string -> string, key: string)
    requires CurlConfigOf(s, stringify).Success?
    ensures var ws := Writes(HeaderMatches(s, 0), HeaderWrite);
            var headers := CurlConfigOf(s, stringify).value.headers;
            && (key in headers <==> key != ProtoKey && exists k :: 0 <= k < |ws| && ws[k].0 == key)
            && (key in headers ==> Some(headers[key]) == LastWrite(ws, key))
  {
    var ws := Writes(HeaderMatches(s, 0), HeaderWrite);
    var m := ApplyWrites(map[], ws);
    HeadersOf(s, stringify);
    LastWriteWins(map[], ws, key);
    if key != ProtoKey {
      OtherKeysKept(m, key);
    }
  }

  /** The parsed headers are the writes of the header matches, without `__proto__`. */
  lemma HeadersOf(s: string, stringify: string -> string)
    requires CurlConfigOf(s, stringify).Success?
    ensures CurlConfigOf(s, stringify).value.headers
              == ApplyWrites(map[], Writes(HeaderMatches(s, 0), HeaderWrite)) - {ProtoKey}
  {
  }

  /** The body is URL-encoded exactly when the last header setting `Content-Type` (that
      key, in that case) gives it the form encoding; otherwise it is the raw argument. */
  lemma DataEncodedOnlyForFormType(s: string, stringify: string -> string, d: string)
    requires CurlConfigOf(s, stringify).Success? && DataArg(s) == Some(d)
    ensures var ws := Writes(HeaderMatches(s, 0), HeaderWrite);
            CurlConfigOf(s, stringify).value.data
              == Some(if LastWrite(ws, "Content-Type") == Some(FormUrlEncoded) then stringify(d) else d)
  {
    var ws := Writes(HeaderMatches(s, 0), HeaderWrite);
    var m := ApplyWrites(map[], ws);
    LastWriteWins(map[], ws, "Content-Type");
    OtherKeysKept(m, "Content-Type");
    assert CurlConfigOf(s, stringify).value.data == DataOf(s, m - {ProtoKey}, stringify);
  }

  /** Removing `__proto__` leaves every other key and its value as it was. */
  lemma OtherKeysKept(m: map<string, string>, key: string)
    requires key != ProtoKey
    ensures key in m - {ProtoKey} <==> key in m
    ensures key in m ==> (m - {ProtoKey})[key] == m[key]
  {
  }

  /** `maxRedirects` is 5 exactly when `-L` occurs anywhere in the command, and absent
      otherwise. */
  lemma RedirectsIffFlag(s: string, stringify: string -> string)
    requires CurlConfigOf(s, stringify).Success?
    ensures var c := CurlConfigOf(s, stringify).value;
            && (c.maxRedirects == Some(5) <==> exists i: nat :: StartsAt(s, i, "-L"))
            && (c.maxRedirects.Some? ==> c.maxRedirects == Some(5))
  {
    IncludesSpec(s, "-L");
  }

  /** A URL group begins with the scheme, is the text at its position, holds no white
      space or quote, and stops before the next such character. It exists exactly when
      the scheme is followed by at least one URL character. */
  lemma UrlShape(s: string, j: nat)
    ensures UrlAt(s, j).Some? <==>
              (StartsAt(s, j, "https://") && j + 8 < |s| && IsUrlChar(s[j + 8]))
              || (StartsAt(s, j, "http://") && j + 7 < |s| && IsUrlChar(s[j + 7]))
    ensures UrlAt(s, j).Some? ==>
              var u := UrlAt(s, j).value;
              && StartsAt(s, j, u)
              && (StartsAt(u, 0, "http://") || StartsAt(u, 0, "https://"))
              && (forall k :: 0 <= k < |u| ==> IsUrlChar(u[k]))
              && (j + |u| == |s| || !IsUrlChar(s[j + |u|]))
  {
    if StartsAt(s, j, "https://") {
      assert s[j + 4] == s[j..j + 8][4] == 's';
      assert s[j..j + 7][4] == s[j + 4];
      UrlFromShape(s, j, "https://");
    } else if StartsAt(s, j, "http://") {
      UrlFromShape(s, j, "http://");
    }
  }

  /** The group after a scheme `scheme` found at `j`. */
  lemma UrlFromShape(s: string, j: nat, scheme: string)
    requires scheme == "https://" || scheme == "http://"
    requires StartsAt(s, j, scheme)
    ensures var n := j + |scheme|;
            UrlFrom(s, j, n).Some? <==> n < |s| && IsUrlChar(s[n])
    ensures UrlFrom(s, j, j + |scheme|).Some? ==>
              var u := UrlFrom(s, j, j + |scheme|).value;
              && StartsAt(s, j, u)
              && StartsAt(u, 0, scheme)
              && (forall k :: 0 <= k < |u| ==> IsUrlChar(u[k]))
              && (j + |u| == |s| || !IsUrlChar(s[j + |u|]))
  {
    var n := j + |scheme|;
    var e := Span(s, n, IsUrlChar);
    if e > n {
      var u := s[j..e];
      assert u[..|scheme|] == s[j..n] == scheme;
      SchemeChars(s, j, scheme);
      forall k | 0 <= k < |u|
        ensures IsUrlChar(u[k])
      {
        assert u[k] == s[j + k];
      }
    }
  }

  /** The characters of a scheme found at `j` are URL characters. */
  lemma SchemeChars(s: string, j: nat, scheme: string)
    requires scheme == "https://" || scheme == "http://"
    requires StartsAt(s, j, scheme)
    ensures forall k :: j <= k < j + |scheme| ==> IsUrlChar(s[k])
  {
    forall k | j <= k < j + |scheme|
      ensures IsUrlChar(s[k])
    {
      assert s[k] == s[j..j + |scheme|][k - j] == scheme[k - j];
      if scheme == "https://" {
        assert IsUrlChar("https://"[k - j]);
      } else {
        assert IsUrlChar("http://"[k - j]);
      }
    }
  }

  /** A flag argument is nonempty and holds no quote. */
  lemma ArgShape(s: string, p0: nat)
    requires p0 <= |s| && ArgAt(s, p0).Some?
    ensures ArgAt(s, p0).value.value != []
    ensures forall k :: 0 <= k < |ArgAt(s, p0).value.value| ==> NotQuote(ArgAt(s, p0).value.value[k])
  {
    var p := Span(s, p0, IsSpace);
    if !(p < |s| && NotQuote(s[p])) && !(p + 1 < |s| && NotQuote(s[p + 1])) {
      SpaceIsNotQuote(s[p - 1]);
    }
  }

  lemma SpaceIsNotQuote(c: char)
    requires IsSpace(c)
    ensures NotQuote(c)
  {
  }

  /** A user name is nonempty and has no colon; a password is nonempty and has no space. */
  lemma AuthShape(s: string, i: nat)
    requires AuthAt(s, i).Some?
    ensures var a := AuthAt(s, i).value;
            && a.username != [] && ':' !in a.username
            && a.password != [] && ' ' !in a.password
  {
  }

  /** The header text a match leaves after cleaning is the argument the group captured,
      unless the argument was an empty quoted string or missing, in which case it is
      empty, and that header then has no colon. */
  lemma HeaderArgument(s: string, i: nat)
    requires i <= |s| && HeaderAt(s, i).Some?
    ensures var a := HeaderAt(s, i).value;
            var m := s[i..a.end];
            Flagged(m)
            && CleanHeader(m) == (if ArgFollows(s, Span(s, i + 2, IsSpace)) then a.value else [])
  {
    var a := ArgAt(s, i + 2).value;
    var p := Span(s, i + 2, IsSpace);
    ArgEnd(s, i + 2);
    CleanedMatch(s, i, p, a.end);
    if ArgFollows(s, p) {
      PresentArgument(s, i + 2, p);
    }
  }

  /** Where an argument ends: at or after its white space; and when no argument text
      follows that white space, only an optional quote lies between them. */
  lemma ArgEnd(s: string, p0: nat)
    requires p0 <= |s| && ArgAt(s, p0).Some?
    ensures p0 < Span(s, p0, IsSpace) <= ArgAt(s, p0).value.end
    ensures !ArgFollows(s, Span(s, p0, IsSpace)) ==>
              Unquote(s[Span(s, p0, IsSpace)..ArgAt(s, p0).value.end]) == []
  {
    var p := Span(s, p0, IsSpace);
    var end := ArgAt(s, p0).value.end;
    if !ArgFollows(s, p) {
      assert s[p..end] == [] || (|s[p..end]| == 1 && IsQuote(s[p]));
    }
  }

  /** Removing the flag and its white space from a match leaves what follows them. */
  lemma CleanedMatch(s: string, i: nat, p: nat, end: nat)
    requires i + 2 < p <= end <= |s| && StartsAt(s, i, "-H") && p == Span(s, i + 2, IsSpace)
    ensures Flagged(s[i..end]) && CleanHeader(s[i..end]) == Unquote(s[p..end])
  {
    var m := s[i..end];
    assert m[..2] == s[i..i + 2];
    forall k | 2 <= k < p - i
      ensures IsSpace(m[k])
    {
      assert m[k] == s[i + k];
    }
    if p < end {
      assert m[p - i] == s[p];
    }
    SpanUnique(m, 2, IsSpace, p - i);
    assert m[p - i..] == s[p..end];
  }

  /** A present argument is what remains of `s[p..end]` once its opening and closing
      quotes are removed. */
  lemma PresentArgument(s: string, p0: nat, p: nat)
    requires p0 <= |s| && p == Span(s, p0, IsSpace) && p > p0 && ArgFollows(s, p)
    ensures ArgAt(s, p0).Some?
    ensures Unquote(s[p..ArgAt(s, p0).value.end]) == ArgAt(s, p0).value.value
  {
    var b := if NotQuote(s[p]) then p else p + 1;
    var e := Span(s, b, NotQuote);
    assert ArgAt(s, p0) == Some(Arg(s[b..e], Closing(s, e)));
    QuotedRun(s, p, b, e);
  }

  /** A run of non-quote characters, behind an optional quote and before an optional
      closing quote, is what `Unquote` leaves of the whole. */
  lemma QuotedRun(s: string, p: nat, b: nat, e: nat)
    requires p <= b <= p + 1 && b < e <= |s|
    requires b == p + 1 ==> IsQuote(s[p])
    requires forall k :: b <= k < e ==> NotQuote(s[k])
    ensures Unquote(s[p..Closing(s, e)]) == s[b..e]
  {
    var end := Closing(s, e);
    assert s[p..end] == s[p..b] + s[b..e] + s[e..end];
    UnquoteBody(s[p..b], s[b..e], s[e..end]);
  }

  /** Removing an optional opening and closing quote leaves a quote-free body intact. */
  lemma UnquoteBody(q: string, body: string, close: string)
    requires |q| <= 1 && |close| <= 1
    requires forall k :: 0 <= k < |q| ==> IsQuote(q[k])
    requires forall k :: 0 <= k < |close| ==> IsQuote(close[k])
    requires body != [] && forall k :: 0 <= k < |body| ==> NotQuote(body[k])
    ensures Unquote(q + body + close) == body
  {
    var t := q + body + close;
    assert t[|q|..|q| + |body|] == body;
    assert t[0] == if q == [] then body[0] else q[0];
    assert t[|t| - 1] == if close == [] then body[|body| - 1] else close[0];
  }

  /** Leading white space does not change a trim: `h[v..e]` trims as `h[b..e]` when
      everything in between is white space. */
  lemma TrimSkipsSpaceRun(h: string, b: nat, v: nat, e: nat)
    requires b <= v <= e <= |h|
    requires forall k :: b <= k < v ==> IsSpace(h[k])
    ensures Trim(h[v..e]) == Trim(h[b..e])
  {
    TrimStartSkipsSpaceRun(h, b, v, e);
  }

  lemma {:induction false} TrimStartSkipsSpaceRun(h: string, b: nat, v: nat, e: nat)
    requires b <= v <= e <= |h|
    requires forall k :: b <= k < v ==> IsSpace(h[k])
    ensures TrimStart(h[v..e]) == TrimStart(h[b..e])
    decreases v - b
  {
    if b < v {
      var t := h[b..e];
      assert t[0] == h[b];
      assert t[1..] == h[b + 1..e];
      TrimStartSkipsSpaceRun(h, b + 1, v, e);
    }
  }

  /** A header `key: value` splits into its trimmed key and value, and a second colon
      cuts the value short: `Referer: https://x` keeps only `https`. */
  lemma SplitAtFirstColon(key: string, value: string, rest: string)
    requires ':' !in key && ':' !in value
    requires rest == [] || rest[0] == ':'
    ensures SplitHeader(key + ":" + value + rest) == Some((Trim(key), Trim(value)))
  {
    var h := key + ":" + value + rest;
    var c := |key|;
    var e := c + 1 + |value|;
    HeaderPieces(key, value, rest);
    SpanUnique(h, 0, NotColon, c);
    var v := Span(h, c + 1, IsSpace);
    ValueRun(h, c + 1, e, v);
    TrimSkipsSpaceRun(h, c + 1, v, e);
  }

  /** Where the key, the first colon and the value sit in `key:value rest`. */
  lemma HeaderPieces(key: string, value: string, rest: string)
    requires ':' !in key && ':' !in value
    requires rest == [] || rest[0] == ':'
    ensures var h, c, e := key + ":" + value + rest, |key|, |key| + 1 + |value|;
      && e <= |h| && h[..c] == key && h[c] == ':' && h[c + 1..e] == value
      && (e == |h| || h[e] == ':')
      && (forall k :: 0 <= k < c ==> NotColon(h[k]))
      && (forall k :: c + 1 <= k < e ==> h[k] != ':')
  {
    var h, c, e := key + ":" + value + rest, |key|, |key| + 1 + |value|;
    assert h[..c] == key && h[c + 1..e] == value;
    forall k | 0 <= k < c ensures NotColon(h[k]) {
      assert h[k] == key[k];
    }
    forall k | c + 1 <= k < e ensures h[k] != ':' {
      assert h[k] == value[k - c - 1];
    }
    if e < |h| {
      assert h[e] == rest[0];
    }
  }

  /** Inside `h[b..e]`, which holds no colon and is followed by a colon or the end, the
      run of white space starting at `b` ends at some `v <= e`, and from there the run
      without colons reaches exactly `e`. */
  lemma ValueRun(h: string, b: nat, e: nat, v: nat)
    requires b <= e <= |h| && (e == |h| || h[e] == ':')
    requires forall k :: b <= k < e ==> h[k] != ':'
    requires v == Span(h, b, IsSpace)
    ensures v <= e && Span(h, v, NotColon) == e
    ensures forall k :: b <= k < v ==> IsSpace(h[k])
  {
    SpanUnique(h, v, NotColon, e);
  }
}
