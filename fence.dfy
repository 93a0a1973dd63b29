/** The fenced-block search both chat adapters run on a reply before parsing it
    (`extrairJSON` in src/engines/OpenAIIntegration.js and src/engines/GeminiIntegration.js):
    the regular expression /```json\s*([\s\S]*?)\s*```/ and the test `match && match[1]`. */
module JsonFence {
  import opened Wrappers
  import opened Js
  import opened Scan

  /** The lazy group may stop at `c` when only white space separates `c` from a closing
      ```` ``` ````. */
  function CloserAt(s: string, c: nat): Option<()> {
    if c <= |s| && StartsAt(s, Span(s, c, IsSpace), "```") then Some(()) else None
  }

  function Closers(s: string): nat -> Option<()> {
    (c: nat) => CloserAt(s, c)
  }

  /** The group when the opening ```` ```json ```` is at `i`: after the tag and the white
      space after it, the text up to the first point from which a closing fence follows.
      Giving white space back to the group cannot help: the group would then need a closing
      fence at the same place it already failed to find one. */
  function FenceAt(s: string, i: nat): Option<string> {
    if !StartsAt(s, i, "```json") then None
    else
      var p := Span(s, i + 7, IsSpace);
      match First(p, |s|, Closers(s))
      case None => None
      case Some((c, _)) => Some(s[p..c])
  }

  function Openers(s: string): nat -> Option<string> {
    (i: nat) => FenceAt(s, i)
  }

  /** `resposta.match(regex)[1]`: the group of the leftmost match. */
  function Fence(s: string): Option<string> {
    match First(0, |s|, Openers(s))
    case None => None
    case Some((_, g)) => Some(g)
  }

  /** `match && match[1]`: a match whose group is not empty (the empty string is falsy). */
  function FencedText(s: string): Option<string> {
    match Fence(s)
    case Some(g) => if g != [] then Some(g) else None
    case None => None
  }

  /** The group comes from the first opening tag that has a closing fence after it, and
      there is none exactly when no opening tag has one. */
  lemma FenceSpec(s: string)
    ensures Fence(s).None? <==> forall i: nat :: i <= |s| ==> FenceAt(s, i).None?
    ensures Fence(s).Some? ==> exists i: nat :: i <= |s| && FenceAt(s, i) == Fence(s)
                                 && forall k: nat :: k < i ==> FenceAt(s, k).None?
  {
    assert forall i: nat :: Openers(s)(i) == FenceAt(s, i);
  }

  /** A group that may not stop at `c - 1` but may stop at `c` ends on a character that is
      not white space: white space there would not move where the closing fence is sought. */
  lemma GroupEndsSolid(s: string, c: nat)
    requires 0 < c <= |s| && CloserAt(s, c - 1).None? && CloserAt(s, c).Some?
    ensures !IsSpace(s[c - 1])
  {
  }

  /** Text between the end of a white-space run and the first place a closing fence may
      follow has nothing to trim. */
  lemma GroupTrimmed(s: string, p: nat, c: nat)
    requires p <= c <= |s|
    requires p < c ==> !IsSpace(s[p]) && CloserAt(s, c - 1).None? && CloserAt(s, c).Some?
    ensures Trim(s[p..c]) == s[p..c]
  {
    var g := s[p..c];
    if p < c {
      GroupEndsSolid(s, c);
      assert g[0] == s[p];
      assert g[|g| - 1] == s[c - 1];
    }
    TrimSpec(g);
  }

  /** The group neither starts nor ends with white space, so the `trim()` applied to it
      changes nothing. */
  lemma FenceIsTrimmed(s: string, i: nat)
    requires FenceAt(s, i).Some?
    ensures Trim(FenceAt(s, i).value) == FenceAt(s, i).value
  {
    var p := Span(s, i + 7, IsSpace);
    var c := First(p, |s|, Closers(s)).value.0;
    assert FenceAt(s, i).value == s[p..c];
    if p < c {
      assert Closers(s)(c - 1).None?;
      assert Closers(s)(c).Some?;
    }
    GroupTrimmed(s, p, c);
  }

  /** The same for the text the adapters parse. */
  lemma FencedTextIsTrimmed(s: string)
    requires FencedText(s).Some?
    ensures Trim(FencedText(s).value) == FencedText(s).value
  {
    FenceSpec(s);
    var i: nat :| i <= |s| && FenceAt(s, i) == Fence(s);
    FenceIsTrimmed(s, i);
  }

  /** The first closing fence after `p` is the one at `c` when no back-quote comes between
      and the group would end on a character that is not white space. */
  lemma FirstCloser(s: string, p: nat, c: nat)
    requires p < c && c + 4 <= |s|
    requires s[c] == '\n' && s[c + 1..c + 4] == "```"
    requires !IsSpace(s[c - 1])
    requires forall k :: p <= k < c ==> s[k] != '`'
    ensures First(p, |s|, Closers(s)) == Some((c, ()))
  {
    SpanUnique(s, c, IsSpace, c + 1);
    assert CloserAt(s, c).Some?;
    forall k: nat | p <= k < c
      ensures Closers(s)(k).None?
    {
      var q := Span(s, k, IsSpace);
      assert q < c;
      assert s[q] != '`';
    }
    FirstFromIs(p, |s|, Closers(s), c);
  }

  /** A fence holding `body`, which neither starts nor ends with white space and holds no
      back-quote, yields `body` when nothing fenced comes before it. */
  lemma FenceOfBlock(before: string, body: string, after: string)
    requires forall i: nat :: i < |before| ==> FenceAt(before + "```json\n" + body + "\n```" + after, i).None?
    requires body != [] && !IsSpace(body[0]) && !IsSpace(body[|body| - 1])
    requires forall k :: 0 <= k < |body| ==> body[k] != '`'
    ensures FencedText(before + "```json\n" + body + "\n```" + after) == Some(body)
  {
    var s := before + "```json\n" + body + "\n```" + after;
    var i := |before|;
    var p := i + 8;
    var c := p + |body|;
    assert s[i..i + 7] == "```json";
    assert s[i + 7] == '\n';
    assert s[p] == body[0];
    SpanUnique(s, i + 7, IsSpace, p);
    assert s[c] == '\n';
    assert s[c + 1..c + 4] == "```";
    assert s[c - 1] == body[|body| - 1];
    assert s[p..c] == body;
    FirstCloser(s, p, c);
    assert FenceAt(s, i) == Some(body);
    FirstIs(|s|, Openers(s), i);
  }
}
