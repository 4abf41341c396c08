/** Service command templates: three replacements made one after the other, and
    when that is the same as one substitution made all at once. */
module ServiceTemplate {
  import opened Common

  const PORT: string := "{port}"
  const RELEASE: string := "{release}"
  const REPOSITORY: string := "{repository}"

  // ----- replacement --------------------------------------------------------

  predicate StartsWith(s: string, w: string) { |w| <= |s| && s[..|w|] == w }

  /** Every occurrence, found from the left, without looking at what was put in. */
  function Replace(s: string, pattern: string, value: string): string
    requires pattern != []
    decreases |s|
  {
    if s == [] then []
    else if StartsWith(s, pattern) then value + Replace(s[|pattern|..], pattern, value)
    else [s[0]] + Replace(s[1..], pattern, value)
  }

  predicate BraceFree(s: string) { '{' !in s && '}' !in s }

  predicate Contains(s: string, w: string) { exists i :: 0 <= i <= |s| && StartsWith(s[i..], w) }

  function Sequential(s: string, port: string, release: string, repository: string): string {
    Replace(Replace(Replace(s, PORT, port), RELEASE, release), REPOSITORY, repository)
  }

  // ----- whole placeholders -------------------------------------------------

  datatype Token = Text(c: char) | Port | Release | Repository

  function Render(t: Token): string {
    match t
    case Text(c) => [c]
    case Port => PORT
    case Release => RELEASE
    case Repository => REPOSITORY
  }

  function RenderAll(ts: seq<Token>): string {
    if ts == [] then [] else Render(ts[0]) + RenderAll(ts[1..])
  }

  predicate TokensOk(ts: seq<Token>) { forall t <- ts :: t.Text? ==> t.c != '{' && t.c != '}' }

  /** Brace-free text mixed with whole placeholders. */
  ghost predicate WellFormed(s: string) { exists ts :: TokensOk(ts) && RenderAll(ts) == s }

  function Value(t: Token, port: string, release: string, repository: string): string {
    match t
    case Text(c) => [c]
    case Port => port
    case Release => release
    case Repository => repository
  }

  /** One substitution of every placeholder at once. */
  function Substituted(ts: seq<Token>, port: string, release: string, repository: string): string {
    if ts == [] then []
    else Value(ts[0], port, release, repository) + Substituted(ts[1..], port, release, repository)
  }

  // ----- what replacement passes over ---------------------------------------

  lemma ReplaceChar(c: char, s: string, pattern: string, value: string)
    requires pattern != [] && !StartsWith([c] + s, pattern)
    ensures Replace([c] + s, pattern, value) == [c] + Replace(s, pattern, value)
  {
    assert ([c] + s)[1..] == s;
  }

  lemma {:induction false} ReplaceAfter(text: string, s: string, pattern: string, value: string)
    requires pattern != [] && pattern[0] == '{' && '{' !in text
    ensures Replace(text + s, pattern, value) == text + Replace(s, pattern, value)
    decreases |text|
  {
    if text == [] {
      assert text + s == s;
    } else {
      assert text[0] in text && forall c <- text[1..] :: c in text;
      ReplaceAfter(text[1..], s, pattern, value);
      assert text + s == [text[0]] + (text[1..] + s);
      DiffersAt(text + s, pattern, 0);
      ReplaceChar(text[0], text[1..] + s, pattern, value);
      assert [text[0]] + text[1..] == text;
    }
  }

  lemma DiffersAt(s: string, w: string, i: nat)
    requires i < |s| && i < |w| && s[i] != w[i]
    ensures !StartsWith(s, w)
  {
    assert |w| <= |s| ==> s[..|w|][i] == s[i];
  }

  /** A placeholder that is not the one looked for is passed over whole. */
  lemma ReplaceOther(placeholder: string, s: string, pattern: string, value: string)
    requires pattern != [] && pattern[0] == '{'
    requires placeholder != [] && placeholder[0] == '{' && '{' !in placeholder[1..]
    requires !StartsWith(placeholder + s, pattern)
    ensures Replace(placeholder + s, pattern, value) == placeholder + Replace(s, pattern, value)
  {
    assert placeholder + s == ['{'] + (placeholder[1..] + s);
    ReplaceChar('{', placeholder[1..] + s, pattern, value);
    ReplaceAfter(placeholder[1..], s, pattern, value);
    assert ['{'] + placeholder[1..] == placeholder;
  }

  lemma ReplaceThis(s: string, pattern: string, value: string)
    requires pattern != []
    ensures Replace(pattern + s, pattern, value) == value + Replace(s, pattern, value)
  {
    assert (pattern + s)[..|pattern|] == pattern && (pattern + s)[|pattern|..] == s;
  }

  /** No placeholder begins with another. */
  lemma Unlike(s: string)
    ensures !StartsWith(RELEASE + s, PORT) && !StartsWith(REPOSITORY + s, PORT) && !StartsWith(REPOSITORY + s, RELEASE)
  {
    DiffersAt(RELEASE + s, PORT, 1);
    DiffersAt(REPOSITORY + s, PORT, 1);
    DiffersAt(REPOSITORY + s, RELEASE, 3);
  }

  // ----- forward: whole placeholders are all replaced -----------------------

  lemma SequentialToken(t: Token, s: string, port: string, release: string, repository: string)
    requires t.Text? ==> t.c != '{' && t.c != '}'
    requires BraceFree(port) && BraceFree(release) && BraceFree(repository)
    ensures Sequential(Render(t) + s, port, release, repository)
         == Value(t, port, release, repository) + Sequential(s, port, release, repository)
  {
    hide Replace, StartsWith;
    var s1 := Replace(s, PORT, port);
    var s2 := Replace(s1, RELEASE, release);
    match t
    case Text(c) =>
      ReplaceAfter([c], s, PORT, port);
      ReplaceAfter([c], s1, RELEASE, release);
      ReplaceAfter([c], s2, REPOSITORY, repository);
    case Port =>
      ReplaceThis(s, PORT, port);
      ReplaceAfter(port, s1, RELEASE, release);
      ReplaceAfter(port, s2, REPOSITORY, repository);
    case Release =>
      Unlike(s);
      ReplaceOther(RELEASE, s, PORT, port);
      ReplaceThis(s1, RELEASE, release);
      ReplaceAfter(release, s2, REPOSITORY, repository);
    case Repository =>
      Unlike(s);
      Unlike(s1);
      ReplaceOther(REPOSITORY, s, PORT, port);
      ReplaceOther(REPOSITORY, s1, RELEASE, release);
      ReplaceThis(s2, REPOSITORY, repository);
  }

  /** On whole placeholders the three replacements are one substitution. */
  lemma {:induction false} SequentialIsSimultaneous(ts: seq<Token>, port: string, release: string, repository: string)
    requires TokensOk(ts) && BraceFree(port) && BraceFree(release) && BraceFree(repository)
    ensures Sequential(RenderAll(ts), port, release, repository) == Substituted(ts, port, release, repository)
    ensures BraceFree(Substituted(ts, port, release, repository))
  {
    if ts != [] {
      assert ts[0] in ts && forall t <- ts[1..] :: t in ts;
      SequentialIsSimultaneous(ts[1..], port, release, repository);
      SequentialToken(ts[0], RenderAll(ts[1..]), port, release, repository);
    }
  }

  // ----- backward: any other brace stays ------------------------------------

  /** A value that cannot be part of a placeholder's name: it has no brace, and
      some character no name has. */
  predicate Foreign(value: string) { BraceFree(value) && exists c <- value :: !('a' <= c <= 'z') }

  predicate NameEnd(w: string) { w != [] && w[|w| - 1] == '}' && forall i :: 0 <= i < |w| - 1 ==> 'a' <= w[i] <= 'z' }

  lemma ForeignNeverStarts(value: string, rest: string, w: string)
    requires Foreign(value) && NameEnd(w)
    ensures !StartsWith(value + rest, w)
  {
    var s := value + rest;
    if |w| <= |value| {
      assert value[|w| - 1] in value;
      DiffersAt(s, w, |w| - 1);
    } else {
      var c :| c in value && !('a' <= c <= 'z');
      var i :| 0 <= i < |value| && value[i] == c;
      DiffersAt(s, w, i);
    }
  }

  /** Replacement never completes a name that was not complete already. */
  lemma {:induction false} NothingCompleted(s: string, pattern: string, value: string, w: string)
    requires pattern != [] && Foreign(value) && NameEnd(w)
    ensures StartsWith(Replace(s, pattern, value), w) ==> StartsWith(s, w)
    decreases |w|
  {
    var r := Replace(s, pattern, value);
    if StartsWith(r, w) {
      if s != [] {
        if StartsWith(s, pattern) {
          ForeignNeverStarts(value, Replace(s[|pattern|..], pattern, value), w);
        } else {
          assert r == [s[0]] + Replace(s[1..], pattern, value);
          StartsAfter(s[0], Replace(s[1..], pattern, value), w);
          if |w| > 1 {
            NothingCompleted(s[1..], pattern, value, w[1..]);
          }
          assert s == [s[0]] + s[1..];
          StartsAfter(s[0], s[1..], w);
        }
      }
    }
  }

  lemma StartsAfter(c: char, s: string, w: string)
    requires w != []
    ensures StartsWith([c] + s, w) <==> w[0] == c && StartsWith(s, w[1..])
  {
    if StartsWith([c] + s, w) {
      assert ([c] + s)[..|w|][0] == c;
      assert s[..|w| - 1] == ([c] + s)[..|w|][1..];
    }
    if w[0] == c && StartsWith(s, w[1..]) {
      assert ([c] + s)[..|w|] == [c] + s[..|w| - 1];
    }
  }

  /** An opening brace that begins no placeholder is still there at the end. */
  lemma StrayStays(s: string, port: string, release: string, repository: string)
    requires s != [] && s[0] == '{' && !StartsWith(s, PORT) && !StartsWith(s, RELEASE) && !StartsWith(s, REPOSITORY)
    requires Foreign(port) && Foreign(release) && Foreign(repository)
    ensures '{' in Sequential(s, port, release, repository)
  {
    hide Replace, StartsWith, Foreign;
    var t := s[1..];
    assert s == ['{'] + t;
    var t1 := Replace(t, PORT, port);
    ReplaceChar('{', t, PORT, port);
    StartsAfter('{', t, RELEASE);
    StartsAfter('{', t1, RELEASE);
    NothingCompleted(t, PORT, port, RELEASE[1..]);
    ReplaceChar('{', t1, RELEASE, release);
    var t2 := Replace(t1, RELEASE, release);
    StartsAfter('{', t, REPOSITORY);
    StartsAfter('{', t2, REPOSITORY);
    NothingCompleted(t, PORT, port, REPOSITORY[1..]);
    NothingCompleted(t1, RELEASE, release, REPOSITORY[1..]);
    ReplaceChar('{', t2, REPOSITORY, repository);
  }

  lemma ClosingStays(s: string, port: string, release: string, repository: string)
    requires s != [] && s[0] == '}'
    ensures '}' in Sequential(s, port, release, repository)
  {
    hide Replace, StartsWith;
    assert s == ['}'] + s[1..];
    ReplaceAfter(['}'], s[1..], PORT, port);
    ReplaceAfter(['}'], Replace(s[1..], PORT, port), RELEASE, release);
    ReplaceAfter(['}'], Replace(Replace(s[1..], PORT, port), RELEASE, release), REPOSITORY, repository);
  }

  function FirstToken(s: string): Option<Token> {
    if s == [] then None
    else if StartsWith(s, PORT) then Some(Port)
    else if StartsWith(s, RELEASE) then Some(Release)
    else if StartsWith(s, REPOSITORY) then Some(Repository)
    else if s[0] == '{' || s[0] == '}' then None
    else Some(Text(s[0]))
  }

  lemma FirstTokenIs(s: string)
    ensures FirstToken(s).Some? ==>
              var r := Render(FirstToken(s).value);
              |r| <= |s| && s == r + s[|r|..] && (FirstToken(s).value.Text? ==> s[0] != '{' && s[0] != '}')
  {
  }

  /** What the replacements leave without a brace was whole placeholders. */
  lemma {:induction false} BraceFreeIsWellFormed(s: string, port: string, release: string, repository: string)
    requires Foreign(port) && Foreign(release) && Foreign(repository)
    requires BraceFree(Sequential(s, port, release, repository))
    ensures WellFormed(s)
    decreases |s|
  {
    hide Sequential, StartsWith;
    if s == [] {
      assert TokensOk([]) && RenderAll([]) == s;
    } else if FirstToken(s).None? {
      if s[0] == '}' {
        ClosingStays(s, port, release, repository);
      } else {
        StrayStays(s, port, release, repository);
      }
    } else {
      var t := FirstToken(s).value;
      FirstTokenIs(s);
      var rest := s[|Render(t)|..];
      SequentialToken(t, rest, port, release, repository);
      NoBraceInTail(Value(t, port, release, repository), Sequential(rest, port, release, repository));
      BraceFreeIsWellFormed(rest, port, release, repository);
      var ts :| TokensOk(ts) && RenderAll(ts) == rest;
      assert TokensOk([t] + ts) && ([t] + ts)[1..] == ts && RenderAll([t] + ts) == s;
    }
  }

  lemma NoBraceInTail(a: string, b: string)
    requires BraceFree(a + b)
    ensures BraceFree(b)
  {
    assert forall c <- b :: c in a + b;
  }

  // ----- validation and expansion -------------------------------------------

  predicate ArgumentValid(s: string) { BraceFree(Sequential(s, [], [], [])) }

  predicate HasPort(argv: seq<string>) { exists i :: 0 <= i < |argv| && Contains(argv[i], PORT) }

  /** Removes every placeholder and looks for a brace. */
  method Validate(argv: seq<string>) returns (ok: bool)
    ensures ok <==> (forall i :: 0 <= i < |argv| ==> ArgumentValid(argv[i])) && HasPort(argv)
  {
    hide Replace, Contains;
    var k := 0;
    while k < |argv|
      invariant k <= |argv| && forall i :: 0 <= i < k ==> ArgumentValid(argv[i])
    {
      var remainder := argv[k];
      remainder := Replace(remainder, PORT, "");
      remainder := Replace(remainder, RELEASE, "");
      remainder := Replace(remainder, REPOSITORY, "");
      assert remainder == Sequential(argv[k], [], [], []);
      if '{' in remainder || '}' in remainder {
        return false;
      }
      k := k + 1;
    }
    ok := exists i :: 0 <= i < |argv| && Contains(argv[i], PORT);
  }

  /** Validates, then replaces in each argument, one placeholder after another. */
  method Expand(argv: seq<string>, port: string, release: string, repository: string) returns (r: Option<seq<string>>)
    requires Foreign(port) && Foreign(release) && Foreign(repository)
    ensures r.Some? <==> HasPort(argv) && forall i :: 0 <= i < |argv| ==> WellFormed(argv[i])
    ensures r.Some? ==> |r.value| == |argv|
    ensures r.Some? ==> forall i, ts :: 0 <= i < |argv| && TokensOk(ts) && RenderAll(ts) == argv[i] ==>
                          r.value[i] == Substituted(ts, port, release, repository)
  {
    hide Replace, Contains, Foreign, WellFormed, Sequential, TokensOk, HasPort;
    var valid := Validate(argv);
    forall i | 0 <= i < |argv| ensures ArgumentExact(argv[i], port, release, repository) {
      ArgumentIs(argv[i], port, release, repository);
    }
    if !valid {
      return None;
    }
    var expanded: seq<string> := [];
    while |expanded| < |argv|
      invariant |expanded| <= |argv|
      invariant forall i :: 0 <= i < |expanded| ==>
                  expanded[i] == Sequential(argv[i], port, release, repository) && WellFormed(argv[i])
    {
      var argument := argv[|expanded|];
      argument := Replace(argument, PORT, port);
      argument := Replace(argument, RELEASE, release);
      argument := Replace(argument, REPOSITORY, repository);
      IsSequential(argv[|expanded|], port, release, repository);
      assert ArgumentExact(argv[|expanded|], port, release, repository);
      if '{' in argument || '}' in argument {
        return None;
      }
      expanded := expanded + [argument];
    }
    forall i, ts | 0 <= i < |argv| && TokensOk(ts) && RenderAll(ts) == argv[i]
      ensures expanded[i] == Substituted(ts, port, release, repository)
    {
      ForeignIsFree(port);
      ForeignIsFree(release);
      ForeignIsFree(repository);
      SequentialIsSimultaneous(ts, port, release, repository);
    }
    r := Some(expanded);
  }

  lemma IsSequential(s: string, port: string, release: string, repository: string)
    ensures Sequential(s, port, release, repository)
         == Replace(Replace(Replace(s, PORT, port), RELEASE, release), REPOSITORY, repository)
  {
  }

  lemma ForeignIsFree(value: string)
    requires Foreign(value)
    ensures BraceFree(value)
  {
  }

  ghost predicate ArgumentExact(s: string, port: string, release: string, repository: string) {
    && (BraceFree(Sequential(s, port, release, repository)) <==> WellFormed(s))
    && (WellFormed(s) ==> ArgumentValid(s))
  }

  /** An argument expands without a brace exactly when it is well formed, and a
      well-formed one is valid. */
  lemma ArgumentIs(s: string, port: string, release: string, repository: string)
    requires Foreign(port) && Foreign(release) && Foreign(repository)
    ensures ArgumentExact(s, port, release, repository)
  {
    hide Sequential, TokensOk;
    if WellFormed(s) {
      var ts :| TokensOk(ts) && RenderAll(ts) == s;
      SequentialIsSimultaneous(ts, port, release, repository);
      SequentialIsSimultaneous(ts, [], [], []);
    }
    if BraceFree(Sequential(s, port, release, repository)) {
      BraceFreeIsWellFormed(s, port, release, repository);
    }
  }

  /** Validation is strictly weaker: it accepts `{re{port}lease}`, which no
      values expand. */
  lemma ValidationIsWeaker()
    ensures var s := "{re{port}lease}"; ArgumentValid(s) && HasPort([s]) && !WellFormed(s)
  {
    hide Replace, StartsWith, Sequential, WellFormed, Contains;
    var head, tail := "{re", "lease}";
    var s := head + (PORT + tail);
    assert s == "{re{port}lease}";
    DiffersAt(s, PORT, 1);
    DiffersAt(s, RELEASE, 3);
    DiffersAt(s, REPOSITORY, 3);
    assert '8' in "8" && '/' in "/";
    StrayStays(s, "8", "/", "/");
    ArgumentIs(s, "8", "/", "/");
    RemovedOnce(head, tail);
    PortInside(head, tail);
    assert Contains([s][0], PORT);
  }

  lemma PortInside(head: string, tail: string)
    ensures Contains(head + (PORT + tail), PORT)
  {
    var s := head + (PORT + tail);
    assert s[|head|..] == PORT + tail && (PORT + tail)[..|PORT|] == PORT;
    assert StartsWith(s[|head|..], PORT);
  }

  /** Taking the inner placeholder out completes the outer one. */
  lemma RemovedOnce(head: string, tail: string)
    requires head == "{re" && tail == "lease}"
    ensures Sequential(head + (PORT + tail), [], [], []) == []
  {
    hide Replace, StartsWith;
    DiffersAt(head + (PORT + tail), PORT, 1);
    ReplaceOther(head, PORT + tail, PORT, []);
    ReplaceThis(tail, PORT, []);
    ReplaceAfter(tail, [], PORT, []);
    EmptyReplaces(PORT);
    assert tail + [] == tail && [] + tail == tail;
    assert head + tail == RELEASE + [];
    ReplaceThis([], RELEASE, []);
    EmptyReplaces(RELEASE);
    EmptyReplaces(REPOSITORY);
  }

  lemma EmptyReplaces(pattern: string)
    requires pattern != []
    ensures Replace([], pattern, []) == []
  {
  }
}
