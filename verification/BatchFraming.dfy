/** Reading many objects from one stream.  Each is framed by a header that gives
    its length, so contents that look like headers are never taken for them. */
module BatchFraming {
  import opened Common

  const NEWLINE: byte := 10
  const SPACE: byte := 32
  /** The word for a plain object. */
  const BLOB: Bytes := [98, 108, 111, 98]

  function Decimal(n: nat): (d: Bytes)
    ensures d != [] && forall b <- d :: 48 <= b <= 57
  {
    if n < 10 then [(48 + n) as byte] else Decimal(n / 10) + [(48 + n % 10) as byte]
  }

  /** An object name: hexadecimal, so without spaces or line ends. */
  predicate IsName(id: Bytes) {
    id != [] && forall b <- id :: 48 <= b <= 57 || 97 <= b <= 102
  }

  function Header(id: Bytes, size: nat): Bytes { id + [SPACE] + BLOB + [SPACE] + Decimal(size) }

  function Frame(id: Bytes, content: Bytes): Bytes { Header(id, |content|) + [NEWLINE] + content + [NEWLINE] }

  /** The stream as it is printed. */
  function Frames(ids: seq<Bytes>, contents: seq<Bytes>): Bytes
    requires |ids| == |contents|
  {
    if ids == [] then []
    else Frames(ids[..|ids| - 1], contents[..|ids| - 1]) + Frame(ids[|ids| - 1], contents[|ids| - 1])
  }

  /** Contents of the sizes that were announced, printed as `output`. */
  ghost predicate Prints(output: Bytes, ids: seq<Bytes>, sizes: map<Bytes, nat>, contents: seq<Bytes>) {
    && |contents| == |ids| && output == Frames(ids, contents)
    && forall i :: 0 <= i < |ids| ==> ids[i] in sizes && |contents[i]| == sizes[ids[i]]
  }

  // ----- one header line ----------------------------------------------------

  /** The line cut at every space. */
  function Split(line: Bytes): (parts: seq<Bytes>)
    ensures parts != []
  {
    if line == [] then [[]]
    else
      var rest := Split(line[1..]);
      if line[0] == SPACE then [[]] + rest else [[line[0]] + rest[0]] + rest[1..]
  }

  lemma {:induction false} SplitWord(word: Bytes)
    requires SPACE !in word
    ensures Split(word) == [word]
  {
    if word != [] {
      assert word[0] in word && forall b <- word[1..] :: b in word;
      SplitWord(word[1..]);
      assert [word[0]] + word[1..] == word;
    }
  }

  lemma {:induction false} SplitFirst(word: Bytes, rest: Bytes)
    requires SPACE !in word
    ensures Split(word + [SPACE] + rest) == [word] + Split(rest)
  {
    var line := word + [SPACE] + rest;
    if word == [] {
      assert line[1..] == rest;
    } else {
      assert word[0] in word && forall b <- word[1..] :: b in word;
      SplitFirst(word[1..], rest);
      assert line[1..] == word[1..] + [SPACE] + rest;
      assert [word[0]] + word[1..] == word;
      assert ([word[1..]] + Split(rest))[1..] == Split(rest);
    }
  }

  function Join(parts: seq<Bytes>): Bytes
    requires parts != []
  {
    if |parts| == 1 then parts[0] else parts[0] + [SPACE] + Join(parts[1..])
  }

  lemma {:induction false} JoinSplit(line: Bytes)
    ensures Join(Split(line)) == line
  {
    if line != [] {
      JoinSplit(line[1..]);
      var rest := Split(line[1..]);
      if line[0] == SPACE {
        assert ([[]] + rest)[1..] == rest;
      } else if |rest| > 1 {
        assert ([[line[0]] + rest[0]] + rest[1..])[1..] == rest[1..];
      }
    }
  }

  predicate HeaderMatches(line: Bytes, id: Bytes, size: nat) {
    var parts := Split(line);
    |parts| == 3 && parts[0] == id && parts[1] == BLOB && parts[2] == Decimal(size)
  }

  lemma NameHasNone(id: Bytes)
    requires IsName(id)
    ensures SPACE !in id && NEWLINE !in id
  {
  }

  /** A line passes exactly when it is the header that was printed. */
  lemma HeaderExact(line: Bytes, id: Bytes, size: nat)
    requires IsName(id)
    ensures HeaderMatches(line, id, size) <==> line == Header(id, size)
  {
    NameHasNone(id);
    var rest := BLOB + [SPACE] + Decimal(size);
    if line == Header(id, size) {
      assert line == id + [SPACE] + rest;
      SplitFirst(id, rest);
      SplitFirst(BLOB, Decimal(size));
      SplitWord(Decimal(size));
    }
    if HeaderMatches(line, id, size) {
      JoinSplit(line);
      var parts := Split(line);
      assert parts[1..][1..] == [parts[2]];
      assert Join(parts[1..]) == rest;
      assert line == id + [SPACE] + rest;
      assert id + [SPACE] + rest == Header(id, size);
    }
  }

  // ----- the stream ---------------------------------------------------------

  /** The first line end at or after `from`. */
  method FindNewline(s: Bytes, from: nat) returns (at: int)
    requires from <= |s|
    ensures at < 0 ==> forall i :: from <= i < |s| ==> s[i] != NEWLINE
    ensures at >= 0 ==> from <= at < |s| && s[at] == NEWLINE && forall i :: from <= i < at ==> s[i] != NEWLINE
  {
    var i := from;
    while i < |s|
      invariant from <= i <= |s| && forall j :: from <= j < i ==> s[j] != NEWLINE
    {
      if s[i] == NEWLINE {
        return i;
      }
      i := i + 1;
    }
    at := -1;
  }

  lemma {:induction false} FramesPrefix(ids: seq<Bytes>, contents: seq<Bytes>, k: nat)
    requires |ids| == |contents| && k <= |ids|
    ensures Frames(ids[..k], contents[..k]) <= Frames(ids, contents)
    decreases |ids|
  {
    if k < |ids| {
      var n := |ids| - 1;
      FramesPrefix(ids[..n], contents[..n], k);
      assert ids[..n][..k] == ids[..k] && contents[..n][..k] == contents[..k];
    } else {
      assert ids[..k] == ids && contents[..k] == contents;
    }
  }

  lemma FramesNext(ids: seq<Bytes>, contents: seq<Bytes>, k: nat)
    requires k < |contents| <= |ids|
    ensures Frames(ids[..k + 1], contents[..k + 1]) == Frames(ids[..k], contents[..k]) + Frame(ids[k], contents[k])
  {
    assert ids[..k + 1][..k] == ids[..k] && contents[..k + 1][..k] == contents[..k];
  }

  lemma HeaderHasNoNewline(id: Bytes, size: nat)
    requires IsName(id)
    ensures forall i :: 0 <= i < |Header(id, size)| ==> Header(id, size)[i] != NEWLINE
  {
    NameHasNone(id);
    var d := Decimal(size);
    forall i | 0 <= i < |Header(id, size)| ensures Header(id, size)[i] != NEWLINE {
      if i < |id| {
        assert Header(id, size)[i] == id[i];
      } else if i >= |id| + 6 {
        assert Header(id, size)[i] == d[i - |id| - 6] && d[i - |id| - 6] in d;
      }
    }
  }

  /** What is found at a position where a frame begins. */
  lemma FrameFound(output: Bytes, position: nat, id: Bytes, content: Bytes, end: int)
    requires IsName(id) && position <= |output| && Frame(id, content) <= output[position..]
    requires end < 0 ==> forall i :: position <= i < |output| ==> output[i] != NEWLINE
    requires end >= 0 ==> position <= end < |output| && output[end] == NEWLINE && forall i :: position <= i < end ==> output[i] != NEWLINE
    ensures end == position + |Header(id, |content|)| && output[position..end] == Header(id, |content|)
    ensures end + 1 + |content| < |output| && output[end + 1 + |content|] == NEWLINE
    ensures output[end + 1..end + 1 + |content|] == content
    ensures position + |Frame(id, content)| == end + 1 + |content| + 1
  {
    var h, f := Header(id, |content|), Frame(id, content);
    HeaderHasNoNewline(id, |content|);
    hide Header;
    assert forall i :: 0 <= i < |f| ==> output[position + i] == f[i];
    assert forall i :: 0 <= i < |h| ==> output[position + i] == f[i] == h[i];
    assert output[position + |h|] == f[|h|] == NEWLINE;
    assert end == position + |h|;
    assert forall i :: 0 <= i < |content| ==> f[|h| + 1 + i] == content[i];
    assert f[|h| + 1 + |content|] == NEWLINE;
  }

  /** Conversely, what has been checked at a position is a frame. */
  lemma FrameChecked(output: Bytes, position: nat, id: Bytes, size: nat, end: nat)
    requires position <= end < |output| && output[position..end] == Header(id, size) && output[end] == NEWLINE
    requires end + 1 + size < |output| && output[end + 1 + size] == NEWLINE
    ensures output[position..end + 1 + size + 1] == Frame(id, output[end + 1..end + 1 + size])
  {
    hide Header;
    var h, content := Header(id, size), output[end + 1..end + 1 + size];
    assert output[position..end + 1 + size + 1] == output[position..end] + [output[end]] + content + [output[end + 1 + size]];
  }

  /** Takes the stream apart, frame by frame.  It accepts exactly what printing
      some contents of the announced sizes gives, and returns those contents. */
  method BatchContents(output: Bytes, ids: seq<Bytes>, sizes: map<Bytes, nat>) returns (r: Option<map<Bytes, Bytes>>)
    requires forall id <- ids :: IsName(id)
    requires forall i, j :: 0 <= i < j < |ids| ==> ids[i] != ids[j]
    ensures r.Some? <==> (ids == [] || exists contents :: Prints(output, ids, sizes, contents))
    ensures r.Some? && ids != [] ==> r.value.Keys == (set id | id in ids)
    ensures r.Some? ==> forall contents :: Prints(output, ids, sizes, contents) ==>
                          forall i :: 0 <= i < |ids| ==> ids[i] in r.value && r.value[ids[i]] == contents[i]
  {
    hide Frames, Frame, Header, HeaderMatches, IsName, Decimal;
    if ids == [] {
      return Some(map[]);
    }
    var contents: map<Bytes, Bytes> := map[];
    var position: nat := 0;
    var k := 0;
    ghost var got: seq<Bytes> := [];
    NoFrames(ids, got);
    while k < |ids|
      invariant |got| == k <= |ids| && position <= |output|
      invariant forall i :: 0 <= i < k ==> ids[i] in sizes && |got[i]| == sizes[ids[i]]
      invariant output[..position] == Frames(ids[..k], got)
      invariant forall c :: Prints(output, ids, sizes, c) ==> got == c[..k]
      invariant contents.Keys == (set i | 0 <= i < k :: ids[i])
      invariant forall i :: 0 <= i < k ==> ids[i] in contents && contents[ids[i]] == got[i]
    {
      var id := ids[k];
      var end := FindNewline(output, position);
      forall c | Prints(output, ids, sizes, c) ensures Expected(output, ids, sizes, c, k, position, end) {
        NextExpected(output, ids, sizes, c, k, position, end);
      }
      if end < 0 || id !in sizes {
        return None;
      }
      var size := sizes[id];
      HeaderExact(output[position..end], id, size);
      if !HeaderMatches(output[position..end], id, size) {
        return None;
      }
      var start := end + 1;
      if start + size >= |output| || output[start + size] != NEWLINE {
        return None;
      }
      ghost var before := got;
      contents := contents[id := output[start..start + size]];
      got := got + [output[start..start + size]];
      FrameChecked(output, position, id, size, end);
      Appended(output, ids, before, output[start..start + size], k, position, start + size + 1);
      position := start + size + 1;
      k := k + 1;
    }
    assert ids[..|ids|] == ids;
    if position != |output| {
      forall c ensures !Prints(output, ids, sizes, c) {
        WholeStream(output, ids, sizes, c, got, position);
      }
      return None;
    }
    assert output[..position] == output;
    assert Prints(output, ids, sizes, got);
    r := Some(contents);
  }

  lemma NoFrames(ids: seq<Bytes>, contents: seq<Bytes>)
    requires contents == []
    ensures Frames(ids[..0], contents) == []
  {
  }

  /** If the stream is one that was printed, the next checks all pass. */
  ghost predicate Expected(output: Bytes, ids: seq<Bytes>, sizes: map<Bytes, nat>, c: seq<Bytes>, k: nat, position: nat, end: int)
    requires k < |ids| && position <= |output|
  {
    && k < |c| && end >= position && ids[k] in sizes && end < |output|
    && output[position..end] == Header(ids[k], sizes[ids[k]])
    && end + 1 + sizes[ids[k]] < |output| && output[end + 1 + sizes[ids[k]]] == NEWLINE
    && output[end + 1..end + 1 + sizes[ids[k]]] == c[k]
    && c[..k] + [c[k]] == c[..k + 1]
  }

  lemma NextExpected(output: Bytes, ids: seq<Bytes>, sizes: map<Bytes, nat>, c: seq<Bytes>, k: nat, position: nat, end: int)
    requires k < |ids| && position <= |output| && Prints(output, ids, sizes, c) && forall id <- ids :: IsName(id)
    requires output[..position] == Frames(ids[..k], c[..k])
    requires end < 0 ==> forall i :: position <= i < |output| ==> output[i] != NEWLINE
    requires end >= 0 ==> position <= end < |output| && output[end] == NEWLINE && forall i :: position <= i < end ==> output[i] != NEWLINE
    ensures Expected(output, ids, sizes, c, k, position, end)
  {
    hide Frames, Frame, Header, IsName;
    FramesPrefix(ids, c, k + 1);
    FramesNext(ids, c, k);
    assert IsName(ids[k]);
    var f := Frame(ids[k], c[k]);
    assert output[..position] + f <= output;
    assert f <= output[position..];
    FrameFound(output, position, ids[k], c[k], end);
  }

  lemma Appended(output: Bytes, ids: seq<Bytes>, got: seq<Bytes>, content: Bytes, k: nat, position: nat, next: nat)
    requires |got| == k < |ids| && position <= next <= |output|
    requires output[..position] == Frames(ids[..k], got) && output[position..next] == Frame(ids[k], content)
    ensures output[..next] == Frames(ids[..k + 1], got + [content])
  {
    hide Frames, Frame;
    var all := got + [content];
    FramesNext(ids, all, k);
    assert all[..k + 1] == all && all[..k] == got;
    assert output[..next] == output[..position] + output[position..next];
  }

  lemma WholeStream(output: Bytes, ids: seq<Bytes>, sizes: map<Bytes, nat>, c: seq<Bytes>, got: seq<Bytes>, position: nat)
    requires |got| == |ids| && position < |output| && output[..position] == Frames(ids, got)
    requires Prints(output, ids, sizes, c) ==> got == c[..|ids|]
    ensures !Prints(output, ids, sizes, c)
  {
    assert |c| == |ids| ==> c[..|ids|] == c;
  }
}
