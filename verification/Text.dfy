/** Text as sequences of code points: white space, lines, joining.  White space lies in the
    basic plane and line breaks are ASCII, so for text without lone surrogates it makes no
    difference here whether a program counts code points or UTF-16 code units. */
module Text {

  /** White space as `str.strip` sees it in Python. */
  predicate PySpace(c: char) {
    var n := c as int;
    9 <= n <= 13 || 28 <= n <= 32 || n == 133 || JsOrPySpace(n)
  }

  /** White space as `trim`, `trimStart` and `trimEnd` see it in JavaScript. */
  predicate JsSpace(c: char) {
    JsSpaceCode(c as int)
  }

  predicate JsSpaceCode(n: int) {
    9 <= n <= 13 || n == 32 || n == 0xFEFF || JsOrPySpace(n)
  }

  predicate JsOrPySpace(n: int) {
    || n == 0xA0 || n == 0x1680 || 0x2000 <= n <= 0x200A || n == 0x2028 || n == 0x2029
    || n == 0x202F || n == 0x205F || n == 0x3000
  }

  /** Drops leading elements that are white space. */
  function TrimStart<T>(t: seq<T>, space: T -> bool): (r: seq<T>)
    ensures |r| <= |t| && r == t[|t| - |r|..]
    ensures forall i :: 0 <= i < |t| - |r| ==> space(t[i])
    ensures |r| > 0 ==> !space(r[0])
  {
    if |t| > 0 && space(t[0]) then TrimStart(t[1..], space) else t
  }

  function TrimEnd(t: string): (r: string)
    ensures |r| <= |t| && r == t[..|r|]
    ensures forall i :: |r| <= i < |t| ==> JsSpace(t[i])
    ensures r != [] ==> !JsSpace(r[|r| - 1])
  {
    if t != [] && JsSpace(t[|t| - 1]) then TrimEnd(t[..|t| - 1]) else t
  }

  function Trim(t: string): string {
    TrimEnd(TrimStart(t, JsSpace))
  }

  /** `core` stands at position `from`, with nothing but white space around it. */
  predicate SpaceAround(t: string, core: string, from: nat) {
    && from + |core| <= |t| && t[from..from + |core|] == core
    && (forall i :: 0 <= i < from ==> JsSpace(t[i])) && (forall i :: from + |core| <= i < |t| ==> JsSpace(t[i]))
  }

  /** A text without the white space around it. */
  ghost predicate TrimmedTo(t: string, core: string) {
    && (core != [] ==> !JsSpace(core[0]) && !JsSpace(core[|core| - 1]))
    && exists from: nat :: SpaceAround(t, core, from)
  }

  lemma TrimsTo(t: string)
    ensures TrimmedTo(t, Trim(t))
  {
    var rest := TrimStart(t, JsSpace);
    hide TrimStart;
    hide TrimEnd;
    assert SpaceAround(t, TrimEnd(rest), |t| - |rest|);
  }

  lemma TrimmedToOne(t: string, a: string, b: string)
    requires TrimmedTo(t, a) && TrimmedTo(t, b) && |a| > 0
    ensures a == b
  {
    var i: nat :| SpaceAround(t, a, i);
    var j: nat :| SpaceAround(t, b, j);
    assert t[i] == a[0] && t[i + |a| - 1] == a[|a| - 1];
    assert j <= i && i + |a| <= j + |b|;
    assert t[j] == b[0] && t[j + |b| - 1] == b[|b| - 1];
  }

  /** trim() leaves the text without the white space around it, and nothing else. */
  lemma TrimIff(t: string, core: string)
    ensures Trim(t) == core <==> TrimmedTo(t, core)
  {
    TrimsTo(t);
    if TrimmedTo(t, core) {
      if |core| > 0 {
        TrimmedToOne(t, core, Trim(t));
      } else if |Trim(t)| > 0 {
        TrimmedToOne(t, Trim(t), core);
      }
    }
  }

  function PyStrip(t: string): (r: string)
    ensures |r| <= |t|
    ensures r != [] ==> !PySpace(r[0]) && !PySpace(r[|r| - 1])
  {
    if t == [] then t
    else if PySpace(t[0]) then PyStrip(t[1..])
    else if PySpace(t[|t| - 1]) then PyStrip(t[..|t| - 1])
    else t
  }

  predicate StartsWith(t: string, prefix: string) {
    |prefix| == 0 || (|t| > 0 && t[0] == prefix[0] && StartsWith(t[1..], prefix[1..]))
  }

  lemma {:induction false} StartsWithAt(t: string, prefix: string)
    ensures StartsWith(t, prefix) <==> |prefix| <= |t| && forall i :: 0 <= i < |prefix| ==> t[i] == prefix[i]
  {
    if |prefix| > 0 && |t| > 0 {
      StartsWithAt(t[1..], prefix[1..]);
    }
  }

  predicate PyBlank(t: string) {
    forall c :: c in t ==> PySpace(c)
  }

  /** Puts a character in front of the first of several pieces. */
  function Grow(c: char, pieces: seq<string>): seq<string>
    requires pieces != []
  {
    [[c] + pieces[0]] + pieces[1..]
  }

  /** Pieces with more text after the last of them; `more` are the pieces of that last one
      with the text appended. */
  function Resume(pieces: seq<string>, more: seq<string>): seq<string>
    requires pieces != []
  {
    pieces[..|pieces| - 1] + more
  }

  lemma GrowResume(c: char, pieces: seq<string>, more: seq<string>)
    requires |pieces| >= 2 && more != []
    ensures Resume(Grow(c, pieces), more) == Grow(c, Resume(pieces, more))
    ensures Grow(c, pieces)[|pieces| - 1] == pieces[|pieces| - 1]
  {
  }

  lemma ResumeSingle(piece: string, more: seq<string>)
    ensures Resume([piece], more) == more
  {
  }

  lemma ResumeAfter(piece: string, pieces: seq<string>, more: seq<string>)
    requires pieces != []
    ensures Resume([piece] + pieces, more) == [piece] + Resume(pieces, more)
    ensures ([piece] + pieces)[|pieces|] == pieces[|pieces| - 1]
  {
  }

  lemma ConcatAssociates<T>(a: seq<T>, b: seq<T>, c: seq<T>)
    ensures a + (b + c) == a + b + c
  {
  }

  /** t.split("\n") */
  function Lines(t: string): (r: seq<string>)
    ensures |r| >= 1
  {
    if t == [] then [""]
    else if t[0] == '\n' then [""] + Lines(t[1..])
    else Grow(t[0], Lines(t[1..]))
  }

  function Join(lines: seq<string>, separator: string): string {
    if lines == [] then ""
    else if |lines| == 1 then lines[0]
    else lines[0] + separator + Join(lines[1..], separator)
  }

  /** Splitting at line breaks loses nothing else. */
  lemma {:induction false} LinesJoin(t: string)
    ensures Join(Lines(t), "\n") == t
    ensures forall i :: 0 <= i < |Lines(t)| ==> '\n' !in Lines(t)[i]
  {
    if |t| > 0 {
      LinesJoin(t[1..]);
      var rest := Lines(t[1..]);
      assert t == [t[0]] + t[1..];
      if t[0] == '\n' {
        assert ([""] + rest)[1..] == rest && "" + "\n" + t[1..] == t;
      } else if |rest| > 1 {
        ConcatAssociates([t[0]], rest[0], "\n");
        ConcatAssociates([t[0]], rest[0] + "\n", Join(rest[1..], "\n"));
      }
    }
  }

  /** f of every element, joined; f is abstract in what is proved about it. */
  function FlatMap<S, T>(items: seq<S>, f: S -> seq<T>): seq<T> {
    if |items| == 0 then [] else FlatMap(items[..|items| - 1], f) + f(items[|items| - 1])
  }

  lemma {:induction false} FlatMapConcat<S, T>(a: seq<S>, b: seq<S>, f: S -> seq<T>)
    ensures FlatMap(a + b, f) == FlatMap(a, f) + FlatMap(b, f)
  {
    if |b| == 0 {
      assert a + b == a;
    } else {
      FlatMapConcat(a, b[..|b| - 1], f);
      assert (a + b)[..|a + b| - 1] == a + b[..|b| - 1];
      ConcatAssociates(FlatMap(a, f), FlatMap(b[..|b| - 1], f), f(b[|b| - 1]));
    }
  }

  lemma FlatMapOne<S, T>(item: S, f: S -> seq<T>)
    ensures FlatMap([item], f) == f(item)
  {
    assert [item][..0] == [];
  }

  lemma FlatMapHead<S, T>(items: seq<S>, f: S -> seq<T>)
    requires |items| > 0
    ensures FlatMap(items, f) == f(items[0]) + FlatMap(items[1..], f)
  {
    FlatMapOne(items[0], f);
    FlatMapConcat([items[0]], items[1..], f);
    assert items == [items[0]] + items[1..];
  }

  function Concat<T>(parts: seq<seq<T>>): seq<T> {
    if parts == [] then [] else Concat(parts[..|parts| - 1]) + parts[|parts| - 1]
  }

  lemma {:induction false} OneLine(t: string)
    ensures |Lines(t)| == 1 <==> '\n' !in t
    ensures |Lines(t)| == 1 ==> Lines(t) == [t]
  {
    if t != [] {
      OneLine(t[1..]);
      assert t == [t[0]] + t[1..];
    }
  }

  /** Splitting more text only touches the last, unfinished line. */
  lemma {:induction false} LinesAppend(a: string, b: string)
    ensures Lines(a + b) == Resume(Lines(a), Lines(Lines(a)[|Lines(a)| - 1] + b))
  {
    if |Lines(a)| == 1 {
      OneLine(a);
      ResumeSingle(a, Lines(a + b));
    } else {
      LinesAppend(a[1..], b);
      assert (a + b)[1..] == a[1..] + b && (a + b)[0] == a[0];
      var p := Lines(a[1..]);
      var more := Lines(p[|p| - 1] + b);
      if a[0] == '\n' {
        ResumeAfter("", p, more);
      } else {
        GrowResume(a[0], p, more);
      }
    }
  }

  lemma {:induction false} LastLineIsUnbroken(t: string)
    ensures '\n' !in Lines(t)[|Lines(t)| - 1]
  {
    if t != [] {
      LastLineIsUnbroken(t[1..]);
    }
  }

  lemma {:induction false} LinesAfterBreak(line: string, b: string)
    requires '\n' !in line
    ensures Lines(line + "\n" + b) == [line] + Lines(b)
  {
    if line == [] {
      assert line + "\n" + b == "\n" + b && ("\n" + b)[1..] == b;
    } else {
      LinesAfterBreak(line[1..], b);
      assert (line + "\n" + b)[1..] == line[1..] + "\n" + b;
      assert [line[0]] + line[1..] == line;
    }
  }

  lemma LinesResume(p: seq<string>, b: string)
    requires p != []
    ensures Resume(p, [p[|p| - 1]] + Lines(b)) == p + Lines(b)
  {
  }

  lemma LinesConcat(a: string, b: string)
    ensures Lines(a + "\n" + b) == Lines(a) + Lines(b)
  {
    var p := Lines(a);
    var last := p[|p| - 1];
    LastLineIsUnbroken(a);
    LinesAppend(a, "\n" + b);
    LinesAfterBreak(last, b);
    ConcatAssociates(a, "\n", b);
    ConcatAssociates(last, "\n", b);
    LinesResume(p, b);
  }
}
