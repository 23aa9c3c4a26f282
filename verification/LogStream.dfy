/** The log view: a growing log of bytes, fetched from an offset, decoded, and folded into lines. */
module LogStream {
  import opened Utf8

  const NEWLINE := 10
  const MAX_LINES := 20000

  datatype LogLine = LogLine(text: Text, level: string, source: string)

  // ---------------------------------------------------------------------- lines

  predicate Complete(s: Text) { |s| > 0 && s[|s| - 1] == NEWLINE }

  /** The lines that a newline ends, and what follows the last newline. */
  function Ended(s: Text): seq<Text>
  {
    if s == [] then []
    else if s[|s| - 1] == NEWLINE then Ended(s[..|s| - 1]) + [Rest(s[..|s| - 1])]
    else Ended(s[..|s| - 1])
  }

  function Rest(s: Text): Text
  {
    if s == [] || s[|s| - 1] == NEWLINE then [] else Rest(s[..|s| - 1]) + [s[|s| - 1]]
  }

  function Tail(s: Text): seq<Text> { if Rest(s) == [] then [] else [Rest(s)] }

  /** The lines of a text; what follows the last newline is a line of its own unless it is empty. */
  function Lines(s: Text): seq<Text> { Ended(s) + Tail(s) }

  /** Lines as a file holds them, a newline after each. */
  function Written(ls: seq<Text>): Text
  {
    if ls == [] then [] else Written(ls[..|ls| - 1]) + ls[|ls| - 1] + [10]
  }

  /** A text is its ended lines, a newline after each, and what follows; no line holds a newline. */
  lemma {:induction false} LinesSpell(s: Text)
    ensures Written(Ended(s)) + Rest(s) == s && forall l | l in Lines(s) :: 10 !in l
    decreases |s|
  {
    if s != [] {
      var front, x := s[..|s| - 1], s[|s| - 1];
      LinesSpell(front);
      assert s == front + [x] && 10 !in Rest(front) by { NoNewline(front); }
      if x == NEWLINE {
        var e := Ended(front);
        assert (e + [Rest(front)])[..|e|] == e;
        assert Written(e) + Rest(front) + [10] + [] == s;
      } else {
        assert Written(Ended(front)) + (Rest(front) + [x]) == Written(Ended(front)) + Rest(front) + [x];
      }
    }
  }

  lemma {:induction false} NoNewline(s: Text)
    ensures 10 !in Rest(s)
    decreases |s|
  {
    if s != [] { NoNewline(s[..|s| - 1]); }
  }

  /** Gluing the last of one list to the first of the next. */
  function Glue(a: seq<Text>, b: seq<Text>): seq<Text>
    requires |a| > 0 && |b| > 0
  {
    a[..|a| - 1] + [a[|a| - 1] + b[0]] + b[1..]
  }

  ghost predicate Joins(a: Text, b: Text)
  {
    if Ended(b) == [] then Ended(a + b) == Ended(a) && Rest(a + b) == Rest(a) + Rest(b)
    else Ended(a + b) == Ended(a) + [Rest(a) + Ended(b)[0]] + Ended(b)[1..] && Rest(a + b) == Rest(b)
  }

  lemma {:induction false} Concat(a: Text, b: Text)
    ensures Joins(a, b)
    decreases |b|
  {
    if b == [] {
      assert a + b == a;
    } else {
      var c, x := b[..|b| - 1], b[|b| - 1];
      Concat(a, c);
      assert b == c + [x];
      OneMore(a, c, x);
    }
  }

  lemma {:induction false} OneMore(a: Text, c: Text, x: int)
    requires Joins(a, c)
    ensures Joins(a, c + [x])
  {
    var b := c + [x];
    Snoc(c, x);
    Snoc(a + c, x);
    assert a + b == a + c + [x];
    if x != NEWLINE {
      if Ended(c) == [] { Regroup(Rest(a), Rest(c), [x]); }
    } else if Ended(c) == [] {
      assert Ended(b) == [Rest(c)] && [Rest(c)][1..] == [];
    } else {
      Push(Ended(a), Rest(a) + Ended(c)[0], Ended(c), Rest(c));
    }
  }

  lemma {:induction false} Push<T>(front: seq<T>, y: T, s: seq<T>, x: T)
    requires s != []
    ensures (s + [x])[0] == s[0] && front + [y] + s[1..] + [x] == front + [y] + (s + [x])[1..]
  {
    assert (s + [x])[1..] == s[1..] + [x];
  }

  lemma {:induction false} Snoc(s: Text, x: int)
    ensures Ended(s + [x]) == if x == NEWLINE then Ended(s) + [Rest(s)] else Ended(s)
    ensures Rest(s + [x]) == if x == NEWLINE then [] else Rest(s) + [x]
  {
    assert (s + [x])[..|s|] == s;
  }

  lemma {:induction false} RestEmpty(s: Text)
    ensures Rest(s) == [] <==> s == [] || Complete(s)
  {}

  lemma {:induction false} LinesExist(b: Text)
    requires b != []
    ensures |Lines(b)| > 0
  {
    RestEmpty(b);
  }

  /** A text that ends in a whole line: the lines of what is appended follow. */
  lemma {:induction false} LinesFollow(a: Text, b: Text)
    requires b != [] && Rest(a) == []
    ensures Lines(a + b) == Lines(a) + Lines(b)
  {
    Concat(a, b);
    LinesExist(b);
    if Ended(b) != [] { NothingBefore(Ended(a), Ended(b), Tail(b)); } else { assert [] + Rest(b) == Rest(b); }
  }

  lemma {:induction false} NothingBefore(x: seq<Text>, y: seq<Text>, t: seq<Text>)
    requires y != []
    ensures x + [[] + y[0]] + y[1..] + t == (x + []) + (y + t)
  {
    assert [] + y[0] == y[0];
  }

  /** A text that ends inside a line: that line goes on. */
  lemma {:induction false} LinesGoOn(a: Text, b: Text)
    requires b != [] && Rest(a) != []
    ensures |Lines(a)| > 0 && |Lines(b)| > 0 && Lines(a + b) == Glue(Lines(a), Lines(b))
  {
    Concat(a, b);
    LinesExist(b);
    assert Lines(a)[..|Lines(a)| - 1] == Ended(a);
    if Ended(b) != [] { assert (Ended(b) + Tail(b))[1..] == Ended(b)[1..] + Tail(b); }
  }

  // -------------------------------------------------------------------- trimming

  function Last<T>(s: seq<T>, n: nat): seq<T> { if |s| > n then s[|s| - n..] else s }

  lemma {:induction false} LastConcat<T>(a: seq<T>, b: seq<T>, n: nat)
    ensures Last(Last(a, n) + b, n) == Last(a + b, n)
  {}

  lemma {:induction false} LastGlue(a: seq<Text>, b: seq<Text>, n: nat)
    requires |a| > 0 && |b| > 0 && n > 0
    ensures |Last(a, n)| > 0 && Last(Glue(Last(a, n), b), n) == Last(Glue(a, b), n)
  {
    if |a| > n {
      var front, l := a[..|a| - n], Last(a, n);
      assert a == front + l;
      GlueFront(front, l, b);
      LastOf(front, Glue(l, b), n);
    }
  }

  lemma {:induction false} GlueFront(front: seq<Text>, l: seq<Text>, b: seq<Text>)
    requires |l| > 0 && |b| > 0
    ensures Glue(front + l, b) == front + Glue(l, b)
  {
    var a := front + l;
    assert a[|a| - 1] == l[|l| - 1] && a[..|a| - 1] == front + l[..|l| - 1];
  }

  lemma {:induction false} LastOf<T>(a: seq<T>, b: seq<T>, n: nat)
    requires |b| >= n
    ensures Last(a + b, n) == Last(b, n)
  {}

  // ------------------------------------------------------------------ what is fetched

  const BOM: seq<Byte> := [0xEF, 0xBB, 0xBF]

  predicate Marked(body: seq<Byte>) { BOM <= body }

  /** A response as text: a byte order mark at its start is not part of it. */
  function Read(body: seq<Byte>): Text { if Marked(body) then Decode(body[3..]) else Decode(body) }

  /** The log from an offset on, as GET /logger sends it. */
  function From(file: seq<Byte>, skip: nat): seq<Byte> { if skip <= |file| then file[skip..] else [] }

  /** How the offset moves, for any bytes at all. */
  lemma {:induction false} ReadSize(body: seq<Byte>)
    ensures Size(Read(body)) == if Marked(body) then |body| - 3 + Excess(body[3..]) else |body| + Excess(body)
    ensures !Marked(body) ==> (Size(Read(body)) == |body| <==> Tight(body))
  {
    if Marked(body) { SizeDecoded(body[3..]); } else { SizeDecoded(body); TightIff(body); }
  }

  /** A log that holds the text `u`, then `v`, then the first `n` bytes of a character. */
  ghost predicate Ends(file: seq<Byte>, u: Text, v: Text, c: int, n: nat)
  {
    Scalars(u) && Scalars(v) && Scalar(c) && n < Width(c) && file == Encode(u) + Encode(v) + EncodeOne(c)[..n]
  }

  /**
   With `u` fetched, a log in UTF-8 that breaks off after `n` bytes of a character gives the text
   `v` and one replacement for the piece. The offset is then the end of what was read if and only if
   no character was cut, or one of four bytes after three; else it is past it.
   */
  lemma {:induction false} CutRead(file: seq<Byte>, u: Text, v: Text, c: int, n: nat)
    requires Ends(file, u, v, c, n) && (v != [] ==> v[0] != 0xFEFF)
    ensures var t := Read(From(file, Size(u)));
            && t == v + (if n == 0 then [] else [REPLACEMENT])
            && Size(u) + Size(t) == |file| + (if n == 0 then 0 else 3 - n)
            && (Size(u) + Size(t) == |file| <==> n == 0 || n == 3)
  {
    var part := EncodeOne(c)[..n];
    SizeEncoded(u);
    SizeEncoded(v);
    Regroup(Encode(u), Encode(v), part);
    var body := Encode(v) + part;
    assert From(file, Size(u)) == body;
    Unmarked(v, c, n);
    RoundTrip(v, part);
    if n > 0 { CutChar(c, n); } else { assert part == []; }
    SizeConcat(v, if n == 0 then [] else [REPLACEMENT]);
    assert [REPLACEMENT][1..] == [];
  }

  lemma {:induction false} MarkDecodes(body: seq<Byte>)
    ensures Marked(body) ==> First(body) == 0xFEFF
  {
    if Marked(body) {
      assert EncodeOne(0xFEFF) == BOM && body == BOM + body[3..];
      ReadsOne(0xFEFF, body[3..]);
    }
  }

  /** No byte order mark there unless the text begins with that character. */
  lemma {:induction false} Unmarked(v: Text, c: int, n: nat)
    requires Scalars(v) && Scalar(c) && n < Width(c) && (v != [] ==> v[0] != 0xFEFF)
    ensures !Marked(Encode(v) + EncodeOne(c)[..n])
  {
    var part := EncodeOne(c)[..n];
    MarkDecodes(Encode(v) + part);
    if v != [] {
      Regroup(EncodeOne(v[0]), Encode(v[1..]), part);
      ReadsOne(v[0], Encode(v[1..]) + part);
    } else {
      assert Encode(v) + part == part;
      if n > 0 { CutChar(c, n); }
    }
  }

  /** The failing case: a log read between the two bytes of an e acute; the letter after it is never fetched. */
  lemma {:induction false} LetterLost()
    ensures var before: seq<Byte>, file: seq<Byte> := [0xC3], [0xC3, 0xA9, 0x61, 0x62, 0x0A];
            && Read(From(before, 0)) == [REPLACEMENT] && Size([REPLACEMENT]) == 3
            && Decode(file) == [0xE9, 0x61, 0x62, 0x0A] && Read(From(file, 3)) == [0x62, 0x0A]
  {
    var before: seq<Byte>, file: seq<Byte> := [0xC3], [0xC3, 0xA9, 0x61, 0x62, 0x0A];
    HalfLetter(before);
    var b: seq<Byte> := [0x62, 0x0A];
    assert From(file, 3) == b;
    TwoLetters(b);
    Plain(0x61, b);
    DecodesOne(0xE9, [0x61] + b);
    assert file == EncodeOne(0xE9) + ([0x61] + b);
  }

  lemma {:induction false} HalfLetter(before: seq<Byte>)
    requires before == [0xC3]
    ensures Read(From(before, 0)) == [REPLACEMENT] && Size([REPLACEMENT]) == 3
  {
    CutChar(0xE9, 1);
    assert before == EncodeOne(0xE9)[..1] && From(before, 0) == before;
    assert [REPLACEMENT][1..] == [];
  }

  lemma {:induction false} TwoLetters(b: seq<Byte>)
    requires b == [0x62, 0x0A]
    ensures Decode(b) == [0x62, 0x0A]
  {
    Plain(0x0A, []);
    Plain(0x62, [0x0A]);
    assert [0x0A] + [] == [0x0A] && [0x62] + [0x0A] == b;
  }

  lemma {:induction false} Plain(c: int, rest: seq<Byte>)
    requires 0 <= c < 0x80
    ensures Decode([c] + rest) == [c] + Decode(rest)
  {
    DecodesOne(c, rest);
  }

  // ---------------------------------------------------------------------- the view

  function Told(text: Text, level: Text -> string, source: Text -> string): LogLine
  {
    LogLine(text, level(text), source(text))
  }

  function Texts(ls: seq<LogLine>): seq<Text> { seq(|ls|, i requires 0 <= i < |ls| => ls[i].text) }

  class View {
    const level: Text -> string
    const source: Text -> string
    var lines: seq<LogLine>
    var endOfLine: bool
    var skip: nat
    /** The text of everything fetched so far. */
    ghost var stream: Text

    /**
     The lines are the last of the whole stream, however it was cut into chunks; each line's
     level and source are those of its present text; the offset is the size of the stream.
     */
    ghost predicate Valid()
      reads this
    {
      Shows(lines, endOfLine, skip, stream) && AllTold(lines, level, source)
    }

    constructor (level: Text -> string, source: Text -> string)
      ensures Valid() && stream == [] && lines == [] && skip == 0
    {
      this.level, this.source, lines, endOfLine, skip, stream := level, source, [], true, 0, [];
    }

    method Append(chunk: Text)
      requires Valid()
      modifies this
      ensures Valid() && stream == old(stream) + chunk
    {
      if chunk == [] {
        assert stream + chunk == stream;
        return;
      }
      lines := Grow(lines, endOfLine, skip, stream, chunk, level, source);
      endOfLine, skip := Complete(chunk), skip + Size(chunk);
      stream := stream + chunk;
    }

    /** One poll of a log that now holds `file`. */
    method Fetch(file: seq<Byte>)
      requires Valid()
      modifies this
      ensures Valid() && stream == old(stream) + Read(From(file, old(skip)))
      ensures forall v, c, n | Ends(file, old(stream), v, c, n) && (v != [] ==> v[0] != 0xFEFF) ::
                && stream == old(stream) + v + (if n == 0 then [] else [REPLACEMENT])
                && (skip == |file| <==> n == 0 || n == 3)
                && (n == 0 ==> Scalars(stream) && Encode(stream) == file)
    {
      ghost var before := stream;
      var text := Read(From(file, skip));
      Append(text);
      forall v, c, n | Ends(file, before, v, c, n) && (v != [] ==> v[0] != 0xFEFF)
        ensures stream == before + v + (if n == 0 then [] else [REPLACEMENT]) && (skip == |file| <==> n == 0 || n == 3)
        ensures n == 0 ==> Scalars(stream) && Encode(stream) == file
      {
        CutRead(file, before, v, c, n);
        EncodeConcat(before, v);
        assert n == 0 ==> stream == before + v && file == Encode(before) + Encode(v);
        SizeConcat(before, text);
        Regroup(before, v, if n == 0 then [] else [REPLACEMENT]);
      }
    }
  }

  method Grow(lines: seq<LogLine>, endOfLine: bool, ghost skip: nat, ghost stream: Text, chunk: Text,
              level: Text -> string, source: Text -> string)
    returns (folded: seq<LogLine>)
    requires Shows(lines, endOfLine, skip, stream) && AllTold(lines, level, source) && chunk != []
    ensures AllTold(folded, level, source)
    ensures Shows(folded, Complete(chunk), skip + Size(chunk), stream + chunk)
  {
    var parts := SplitLines(chunk);
    folded := Fold(lines, parts, !endOfLine && |lines| > 0, level, source);
    ShowsMore(lines, endOfLine, skip, stream, chunk, folded);
  }

  ghost predicate Shows(lines: seq<LogLine>, endOfLine: bool, skip: nat, stream: Text)
  {
    && Texts(lines) == Last(Lines(stream), 20000)
    && (endOfLine <==> stream == [] || Complete(stream))
    && skip == Size(stream)
  }

  lemma {:induction false} ShowsMore(lines: seq<LogLine>, endOfLine: bool, skip: nat, stream: Text, chunk: Text,
                                     folded: seq<LogLine>)
    requires Shows(lines, endOfLine, skip, stream) && chunk != [] && |Lines(chunk)| > 0
    requires var goesOn := !endOfLine && |lines| > 0;
             Texts(folded) ==
             Last(if goesOn then Glue(Texts(lines), Lines(chunk)) else Texts(lines) + Lines(chunk), MAX_LINES)
    ensures Shows(folded, Complete(chunk), skip + Size(chunk), stream + chunk)
  {
    assert Texts(folded) == Last(Lines(stream + chunk), MAX_LINES) by {
      RestEmpty(stream);
      if !endOfLine && |lines| > 0 { GoesOn(stream, chunk, lines); } else { Follows(stream, chunk, lines); }
    }
    SizeConcat(stream, chunk);
    assert Complete(stream + chunk) <==> Complete(chunk);
  }

  /** Every line says what its text does. */
  ghost predicate AllTold(ls: seq<LogLine>, level: Text -> string, source: Text -> string)
  {
    forall i | 0 <= i < |ls| :: ls[i].level == level(ls[i].text) && ls[i].source == source(ls[i].text)
  }

  lemma {:induction false} TextsTold(start: seq<LogLine>, parts: seq<Text>, level: Text -> string,
                                     source: Text -> string)
    requires AllTold(start, level, source)
    ensures var r := start + Tell(parts, level, source); Texts(r) == Texts(start) + parts && AllTold(r, level, source)
  {}

  lemma {:induction false} TextsGlued(lines: seq<LogLine>, start: seq<LogLine>, parts: seq<Text>)
    requires |lines| > 0 && |parts| > 0 && |start| == |lines| && start[..|lines| - 1] == lines[..|lines| - 1]
    requires start[|lines| - 1].text == lines[|lines| - 1].text + parts[0]
    ensures Texts(start) + parts[1..] == Glue(Texts(lines), parts)
  {
    var n := |lines| - 1;
    assert Texts(start)[..n] == Texts(lines)[..n] by {
      assert forall i | 0 <= i < n :: start[i] == start[..n][i] == lines[..n][i] == lines[i];
    }
    assert Texts(start) == Texts(lines)[..n] + [Texts(lines)[n] + parts[0]];
  }

  method PushAll(start: seq<LogLine>, parts: seq<Text>, level: Text -> string, source: Text -> string)
    returns (r: seq<LogLine>)
    ensures r == start + Tell(parts, level, source)
  {
    r := start;
    for i := 0 to |parts|
      invariant r == start + Tell(parts, level, source)[..i]
    {
      r := r + [Told(parts[i], level, source)];
    }
  }

  /** The parts go after the lines there are, the first of them into the last line if that goes on. */
  method Fold(lines: seq<LogLine>, parts: seq<Text>, goesOn: bool, level: Text -> string, source: Text -> string)
    returns (r: seq<LogLine>)
    requires |parts| > 0 && (goesOn ==> |lines| > 0) && AllTold(lines, level, source)
    ensures AllTold(r, level, source)
    ensures Texts(r) == Last(if goesOn then Glue(Texts(lines), parts) else Texts(lines) + parts, MAX_LINES)
  {
    r := lines;
    var rest := parts;
    if goesOn {
      var last := lines[|lines| - 1];
      r := lines[|lines| - 1 := Told(last.text + parts[0], level, source)];
      rest := parts[1..];
    }
    ghost var start := r;
    r := PushAll(r, rest, level, source);
    TextsTold(start, rest, level, source);
    if goesOn { TextsGlued(lines, start, parts); }
    if |r| > MAX_LINES { r := r[|r| - MAX_LINES..]; }
  }

  lemma {:induction false} Follows(stream: Text, chunk: Text, lines: seq<LogLine>)
    requires chunk != [] && Texts(lines) == Last(Lines(stream), MAX_LINES) && (Rest(stream) == [] || lines == [])
    ensures Last(Texts(lines) + Lines(chunk), MAX_LINES) == Last(Lines(stream + chunk), MAX_LINES)
  {
    assert lines == [] ==> Lines(stream) == [];
    LinesFollow(stream, chunk);
    LastConcat(Lines(stream), Lines(chunk), MAX_LINES);
  }

  lemma {:induction false} GoesOn(stream: Text, chunk: Text, lines: seq<LogLine>)
    requires chunk != [] && Texts(lines) == Last(Lines(stream), MAX_LINES) && Rest(stream) != [] && lines != []
    ensures |Lines(chunk)| > 0
    ensures Last(Glue(Texts(lines), Lines(chunk)), MAX_LINES) == Last(Lines(stream + chunk), MAX_LINES)
  {
    LinesGoOn(stream, chunk);
    LastGlue(Lines(stream), Lines(chunk), MAX_LINES);
  }

  function Tell(parts: seq<Text>, level: Text -> string, source: Text -> string): seq<LogLine>
  {
    seq(|parts|, i requires 0 <= i < |parts| => Told(parts[i], level, source))
  }

  /** The parts of a chunk, without the empty one after a final newline. */
  method SplitLines(chunk: Text) returns (parts: seq<Text>)
    requires chunk != []
    ensures parts == Lines(chunk) && |parts| > 0
  {
    parts := [[]];
    for i := 0 to |chunk|
      invariant parts == Ended(chunk[..i]) + [Rest(chunk[..i])]
    {
      assert chunk[..i + 1][..i] == chunk[..i];
      if chunk[i] == NEWLINE {
        parts := parts + [[]];
      } else {
        parts := parts[..|parts| - 1] + [parts[|parts| - 1] + [chunk[i]]];
      }
    }
    assert chunk[..|chunk|] == chunk;
    RestEmpty(chunk);
    LinesExist(chunk);
    if Complete(chunk) { parts := parts[..|parts| - 1]; }
  }
}
