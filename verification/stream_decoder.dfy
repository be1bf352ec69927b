/**
 * The server-sent-event loop of send-stream.  Each read yields a chunk of
 * already-decoded text; the handler splits THAT chunk on newlines and decodes
 * every line on its own, so nothing is carried from one read to the next.
 * `DecodeAsWritten` is that loop, and the gateway sends its deltas.
 * `DecodeBuffered` is the decoder with a carry-over buffer that the loop
 * evidently means to be, proved equal to `DecodeStream`, the decoding of the
 * whole body at once.  Both loops are defined here and compared.
 */
module StreamDecoder {
  import opened Wrappers
  import opened Text
  import opened Json

  const DataPrefix := "data: "
  const DoneSentinel := "[DONE]"

  /** `parsed.choices?.[0]?.delta?.content` on a non-null parsed payload. */
  function DeltaContent(parsed: Json): Option<Json> {
    Chain(Chain(ChainIndex0(Prop(parsed, "choices")), "delta"), "content")
  }

  /** The delta one line contributes.  Blank lines are filtered out, a line must
      start with "data: ", "[DONE]" is skipped, an unparsable payload is
      skipped, a `null` payload throws inside the `try` and is skipped too,
      and only a truthy `content` is sent. */
  function DecodeLine(line: string, codec: Codec): (r: Option<Json>)
    ensures r.Some? ==> Truthy(r.value) && StartsWith(line, DataPrefix)
  {
    TrimEmptyIffBlank(line);
    if Trim(line) == "" then None
    else if !StartsWith(line, DataPrefix) then None
    else
      var payload := line[|DataPrefix|..];
      if payload == DoneSentinel then None
      else match codec.parse(payload)
        case Failure(_) => None
        case Success(parsed) =>
          if parsed == JNull then None
          else
            var content := DeltaContent(parsed);
            if IsTruthy(content) then content else None
  }

  /** Exactly the lines the handler forwards yield a delta, and the delta is the
      line's `choices[0].delta.content`. */
  lemma DecodeLineEmits(line: string, codec: Codec)
    ensures var r := DecodeLine(line, codec);
            r.Some? <==>
              && !IsBlank(line)
              && StartsWith(line, DataPrefix)
              && line[|DataPrefix|..] != DoneSentinel
              && codec.parse(line[|DataPrefix|..]).Success?
              && codec.parse(line[|DataPrefix|..]).value != JNull
              && IsTruthy(DeltaContent(codec.parse(line[|DataPrefix|..]).value))
    ensures var r := DecodeLine(line, codec);
            r.Some? ==> r == DeltaContent(codec.parse(line[|DataPrefix|..]).value)
  {
    TrimEmptyIffBlank(line);
  }

  /** The blank-line filter changes nothing: a blank line never starts with "data: ". */
  lemma BlankLinesNeverStartWithData(line: string)
    requires IsBlank(line)
    ensures !StartsWith(line, DataPrefix)
  {
    if |line| >= |DataPrefix| {
      assert line[..|DataPrefix|][0] == line[0];
    }
  }

  /** What each line yields, line by line. */
  function LineOutcomes(lines: seq<string>, codec: Codec): (r: seq<Option<Json>>)
    ensures |r| == |lines|
    ensures forall i :: 0 <= i < |lines| ==> r[i] == DecodeLine(lines[i], codec)
  {
    seq(|lines|, i requires 0 <= i < |lines| => DecodeLine(lines[i], codec))
  }

  /** The present values, in order. */
  function Somes(xs: seq<Option<Json>>): (r: seq<Json>)
    ensures |r| <= |xs|
    ensures forall v :: v in r ==> Some(v) in xs
  {
    if xs == [] then []
    else if xs[0].Some? then [xs[0].value] + Somes(xs[1..])
    else Somes(xs[1..])
  }

  /** Collecting distributes over concatenation. */
  lemma {:induction false} SomesAppend(a: seq<Option<Json>>, b: seq<Option<Json>>)
    ensures Somes(a + b) == Somes(a) + Somes(b)
  {
    if a != [] {
      assert (a + b)[0] == a[0];
      assert (a + b)[1..] == a[1..] + b;
      SomesAppend(a[1..], b);
    } else {
      assert a + b == b;
    }
  }

  /** The deltas of a list of lines, in line order. */
  function DecodeLines(lines: seq<string>, codec: Codec): (r: seq<Json>)
    ensures |r| <= |lines|
    ensures forall d :: d in r ==> Truthy(d)
  {
    Somes(LineOutcomes(lines, codec))
  }

  /** Decoding distributes over concatenation of line lists: order is kept and
      nothing is dropped or duplicated at the seam. */
  lemma DecodeLinesAppend(a: seq<string>, b: seq<string>, codec: Codec)
    ensures DecodeLines(a + b, codec) == DecodeLines(a, codec) + DecodeLines(b, codec)
  {
    assert LineOutcomes(a + b, codec) == LineOutcomes(a, codec) + LineOutcomes(b, codec);
    SomesAppend(LineOutcomes(a, codec), LineOutcomes(b, codec));
  }

  /** The deltas of one chunk, split on its own. */
  function DecodeChunk(chunk: string, codec: Codec): seq<Json> {
    DecodeLines(Split(chunk, '\n'), codec)
  }

  /** All chunks joined. */
  function Concat(chunks: seq<string>): string {
    if chunks == [] then "" else Concat(chunks[..|chunks| - 1]) + chunks[|chunks| - 1]
  }

  /** The lists joined in order. */
  function Flatten<T>(xs: seq<seq<T>>): seq<T> {
    if xs == [] then [] else Flatten(xs[..|xs| - 1]) + xs[|xs| - 1]
  }

  /** Joining distributes over concatenation. */
  lemma {:induction false} FlattenAppend<T>(a: seq<seq<T>>, b: seq<seq<T>>)
    ensures Flatten(a + b) == Flatten(a) + Flatten(b)
    decreases |b|
  {
    if b == [] {
      assert a + b == a;
    } else {
      FlattenAppend(a, b[..|b| - 1]);
      assert (a + b)[..|a + b| - 1] == a + b[..|b| - 1];
      assert (a + b)[|a + b| - 1] == b[|b| - 1];
    }
  }

  /** `f` applied to every element. */
  function MapSeq<A, B>(f: A -> B, xs: seq<A>): (r: seq<B>)
    ensures |r| == |xs| && forall i :: 0 <= i < |xs| ==> r[i] == f(xs[i])
  {
    seq(|xs|, i requires 0 <= i < |xs| => f(xs[i]))
  }

  /** Mapping then joining distributes over concatenation. */
  lemma MapFlattenAppend<A, B>(f: A -> seq<B>, a: seq<A>, b: seq<A>)
    ensures Flatten(MapSeq(f, a + b)) == Flatten(MapSeq(f, a)) + Flatten(MapSeq(f, b))
  {
    assert MapSeq(f, a + b) == MapSeq(f, a) + MapSeq(f, b);
    FlattenAppend(MapSeq(f, a), MapSeq(f, b));
  }

  /** The per-read decoder of the loop as written. */
  function ChunkDecoder(codec: Codec): string -> seq<Json> {
    c => DecodeChunk(c, codec)
  }

  /** The loop as written: every chunk is decoded in isolation and the deltas of
      the chunks are concatenated in read order. */
  function DecodeAsWritten(chunks: seq<string>, codec: Codec): seq<Json> {
    Flatten(MapSeq(ChunkDecoder(codec), chunks))
  }

  /** Every delta the loop as written emits is truthy. */
  lemma {:induction false} AsWrittenTruthy(chunks: seq<string>, codec: Codec)
    ensures forall d :: d in DecodeAsWritten(chunks, codec) ==> Truthy(d)
    decreases |chunks|
  {
    if chunks != [] {
      var init := chunks[..|chunks| - 1];
      AsWrittenSnoc(init, chunks[|chunks| - 1], codec);
      assert init + [chunks[|chunks| - 1]] == chunks;
      AsWrittenTruthy(init, codec);
    }
  }

  /** The loop as written emits the deltas of earlier reads before those of
      later reads: decoding two runs of reads is decoding each in turn. */
  lemma AsWrittenAppend(c1: seq<string>, c2: seq<string>, codec: Codec)
    ensures DecodeAsWritten(c1 + c2, codec) == DecodeAsWritten(c1, codec) + DecodeAsWritten(c2, codec)
  {
    MapFlattenAppend(ChunkDecoder(codec), c1, c2);
  }

  /** One more read. */
  lemma AsWrittenSnoc(chunks: seq<string>, c: string, codec: Codec)
    ensures DecodeAsWritten(chunks + [c], codec) == DecodeAsWritten(chunks, codec) + DecodeChunk(c, codec)
  {
    AsWrittenAppend(chunks, [c], codec);
    var d := DecodeChunk(c, codec);
    assert MapSeq(ChunkDecoder(codec), [c]) == [d];
    FlattenOne(d);
  }

  lemma FlattenOne<T>(x: seq<T>)
    ensures Flatten([x]) == x
  {
    assert [x][..0] == [];
  }

  /** Joining one more chunk. */
  lemma ConcatSnoc(chunks: seq<string>, i: nat)
    requires i < |chunks|
    ensures Concat(chunks[..i + 1]) == Concat(chunks[..i]) + chunks[i]
  {
    assert chunks[..i + 1][..i] == chunks[..i];
  }

  /** Appending text to a buffer whose split is `lines + [buffer]`: the complete
      lines stay, and the partial last piece is split again together with the
      new text. */
  lemma CarryOver(all: string, chunk: string, lines: seq<string>, buffer: string)
    requires Split(all, '\n') == lines + [buffer]
    ensures Split(all + chunk, '\n') == lines + Split(buffer + chunk, '\n')
  {
    SplitAppend(all, chunk, '\n');
    var pa := Split(all, '\n');
    assert pa[..|pa| - 1] == lines && pa[|pa| - 1] == buffer;
  }

  /** The stream as the decoder is meant to see it: all reads joined into one
      text and split into lines, the last piece (unterminated, or "" when the
      text ends with a line break) decoded when the stream ends. */
  function DecodeStream(chunks: seq<string>, codec: Codec): (r: seq<Json>)
    ensures forall d :: d in r ==> Truthy(d)
  {
    DecodeLines(Split(Concat(chunks), '\n'), codec)
  }

  /** The loop with a carry-over buffer: each read is appended to the partial
      line left by the previous reads, every complete line is decoded, and the
      new partial line is kept; when the stream ends the partial line is
      decoded too.  Whatever the read boundaries, the deltas are those of the
      whole stream. */
  method DecodeBuffered(chunks: seq<string>, codec: Codec) returns (deltas: seq<Json>)
    ensures deltas == DecodeStream(chunks, codec)
  {
    var buffer := "";
    deltas := [];
    ghost var complete: seq<string> := [];
    var i := 0;
    while i < |chunks|
      invariant i <= |chunks|
      invariant Split(Concat(chunks[..i]), '\n') == complete + [buffer]
      invariant deltas == DecodeLines(complete, codec)
    {
      ConcatSnoc(chunks, i);
      CarryOver(Concat(chunks[..i]), chunks[i], complete, buffer);
      var pieces := Split(buffer + chunks[i], '\n');
      var lines := pieces[..|pieces| - 1];
      InitLast(pieces);
      assert complete + pieces == (complete + lines) + [pieces[|pieces| - 1]];
      DecodeLinesAppend(complete, lines, codec);
      deltas := deltas + DecodeLines(lines, codec);
      complete := complete + lines;
      buffer := pieces[|pieces| - 1];
      i := i + 1;
    }
    DecodeLinesAppend(complete, [buffer], codec);
    deltas := deltas + DecodeLines([buffer], codec);
    assert chunks[..i] == chunks;
  }

  /** When every read ends exactly at a line break, the loop as written already
      emits what the buffered decoder emits. */
  lemma {:induction false} AlignedChunksAgree(chunks: seq<string>, codec: Codec)
    requires forall i :: 0 <= i < |chunks| ==> |chunks[i]| > 0 && chunks[i][|chunks[i]| - 1] == '\n'
    ensures DecodeAsWritten(chunks, codec) == DecodeStream(chunks, codec)
  {
    if chunks != [] {
      var init := chunks[..|chunks| - 1];
      var last := chunks[|chunks| - 1];
      assert chunks == init + [last];
      AlignedChunksAgree(init, codec);
      var all := Concat(init);
      assert Concat(chunks) == all + last;
      AsWrittenSnoc(init, last, codec);
      var pa := Split(all, '\n');
      SplitAppend(all, last, '\n');
      if init == [] {
        assert all == "" && pa == [""];
        assert "" + last == last;
        assert pa[..0] == [];
        assert DecodeAsWritten(init, codec) == Flatten<Json>([]);
      } else {
        var prev := init[|init| - 1];
        assert all == Concat(init[..|init| - 1]) + prev;
        assert |prev| > 0 && prev[|prev| - 1] == '\n';
        assert all[|all| - 1] == prev[|prev| - 1];
        SplitEndsWithSeparator(all, '\n');
        var front := pa[..|pa| - 1];
        InitLast(pa);
        assert pa == front + [""];
        DecodeLinesAppend(front, [""], codec);
        DecodeOne("", codec);
        assert DecodeLines(pa, codec) == DecodeLines(front, codec);
        assert pa[|pa| - 1] + last == last;
        assert Split(all + last, '\n') == front + Split(last, '\n');
        DecodeLinesAppend(front, Split(last, '\n'), codec);
      }
    }
  }

  /** Text ending with the separator splits into pieces whose last one is empty. */
  lemma {:induction false} SplitEndsWithSeparator(s: string, sep: char)
    requires |s| > 0 && s[|s| - 1] == sep
    ensures var p := Split(s, sep); |p| >= 2 && p[|p| - 1] == ""
    decreases |s|
  {
    if |s| == 1 {
      assert s[1..] == "";
    } else {
      var t := Split(s[1..], sep);
      assert s[1..][|s| - 2] == sep;
      SplitEndsWithSeparator(s[1..], sep);
    }
  }

  /** The lost delta.  A "data:" line whose JSON is cut by a read boundary yields
      nothing in the loop as written (the first half does not parse, the second
      half does not start with "data: "), while the buffered decoder reassembles
      the line and emits its delta. */
  lemma SplitLineLost(p1: string, p2: string, codec: Codec)
    requires '\n' !in p1 && '\n' !in p2
    requires codec.parse(p1).Failure?
    requires !StartsWith(p2, DataPrefix)
    requires DecodeLine(DataPrefix + p1 + p2, codec).Some?
    ensures DecodeAsWritten([DataPrefix + p1, p2 + "\n"], codec) == []
    ensures DecodeStream([DataPrefix + p1, p2 + "\n"], codec) == [DecodeLine(DataPrefix + p1 + p2, codec).value]
  {
    AsWrittenLosesSplitLine(p1, p2, codec);
    BufferedKeepsSplitLine(DataPrefix + p1, p2, codec);
  }

  /** The loop as written on the two reads of a split line. */
  lemma AsWrittenLosesSplitLine(p1: string, p2: string, codec: Codec)
    requires '\n' !in p1 && '\n' !in p2
    requires codec.parse(p1).Failure?
    requires !StartsWith(p2, DataPrefix)
    ensures DecodeAsWritten([DataPrefix + p1, p2 + "\n"], codec) == []
  {
    var a, b := DataPrefix + p1, p2 + "\n";
    assert '\n' !in a;
    // The first read: one line whose payload does not parse.
    SplitNoSeparator(a, '\n');
    assert a[|DataPrefix|..] == p1;
    assert DecodeLine(a, codec).None?;
    DecodeOne(a, codec);
    // The second read: the rest of the line, which lacks the prefix, then an empty line.
    SplitTerminated(p2, '\n');
    DecodeTwo(p2, "", codec);
    assert DecodeChunk(b, codec) == [];
    TwoReads(a, b, codec);
  }

  /** The buffered decoder on the same two reads sees the whole line. */
  lemma BufferedKeepsSplitLine(a: string, p2: string, codec: Codec)
    requires '\n' !in a && '\n' !in p2
    ensures DecodeStream([a, p2 + "\n"], codec)
            == if DecodeLine(a + p2, codec).Some? then [DecodeLine(a + p2, codec).value] else []
  {
    var b, line := p2 + "\n", a + p2;
    Concat2(a, b);
    assert a + b == line + "\n";
    assert '\n' !in line;
    SplitTerminated(line, '\n');
    DecodeTwo(line, "", codec);
    DecodeOne(line, codec);
    DecodeOne("", codec);
  }

  /** A line without the separator followed by the separator splits into that line and "". */
  lemma {:induction false} SplitTerminated(x: string, sep: char)
    requires sep !in x
    ensures Split(x + [sep], sep) == [x, ""]
  {
    if x == [] {
      assert x + [sep] == [sep];
      assert [sep][1..] == "";
    } else {
      assert sep !in x[1..];
      SplitTerminated(x[1..], sep);
      assert (x + [sep])[1..] == x[1..] + [sep];
      assert [x[0]] + x[1..] == x;
    }
  }

  /** Decoding a single line. */
  lemma DecodeOne(x: string, codec: Codec)
    ensures DecodeLines([x], codec) == if DecodeLine(x, codec).Some? then [DecodeLine(x, codec).value] else []
  {
    assert LineOutcomes([x], codec) == [DecodeLine(x, codec)];
  }

  /** Decoding two lines. */
  lemma DecodeTwo(x: string, y: string, codec: Codec)
    ensures DecodeLines([x, y], codec) == DecodeLines([x], codec) + DecodeLines([y], codec)
  {
    DecodeLinesAppend([x], [y], codec);
    assert [x] + [y] == [x, y];
  }

  /** The loop as written on two reads. */
  lemma TwoReads(a: string, b: string, codec: Codec)
    ensures DecodeAsWritten([a, b], codec) == DecodeChunk(a, codec) + DecodeChunk(b, codec)
  {
    AsWrittenSnoc([a], b, codec);
    OneRead(a, codec);
    assert [a] + [b] == [a, b];
  }

  /** The loop as written on a single read decodes that read. */
  lemma OneRead(a: string, codec: Codec)
    ensures DecodeAsWritten([a], codec) == DecodeChunk(a, codec)
  {
    var d := DecodeChunk(a, codec);
    assert MapSeq(ChunkDecoder(codec), [a]) == [d];
    FlattenOne(d);
  }

  /** Joining two reads. */
  lemma Concat2(a: string, b: string)
    ensures Concat([a, b]) == a + b
  {
    assert [a, b][..1] == [a];
    assert [a][..0] == [];
    assert Concat([a]) == Concat([]) + a;
    assert "" + a == a;
  }
}
