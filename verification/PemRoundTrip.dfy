/** Reading back a written bundle. */
module PemRoundTrip {
  import opened Prelude
  import opened Base64
  import opened Pem

  // Empty lines mean nothing to the reader, so the text may as well be cut at every CR and every LF.

  function Pieces(text: string): (r: seq<string>)
    ensures r != []
  {
    if text == "" then [""]
    else if IsEol(text[0]) then [""] + Pieces(text[1..])
    else AddChar(text[0], Pieces(text[1..]))
  }

  function Squeeze(lines: seq<string>): seq<string> {
    if lines == [] then []
    else if lines[0] == "" then Squeeze(lines[1..])
    else [lines[0]] + Squeeze(lines[1..])
  }

  lemma {:induction false} SamePieces(text: string)
    ensures Lines(text)[0] == Pieces(text)[0]
    ensures Squeeze(Lines(text)[1..]) == Squeeze(Pieces(text)[1..])
  {
    if text != "" {
      if |text| > 1 && text[0] == '\r' && text[1] == '\n' {
        SamePieces(text[2..]);
        assert text[1..][1..] == text[2..] && text[1..][0] == '\n';
        assert Pieces(text)[1..] == [""] + Pieces(text[2..]);
        assert Lines(text)[1..] == Lines(text[2..]);
        SqueezeFirst(Lines(text[2..]), Pieces(text[2..]));
      } else {
        SamePieces(text[1..]);
        SqueezeFirst(Lines(text[1..]), Pieces(text[1..]));
        if IsEol(text[0]) {
          assert Lines(text)[1..] == Lines(text[1..]) && Pieces(text)[1..] == Pieces(text[1..]);
        } else {
          assert Lines(text)[1..] == Lines(text[1..])[1..] && Pieces(text)[1..] == Pieces(text[1..])[1..];
        }
      }
    }
  }

  lemma {:induction false} SqueezeFirst(a: seq<string>, b: seq<string>)
    requires a != [] && b != [] && a[0] == b[0] && Squeeze(a[1..]) == Squeeze(b[1..])
    ensures Squeeze(a) == Squeeze(b) && Squeeze([""] + b) == Squeeze(b)
  {
    assert ([""] + b)[1..] == b;
  }

  lemma {:induction false} CollectSqueezed(lines: seq<string>, tag: string)
    ensures Collect(lines, tag).None? == Collect(Squeeze(lines), tag).None?
    ensures Collect(lines, tag).Some? ==>
      Collect(Squeeze(lines), tag) == Some((Collect(lines, tag).value.0, Squeeze(Collect(lines, tag).value.1)))
  {
    if lines != [] {
      CollectSqueezed(lines[1..], tag);
      if lines[0] == "" {
        assert EndLine(tag)[0] == '-';
        if Collect(lines[1..], tag).Some? { assert "" + Collect(lines[1..], tag).value.0 == Collect(lines[1..], tag).value.0; }
      } else {
        var s := Squeeze(lines);
        assert s[0] == lines[0] && s[1..] == Squeeze(lines[1..]);
      }
    }
  }

  lemma {:induction false} ReadSqueezed(lines: seq<string>)
    ensures Read(Squeeze(lines)) == Read(lines)
    decreases |lines|
  {
    if lines != [] {
      if lines[0] == "" {
        ReadSqueezed(lines[1..]);
      } else {
        var s := Squeeze(lines);
        assert s[0] == lines[0] && s[1..] == Squeeze(lines[1..]);
        if IsBegin(lines[0]) {
          var tag := TagOf(lines[0]);
          CollectSqueezed(lines[1..], tag);
          if Collect(lines[1..], tag).Some? { ReadSqueezed(Collect(lines[1..], tag).value.1); }
        } else {
          ReadSqueezed(lines[1..]);
        }
      }
    }
  }

  lemma {:induction false} InertSqueezed(lines: seq<string>)
    ensures Inert(Squeeze(lines)) <==> Inert(lines)
  {
    if lines != [] {
      InertSqueezed(lines[1..]);
      InertCons(lines);
      if lines[0] != "" {
        assert Squeeze(lines)[1..] == Squeeze(lines[1..]);
        InertCons(Squeeze(lines));
      }
    }
  }

  lemma {:induction false} InertCons(lines: seq<string>)
    requires lines != []
    ensures Inert(lines) <==> !IsBegin(lines[0]) && Inert(lines[1..])
  {
    if !IsBegin(lines[0]) && Inert(lines[1..]) {
      forall i | 0 <= i < |lines| ensures !IsBegin(lines[i]) { if i > 0 { assert lines[i] == lines[1..][i - 1]; } }
    }
    if Inert(lines) {
      forall i | 0 <= i < |lines[1..]| ensures !IsBegin(lines[1..][i]) { assert lines[1..][i] == lines[i + 1]; }
    }
  }

  /** Reading the pieces is reading the lines, and a piece opens a block exactly if a line does. */
  lemma {:induction false} PiecesWillDo(text: string)
    ensures Read(Pieces(text)) == Read(Lines(text))
    ensures Inert(Pieces(text)) <==> Inert(Lines(text))
  {
    SamePieces(text);
    SqueezeFirst(Lines(text), Pieces(text));
    ReadSqueezed(Lines(text));
    ReadSqueezed(Pieces(text));
    InertSqueezed(Lines(text));
    InertSqueezed(Pieces(text));
  }

  // From text to lines.

  lemma {:induction false} PiecesConcat(a: string, eol: char, b: string)
    requires IsEol(eol)
    ensures Pieces(a + [eol] + b) == Pieces(a) + Pieces(b)
  {
    var t := a + [eol] + b;
    if a == "" {
      assert t[1..] == b;
    } else {
      PiecesConcat(a[1..], eol, b);
      assert t[1..] == a[1..] + [eol] + b && t[0] == a[0];
      AddFront(a[0], Pieces(a[1..]), Pieces(b));
    }
  }

  lemma {:induction false} AddFront(c: char, a: seq<string>, b: seq<string>)
    requires a != []
    ensures AddChar(c, a + b) == AddChar(c, a) + b
    ensures [""] + (a + b) == ([""] + a) + b
  {}

  /** The text is empty or ends with a newline. */
  predicate Closed(text: string) {
    text == "" || text[|text| - 1] == '\n'
  }

  /** The complete lines of a text. */
  function Body(text: string): seq<string> {
    Pieces(text)[..|Pieces(text)| - 1]
  }

  lemma {:induction false} EndsInNewline(o: string)
    ensures Pieces(o + "\n") == Pieces(o) + [""]
  {
    PiecesConcat(o, '\n', "");
    assert o + "\n" + "" == o + "\n";
  }

  lemma {:induction false} ClosedLines(text: string)
    requires Closed(text)
    ensures Pieces(text) == Body(text) + [""]
    ensures text != "" ==> Body(text) == Pieces(text[..|text| - 1])
  {
    if text != "" {
      var o := text[..|text| - 1];
      EndsInNewline(o);
      assert text == o + [text[|text| - 1]];
    }
  }

  lemma {:induction false} LinesWriteln(out: string, s: string)
    requires Closed(out)
    ensures Closed(Writeln(out, s)) && Body(Writeln(out, s)) == Body(out) + Pieces(s)
  {
    ClosedLines(out);
    ClosedLines(Writeln(out, s));
    assert Writeln(out, s)[..|Writeln(out, s)| - 1] == out + s;
    if out == "" {
      assert out + s == s;
    } else {
      var o := out[..|out| - 1];
      assert out + s == o + "\n" + s;
      PiecesConcat(o, '\n', s);
    }
  }

  predicate NoNewline(s: string) { forall i :: 0 <= i < |s| ==> !IsEol(s[i]) }

  /** A line that comes back as it was written. */
  predicate Plain(s: string) {
    NoNewline(s) && (s == "" || !IsBlank(s[|s| - 1]))
  }

  lemma {:induction false} OneLine(s: string)
    requires Plain(s)
    ensures Pieces(s) == [s]
  {
    if s != "" {
      OneLine(s[1..]);
      assert [s[0]] + s[1..] == s;
    }
  }

  lemma {:induction false} OnePiece(s: string)
    requires NoNewline(s)
    ensures |Pieces(s)| == 1 && Pieces(s)[0] <= s
  {
    if s != "" {
      OnePiece(s[1..]);
      assert [s[0]] + s[1..] == s;
    }
  }

  lemma {:induction false} LinesWritten(out: string, lines: seq<string>)
    requires Closed(out) && forall i :: 0 <= i < |lines| ==> Plain(lines[i])
    ensures Closed(WriteLines(out, lines)) && Body(WriteLines(out, lines)) == Body(out) + lines
    decreases |lines|
  {
    if lines != [] {
      var front, last := lines[..|lines| - 1], lines[|lines| - 1];
      LinesWritten(out, front);
      OneLine(last);
      LinesWriteln(WriteLines(out, front), last);
      assert front + [last] == lines;
    }
  }

  /** The lines that the comment of a certificate takes up. */
  function CommentLines(comment: Option<string>): seq<string> {
    if comment.Some? then Lines("# " + comment.value) else []
  }

  function CommentPieces(comment: Option<string>): seq<string> {
    if comment.Some? then Pieces("# " + comment.value) else []
  }

  lemma {:induction false} SameComment(comment: Option<string>)
    ensures Inert(CommentPieces(comment)) <==> Inert(CommentLines(comment))
  {
    if comment.Some? { PiecesWillDo("# " + comment.value); }
  }

  function EntryLines(e: Entry): seq<string> {
    CommentPieces(e.comment) + BlockLines(e.pem) + [""]
  }

  function BundleLines(es: seq<Entry>): seq<string> {
    if es == [] then [] else EntryLines(es[0]) + BundleLines(es[1..])
  }

  lemma {:induction false} ChunksJoin(s: string, i: nat)
    requires i < |Chunks(s)|
    ensures forall c :: c in Chunks(s)[i] ==> c in s
  {
    if |s| > 64 {
      if i > 0 { ChunksJoin(s[64..], i - 1); }
    }
  }

  /** The lines of a block hold no newline, and those of its body nothing but base64. */
  lemma {:induction false} BlockClean(p: Pem, i: nat)
    requires NoNewline(p.tag) && i < |BlockLines(p)|
    ensures Plain(BlockLines(p)[i])
    ensures 0 < i < |BlockLines(p)| - 1 ==> forall c :: c in BlockLines(p)[i] ==> IsBase64Char(c)
  {
    var chunks := Chunks(Encode(p.contents));
    if 0 < i < |BlockLines(p)| - 1 {
      assert BlockLines(p)[i] == chunks[i - 1];
      ChunksJoin(Encode(p.contents), i - 1);
      forall c | c in chunks[i - 1] ensures IsBase64Char(c) {
        var k :| 0 <= k < |Encode(p.contents)| && Encode(p.contents)[k] == c;
        EncodeChars(p.contents, k);
      }
      assert forall c :: IsEol(c) || IsBlank(c) ==> !IsBase64Char(c);
    } else if i == 0 {
      assert BlockLines(p)[i] == BeginLine(p.tag);
    } else {
      assert BlockLines(p)[i] == EndLine(p.tag);
    }
  }

  lemma {:induction false} CommentTextLines(comment: Option<string>)
    ensures Closed(CommentText(comment)) && Body(CommentText(comment)) == CommentPieces(comment)
  {
    if comment.Some? { LinesWriteln("", "# " + comment.value); }
  }

  lemma {:induction false} EntryTextLines(e: Entry)
    requires NoNewline(e.pem.tag)
    ensures Pieces(EntryText(e)) == EntryLines(e)
  {
    CommentTextLines(e.comment);
    forall i | 0 <= i < |BlockLines(e.pem)| ensures Plain(BlockLines(e.pem)[i]) { BlockClean(e.pem, i); }
    LinesWritten(CommentText(e.comment), BlockLines(e.pem));
    ClosedLines(EntryText(e));
  }

  lemma {:induction false} BundleSnoc(es: seq<Entry>, e: Entry)
    ensures BundleLines(es + [e]) == BundleLines(es) + EntryLines(e)
  {
    if es == [] {
      assert es + [e] == [e] && [e][1..] == [];
    } else {
      assert (es + [e])[1..] == es[1..] + [e];
      BundleSnoc(es[1..], e);
    }
  }

  lemma {:induction false} WrittenEntry(out: string, e: Entry)
    requires Closed(out) && NoNewline(e.pem.tag)
    ensures Closed(Writeln(out, EntryText(e))) && Body(Writeln(out, EntryText(e))) == Body(out) + EntryLines(e)
  {
    EntryTextLines(e);
    LinesWriteln(out, EntryText(e));
  }

  lemma {:induction false} BundleTextLines(es: seq<Entry>)
    requires forall i :: 0 <= i < |es| ==> NoNewline(es[i].pem.tag)
    ensures Closed(BundleText(es)) && Body(BundleText(es)) == BundleLines(es)
    decreases |es|
  {
    if es != [] {
      var front, e := es[..|es| - 1], es[|es| - 1];
      BundleTextLines(front);
      WrittenEntry(BundleText(front), e);
      assert es == front + [e];
      BundleSnoc(front, e);
    }
  }

  // From lines to certificates.

  predicate Inert(lines: seq<string>) {
    forall i :: 0 <= i < |lines| ==> !IsBegin(lines[i])
  }

  lemma {:induction false} SkipInert(lines: seq<string>, rest: seq<string>)
    requires Inert(lines)
    ensures Read(lines + rest) == Read(rest)
  {
    if lines == [] {
      assert lines + rest == rest;
    } else {
      assert (lines + rest)[1..] == lines[1..] + rest;
      SkipInert(lines[1..], rest);
    }
  }

  function Concat(lines: seq<string>): string {
    if lines == [] then "" else lines[0] + Concat(lines[1..])
  }

  lemma {:induction false} ConcatChunks(s: string)
    ensures Concat(Chunks(s)) == s
  {
    if |s| > 64 {
      ConcatChunks(s[64..]);
      assert Chunks(s)[1..] == Chunks(s[64..]);
      assert s == s[..64] + s[64..];
    } else if s != "" {
      assert Chunks(s) == [s] && [s][1..] == [];
    }
  }

  lemma {:induction false} CollectBody(body: seq<string>, tag: string, rest: seq<string>)
    requires forall i :: 0 <= i < |body| ==> body[i] != EndLine(tag)
    ensures Collect(body + [EndLine(tag)] + rest, tag) == Some((Concat(body), rest))
  {
    var all := body + [EndLine(tag)] + rest;
    if body == [] {
      assert all[1..] == rest;
    } else {
      assert all[1..] == body[1..] + [EndLine(tag)] + rest;
      CollectBody(body[1..], tag, rest);
    }
  }

  lemma {:induction false} BeginReads(tag: string)
    ensures IsBegin(BeginLine(tag)) && TagOf(BeginLine(tag)) == tag
  {
    var line := BeginLine(tag);
    assert line == "-----BEGIN " + tag + "-----";
    assert line[|line| - 5..] == "-----";
  }

  lemma {:induction false} ReadOne(lines: seq<string>, p: Pem, text: string, rest: seq<string>)
    requires lines != [] && IsBegin(lines[0]) && TagOf(lines[0]) == p.tag
    requires Collect(lines[1..], p.tag) == Some((text, rest)) && Decode(text) == Some(p.contents)
    ensures Read(lines) == if Read(rest).None? then None else Some([p] + Read(rest).value)
  {}

  lemma {:induction false} NotTheEnd(line: string, tag: string)
    requires forall c :: c in line ==> IsBase64Char(c)
    ensures line != EndLine(tag)
  {
    assert EndLine(tag)[0] == '-' && !IsBase64Char('-');
  }

  lemma {:induction false} CollectBlock(p: Pem, rest: seq<string>)
    requires NoNewline(p.tag)
    ensures Collect((BlockLines(p) + rest)[1..], p.tag) == Some((Encode(p.contents), rest))
  {
    var body := Chunks(Encode(p.contents));
    forall i | 0 <= i < |body| ensures body[i] != EndLine(p.tag) {
      BlockClean(p, i + 1);
      assert BlockLines(p)[i + 1] == body[i];
      NotTheEnd(body[i], p.tag);
    }
    CollectBody(body, p.tag, rest);
    ConcatChunks(Encode(p.contents));
    assert (BlockLines(p) + rest)[1..] == body + [EndLine(p.tag)] + rest;
  }

  lemma {:induction false} ReadBlock(p: Pem, rest: seq<string>)
    requires NoNewline(p.tag)
    ensures Read(BlockLines(p) + rest) ==
            if Read(rest).None? then None else Some([p] + Read(rest).value)
  {
    BeginReads(p.tag);
    CollectBlock(p, rest);
    DecodeEncode(p.contents);
    ReadOne(BlockLines(p) + rest, p, Encode(p.contents), rest);
  }

  function Pems(es: seq<Entry>): seq<Pem> {
    if es == [] then [] else [es[0].pem] + Pems(es[1..])
  }

  /** No line of a comment opens a block. */
  predicate Harmless(es: seq<Entry>) {
    forall i :: 0 <= i < |es| ==> Inert(CommentLines(es[i].comment))
  }

  lemma {:induction false} ReadAround(lead: seq<string>, block: seq<string>, rest: seq<string>)
    requires Inert(lead)
    ensures Read(lead + block + [""] + rest) == Read(block + ([""] + rest))
    ensures Read([""] + rest) == Read(rest)
  {
    SkipInert([""], rest);
    SkipInert(lead, block + ([""] + rest));
    assert lead + block + [""] + rest == lead + (block + ([""] + rest));
  }

  lemma {:induction false} ReadEntry(e: Entry, rest: seq<string>)
    requires NoNewline(e.pem.tag) && Inert(CommentPieces(e.comment))
    ensures Read(EntryLines(e) + rest) == if Read(rest).None? then None else Some([e.pem] + Read(rest).value)
  {
    ReadAround(CommentPieces(e.comment), BlockLines(e.pem), rest);
    ReadBlock(e.pem, [""] + rest);
  }

  lemma {:induction false} ReadBundle(es: seq<Entry>)
    requires forall i :: 0 <= i < |es| ==> NoNewline(es[i].pem.tag)
    requires Harmless(es)
    ensures Read(BundleLines(es) + [""]) == Some(Pems(es))
  {
    if es == [] {
      assert BundleLines(es) + [""] == [""];
      SkipInert([""], []);
      assert [""] + [] == [""];
    } else {
      ReadBundle(es[1..]);
      SameComment(es[0].comment);
      ReadEntry(es[0], BundleLines(es[1..]) + [""]);
      assert BundleLines(es) + [""] == EntryLines(es[0]) + (BundleLines(es[1..]) + [""]);
    }
  }

  // A block hidden in a comment is always noticed: every opening line counts.

  function Openings(lines: seq<string>): nat {
    if lines == [] then 0 else (if IsBegin(lines[0]) then 1 else 0) + Openings(lines[1..])
  }

  lemma {:induction false} OpeningsConcat(a: seq<string>, b: seq<string>)
    ensures Openings(a + b) == Openings(a) + Openings(b)
  {
    if a == [] {
      assert a + b == b;
    } else {
      assert (a + b)[1..] == a[1..] + b;
      OpeningsConcat(a[1..], b);
    }
  }

  predicate AllBase64(s: string) {
    forall i :: 0 <= i < |s| ==> IsBase64Char(s[i])
  }

  /** A block body that decodes holds no opening line. */
  lemma {:induction false} BodyHasNoOpening(lines: seq<string>, tag: string)
    requires Collect(lines, tag).Some? && AllBase64(Collect(lines, tag).value.0)
    ensures Openings(lines) == Openings(Collect(lines, tag).value.1)
  {
    if lines[0] == EndLine(tag) {
      assert EndLine(tag)[5] == 'E';
    } else {
      var whole, rest := Collect(lines, tag).value.0, Collect(lines[1..], tag).value.0;
      assert whole == lines[0] + rest;
      assert AllBase64(rest) by {
        forall i | 0 <= i < |rest| ensures IsBase64Char(rest[i]) { assert whole[|lines[0]| + i] == rest[i]; }
      }
      BodyHasNoOpening(lines[1..], tag);
      assert !IsBegin(lines[0]) by {
        if lines[0] != "" { assert whole[0] == lines[0][0] && IsBase64Char(whole[0]); }
      }
    }
  }

  lemma {:induction false} EveryOpeningCounts(lines: seq<string>)
    requires Read(lines).Some?
    ensures |Read(lines).value| == Openings(lines)
    decreases |lines|
  {
    if lines != [] {
      if !IsBegin(lines[0]) {
        EveryOpeningCounts(lines[1..]);
      } else {
        var tag := TagOf(lines[0]);
        var block := Collect(lines[1..], tag).value;
        assert AllBase64(block.0) by {
          if i :| 0 <= i < |block.0| && !IsBase64Char(block.0[i]) { DecodeChars(block.0, i); }
        }
        BodyHasNoOpening(lines[1..], tag);
        EveryOpeningCounts(block.1);
      }
    }
  }

  lemma {:induction false} NoOpenings(lines: seq<string>)
    ensures Openings(lines) == 0 <==> Inert(lines)
  {
    if lines != [] {
      NoOpenings(lines[1..]);
      if Inert(lines[1..]) && !IsBegin(lines[0]) {
        forall i | 0 <= i < |lines| ensures !IsBegin(lines[i]) { if i > 0 { assert lines[i] == lines[1..][i - 1]; } }
      }
      if Inert(lines) { assert !IsBegin(lines[0]); }
      if !Inert(lines[1..]) {
        var i :| 0 <= i < |lines[1..]| && IsBegin(lines[1..][i]);
        assert IsBegin(lines[i + 1]);
      }
    }
  }

  lemma {:induction false} BundleOpenings(es: seq<Entry>)
    ensures Openings(BundleLines(es)) >= |es|
    ensures !Harmless(es) ==> Openings(BundleLines(es)) > |es|
  {
    if es != [] {
      var e, rest := es[0], es[1..];
      BundleOpenings(rest);
      OpeningsConcat(EntryLines(e), BundleLines(rest));
      OpeningsConcat(CommentPieces(e.comment) + BlockLines(e.pem), [""]);
      OpeningsConcat(CommentPieces(e.comment), BlockLines(e.pem));
      BeginReads(e.pem.tag);
      NoOpenings(CommentPieces(e.comment));
      SameComment(e.comment);
      assert Openings(BlockLines(e.pem)) >= 1;
      if !Harmless(es) && Inert(CommentLines(e.comment)) {
        var i :| 0 <= i < |es| && !Inert(CommentLines(es[i].comment));
        assert rest[i - 1] == es[i];
      }
    }
  }

  lemma {:induction false} PemsLength(es: seq<Entry>)
    ensures |Pems(es)| == |es|
  {
    if es != [] { PemsLength(es[1..]); }
  }

  lemma {:induction false} OneLineIsHarmless(comment: Option<string>)
    requires comment.Some? ==> NoNewline(comment.value)
    ensures Inert(CommentLines(comment))
  {
    if comment.Some? {
      var line := "# " + comment.value;
      OnePiece(line);
      var piece := Pieces(line)[0];
      assert piece != "" ==> piece[0] == line[0] == '#';
      SameComment(comment);
    }
  }

  lemma {:induction false} HarmfulIsNoticed(es: seq<Entry>)
    requires !Harmless(es)
    ensures Read(BundleLines(es) + [""]) != Some(Pems(es))
  {
    if Read(BundleLines(es) + [""]).Some? {
      EveryOpeningCounts(BundleLines(es) + [""]);
      OpeningsConcat(BundleLines(es), [""]);
      BundleOpenings(es);
      PemsLength(es);
    }
  }

  /** Reading the written bundle gives back exactly its certificates, labels and contents in order, if
      and only if no line of a comment opens a block. */
  lemma {:induction false} RoundTrip(es: seq<Entry>)
    requires forall i :: 0 <= i < |es| ==> NoNewline(es[i].pem.tag)
    ensures Read(Lines(BundleText(es))) == Some(Pems(es)) <==> Harmless(es)
  {
    BundleTextLines(es);
    ClosedLines(BundleText(es));
    PiecesWillDo(BundleText(es));
    ReadBack(es, Pieces(BundleText(es)));
  }

  lemma {:induction false} ReadBack(es: seq<Entry>, lines: seq<string>)
    requires forall i :: 0 <= i < |es| ==> NoNewline(es[i].pem.tag)
    requires lines == BundleLines(es) + [""]
    ensures Read(lines) == Some(Pems(es)) <==> Harmless(es)
  {
    if Harmless(es) { ReadBundle(es); } else { HarmfulIsNoticed(es); }
  }

  /** In particular comments of one line do no harm. */
  lemma {:induction false} OneLineRoundTrip(es: seq<Entry>)
    requires forall i :: 0 <= i < |es| ==> NoNewline(es[i].pem.tag)
    requires forall i :: 0 <= i < |es| && es[i].comment.Some? ==> NoNewline(es[i].comment.value)
    ensures Read(Lines(BundleText(es))) == Some(Pems(es))
  {
    forall i | 0 <= i < |es| ensures Inert(CommentLines(es[i].comment)) { OneLineIsHarmless(es[i].comment); }
    RoundTrip(es);
  }

  // Comments that do harm.

  lemma {:induction false} HiddenOpening(x: string, eol: char, tag: string)
    requires IsEol(eol) && NoNewline(tag)
    ensures !Inert(CommentLines(Some(x + [eol] + BeginLine(tag))))
  {
    var comment := x + [eol] + BeginLine(tag);
    assert "# " + comment == ("# " + x) + [eol] + BeginLine(tag);
    PiecesConcat("# " + x, eol, BeginLine(tag));
    OneLine(BeginLine(tag));
    BeginReads(tag);
    var all := CommentPieces(Some(comment));
    assert all[|all| - 1] == BeginLine(tag);
    SameComment(Some(comment));
  }

  /** A comment with an opening line behind any line end, even a lone carriage return, spoils the file. */
  lemma {:induction false} HarmfulComment(p: Pem, x: string, eol: char, tag: string)
    requires NoNewline(p.tag) && IsEol(eol) && NoNewline(tag)
    ensures var es := [Entry(p, Some(x + [eol] + BeginLine(tag)))];
            Read(Lines(BundleText(es))) != Some(Pems(es))
  {
    var es := [Entry(p, Some(x + [eol] + BeginLine(tag)))];
    HiddenOpening(x, eol, tag);
    assert !Harmless(es) by { assert !Inert(CommentLines(es[0].comment)); }
    RoundTrip(es);
  }

  const SPOILER := "x\r-----BEGIN A-----"

  lemma {:induction false} SpoilerDoesHarm()
    ensures !Harmless([Entry(Pem("B", []), Some(SPOILER))])
  {
    assert SPOILER == "x" + ['\r'] + BeginLine("A");
    HiddenOpening("x", '\r', "A");
    assert [Entry(Pem("B", []), Some(SPOILER))][0].comment == Some(SPOILER);
  }
}
