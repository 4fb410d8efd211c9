/** The PEM bundle that certdog writes, and a reader for it. */
module Pem {
  import opened Prelude
  import opened Base64

  /** `tag` is the label of the block. */
  datatype Pem = Pem(tag: string, contents: seq<Byte>)

  const HEADER := "-----BEGIN"
  const FOOTER := "-----END"
  const SUFFIX := "-----"

  // Writing.

  /** `chunks(64)`. */
  function Chunks(s: string): seq<string> {
    if |s| == 0 then [] else if |s| <= 64 then [s] else [s[..64]] + Chunks(s[64..])
  }

  lemma {:induction false} ChunkSizes(s: string, i: nat)
    requires i < |Chunks(s)|
    ensures 0 < |Chunks(s)[i]| <= 64 && (i < |Chunks(s)| - 1 ==> |Chunks(s)[i]| == 64)
  {
    if |s| > 64 && i > 0 { ChunkSizes(s[64..], i - 1); }
  }

  /** `writeln!`. */
  function Writeln(out: string, line: string): string {
    out + line + "\n"
  }

  function WriteLines(out: string, lines: seq<string>): string {
    if lines == [] then out else Writeln(WriteLines(out, lines[..|lines| - 1]), lines[|lines| - 1])
  }

  function BeginLine(tag: string): string { HEADER + " " + tag + SUFFIX }

  function EndLine(tag: string): string { FOOTER + " " + tag + SUFFIX }

  /** A certificate with the comment that stands in front of it. */
  datatype Entry = Entry(pem: Pem, comment: Option<string>)

  function CommentText(comment: Option<string>): string {
    if comment.Some? then Writeln("", "# " + comment.value) else ""
  }

  function BlockLines(p: Pem): seq<string> {
    [BeginLine(p.tag)] + Chunks(Encode(p.contents)) + [EndLine(p.tag)]
  }

  function EntryText(e: Entry): string {
    WriteLines(CommentText(e.comment), BlockLines(e.pem))
  }

  function BundleText(es: seq<Entry>): string {
    if es == [] then "" else Writeln(BundleText(es[..|es| - 1]), EntryText(es[|es| - 1]))
  }

  lemma {:induction false} WriteMore(out: string, lines: seq<string>, line: string)
    ensures WriteLines(out, lines + [line]) == Writeln(WriteLines(out, lines), line)
  {
    assert (lines + [line])[..|lines|] == lines;
  }

  /** `pem_to_string`; the comment comes from parsing the certificate, which can fail. */
  method PemToString(p: Pem, comment: Option<Option<string>>) returns (r: Option<string>)
    ensures r == if comment.None? then None else Some(EntryText(Entry(p, comment.value)))
  {
    if comment.None? { return None; }
    var out := "";
    if comment.value.Some? {
      out := Writeln(out, "# " + comment.value.value);
    }
    ghost var lead := out;
    out := Writeln(out, HEADER + " " + p.tag + SUFFIX);
    WriteMore(lead, [], BeginLine(p.tag));
    ghost var done := [] + [BeginLine(p.tag)];
    var chunks := Chunks(Encode(p.contents));
    var i := 0;
    while i < |chunks|
      invariant 0 <= i <= |chunks|
      invariant done == [BeginLine(p.tag)] + chunks[..i]
      invariant out == WriteLines(lead, done)
    {
      out := Writeln(out, chunks[i]);
      WriteMore(lead, done, chunks[i]);
      done := done + [chunks[i]];
      i := i + 1;
    }
    out := Writeln(out, FOOTER + " " + p.tag + SUFFIX);
    WriteMore(lead, done, EndLine(p.tag));
    assert chunks[..i] == chunks;
    assert done + [EndLine(p.tag)] == BlockLines(p);
    r := Some(out);
  }

  /** The certificates with their comments; nothing if one of them fails to parse. */
  function Annotate(pems: seq<Pem>, comments: Pem -> Option<Option<string>>): Option<seq<Entry>> {
    if pems == [] then Some([])
    else
      var front, p := Annotate(pems[..|pems| - 1], comments), pems[|pems| - 1];
      if front.None? || comments(p).None? then None
      else Some(front.value + [Entry(p, comments(p).value)])
  }

  lemma {:induction false} AnnotateFails(pems: seq<Pem>, comments: Pem -> Option<Option<string>>, i: nat)
    requires i < |pems| && comments(pems[i]).None?
    ensures Annotate(pems, comments).None?
    decreases |pems|
  {
    if i < |pems| - 1 { AnnotateFails(pems[..|pems| - 1], comments, i); }
  }

  /** `pems_to_string`. */
  method PemsToString(pems: seq<Pem>, comments: Pem -> Option<Option<string>>) returns (r: Option<string>)
    ensures r == if Annotate(pems, comments).None? then None
                 else Some(BundleText(Annotate(pems, comments).value))
  {
    var out := "";
    var i := 0;
    ghost var es: seq<Entry> := [];
    while i < |pems|
      invariant 0 <= i <= |pems|
      invariant Annotate(pems[..i], comments) == Some(es)
      invariant out == BundleText(es)
    {
      var text := PemToString(pems[i], comments(pems[i]));
      if text.None? {
        AnnotateFails(pems, comments, i);
        return None;
      }
      out := Writeln(out, text.value);
      assert pems[..i + 1][..i] == pems[..i];
      ghost var e := Entry(pems[i], comments(pems[i]).value);
      assert (es + [e])[..|es|] == es;
      es := es + [e];
      i := i + 1;
    }
    assert pems[..i] == pems;
    r := Some(out);
  }

  // Reading, as in sections 2 and 3 of RFC 7468: text outside blocks is ignored, lines end at CRLF, CR
  // or LF, and blanks at the end of a line do not count.

  predicate IsEol(c: char) { c == '\r' || c == '\n' }

  predicate IsBlank(c: char) { c == ' ' || c == '\t' }

  /** Put a character in front of the first line; a blank at the end of a line is dropped. */
  function AddChar(c: char, lines: seq<string>): (r: seq<string>)
    requires lines != []
    ensures r != []
  {
    [if IsBlank(c) && lines[0] == "" then "" else [c] + lines[0]] + lines[1..]
  }

  /** The lines of a text, and what follows the last line end. */
  function Lines(text: string): (r: seq<string>)
    ensures r != []
  {
    if text == "" then [""]
    else if |text| > 1 && text[0] == '\r' && text[1] == '\n' then [""] + Lines(text[2..])
    else if IsEol(text[0]) then [""] + Lines(text[1..])
    else AddChar(text[0], Lines(text[1..]))
  }

  predicate IsBegin(line: string) {
    |line| >= 16 && "-----BEGIN " <= line && line[|line| - 5..] == SUFFIX
  }

  function TagOf(line: string): string
    requires IsBegin(line)
  {
    line[11..|line| - 5]
  }

  /** The lines up to the end line of `tag`, joined, and the lines after it. */
  function Collect(lines: seq<string>, tag: string): (r: Option<(string, seq<string>)>)
    ensures r.Some? ==> |r.value.1| < |lines|
  {
    if lines == [] then None
    else if lines[0] == EndLine(tag) then Some(("", lines[1..]))
    else
      var rest := Collect(lines[1..], tag);
      if rest.None? then None else Some((lines[0] + rest.value.0, rest.value.1))
  }

  function Read(lines: seq<string>): Option<seq<Pem>>
    decreases |lines|
  {
    if lines == [] then Some([])
    else if !IsBegin(lines[0]) then Read(lines[1..])
    else
      var tag := TagOf(lines[0]);
      var block := Collect(lines[1..], tag);
      if block.None? then None
      else
        var contents := Decode(block.value.0);
        if contents.None? then None
        else
          var rest := Read(block.value.1);
          if rest.None? then None else Some([Pem(tag, contents.value)] + rest.value)
  }

  // The written text, literally.

  lemma {:induction false} WriteFrom(out: string, lines: seq<string>)
    ensures WriteLines(out, lines) == out + WriteLines("", lines)
    decreases |lines|
  {
    if lines == [] {
      assert out + "" == out;
    } else {
      WriteFrom(out, lines[..|lines| - 1]);
    }
  }

  lemma {:induction false} WriteConcat(out: string, a: seq<string>, b: seq<string>)
    ensures WriteLines(out, a + b) == WriteLines(WriteLines(out, a), b)
    decreases |b|
  {
    if b == [] {
      assert a + b == a;
    } else {
      var front, last := b[..|b| - 1], b[|b| - 1];
      WriteConcat(out, a, front);
      assert (a + b)[..|a + b| - 1] == a + front && (a + b)[|a + b| - 1] == last;
    }
  }

  lemma {:induction false} WriteOne(out: string, line: string)
    ensures WriteLines(out, [line]) == out + (line + "\n")
  {
    assert [line][..0] == [];
  }

  /** A certificate: its comment behind a number sign, the opening line, the base64 lines, the closing line. */
  lemma {:induction false} EntryTextIs(e: Entry)
    ensures EntryText(e) ==
      (if e.comment.Some? then "# " + e.comment.value + "\n" else "") +
      (("-----BEGIN " + e.pem.tag + "-----\n") +
       (WriteLines("", Chunks(Encode(e.pem.contents))) + ("-----END " + e.pem.tag + "-----\n")))
  {
    var lead, body := CommentText(e.comment), Chunks(Encode(e.pem.contents));
    var first, last := BeginLine(e.pem.tag), EndLine(e.pem.tag);
    WriteConcat(lead, [first] + body, [last]);
    WriteConcat(lead, [first], body);
    WriteOne(lead, first);
    WriteFrom(WriteLines(lead, [first]), body);
    WriteOne(WriteLines(lead, [first] + body), last);
    LiteralLines(e.pem.tag);
    if e.comment.Some? { assert "" + ("# " + e.comment.value) + "\n" == "# " + e.comment.value + "\n"; }
    Regroup(lead, first + "\n", WriteLines("", body), last + "\n");
  }

  lemma {:induction false} LiteralLines(tag: string)
    ensures BeginLine(tag) + "\n" == "-----BEGIN " + tag + "-----\n"
    ensures EndLine(tag) + "\n" == "-----END " + tag + "-----\n"
  {
    assert HEADER + " " == "-----BEGIN " && FOOTER + " " == "-----END ";
    assert SUFFIX + "\n" == "-----\n";
  }

  lemma {:induction false} Regroup(a: string, b: string, c: string, d: string)
    ensures ((a + b) + c) + d == a + (b + (c + d))
  {}

  /** The bundle: each certificate followed by an empty line. */
  lemma {:induction false} BundleTextIs(es: seq<Entry>, e: Entry)
    ensures BundleText([]) == "" && BundleText(es + [e]) == BundleText(es) + EntryText(e) + "\n"
  {
    assert (es + [e])[..|es|] == es;
  }
}
