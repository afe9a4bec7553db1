/** The framing of Sentry envelopes (aggregators/sentry.py) and a reader that takes it apart again. */
module Envelope {
  import opened Prelude

  type Bytes = seq<Byte>

  const NEWLINE: Byte := 10

  datatype Attachment = Attachment(data: Bytes, mimeType: Option<string>, filename: Option<string>)

  /** What is written as JSON: the envelope header, and the header of each item. */
  datatype Header =
    | EnvelopeHeader(dsn: string, eventId: string, sentAt: string)
    | ItemHeader(length: nat, contentType: Option<string>, filename: Option<string>)

  /** json.dumps(...).encode(): different headers have different texts, each of one line. */
  ghost predicate OneLineEach(encode: Header -> Bytes) {
    && (forall h :: NEWLINE !in encode(h))
    && (forall h, h' :: encode(h) == encode(h') ==> h == h')
  }

  function HeaderOf(a: Attachment): Header {
    ItemHeader(|a.data|, a.mimeType, a.filename)
  }

  function Line(encode: Header -> Bytes, h: Header): Bytes {
    encode(h) + [NEWLINE]
  }

  function Item(encode: Header -> Bytes, a: Attachment): Bytes {
    Line(encode, HeaderOf(a)) + (a.data + [NEWLINE])
  }

  function Items(encode: Header -> Bytes, attachments: seq<Attachment>): Bytes {
    if attachments == [] then [] else Item(encode, attachments[0]) + Items(encode, attachments[1..])
  }

  function Stream(encode: Header -> Bytes, h: Header, attachments: seq<Attachment>): Bytes {
    Line(encode, h) + Items(encode, attachments)
  }

  // ---------------------------------------------------------------- the writer

  class Event {
    const encode: Header -> Bytes
    const header: Header
    var attachments: seq<Attachment>
    var envelope: Option<Bytes>

    method AppendJson(h: Header)
      requires envelope.Some?
      modifies this`envelope
      ensures envelope == Some(old(envelope).value + Line(encode, h))
    {
      ghost var before := envelope.value;
      envelope := Some(envelope.value + encode(h));
      envelope := Some(envelope.value + [NEWLINE]);
      assert before + encode(h) + [NEWLINE] == before + (encode(h) + [NEWLINE]);
    }

    method AppendItem(h: Header, item: Bytes)
      requires envelope.Some?
      modifies this`envelope
      ensures envelope == Some(old(envelope).value + Line(encode, h) + (item + [NEWLINE]))
    {
      AppendJson(h);
      ghost var before := envelope.value;
      envelope := Some(envelope.value + item);
      envelope := Some(envelope.value + [NEWLINE]);
      assert before + item + [NEWLINE] == before + (item + [NEWLINE]);
    }

    /** The part of `seal` that writes; an envelope without attachments is not kept. */
    method Seal()
      modifies this`envelope
      ensures envelope == if attachments == [] then None else Some(Stream(encode, header, attachments))
    {
      envelope := Some([]);
      if attachments != [] {
        AppendJson(header);
        assert [] + Line(encode, header) == Line(encode, header) && attachments[0..] == attachments;
        for i := 0 to |attachments|
          invariant envelope.Some?
          invariant envelope.value + Items(encode, attachments[i..]) == Stream(encode, header, attachments)
        {
          hide Item, Stream;
          ghost var before := envelope.value;
          AppendItem(HeaderOf(attachments[i]), attachments[i].data);
          assert attachments[i..][1..] == attachments[i + 1..];
          ItemWritten(encode, attachments[i], before, Items(encode, attachments[i + 1..]));
        }
      }
      assert attachments[|attachments|..] == [] && envelope.value + [] == envelope.value;
      assert |Stream(encode, header, attachments)| > 0;
      if |envelope.value| == 0 { envelope := None; }
    }
  }

  lemma ItemWritten(encode: Header -> Bytes, a: Attachment, before: Bytes, rest: Bytes)
    ensures before + (Item(encode, a) + rest)
         == before + Line(encode, HeaderOf(a)) + (a.data + [NEWLINE]) + rest
  {
  }

  // ---------------------------------------------------------------- the reader

  /** The bytes before the first newline and those after it. */
  function ReadLine(s: Bytes): Option<(Bytes, Bytes)> {
    if s == [] then None
    else if s[0] == NEWLINE then Some(([], s[1..]))
    else
      var r := ReadLine(s[1..]);
      if r.None? then None else Some(([s[0]] + r.value.0, r.value.1))
  }

  ghost function Decoded(encode: Header -> Bytes, line: Bytes): Option<Header> {
    if exists h :: encode(h) == line then
      var h :| encode(h) == line;
      Some(h)
    else None
  }

  lemma {:induction false} ReadLineShrinks(s: Bytes)
    requires ReadLine(s).Some?
    ensures |ReadLine(s).value.1| < |s|
  {
    if s[0] != NEWLINE { ReadLineShrinks(s[1..]); }
  }

  /** Items up to the end: a header line, as many bytes as it says, and one newline. */
  ghost function ReadItems(encode: Header -> Bytes, s: Bytes): Option<seq<Attachment>>
    decreases |s|
  {
    if s == [] then Some([])
    else
      var line := ReadLine(s);
      if line.None? then None
      else
        var h := Decoded(encode, line.value.0);
        if h.None? || !h.value.ItemHeader? then None
        else
          var (n, rest) := (h.value.length, line.value.1);
          if |rest| <= n || rest[n] != NEWLINE then None
          else
            ReadLineShrinks(s);
            var others := ReadItems(encode, rest[n + 1..]);
            if others.None? then None
            else Some([Attachment(rest[..n], h.value.contentType, h.value.filename)] + others.value)
  }

  ghost function Read(encode: Header -> Bytes, s: Bytes): Option<(Header, seq<Attachment>)> {
    var line := ReadLine(s);
    if line.None? then None
    else
      var h := Decoded(encode, line.value.0);
      var items := ReadItems(encode, line.value.1);
      if h.None? || items.None? then None else Some((h.value, items.value))
  }

  lemma {:induction false} ReadsLine(line: Bytes, rest: Bytes)
    requires NEWLINE !in line
    ensures ReadLine(line + [NEWLINE] + rest) == Some((line, rest))
  {
    var s := line + [NEWLINE] + rest;
    if line == [] {
      assert s[1..] == rest;
    } else {
      assert s[1..] == line[1..] + [NEWLINE] + rest;
      ReadsLine(line[1..], rest);
      assert line == [line[0]] + line[1..];
    }
  }

  lemma ReadsHeader(encode: Header -> Bytes, h: Header, rest: Bytes)
    requires OneLineEach(encode)
    ensures ReadLine(Line(encode, h) + rest) == Some((encode(h), rest))
    ensures Decoded(encode, encode(h)) == Some(h)
  {
    ReadsLine(encode(h), rest);
  }

  lemma {:induction false} ReadsItems(encode: Header -> Bytes, attachments: seq<Attachment>)
    requires OneLineEach(encode)
    ensures ReadItems(encode, Items(encode, attachments)) == Some(attachments)
  {
    if attachments != [] {
      var a, more := attachments[0], Items(encode, attachments[1..]);
      var rest := a.data + [NEWLINE] + more;
      ReadsHeader(encode, HeaderOf(a), rest);
      assert Items(encode, attachments) == Line(encode, HeaderOf(a)) + rest;
      assert rest[..|a.data|] == a.data && rest[|a.data| + 1..] == more;
      ReadsItems(encode, attachments[1..]);
      hide ReadLine, Decoded, Line, OneLineEach;
      assert attachments == [a] + attachments[1..];
    }
  }

  /** Whatever bytes the payloads have, newlines included, the reader recovers them, in order, to the end. */
  lemma FramingRoundTrip(encode: Header -> Bytes, h: Header, attachments: seq<Attachment>)
    requires OneLineEach(encode)
    ensures Read(encode, Stream(encode, h, attachments)) == Some((h, attachments))
  {
    ReadsHeader(encode, h, Items(encode, attachments));
    ReadsItems(encode, attachments);
    hide ReadLine, Decoded, Line, OneLineEach, Items, ReadItems;
  }

  /** So no two envelopes share a stream. */
  lemma StreamsDiffer(encode: Header -> Bytes, h: Header, a: seq<Attachment>, h': Header, a': seq<Attachment>)
    requires OneLineEach(encode) && Stream(encode, h, a) == Stream(encode, h', a')
    ensures h == h' && a == a'
  {
    FramingRoundTrip(encode, h, a);
    FramingRoundTrip(encode, h', a');
  }
}
