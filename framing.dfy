/**
 * Message framing of the Language Server Protocol 3.17 Base Protocol (Header
 * Part, Content Part) as the LSP client writes and reads it
 * (`backends/lsp_client.py`): the writer puts "Content-Length: n\r\n\r\n"
 * in front of the JSON text and sends its UTF-8 bytes; the reader takes
 * frames off the front of its byte buffer.
 */
module Framing {
  import opened Wrappers
  import opened Strings
  import opened Utf8

  // ---------------------------------------------------------------------
  // Writing

  /** The header line the writer puts in front of `content`; `n` is `len(content)`, a count of characters. */
  function HeaderLine(content: string): string {
    "Content-Length: " + NatToString(|content|)
  }

  /** The frame text: header line, blank line, content. */
  function FrameText(content: string): string {
    HeaderLine(content) + "\r\n\r\n" + content
  }

  /** The bytes written to the server: the frame text in UTF-8. */
  function EncodeFrame(content: string): seq<byte> {
    Encode(FrameText(content))
  }

  // ---------------------------------------------------------------------
  // Reading

  /** The blank line that ends a header block. */
  const HeaderEnd: seq<byte> := [13, 10, 13, 10]

  /** A header line whose first 15 characters are "content-length:" in any case. */
  predicate IsContentLengthLine(line: string) {
    |line| >= 15 && Lower(line[..15]) == "content-length:"
  }

  /** What the first Content-Length line of a header block says. */
  datatype LengthField = NoLength | BadLength | Length(n: int)

  /**
   * The value of the first Content-Length line: the text between its first
   * and second ":", stripped and read by `int()`; `BadLength` when `int()`
   * raises.
   */
  function ContentLength(lines: seq<string>): (r: LengthField)
    ensures r == NoLength <==> forall k :: 0 <= k < |lines| ==> !IsContentLengthLine(lines[k])
    decreases |lines|
  {
    if lines == [] then NoLength
    else if IsContentLengthLine(lines[0]) then
      var fields := Split(lines[0], ':');
      if |fields| < 2 then BadLength
      else match PyInt(Strip(fields[1]))
        case None => BadLength
        case Some(n) => Length(n)
    else
      var r := ContentLength(lines[1..]);
      assert forall k :: 1 <= k < |lines| ==> lines[k] == lines[1..][k - 1];
      r
  }

  /**
   * One step of the reader over its buffer: wait for more bytes, stall on a
   * header block without Content-Length (nothing is consumed, so it stays
   * stalled), fail (the reader task ends), or take one frame off the front.
   */
  datatype Step = Wait | Stall | Fatal | Frame(body: seq<byte>, rest: seq<byte>)

  function NextFrame(buf: seq<byte>): (s: Step)
    ensures s.Frame? ==> |s.rest| + 4 + |s.body| <= |buf| && buf[|buf| - |s.rest|..] == s.rest
  {
    match Find(buf, HeaderEnd)
    case None => Wait
    case Some(h) => AfterHeader(buf, h)
  }

  /** The step once the header block `buf[..h]` has been found. */
  function AfterHeader(buf: seq<byte>, h: nat): (s: Step)
    requires h + 4 <= |buf|
    ensures s.Frame? ==> |s.rest| + 4 + |s.body| <= |buf| && buf[|buf| - |s.rest|..] == s.rest
  {
    var field := HeaderField(buf[..h]);
    if field.None? then Fatal else WithLength(buf, h, field.value)
  }

  /** The Content-Length field of a header block; `None` when the block is not UTF-8. */
  function HeaderField(block: seq<byte>): Option<LengthField> {
    match Decode(block)
    case None => None
    case Some(headers) => Some(ContentLength(SplitOn(headers, "\r\n")))
  }

  /** The step once the Content-Length field of the header block `buf[..h]` is known. */
  function WithLength(buf: seq<byte>, h: nat, field: LengthField): (s: Step)
    requires h + 4 <= |buf|
    ensures s.Frame? ==> |s.rest| + 4 + |s.body| <= |buf| && buf[|buf| - |s.rest|..] == s.rest
  {
    match field
    case NoLength => Stall
    case BadLength => Fatal
    case Length(n) =>
      if n < 0 then Fatal
      else if |buf| < h + 4 + n then Wait
      else Frame(buf[h + 4 .. h + 4 + n], buf[h + 4 + n ..])
  }

  /** All complete frames at the front of `buf`, in order, and what is left. */
  function Drain(buf: seq<byte>): (r: (seq<seq<byte>>, seq<byte>))
    decreases |buf|
  {
    match NextFrame(buf)
    case Frame(body, rest) =>
      var (bodies, left) := Drain(rest);
      ([body] + bodies, left)
    case _ => ([], buf)
  }

  /** The contents, each framed, one after the other. */
  function Stream(contents: seq<string>): seq<byte>
    decreases |contents|
  {
    if contents == [] then [] else EncodeFrame(contents[0]) + Stream(contents[1..])
  }

  /** The UTF-8 bytes of each content. */
  function Bodies(contents: seq<string>): (r: seq<seq<byte>>)
    ensures |r| == |contents|
    decreases |contents|
  {
    if contents == [] then [] else [Encode(contents[0])] + Bodies(contents[1..])
  }

  // ---------------------------------------------------------------------
  // The reader reads back what the writer writes

  /** For ASCII content (all `json.dumps` produces) the reader takes the frame back whole. */
  lemma FrameRoundTrip(c: string, rest: seq<byte>)
    requires AllAscii(c)
    ensures NextFrame(EncodeFrame(c) + rest) == Frame(Encode(c), rest)
  {
    var line := HeaderLine(c);
    FrameBytes(c, line, Encode(line), Encode(c));
    AsciiFrameRead(c, rest, line, Encode(line), Encode(c), EncodeFrame(c) + rest);
  }

  lemma AsciiFrameRead(c: string, rest: seq<byte>, line: string, hb: seq<byte>, eb: seq<byte>, buf: seq<byte>)
    requires AllAscii(c)
    requires line == HeaderLine(c) && hb == Encode(line) && eb == Encode(c)
    requires buf == hb + HeaderEnd + eb + rest
    ensures NextFrame(buf) == Frame(eb, rest)
  {
    Regroup(hb, HeaderEnd, eb, rest, buf);
    WriterHeaderFound(c, line, hb, eb + rest, buf);
    assert NextFrame(buf) == WithLength(buf, |hb|, Length(|c|));
    assert |eb| == |c|;
    TakeFrame(buf, |hb|, hb + HeaderEnd, eb, rest);
  }

  /** With the whole body buffered, the frame is the body and the rest follows. */
  lemma TakeFrame(buf: seq<byte>, h: nat, pre: seq<byte>, body: seq<byte>, rest: seq<byte>)
    requires buf == pre + (body + rest) && |pre| == h + 4
    ensures WithLength(buf, h, Length(|body|)) == Frame(body, rest)
  {
    assert buf[h + 4..h + 4 + |body|] == body;
    assert buf[h + 4 + |body|..] == rest;
  }

  /**
   * A frame whose body has not fully arrived stays in the buffer: the
   * header line, the blank line and fewer than `|c|` bytes of the body
   * (a prefix of the frame's bytes, by `FrameBytes`) make the reader wait.
   */
  lemma PartialBodyWaits(c: string, k: nat, line: string, hb: seq<byte>, eb: seq<byte>, buf: seq<byte>)
    requires AllAscii(c) && k < |c|
    requires line == HeaderLine(c) && hb == Encode(line) && eb == Encode(c)
    requires buf == (hb + HeaderEnd + eb)[..|hb| + 4 + k]
    ensures NextFrame(buf) == Wait
  {
    assert |eb| == |c|;
    var tail := eb[..k];
    assert buf == hb + HeaderEnd + tail;
    Reassociate(hb, tail, buf);
    WriterHeaderFound(c, line, hb, tail, buf);
    assert NextFrame(buf) == WithLength(buf, |hb|, Length(|c|));
    assert |buf| < |hb| + 4 + |c|;
  }

  /** The reader finds the writer's header line at the front, announcing `|c|`. */
  lemma WriterHeaderFound(c: string, line: string, hb: seq<byte>, tail: seq<byte>, buf: seq<byte>)
    requires line == HeaderLine(c) && hb == Encode(line)
    requires buf == hb + (HeaderEnd + tail)
    ensures NextFrame(buf) == WithLength(buf, |hb|, Length(|c|))
  {
    HeaderLineShape(c, line);
    HeaderFound(line, hb, tail, buf);
    SplitOnNoCr(line);
    HeaderLineLength(c, line);
  }

  /** A one-line ASCII header block without CR at the front of `buf` is found and read. */
  lemma HeaderFound(line: string, hb: seq<byte>, tail: seq<byte>, buf: seq<byte>)
    requires AllAscii(line) && forall j :: 0 <= j < |line| ==> line[j] != '\r'
    requires hb == Encode(line)
    requires buf == hb + (HeaderEnd + tail)
    ensures NextFrame(buf) == WithLength(buf, |hb|, ContentLength(SplitOn(line, "\r\n")))
  {
    HeaderBlock(line, hb, tail, buf);
  }

  /** The same, stated on the header block: where it ends and what its Content-Length field says. */
  lemma HeaderBlock(line: string, hb: seq<byte>, tail: seq<byte>, buf: seq<byte>)
    requires AllAscii(line) && forall j :: 0 <= j < |line| ==> line[j] != '\r'
    requires hb == Encode(line)
    requires buf == hb + (HeaderEnd + tail)
    ensures Find(buf, HeaderEnd) == Some(|hb|) && |hb| + 4 <= |buf|
    ensures HeaderField(buf[..|hb|]) == Some(ContentLength(SplitOn(line, "\r\n")))
  {
    forall j | 0 <= j < |hb| ensures hb[j] != 13 {
      assert hb[j] == line[j] as int;
    }
    assert (HeaderEnd + tail)[..4] == HeaderEnd;
    FindHeaderEnd(hb, HeaderEnd + tail, buf);
    assert buf[..|hb|] == hb;
    DecodeEncode(line);
  }

  /** Several frames arriving together are taken off in arrival order, leaving nothing. */
  lemma {:induction false} FramesInOrder(contents: seq<string>)
    requires forall i :: 0 <= i < |contents| ==> AllAscii(contents[i])
    ensures Drain(Stream(contents)) == (Bodies(contents), [])
    decreases |contents|
  {
    if contents == [] {
      assert Find([], HeaderEnd) == None;
    } else {
      var rest := Stream(contents[1..]);
      FrameRoundTrip(contents[0], rest);
      FramesInOrder(contents[1..]);
    }
  }

  /** A stalled header block stays stalled whatever arrives after it. */
  lemma StallPersists(buf: seq<byte>, more: seq<byte>)
    requires NextFrame(buf) == Stall
    ensures NextFrame(buf + more) == Stall
  {
    var h := Find(buf, HeaderEnd).value;
    FindExtends(buf, more, HeaderEnd);
    assert (buf + more)[..h] == buf[..h];
  }

  /** A header block without a Content-Length line stalls the reader, whatever follows it. */
  lemma MissingLengthStalls(line: string, rest: seq<byte>)
    requires AllAscii(line) && forall j :: 0 <= j < |line| ==> line[j] != '\r'
    requires !IsContentLengthLine(line)
    ensures NextFrame(Encode(line) + HeaderEnd + rest) == Stall
  {
    var hb := Encode(line);
    var buf := hb + HeaderEnd + rest;
    Reassociate(hb, rest, buf);
    HeaderFound(line, hb, rest, buf);
    assert NextFrame(buf) == WithLength(buf, |hb|, ContentLength(SplitOn(line, "\r\n")));
    SplitOnNoCr(line);
    assert ContentLength(SplitOn(line, "\r\n")) == NoLength;
  }

  /**
   * The header counts characters while the reader counts bytes: for content
   * made of one two-byte character the reader takes the first byte as the
   * body, which is not UTF-8, and leaves the second in front of what follows.
   */
  lemma NonAsciiContentMisframed(ch: char, rest: seq<byte>)
    requires 0x80 <= ch as int < 0x800
    ensures var e := EncodeChar(ch);
      NextFrame(EncodeFrame([ch]) + rest) == Frame(e[..1], e[1..] + rest) && Decode(e[..1]) == None
  {
    var c := [ch];
    var line := HeaderLine(c);
    var e := EncodeChar(ch);
    assert Encode(c) == e + Encode([]);
    FrameBytes(c, line, Encode(line), e);
    TwoByteRead(c, ch, rest, line, Encode(line), e, EncodeFrame(c) + rest);
  }

  lemma TwoByteRead(c: string, ch: char, rest: seq<byte>, line: string, hb: seq<byte>, e: seq<byte>, buf: seq<byte>)
    requires c == [ch] && 0x80 <= ch as int < 0x800
    requires line == HeaderLine(c) && hb == Encode(line) && e == EncodeChar(ch)
    requires buf == hb + HeaderEnd + e + rest
    ensures NextFrame(buf) == Frame(e[..1], e[1..] + rest)
    ensures Decode(e[..1]) == None
  {
    var tail := e + rest;
    Regroup(hb, HeaderEnd, e, rest, buf);
    WriterHeaderFound(c, line, hb, tail, buf);
    assert NextFrame(buf) == WithLength(buf, |hb|, Length(1));
    SplitFirstByte(e, rest, tail);
    TakeFrame(buf, |hb|, hb + HeaderEnd, e[..1], e[1..] + rest);
    LeadByteAlone(ch, e);
  }

  lemma SplitFirstByte(e: seq<byte>, rest: seq<byte>, tail: seq<byte>)
    requires |e| >= 1 && tail == e + rest
    ensures tail == e[..1] + (e[1..] + rest)
  {
    assert e == e[..1] + e[1..];
  }

  /** The lead byte of a two-byte sequence does not decode on its own. */
  lemma LeadByteAlone(ch: char, e: seq<byte>)
    requires 0x80 <= ch as int < 0x800 && e == EncodeChar(ch)
    ensures Decode(e[..1]) == None
  {
    var b0: int := e[0];
    assert 0xC2 <= b0 <= 0xDF;
    assert SeqLen(e[0]) == 2;
    assert DecodeOne(e[..1]) == None;
  }

  /** `a + b + c + d` regrouped both ways the reader's lemmas need. */
  lemma Regroup(a: seq<byte>, b: seq<byte>, c: seq<byte>, d: seq<byte>, buf: seq<byte>)
    requires buf == a + b + c + d
    ensures buf == a + (b + (c + d)) && buf == (a + b) + (c + d)
  {
  }

  /** `hb + HeaderEnd + tail` regrouped. */
  lemma Reassociate(hb: seq<byte>, tail: seq<byte>, buf: seq<byte>)
    requires buf == hb + HeaderEnd + tail
    ensures buf == hb + (HeaderEnd + tail)
  {
  }

  // ---------------------------------------------------------------------
  // A negative Content-Length
  //
  // `int()` reads "-1" as well as "1", and the reader does not check the
  // sign: `message_end` then lies before `message_start`, and Python's slices
  // count a negative bound from the end of the buffer. `NextFrame` refuses a
  // negative length like one `int()` cannot read; the functions below are the
  // reader as written, for comparison.

  /** How a slice reads the bound `i` of a sequence of length `len`: a negative bound counts from the end, and the result is clamped. */
  function SliceBound(len: nat, i: int): (k: nat)
    ensures k <= len
    ensures 0 <= i <= len ==> k == i
    ensures i < 0 && len + i <= 0 ==> k == 0
    ensures i < 0 < len + i ==> k == len + i
  {
    if i < 0 then (if len + i < 0 then 0 else len + i) else if i > len then len else i
  }

  /** `buf[i:j]`. */
  function PySlice(buf: seq<byte>, i: int, j: int): (r: seq<byte>)
    ensures SliceBound(|buf|, j) <= SliceBound(|buf|, i) ==> r == []
    ensures SliceBound(|buf|, i) < SliceBound(|buf|, j) ==> r == buf[SliceBound(|buf|, i)..SliceBound(|buf|, j)]
  {
    var a, b := SliceBound(|buf|, i), SliceBound(|buf|, j);
    if a < b then buf[a..b] else []
  }

  /**
   * The step once the Content-Length field is known, as `_read_responses`
   * computes it for any length `n`: with `message_end = h + 4 + n`, wait
   * while the buffer is shorter, otherwise take `buffer[h + 4:message_end]`
   * and keep `buffer[message_end:]`.
   */
  function WithLengthAsWritten(buf: seq<byte>, h: nat, field: LengthField): (s: Step)
    requires h + 4 <= |buf|
    ensures s.Frame? ==> |s.rest| <= |buf| && buf[|buf| - |s.rest|..] == s.rest
    ensures s.Frame? && field.Length? && field.n >= 0 ==> |s.rest| + 4 + |s.body| <= |buf|
  {
    match field
    case NoLength => Stall
    case BadLength => Fatal
    case Length(n) =>
      var end := h + 4 + n;
      if |buf| < end then Wait
      else Frame(PySlice(buf, h + 4, end), buf[SliceBound(|buf|, end)..])
  }

  /** One step of the reader as written: the rest of a frame is a suffix of the buffer, but not always a shorter one. */
  function NextFrameAsWritten(buf: seq<byte>): (s: Step)
    ensures s.Frame? ==> |s.rest| <= |buf| && buf[|buf| - |s.rest|..] == s.rest
  {
    match Find(buf, HeaderEnd)
    case None => Wait
    case Some(h) =>
      var field := HeaderField(buf[..h]);
      if field.None? then Fatal else WithLengthAsWritten(buf, h, field.value)
  }

  /** The reader as written and `NextFrame` differ only where `NextFrame` refuses a negative length. */
  lemma AsWrittenAgrees(buf: seq<byte>)
    ensures NextFrame(buf) != Fatal ==> NextFrameAsWritten(buf) == NextFrame(buf)
  {
    match Find(buf, HeaderEnd)
    case None =>
    case Some(h) =>
      var field := HeaderField(buf[..h]);
      if field.Some? && field.value.Length? && field.value.n >= 0 {
        var n := field.value.n;
        if |buf| >= h + 4 + n {
          assert PySlice(buf, h + 4, h + 4 + n) == buf[h + 4..h + 4 + n];
        }
      }
  }

  /**
   * A negative length `n` as written: when `message_end` is not negative
   * the reader takes an empty body and rewinds to `message_end`, inside the
   * header block; when the buffer is no longer than `-message_end` it takes
   * an empty body and keeps the whole buffer, so the next round sees the
   * same buffer again, and so on forever.
   */
  lemma NegativeLengthAsWritten(buf: seq<byte>, h: nat, n: int)
    requires h + 4 <= |buf| && n < 0
    ensures 0 <= h + 4 + n ==> WithLengthAsWritten(buf, h, Length(n)) == Frame([], buf[h + 4 + n..])
    ensures |buf| + h + 4 + n <= 0 ==> WithLengthAsWritten(buf, h, Length(n)) == Frame([], buf)
    ensures WithLength(buf, h, Length(n)) == Fatal
  {
    var end := h + 4 + n;
    assert SliceBound(|buf|, h + 4) == h + 4;
    if 0 <= end {
      assert SliceBound(|buf|, end) == end;
    }
  }

  /** The header line announcing the length `-k`. */
  function NegativeHeaderLine(k: nat): string {
    "Content-Length: -" + NatToString(k)
  }

  /**
   * A header block announcing a length below minus twice its own size spins
   * the reader as written: the step gives back the very buffer it was given
   * (for instance "Content-Length: -100" and the blank line, 24 bytes), and
   * the inner `while True` takes it again without ever awaiting.
   * `NextFrame` ends the reader instead.
   */
  lemma NegativeLengthSpins(k: nat)
    requires k >= 2 * (|NegativeHeaderLine(k)| + 4)
    ensures var buf := Encode(NegativeHeaderLine(k)) + HeaderEnd;
      NextFrameAsWritten(buf) == Frame([], buf) && NextFrame(buf) == Fatal
  {
    var hb := Encode(NegativeHeaderLine(k));
    var buf := hb + HeaderEnd;
    assert buf == hb + HeaderEnd + [];
    NegativeHeader(k, hb, [], buf);
    StepsAt(buf, |hb|, Length(-(k as int)));
    NegativeLengthAsWritten(buf, |hb|, -(k as int));
  }

  /** The 24 bytes "Content-Length: -100\r\n\r\n" spin the reader as written. */
  lemma MinusHundredSpins()
    ensures var buf := Encode("Content-Length: -100") + HeaderEnd;
      NextFrameAsWritten(buf) == Frame([], buf)
  {
    assert NatToString(100) == "100";
    assert NegativeHeaderLine(100) == "Content-Length: -100";
    NegativeLengthSpins(100);
  }

  /**
   * A length between minus the header block's size and 0 rewinds as
   * written: the empty body is taken and the buffer is kept from `k` bytes
   * before the end of the header block, so for "Content-Length: -1" the
   * "\n" of the blank line stays in front of whatever follows.
   */
  lemma NegativeLengthRewinds(k: nat, more: seq<byte>)
    requires 0 < k <= |NegativeHeaderLine(k)| + 4
    ensures var hb := Encode(NegativeHeaderLine(k));
      var buf := hb + HeaderEnd + more;
      NextFrameAsWritten(buf) == Frame([], buf[|hb| + 4 - k..]) && NextFrame(buf) == Fatal
  {
    var hb := Encode(NegativeHeaderLine(k));
    var buf := hb + HeaderEnd + more;
    NegativeHeader(k, hb, more, buf);
    StepsAt(buf, |hb|, Length(-(k as int)));
    NegativeLengthAsWritten(buf, |hb|, -(k as int));
  }

  /** The header block of `NegativeHeaderLine(k)` ends right after it and announces `-k`. */
  lemma NegativeHeader(k: nat, hb: seq<byte>, more: seq<byte>, buf: seq<byte>)
    requires hb == Encode(NegativeHeaderLine(k)) && buf == hb + HeaderEnd + more
    ensures |hb| == |NegativeHeaderLine(k)| && |hb| + 4 <= |buf|
    ensures Find(buf, HeaderEnd) == Some(|hb|) && HeaderField(buf[..|hb|]) == Some(Length(-(k as int)))
  {
    var line := NegativeHeaderLine(k);
    var field := ContentLength(SplitOn(line, "\r\n"));
    assert AllAscii(line) && forall j :: 0 <= j < |line| ==> line[j] != '\r' by {
      NegativeLineShape(line, NatToString(k));
    }
    assert |hb| == |line|;
    assert Find(buf, HeaderEnd) == Some(|hb|) && |hb| + 4 <= |buf| && HeaderField(buf[..|hb|]) == Some(field) by {
      Reassociate(hb, more, buf);
      HeaderBlock(line, hb, more, buf);
    }
    assert field == Length(-(k as int)) by {
      NegativeHeaderLength(k, line);
    }
  }

  /** Once the header block and its field are known, both readers go on with the field. */
  lemma StepsAt(buf: seq<byte>, h: nat, field: LengthField)
    requires Find(buf, HeaderEnd) == Some(h) && h + 4 <= |buf| && HeaderField(buf[..h]) == Some(field)
    ensures NextFrame(buf) == WithLength(buf, h, field)
    ensures NextFrameAsWritten(buf) == WithLengthAsWritten(buf, h, field)
  {
  }

  /** The negative header line is ASCII without CR and announces `-k`. */
  lemma NegativeHeaderLength(k: nat, line: string)
    requires line == NegativeHeaderLine(k)
    ensures AllAscii(line) && forall j :: 0 <= j < |line| ==> line[j] != '\r'
    ensures ContentLength(SplitOn(line, "\r\n")) == Length(-(k as int))
  {
    var d := NatToString(k);
    NegativeDigits("-" + d, d, k);
    SignedHeaderLength(line, d, -(k as int));
  }

  /** "Content-Length: -" followed by digits announces the value `int()` reads from "-" and the digits. */
  lemma SignedHeaderLength(line: string, d: string, n: int)
    requires line == "Content-Length: -" + d && AllDigits(d)
    requires NoSpace("-" + d) && PyInt("-" + d) == Some(n)
    ensures AllAscii(line) && forall j :: 0 <= j < |line| ==> line[j] != '\r'
    ensures ContentLength(SplitOn(line, "\r\n")) == Length(n)
  {
    var v := " -" + d;
    NegativeLineShape(line, d);
    SplitOnNoCr(line);
    NegativeLineFields(line, d, v);
    assert Strip(v) == "-" + d by {
      LStripFront(v, "-" + d);
      StripNoSpace("-" + d);
    }
    ContentLengthOfLine(line, "Content-Length", v, n);
  }

  lemma NegativeLineShape(line: string, d: string)
    requires line == "Content-Length: -" + d && AllDigits(d)
    ensures AllAscii(line) && forall j :: 0 <= j < |line| ==> line[j] != '\r'
  {
    forall j | 0 <= j < |line| ensures IsAscii(line[j]) && line[j] != '\r' {
      if j >= 17 {
        assert line[j] == d[j - 17];
        assert IsDigit(d[j - 17]);
      }
    }
  }

  lemma NegativeLineFields(line: string, d: string, v: string)
    requires line == "Content-Length: -" + d && AllDigits(d) && v == " -" + d
    ensures IsContentLengthLine(line) && Split(line, ':') == ["Content-Length", v]
  {
    assert line[..15] == "Content-Length:";
    LowerPrefix(line[..15]);
    assert line == "Content-Length" + [':'] + v;
    NoColonIn("Content-Length");
    NoColonIn(v) by {
      forall j | 0 <= j < |d| ensures d[j] != ':' { assert IsDigit(d[j]); }
      assert forall j :: 2 <= j < |v| ==> v[j] == d[j - 2];
    }
    SplitAfterColon("Content-Length", v, line);
  }

  lemma NegativeDigits(t: string, d: string, k: nat)
    requires d == NatToString(k) && t == "-" + d
    ensures NoSpace(t) && PyInt(t) == Some(-(k as int))
  {
    NoSpaceSigned(t, d);
    StripNoSpace(t);
    DigitGroupsOfDigits(d);
    NatToStringValue(k);
    SignedValue(t, d, k);
  }

  lemma NoSpaceSigned(t: string, d: string)
    requires t == "-" + d && AllDigits(d)
    ensures NoSpace(t) && t != [] && t[0] == '-' && t[1..] == d
  {
    forall j | 0 <= j < |t| ensures !IsSpace(t[j]) {
      if j > 0 { assert t[j] == d[j - 1]; assert IsDigit(d[j - 1]); }
    }
  }

  /** `int(t)` of a stripped "-" followed by digits of value `k`. */
  lemma SignedValue(t: string, d: string, k: nat)
    requires Strip(t) == t && t != [] && t[0] == '-' && t[1..] == d
    requires DigitGroups(d) && AllDigits(d) && DigitsValue(d) == k
    ensures PyInt(t) == Some(-(k as int))
  {
    assert DropUnderscores(d) == d;
  }

  // ---------------------------------------------------------------------
  // Helpers

  /** The header line is ASCII with no CR. */
  lemma HeaderLineShape(c: string, line: string)
    requires line == HeaderLine(c)
    ensures AllAscii(line)
    ensures forall j :: 0 <= j < |line| ==> line[j] != '\r'
  {
    var d := NatToString(|c|);
    assert line == "Content-Length: " + d;
    forall j | 0 <= j < |line| ensures IsAscii(line[j]) && line[j] != '\r' {
      if j >= 16 {
        assert line[j] == d[j - 16];
        assert IsDigit(d[j - 16]);
      }
    }
  }

  /** The frame's bytes are the header line's, the blank line's and the content's. */
  lemma FrameBytes(c: string, line: string, hb: seq<byte>, eb: seq<byte>)
    requires line == HeaderLine(c) && hb == Encode(line) && eb == Encode(c)
    ensures EncodeFrame(c) == hb + HeaderEnd + eb
  {
    EncodeThree(line, "\r\n\r\n", c);
    BlankLineBytes();
  }

  lemma BlankLineBytes()
    ensures Encode("\r\n\r\n") == HeaderEnd
  {
  }

  lemma EncodeThree(a: string, b: string, d: string)
    ensures Encode(a + b + d) == Encode(a) + Encode(b) + Encode(d)
  {
    EncodeAppend(a + b, d);
    EncodeAppend(a, b);
  }

  /** The first blank line in `hb + tail` is right after `hb`, when `hb` has no CR. */
  lemma FindHeaderEnd(hb: seq<byte>, tail: seq<byte>, buf: seq<byte>)
    requires buf == hb + tail
    requires |tail| >= 4 && tail[..4] == HeaderEnd
    requires forall j :: 0 <= j < |hb| ==> hb[j] != 13
    ensures Find(buf, HeaderEnd) == Some(|hb|)
  {
    assert buf[|hb|..|hb| + 4] == tail[..4];
    assert OccursAt(buf, HeaderEnd, |hb|);
    forall j | 0 <= j < |hb| ensures !OccursAt(buf, HeaderEnd, j) {
      assert buf[j] == hb[j];
      if j + 4 <= |buf| { assert buf[j..j + 4][0] == buf[j]; }
    }
  }

  /** Splitting a CR-free line on CRLF gives the line alone. */
  lemma SplitOnNoCr(line: string)
    requires forall j :: 0 <= j < |line| ==> line[j] != '\r'
    ensures SplitOn(line, "\r\n") == [line]
  {
    forall j | 0 <= j <= |line| ensures !OccursAt(line, "\r\n", j) {
      if j + 2 <= |line| { assert line[j..j + 2][0] == line[j]; }
    }
  }

  /** The header line is a Content-Length line announcing `|c|`. */
  lemma HeaderLineLength(c: string, line: string)
    requires line == HeaderLine(c)
    ensures ContentLength([line]) == Length(|c|)
  {
    var d := NatToString(|c|);
    assert IsContentLengthLine(line) by {
      assert line[..15] == "Content-Length:";
      LowerPrefix(line[..15]);
    }
    assert Split(line, ':') == ["Content-Length", " " + d] by {
      assert line == "Content-Length" + [':'] + (" " + d);
      NoColonIn("Content-Length");
      NoColonIn(" " + d) by {
        forall j | 0 <= j < |d| ensures d[j] != ':' { assert IsDigit(d[j]); }
        assert forall j :: 1 <= j < |" " + d| ==> (" " + d)[j] == d[j - 1];
      }
      SplitAfterColon("Content-Length", " " + d, line);
    }
    assert PyInt(Strip(" " + d)) == Some(|c|) by {
      StripLeadingSpace(d, " " + d);
      PyIntOfNatToString(|c|);
    }
    ContentLengthOfLine(line, "Content-Length", " " + d, |c|);
  }

  /** A lone Content-Length line whose value reads as `n` announces `n`. */
  lemma ContentLengthOfLine(line: string, name: string, value: string, n: int)
    requires IsContentLengthLine(line) && Split(line, ':') == [name, value] && PyInt(Strip(value)) == Some(n)
    ensures ContentLength([line]) == Length(n)
  {
    assert [line][0] == line;
  }

  lemma LowerPrefix(s: string)
    requires s == "Content-Length:"
    ensures Lower(s) == "content-length:"
  {
    var l := Lower(s);
    assert l[0] == 'c' && l[1] == 'o' && l[2] == 'n' && l[3] == 't' && l[4] == 'e';
    assert l[5] == 'n' && l[6] == 't' && l[7] == '-' && l[8] == 'l' && l[9] == 'e';
    assert l[10] == 'n' && l[11] == 'g' && l[12] == 't' && l[13] == 'h' && l[14] == ':';
  }

  lemma NoColonIn(s: string)
    requires forall j :: 0 <= j < |s| ==> s[j] != ':'
    ensures ':' !in s
  {
  }

  lemma SplitAfterColon(a: string, b: string, s: string)
    requires s == a + [':'] + b && ':' !in a && ':' !in b
    ensures Split(s, ':') == [a, b]
  {
    assert s[|a|] == ':';
    assert forall j :: 0 <= j < |a| ==> s[j] == a[j];
    assert IndexOf(s, ':') == |a|;
    assert s[..|a|] == a && s[|a| + 1..] == b;
    assert Split(b, ':') == [b];
  }

  lemma StripLeadingSpace(d: string, s: string)
    requires s == " " + d && AllDigits(d) && d != []
    ensures Strip(s) == d
  {
    assert s != [] && IsSpace(s[0]) && s[1..] == d by {
      assert s[0] == ' ';
    }
    LStripFront(s, d);
    assert NoSpace(d) by {
      forall j | 0 <= j < |d| ensures !IsSpace(d[j]) { assert IsDigit(d[j]); }
    }
    StripNoSpace(d);
  }

  lemma LStripFront(s: string, d: string)
    requires s != [] && IsSpace(s[0]) && s[1..] == d
    ensures Strip(s) == Strip(d)
  {
  }

  /** An occurrence found in `buf` is still the first one in any extension of `buf`. */
  lemma FindExtends<T>(buf: seq<T>, more: seq<T>, pat: seq<T>)
    requires Find(buf, pat).Some?
    ensures Find(buf + more, pat) == Find(buf, pat)
  {
    var h := Find(buf, pat).value;
    OccursInPrefix(buf, more, pat, h);
    var k := Find(buf + more, pat).value;
    if k < h {
      OccursInPrefix(buf, more, pat, k);
    }
  }

  /** Inside `buf`, an occurrence does not depend on what follows `buf`. */
  lemma OccursInPrefix<T>(buf: seq<T>, more: seq<T>, pat: seq<T>, j: nat)
    requires j + |pat| <= |buf|
    ensures OccursAt(buf + more, pat, j) <==> OccursAt(buf, pat, j)
  {
    assert (buf + more)[j..j + |pat|] == buf[j..j + |pat|];
  }
}
