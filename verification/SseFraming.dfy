/** The event stream of a remote tool server: cutting the buffered text into frames as chunks arrive, and
    reading the fields of a frame. */
module SseFraming {
  import opened Wrappers
  import Text

  const CRLF2: string := "\r\n\r\n"

  const LF2: string := "\n\n"

  // ---------- Search ----------

  predicate Occurs(s: string, pat: string, k: nat) {
    k + |pat| <= |s| && s[k..k + |pat|] == pat
  }

  predicate IsFirst(s: string, pat: string, k: nat) {
    Occurs(s, pat, k) && forall j: nat | j < k :: !Occurs(s, pat, j)
  }

  predicate Absent(s: string, pat: string) {
    forall j: nat | j <= |s| :: !Occurs(s, pat, j)
  }

  function Find(s: string, pat: string): (r: Option<nat>)
    requires pat != ""
    ensures r.Some? ==> r.value + |pat| <= |s| && IsFirst(s, pat, r.value)
    ensures r.None? ==> Absent(s, pat)
  {
    FindFrom(s, pat, 0)
  }

  function FindFrom(s: string, pat: string, from: nat): (r: Option<nat>)
    requires from <= |s| && pat != "" && forall j: nat | j < from :: !Occurs(s, pat, j)
    ensures r.Some? ==> r.value + |pat| <= |s| && IsFirst(s, pat, r.value)
    ensures r.None? ==> Absent(s, pat)
    decreases |s| - from
  {
    if Occurs(s, pat, from) then Some(from)
    else if from == |s| then None
    else FindFrom(s, pat, from + 1)
  }

  lemma FirstIsFound(s: string, pat: string, k: nat)
    requires pat != "" && IsFirst(s, pat, k)
    ensures Find(s, pat) == Some(k)
  {
    assert !Absent(s, pat);
    var found := Find(s, pat).value;
    assert Occurs(s, pat, found) && Occurs(s, pat, k);
  }

  lemma AbsentIsNotFound(s: string, pat: string)
    requires pat != "" && Absent(s, pat)
    ensures Find(s, pat) == None
  {
  }

  /** The two delimiters character by character. */
  lemma DelimiterChars(s: string, k: nat)
    ensures Occurs(s, LF2, k) <==> k + 2 <= |s| && s[k] == '\n' && s[k + 1] == '\n'
    ensures Occurs(s, CRLF2, k) <==>
      k + 4 <= |s| && s[k] == '\r' && s[k + 1] == '\n' && s[k + 2] == '\r' && s[k + 3] == '\n'
  {
    if k + 2 <= |s| {
      assert s[k..k + 2] == [s[k], s[k + 1]];
    }
    if k + 4 <= |s| {
      assert s[k..k + 4] == [s[k], s[k + 1], s[k + 2], s[k + 3]];
    }
  }

  /** What occurs in a prefix occurs in the whole, and the other way round when it fits into the prefix. */
  lemma OccursInPrefix(a: string, b: string, pat: string, k: nat)
    requires k + |pat| <= |a|
    ensures Occurs(a, pat, k) <==> Occurs(a + b, pat, k)
  {
    assert (a + b)[k..k + |pat|] == a[k..k + |pat|];
  }

  lemma FirstInPrefix(a: string, b: string, pat: string, k: nat)
    requires k + |pat| <= |a|
    ensures IsFirst(a, pat, k) <==> IsFirst(a + b, pat, k)
  {
    hide Occurs;
    forall j: nat | j <= k
      ensures Occurs(a, pat, j) <==> Occurs(a + b, pat, j)
    {
      OccursInPrefix(a, b, pat, j);
    }
  }

  // ---------- Cutting ----------

  datatype Cut = Cut(pos: nat, len: nat)

  /** Where the buffer is cut next: at its first CR LF CR LF, and at its first LF LF only when it has none. */
  function NextCut(buffer: string): (c: Option<Cut>)
    ensures c.Some? ==> c.value.pos + c.value.len <= |buffer| && c.value.len > 0
  {
    match Find(buffer, CRLF2)
    case Some(pos) => Some(Cut(pos, 4))
    case None =>
      match Find(buffer, LF2)
      case Some(pos) => Some(Cut(pos, 2))
      case None => None
  }

  datatype Framed = Framed(frames: seq<string>, rest: string)

  /** The frames that a buffered text gives at once, and what stays in the buffer. */
  function Drain(buffer: string): Framed
    decreases |buffer|
  {
    match NextCut(buffer)
    case None => Framed([], buffer)
    case Some(c) =>
      var more := Drain(buffer[c.pos + c.len..]);
      Framed([buffer[..c.pos]] + more.frames, more.rest)
  }

  function FeedAll(buffer: string, chunks: seq<string>): Framed
    decreases |chunks|
  {
    if chunks == [] then Framed([], buffer)
    else
      var now := Drain(buffer + chunks[0]);
      var later := FeedAll(now.rest, chunks[1..]);
      Framed(now.frames + later.frames, later.rest)
  }

  function Concat(chunks: seq<string>): string {
    if chunks == [] then "" else chunks[0] + Concat(chunks[1..])
  }

  /** The reader of one connection. */
  class StreamReader {
    var buffer: string

    constructor ()
      ensures buffer == ""
    {
      buffer := "";
    }

    /** Takes in a chunk of text and cuts off all frames that are complete. */
    method Feed(text: string) returns (frames: seq<string>)
      modifies this
      ensures Framed(frames, buffer) == Drain(old(buffer) + text)
    {
      hide NextCut;
      buffer := buffer + text;
      ghost var all := buffer;
      frames := [];
      var cut := NextCut(buffer);
      while cut.Some?
        invariant cut == NextCut(buffer)
        invariant Drain(all) == Framed(frames + Drain(buffer).frames, Drain(buffer).rest)
        decreases |buffer|
      {
        var frame := buffer[..cut.value.pos];
        buffer := buffer[cut.value.pos + cut.value.len..];
        frames := frames + [frame];
        cut := NextCut(buffer);
      }
    }
  }

  // ---------- When chunking does not matter ----------

  /** No frame that ends at a CR LF CR LF has a LF LF inside. */
  predicate Unmixed(s: string)
    decreases |s|
  {
    match Find(s, CRLF2)
    case None => true
    case Some(pos) => Absent(s[..pos], LF2) && Unmixed(s[pos + 4..])
  }

  predicate ChunkingIrrelevant(s: string, chunks: seq<string>) {
    FeedAll("", chunks) == Drain(s)
  }

  /** The text that arrived first can be drained before the rest arrives. */
  lemma {:induction false} DrainSplit(a: string, b: string)
    requires Unmixed(a + b)
    ensures var first := Drain(a);
      var second := Drain(first.rest + b);
      && Drain(a + b) == Framed(first.frames + second.frames, second.rest)
      && Unmixed(first.rest + b)
    decreases |a|
  {
    hide Unmixed, NextCut, Find;
    match NextCut(a)
    case None =>
    case Some(c) =>
      SameCut(a, b);
      var a' := a[c.pos + c.len..];
      assert (a + b)[c.pos + c.len..] == a' + b;
      assert (a + b)[..c.pos] == a[..c.pos];
      DrainSplit(a', b);
      var first := Drain(a');
      var second := Drain(first.rest + b);
      assert [a[..c.pos]] + first.frames + second.frames == [a[..c.pos]] + (first.frames + second.frames);
  }

  /** A cut found in the first part is found in the whole. */
  lemma SameCut(a: string, b: string)
    requires Unmixed(a + b) && NextCut(a).Some?
    ensures NextCut(a + b) == NextCut(a)
    ensures var c := NextCut(a).value; Unmixed((a + b)[c.pos + c.len..])
  {
    var s := a + b;
    var c := NextCut(a).value;
    hide Occurs, IsFirst, Absent;
    if Find(a, CRLF2).Some? {
      FirstInPrefix(a, b, CRLF2, c.pos);
      FirstIsFound(s, CRLF2, c.pos);
    } else {
      FirstInPrefix(a, b, LF2, c.pos);
      FirstIsFound(s, LF2, c.pos);
      if Find(s, CRLF2).Some? {
        EarlierLfCut(a, b, c.pos);
      }
      AbsentSuffix(s, CRLF2, c.pos + c.len);
      AbsentIsNotFound(s[c.pos + c.len..], CRLF2);
    }
  }

  lemma EarlierLfCut(a: string, b: string, q: nat)
    requires Find(a, CRLF2).None? && Occurs(a, LF2, q)
    requires Find(a + b, CRLF2).Some?
    ensures !Absent((a + b)[..Find(a + b, CRLF2).value], LF2)
  {
    var s := a + b;
    var pos := Find(s, CRLF2).value;
    assert Occurs(s, CRLF2, pos);
    assert pos + 4 > |a| by {
      if pos + 4 <= |a| {
        OccursInPrefix(a, b, CRLF2, pos);
      }
    }
    OccursInPrefix(a, b, LF2, q);
    DelimiterChars(s, q);
    DelimiterChars(s, pos);
    assert q + 2 <= pos;
    assert s[..pos] + s[pos..] == s;
    OccursInPrefix(s[..pos], s[pos..], LF2, q);
  }

  lemma OccursInSuffix(s: string, pat: string, n: nat, j: nat)
    requires n <= |s|
    ensures Occurs(s[n..], pat, j) <==> Occurs(s, pat, n + j)
  {
    if n + j + |pat| <= |s| {
      assert s[n..][j..j + |pat|] == s[n + j..n + j + |pat|];
    }
  }

  lemma AbsentSuffix(s: string, pat: string, n: nat)
    requires Absent(s, pat) && n <= |s|
    ensures Absent(s[n..], pat)
  {
    hide Occurs;
    forall j: nat | j <= |s[n..]|
      ensures !Occurs(s[n..], pat, j)
    {
      OccursInSuffix(s, pat, n, j);
    }
  }

  lemma {:induction false} ChunksDrain(buffer: string, chunks: seq<string>)
    requires Unmixed(buffer + Concat(chunks)) && Drain(buffer) == Framed([], buffer)
    ensures FeedAll(buffer, chunks) == Drain(buffer + Concat(chunks))
    decreases |chunks|
  {
    if chunks == [] {
      assert buffer + "" == buffer;
    } else {
      var text := buffer + chunks[0];
      assert buffer + Concat(chunks) == text + Concat(chunks[1..]);
      DrainSplit(text, Concat(chunks[1..]));
      DrainRest(text);
      ChunksDrain(Drain(text).rest, chunks[1..]);
    }
  }

  lemma {:induction false} DrainRest(s: string)
    ensures var rest := Drain(s).rest; Drain(rest) == Framed([], rest)
    decreases |s|
  {
    match NextCut(s)
    case None =>
    case Some(c) => DrainRest(s[c.pos + c.len..]);
  }

  /** For a text with a mixed frame, chunks that end after the inner LF LF are framed differently. */
  lemma {:induction false} MixedBreaks(s: string) returns (n: nat)
    requires !Unmixed(s)
    ensures n <= |s|
    ensures |Drain(s[..n]).frames| <= |Drain(s).frames|
    ensures Drain(s[..n]).frames != Drain(s).frames[..|Drain(s[..n]).frames|]
    decreases |s|
  {
    hide Find, IsFirst, Occurs, Drain;
    var pos := Find(s, CRLF2).value;
    var f := s[..pos];
    if Find(f, LF2).Some? {
      n := Find(f, LF2).value + 2;
      BadFrameBreaks(s, pos, n - 2);
    } else {
      var n' := MixedBreaks(s[pos + 4..]);
      n := pos + 4 + n';
      GoodFrameIsKept(s, pos, n');
      hide Unmixed;
      var whole, part := Drain(s[pos + 4..]).frames, Drain(s[pos + 4..][..n']).frames;
      assert ([f] + whole)[..|part| + 1] == [f] + whole[..|part|];
      assert ([f] + part)[1..] == part && ([f] + whole[..|part|])[1..] == whole[..|part|];
    }
  }

  lemma GoodFrameIsKept(s: string, pos: nat, n: nat)
    requires Find(s, CRLF2) == Some(pos) && n <= |s| - pos - 4
    ensures Drain(s).frames == [s[..pos]] + Drain(s[pos + 4..]).frames
    ensures Drain(s[..pos + 4 + n]).frames == [s[..pos]] + Drain(s[pos + 4..][..n]).frames
  {
    hide Drain, Find, IsFirst, Occurs;
    var t, t' := s[..pos + 4 + n], s[pos + 4..][..n];
    assert t + s[pos + 4 + n..] == s && t[pos + 4..] == t' && t[..pos] == s[..pos];
    FirstInPrefix(t, s[pos + 4 + n..], CRLF2, pos);
    FirstIsFound(t, CRLF2, pos);
    DrainAtCrlf(s, pos);
    DrainAtCrlf(t, pos);
  }

  lemma DrainAtCrlf(s: string, pos: nat)
    requires Find(s, CRLF2) == Some(pos)
    ensures pos + 4 <= |s|
    ensures var more := Drain(s[pos + 4..]);
      Drain(s) == Framed([s[..pos]] + more.frames, more.rest)
  {
    hide Find;
  }

  lemma BadFrameBreaks(s: string, pos: nat, q: nat)
    requires Find(s, CRLF2) == Some(pos) && Find(s[..pos], LF2) == Some(q)
    ensures q + 2 <= |s| && Drain(s[..q + 2]).frames == [s[..q]]
    ensures |Drain(s).frames| >= 1 && Drain(s).frames[0] != s[..q]
  {
    var t := s[..q + 2];
    assert t + s[q + 2..] == s && t + s[..pos][q + 2..] == s[..pos];
    forall j: nat | j <= |t|
      ensures !Occurs(t, CRLF2, j)
    {
      if Occurs(t, CRLF2, j) {
        OccursInPrefix(t, s[q + 2..], CRLF2, j);
      }
    }
    AbsentIsNotFound(t, CRLF2);
    FirstInPrefix(t, s[..pos][q + 2..], LF2, q);
    FirstIsFound(t, LF2, q);
    assert t[q + 2..] == "" && t[..q] == s[..q];
    assert Drain("") == Framed([], "");
    assert Drain(s).frames[0] == s[..pos];
  }

  lemma UnmixedChunks(s: string, chunks: seq<string>)
    requires Unmixed(s) && Concat(chunks) == s
    ensures ChunkingIrrelevant(s, chunks)
  {
    assert "" + Concat(chunks) == s;
    assert Drain("") == Framed([], "");
    ChunksDrain("", chunks);
  }

  lemma MixedChunks(s: string) returns (chunks: seq<string>)
    requires !Unmixed(s)
    ensures Concat(chunks) == s && !ChunkingIrrelevant(s, chunks)
  {
    hide Unmixed, Drain;
    var n := MixedBreaks(s);
    chunks := [s[..n], s[n..]];
    var last := [s[n..]];
    assert chunks[1..] == last && last[1..] == [];
    assert Concat(last) == s[n..] + Concat([]) == s[n..];
    assert Concat(chunks) == s[..n] + s[n..] == s;
    assert "" + s[..n] == s[..n];
    var first := Drain(s[..n]);
    var all := FeedAll("", chunks).frames;
    assert all == first.frames + FeedAll(first.rest, last).frames;
    assert all[..|first.frames|] == first.frames;
  }

  /** Every way of splitting the stream into chunks gives the frames and the leftover of the whole stream
      if and only if no frame of the stream that ends at CR LF CR LF has LF LF inside. */
  lemma ChunkingIrrelevantExactlyWhen(s: string)
    ensures (forall chunks | Concat(chunks) == s :: ChunkingIrrelevant(s, chunks)) <==> Unmixed(s)
  {
    hide Unmixed, Concat, ChunkingIrrelevant;
    if Unmixed(s) {
      forall chunks | Concat(chunks) == s
        ensures ChunkingIrrelevant(s, chunks)
      {
        UnmixedChunks(s, chunks);
      }
    } else {
      var chunks := MixedChunks(s);
    }
  }

  /** A stream with one style of line ending is never mixed: all LF, or a CR before every LF. */
  predicate AllLf(s: string) { '\r' !in s }

  predicate AllCrlf(s: string) { forall i | 0 <= i < |s| && s[i] == '\n' :: i > 0 && s[i - 1] == '\r' }

  lemma OneStyleIsUnmixed(s: string)
    requires AllLf(s) || AllCrlf(s)
    ensures Unmixed(s)
    decreases |s|
  {
    match Find(s, CRLF2)
    case None =>
    case Some(pos) =>
      DelimiterChars(s, pos);
      assert AllCrlf(s);
      forall j: nat | j <= pos
        ensures !Occurs(s[..pos], LF2, j)
      {
        DelimiterChars(s[..pos], j);
      }
      var rest := s[pos + 4..];
      assert AllCrlf(rest) by {
        forall i | 0 <= i < |rest| && rest[i] == '\n'
          ensures i > 0 && rest[i - 1] == '\r'
        {
          assert s[pos + 4 + i] == '\n' && s[pos + 3] == '\n';
        }
      }
      OneStyleIsUnmixed(rest);
  }

  // ---------- The fields of a frame ----------

  datatype Fields = Fields(event: string, data: seq<string>)

  function DropCarriageReturns(s: string): string {
    if s != "" && s[|s| - 1] == '\r' then DropCarriageReturns(s[..|s| - 1]) else s
  }

  /** One line of a frame: comments and unknown fields count for nothing, a later event name replaces an
      earlier one, and data lines add up. */
  function ReadLine(f: Fields, raw: string): Fields {
    var line := DropCarriageReturns(raw);
    if line == "" || line[0] == ':' then f
    else if Text.HasPrefix(line, "event:") then f.(event := Text.Trim(line[6..]))
    else if Text.HasPrefix(line, "data:") then f.(data := f.data + [Text.Trim(line[5..])])
    else f
  }

  function ReadLines(f: Fields, lines: seq<string>): Fields
    decreases |lines|
  {
    if lines == [] then f else ReadLines(ReadLine(f, lines[0]), lines[1..])
  }

  /** What a frame asks for: the address of the endpoint, the delivery of a response, or nothing. */
  datatype Delivery = Endpoint(address: string) | Response(text: string) | Nothing

  function Deliver(f: Fields): Delivery {
    var text := Text.Join(f.data, "\n");
    if f.event == "endpoint" then Endpoint(Text.Trim(text))
    else if (f.event == "message" || f.event == "") && text != "" then Response(text)
    else Nothing
  }

  method ProcessFrame(frame: string) returns (d: Delivery)
    ensures d == Deliver(ReadLines(Fields("", []), Text.Lines(frame)))
  {
    var f := Fields("", []);
    var lines := Text.Lines(frame);
    for i := 0 to |lines|
      invariant ReadLines(f, lines[i..]) == ReadLines(Fields("", []), lines)
    {
      f := ReadLine(f, lines[i]);
      assert lines[i..][1..] == lines[i + 1..];
    }
    d := Deliver(f);
  }

  /** What a line says by its start: a data line adds its trimmed value, with or without a space after the colon,
      an event line sets the name, and comments, empty lines and everything else say nothing. */
  lemma LineRules(f: Fields, x: string)
    requires Text.OneLine(x)
    ensures ReadLine(f, "data:" + x) == f.(data := f.data + [Text.Trim(x)])
    ensures ReadLine(f, "event:" + x) == f.(event := Text.Trim(x))
    ensures ReadLine(f, ":" + x) == f && ReadLine(f, "") == f
    ensures !Text.HasPrefix(x, "data:") && !Text.HasPrefix(x, "event:") ==> ReadLine(f, x) == f
  {
    hide Text.Trim;
    DropNothing(x);
    DropNothing("data:" + x);
    DropNothing("event:" + x);
    DropNothing(":" + x);
    hide DropCarriageReturns;
    var d, e := "data:" + x, "event:" + x;
    assert d[0] == 'd' && d[..5] == "data:" && d[5..] == x;
    assert e[0] == 'e' && e[..6] == "event:" && e[6..] == x;
    assert !Text.HasPrefix(d, "event:") by {
      assert |d| >= 6 ==> d[..6][0] == 'd';
    }
  }

  // ---------- A server's stream comes through ----------

  /** Field values that a server can put on one line and that trimming leaves alone. */
  predicate IsValue(s: string) {
    Text.OneLine(s) && Text.Trim(s) == s
  }

  predicate IsEvent(m: Fields) {
    IsValue(m.event) && forall i | 0 <= i < |m.data| :: IsValue(m.data[i])
  }

  function DataLines(data: seq<string>): (r: seq<string>)
    ensures |r| == |data|
  {
    seq(|data|, i requires 0 <= i < |data| => "data: " + data[i])
  }

  function Print(m: Fields, eol: string): string {
    Text.Join(["event: " + m.event] + DataLines(m.data), eol)
  }

  /** Every event is followed by an empty line. */
  function Stream(ms: seq<Fields>, eol: string): string {
    if ms == [] then "" else Print(ms[0], eol) + eol + eol + Stream(ms[1..], eol)
  }

  function Frames(ms: seq<Fields>, eol: string): (r: seq<string>)
    ensures |r| == |ms|
  {
    seq(|ms|, i requires 0 <= i < |ms| => Print(ms[i], eol))
  }

  lemma DropNothing(s: string)
    requires Text.OneLine(s)
    ensures DropCarriageReturns(s) == s
  {
  }

  lemma TrimLeadingSpace(s: string)
    requires Text.Trim(s) == s
    ensures Text.Trim(" " + s) == s
  {
    assert (" " + s)[1..] == s;
  }

  lemma {:induction false} ReadDataLines(f: Fields, data: seq<string>)
    requires forall i | 0 <= i < |data| :: IsValue(data[i])
    ensures ReadLines(f, DataLines(data)) == f.(data := f.data + data)
    decreases |data|
  {
    hide IsValue;
    if data != [] {
      ReadDataLine(f, data[0]);
      assert DataLines(data)[1..] == DataLines(data[1..]);
      ReadDataLines(f.(data := f.data + [data[0]]), data[1..]);
      assert f.data + [data[0]] + data[1..] == f.data + data;
    } else {
      assert f.data + data == f.data;
    }
  }

  lemma ReadDataLine(f: Fields, value: string)
    requires IsValue(value)
    ensures ReadLine(f, "data: " + value) == f.(data := f.data + [value])
  {
    hide Text.Trim;
    var line := "data: " + value;
    DropNothing(line);
    assert line[0] == 'd' && line[..5] == "data:" && line[5..] == " " + value;
    TrimLeadingSpace(value);
  }

  lemma ReadEventLine(f: Fields, value: string)
    requires IsValue(value)
    ensures ReadLine(f, "event: " + value) == f.(event := value)
  {
    hide Text.Trim;
    var line := "event: " + value;
    DropNothing(line);
    assert line[0] == 'e' && line[..6] == "event:" && line[6..] == " " + value;
    TrimLeadingSpace(value);
  }

  /** Reading a printed event gives the event, with either line ending. */
  lemma ReadPrinted(m: Fields, eol: string)
    requires IsEvent(m) && Text.IsLineEnding(eol)
    ensures ReadLines(Fields("", []), Text.Lines(Print(m, eol))) == m
  {
    hide Text.Lines, Text.Trim, Text.Join, ReadLine;
    var lines := ["event: " + m.event] + DataLines(m.data);
    Text.LinesOfJoin(lines, eol);
    assert lines[0] == "event: " + m.event && lines[1..] == DataLines(m.data);
    ReadEventLine(Fields("", []), m.event);
    ReadDataLines(Fields(m.event, []), m.data);
    assert [] + m.data == m.data;
  }

  predicate IsBreak(c: char) { c == '\n' || c == '\r' }

  /** Neither empty lines inside nor line ends at the ends. */
  predicate Solid(s: string) {
    && s != "" && !IsBreak(s[0]) && !IsBreak(s[|s| - 1])
    && forall i | 0 <= i < |s| - 1 && s[i] == '\n' :: !IsBreak(s[i + 1])
  }

  lemma {:induction false} JoinIsSolid(lines: seq<string>, eol: string)
    requires Text.IsLineEnding(eol)
    requires lines != [] && forall i | 0 <= i < |lines| :: Text.OneLine(lines[i]) && lines[i] != ""
    ensures Solid(Text.Join(lines, eol))
    ensures eol == "\n" ==> '\r' !in Text.Join(lines, eol)
  {
    var first := lines[0];
    if |lines| > 1 {
      JoinIsSolid(lines[1..], eol);
      var rest := Text.Join(lines[1..], eol);
      var s := first + eol + rest;
      forall i | 0 <= i < |s| - 1 && s[i] == '\n'
        ensures !IsBreak(s[i + 1])
      {
        var at := |first| + |eol|;
        if i >= at {
          assert s[i] == rest[i - at] && s[i + 1] == rest[i - at + 1];
        } else if i >= |first| {
          assert s[at] == rest[0];
        }
      }
    }
  }

  lemma SolidIsFirst(f: string, eol: string, rest: string)
    requires Solid(f) && Text.IsLineEnding(eol)
    ensures IsFirst(f + eol + eol + rest, eol + eol, |f|)
  {
    var s := f + eol + eol + rest;
    var pat := eol + eol;
    forall j: nat | j < |f|
      ensures !Occurs(s, pat, j)
    {
      hide Occurs;
      DelimiterChars(s, j);
      assert s[j] == f[j];
      assert j + 1 < |f| ==> s[j + 1] == f[j + 1];
      assert j + 2 < |f| ==> s[j + 2] == f[j + 2];
      assert eol == "\r\n" ==> pat == CRLF2;
    }
    assert s[|f|..|f| + |pat|] == pat;
  }

  /** A solid frame before an empty line is what is cut off next. */
  lemma SolidIsCut(f: string, eol: string, rest: string)
    requires Solid(f) && Text.IsLineEnding(eol) && (eol == "\n" ==> '\r' !in f && '\r' !in rest)
    ensures var s := f + eol + eol + rest;
      NextCut(s) == Some(Cut(|f|, 2 * |eol|)) && s[..|f|] == f && s[|f| + 2 * |eol|..] == rest
    ensures eol == "\n" ==> Find(f + eol + eol + rest, CRLF2) == None
    ensures eol == "\r\n" ==> Find(f + eol + eol + rest, CRLF2) == Some(|f|)
  {
    hide Occurs, IsFirst, Absent, Find, Solid;
    var s := f + eol + eol + rest;
    SolidIsFirst(f, eol, rest);
    FirstIsFound(s, eol + eol, |f|);
    assert s[..|f|] == f;
    assert s[|f| + 2 * |eol|..] == rest;
    if eol == "\n" {
      assert '\r' !in s;
      OnlyLfHasNoCrlf(s);
      assert eol + eol == LF2;
    } else {
      assert eol + eol == CRLF2;
    }
  }

  lemma SolidIsUnmixed(f: string, eol: string, rest: string)
    requires Solid(f) && Text.IsLineEnding(eol) && (eol == "\n" ==> '\r' !in f && '\r' !in rest)
    requires Unmixed(rest)
    ensures Unmixed(f + eol + eol + rest)
  {
    hide Occurs, IsFirst, Absent, Find, Solid;
    SolidIsCut(f, eol, rest);
    SolidHasNoLf2(f);
  }

  lemma OnlyLfHasNoCrlf(s: string)
    requires '\r' !in s
    ensures Find(s, CRLF2) == None
  {
    forall j: nat | j <= |s|
      ensures !Occurs(s, CRLF2, j)
    {
      DelimiterChars(s, j);
    }
  }

  lemma SolidHasNoLf2(f: string)
    requires Solid(f)
    ensures Absent(f, LF2)
  {
    forall j: nat | j <= |f|
      ensures !Occurs(f, LF2, j)
    {
      DelimiterChars(f, j);
    }
  }

  lemma PrintIsSolid(m: Fields, eol: string)
    requires IsEvent(m) && Text.IsLineEnding(eol)
    ensures Solid(Print(m, eol)) && (eol == "\n" ==> '\r' !in Print(m, eol))
  {
    JoinIsSolid(["event: " + m.event] + DataLines(m.data), eol);
  }

  lemma {:induction false} StreamIsUnmixed(ms: seq<Fields>, eol: string)
    requires Text.IsLineEnding(eol) && forall i | 0 <= i < |ms| :: IsEvent(ms[i])
    ensures eol == "\n" ==> '\r' !in Stream(ms, eol)
    ensures Unmixed(Stream(ms, eol))
  {
    hide IsEvent, Print, Solid, Find, Unmixed;
    if ms == [] {
      OnlyLfHasNoCrlf("");
      OneStyleIsUnmixed("");
    } else {
      StreamIsUnmixed(ms[1..], eol);
      PrintIsSolid(ms[0], eol);
      SolidIsUnmixed(Print(ms[0], eol), eol, Stream(ms[1..], eol));
    }
  }

  lemma {:induction false} DrainStream(ms: seq<Fields>, eol: string)
    requires Text.IsLineEnding(eol) && forall i | 0 <= i < |ms| :: IsEvent(ms[i])
    ensures Drain(Stream(ms, eol)) == Framed(Frames(ms, eol), "")
  {
    hide IsEvent, Print, Solid, Occurs, IsFirst, Find, Unmixed;
    if ms == [] {
      OnlyLfHasNoCrlf("");
      assert Find("", LF2) == None;
    } else {
      DrainStream(ms[1..], eol);
      StreamIsUnmixed(ms[1..], eol);
      PrintIsSolid(ms[0], eol);
      SolidIsCut(Print(ms[0], eol), eol, Stream(ms[1..], eol));
      hide NextCut;
      assert Frames(ms, eol) == [Print(ms[0], eol)] + Frames(ms[1..], eol);
    }
  }

  /** What a server asks for with an event: data of an unnamed event or a message is a response, unless it is
      empty, and an endpoint event gives the address on its one line. */
  predicate Asks(m: Fields, d: Delivery) {
    && ((m.event == "message" || m.event == "") && m.data !in {[], [""]} ==> d == Response(Text.Join(m.data, "\n")))
    && (m.event == "endpoint" && |m.data| == 1 ==> d == Endpoint(m.data[0]))
    && (m.event !in {"endpoint", "message", ""} || (m.event != "endpoint" && m.data in {[], [""]}) ==> d == Nothing)
  }

  lemma EmptyJoin(data: seq<string>)
    ensures Text.Join(data, "\n") == "" <==> data in {[], [""]}
  {
    if |data| == 1 {
      assert data == [data[0]];
    } else if data != [] {
      assert Text.Join(data, "\n") == data[0] + "\n" + Text.Join(data[1..], "\n");
    }
  }

  lemma PrintedIsDelivered(m: Fields)
    requires IsEvent(m)
    ensures Asks(m, Deliver(m))
  {
    EmptyJoin(m.data);
    if |m.data| == 1 {
      assert Text.Join(m.data, "\n") == m.data[0];
    }
  }

  /** However a server's events are split into chunks on their way, the reader cuts them into one frame for
      each event, reads the event back from it, delivers what the event asks for, and leaves nothing in the
      buffer. */
  lemma EventsComeThrough(ms: seq<Fields>, eol: string, chunks: seq<string>)
    requires Text.IsLineEnding(eol) && forall i | 0 <= i < |ms| :: IsEvent(ms[i])
    requires Concat(chunks) == Stream(ms, eol)
    ensures var framed := FeedAll("", chunks);
      && framed.rest == "" && |framed.frames| == |ms|
      && forall i | 0 <= i < |ms| ::
           var read := ReadLines(Fields("", []), Text.Lines(framed.frames[i]));
           read == ms[i] && Asks(ms[i], Deliver(read))
  {
    hide IsEvent, Drain, FeedAll, Text.Lines, ReadLines, Asks, Deliver;
    DrainStream(ms, eol);
    StreamIsUnmixed(ms, eol);
    ChunkingIrrelevantExactlyWhen(Stream(ms, eol));
    assert ChunkingIrrelevant(Stream(ms, eol), chunks);
    forall i | 0 <= i < |ms|
      ensures ReadLines(Fields("", []), Text.Lines(Frames(ms, eol)[i])) == ms[i] && Asks(ms[i], Deliver(ms[i]))
    {
      ReadPrinted(ms[i], eol);
      PrintedIsDelivered(ms[i]);
    }
  }
}
