/** Splitting a document into chunks of whole lines. The three kinds of document share one loop and differ in
    where a chunk may end early. The token estimator comes from outside. */
module Chunker {
  import opened Text

  datatype Kind = Markdown | Code | PlainText

  datatype Chunk = Chunk(ord: nat, lineStart: nat, lineEnd: nat, text: string, kind: Kind, tokens: nat)

  type Estimator = string -> nat

  const HEADINGS: set<string> := {"# ", "## ", "### ", "#### "}

  const DECLARATIONS: set<string> := {
    "fn ", "pub fn ", "pub(crate) fn ", "async fn ", "pub async fn ", "def ", "class ", "async def ",
    "function ", "export function ", "export default function ", "struct ", "pub struct ", "enum ",
    "pub enum ", "impl ", "trait ", "pub trait "
  }

  /** A line before which a chunk may end. */
  predicate IsBoundary(kind: Kind, line: string) {
    match kind
    case Markdown => exists h | h in HEADINGS :: HasPrefix(line, h)
    case Code => exists d | d in DECLARATIONS :: HasPrefix(TrimStart(line), d)
    case PlainText => Trim(line) == ""
  }

  /** A chunk that ends before a boundary has at least so many tokens. */
  function Minimum(kind: Kind): nat { match kind case Markdown => 80 case Code => 60 case PlainText => 100 }

  /** A chunk ends with the line that makes it larger than this. */
  function Ceiling(kind: Kind): nat { match kind case Markdown => 800 case Code => 750 case PlainText => 600 }

  /** The kind of a document by the extension of its file, in lower case. */
  function KindOf(extension: string): Kind {
    if extension in {"md", "markdown", "mdx"} then Markdown
    else if extension in {"rs", "py", "js", "jsx", "ts", "tsx", "go", "c", "cpp", "h", "hpp", "java", "json", "yaml",
                          "yml", "toml", "sql", "sh", "ps1"} then Code
    else PlainText
  }

  // ---------- The rules in other words ----------

  /** How many number signs a line starts with. */
  function Signs(line: string): nat {
    if line != "" && line[0] == '#' then 1 + Signs(line[1..]) else 0
  }

  lemma {:induction false} SignsAre(line: string, n: nat)
    ensures Signs(line) == n <==>
      && n <= |line| && (forall i | 0 <= i < n :: line[i] == '#') && (n < |line| ==> line[n] != '#')
  {
    if line != "" && line[0] == '#' && n > 0 {
      SignsAre(line[1..], n - 1);
      assert forall i | 0 < i < |line| :: line[i] == line[1..][i - 1];
    }
  }

  /** A Markdown heading has one to four number signs and then a space. */
  lemma HeadingRule(line: string)
    ensures IsBoundary(Markdown, line) <==>
      1 <= Signs(line) <= 4 && Signs(line) < |line| && line[Signs(line)] == ' '
  {
    hide Signs, HasPrefix;
    HeadingPrefix(line, "# ", 1);
    HeadingPrefix(line, "## ", 2);
    HeadingPrefix(line, "### ", 3);
    HeadingPrefix(line, "#### ", 4);
  }

  lemma HeadingPrefix(line: string, h: string, n: nat)
    requires |h| == n + 1 && h[n] == ' ' && forall j | 0 <= j < n :: h[j] == '#'
    ensures HasPrefix(line, h) <==> Signs(line) == n < |line| && line[n] == ' '
  {
    SignsAre(line, n);
    hide Signs;
    if |h| <= |line| {
      assert line[..|h|] == h <==> forall j | 0 <= j < |h| :: line[j] == h[j];
    }
  }

  /** A blank line ends a chunk of plain text. */
  lemma BlankRule(line: string)
    ensures IsBoundary(PlainText, line) <==> forall i | 0 <= i < |line| :: IsSpace(line[i])
  {
    hide IsSpace;
    var before, after := TrimIs(line);
    if Trim(line) == "" {
      assert line == before + after;
    } else {
      assert line[|before|] == Trim(line)[0];
    }
  }

  /** Which keywords may stand behind which words. */
  predicate Declares(before: string, keyword: string) {
    || (before == "" && keyword in {"fn", "def", "class", "function", "struct", "enum", "impl", "trait"})
    || (before == "pub " && keyword in {"fn", "struct", "enum", "trait"})
    || (before == "async " && keyword in {"fn", "def"})
    || (before in {"pub(crate) ", "pub async "} && keyword == "fn")
    || (before in {"export ", "export default "} && keyword == "function")
  }

  lemma PartsOf(d: string) returns (before: string, keyword: string)
    requires d in DECLARATIONS
    ensures Declares(before, keyword) && d == before + keyword + " "
  {
    if d == "fn " {
      before, keyword := "", "fn";
    } else if d == "pub fn " {
      before, keyword := "pub ", "fn";
    } else if d == "pub(crate) fn " {
      before, keyword := "pub(crate) ", "fn";
    } else if d == "async fn " {
      before, keyword := "async ", "fn";
    } else if d == "pub async fn " {
      before, keyword := "pub async ", "fn";
    } else if d == "def " {
      before, keyword := "", "def";
    } else if d == "class " {
      before, keyword := "", "class";
    } else if d == "async def " {
      before, keyword := "async ", "def";
    } else if d == "function " {
      before, keyword := "", "function";
    } else if d == "export function " {
      before, keyword := "export ", "function";
    } else if d == "export default function " {
      before, keyword := "export default ", "function";
    } else if d == "struct " {
      before, keyword := "", "struct";
    } else if d == "pub struct " {
      before, keyword := "pub ", "struct";
    } else if d == "enum " {
      before, keyword := "", "enum";
    } else if d == "pub enum " {
      before, keyword := "pub ", "enum";
    } else if d == "impl " {
      before, keyword := "", "impl";
    } else if d == "trait " {
      before, keyword := "", "trait";
    } else {
      before, keyword := "pub ", "trait";
    }
  }

  lemma JoinedIsListed(before: string, keyword: string)
    requires Declares(before, keyword)
    ensures before + keyword + " " in DECLARATIONS
  {
    assert "" + "fn" + " " == "fn ";
    assert "pub " + "fn" + " " == "pub fn ";
    assert "pub(crate) " + "fn" + " " == "pub(crate) fn ";
    assert "async " + "fn" + " " == "async fn ";
    assert "pub async " + "fn" + " " == "pub async fn ";
    assert "" + "def" + " " == "def ";
    assert "" + "class" + " " == "class ";
    assert "async " + "def" + " " == "async def ";
    assert "" + "function" + " " == "function ";
    assert "export " + "function" + " " == "export function ";
    assert "export default " + "function" + " " == "export default function ";
    assert "" + "struct" + " " == "struct ";
    assert "pub " + "struct" + " " == "pub struct ";
    assert "" + "enum" + " " == "enum ";
    assert "pub " + "enum" + " " == "pub enum ";
    assert "" + "impl" + " " == "impl ";
    assert "" + "trait" + " " == "trait ";
    assert "pub " + "trait" + " " == "pub trait ";
  }

  /** A declaration starts with a keyword and a space, behind the words that may stand before it. */
  lemma DeclarationRule(line: string)
    ensures IsBoundary(Code, line) <==>
      exists before, keyword :: Declares(before, keyword) && HasPrefix(TrimStart(line), before + keyword + " ")
  {
    hide TrimStart, HasPrefix, Declares;
    var t := TrimStart(line);
    if IsBoundary(Code, line) {
      var d :| d in DECLARATIONS && HasPrefix(t, d);
      var before, keyword := PartsOf(d);
      assert Declares(before, keyword) && HasPrefix(t, before + keyword + " ");
    }
    if before, keyword :| Declares(before, keyword) && HasPrefix(t, before + keyword + " ") {
      JoinedIsListed(before, keyword);
    }
  }

  // ---------- Where chunks end ----------

  function Tokens(est: Estimator, lines: seq<string>, a: nat, b: nat): nat
    requires a <= b <= |lines|
  {
    est(Join(lines[a..b], "\n"))
  }

  /** A chunk of the lines from a has to end before line b (counted from 0). */
  predicate MustEnd(kind: Kind, est: Estimator, lines: seq<string>, a: nat, b: nat)
    requires a < b <= |lines|
  {
    || b == |lines|
    || Tokens(est, lines, a, b) > Ceiling(kind)
    || (IsBoundary(kind, lines[b]) && Tokens(est, lines, a, b) >= Minimum(kind))
  }

  /** A chunk of the lines from a goes on up to line b. */
  predicate GoesOn(kind: Kind, est: Estimator, lines: seq<string>, a: nat, b: nat) {
    a <= b <= |lines| && forall c: nat | a < c < b :: !MustEnd(kind, est, lines, a, c)
  }

  /** The lines from a to b make a chunk: it ends at b and could not end before. */
  predicate IsPiece(kind: Kind, est: Estimator, lines: seq<string>, a: nat, b: nat) {
    a < b && GoesOn(kind, est, lines, a, b) && MustEnd(kind, est, lines, a, b)
  }

  /** The chunk number `ord`, over the lines from a to b. */
  function Piece(kind: Kind, est: Estimator, lines: seq<string>, ord: nat, a: nat, b: nat): Chunk
    requires a <= b <= |lines|
  {
    Chunk(ord, a + 1, b, Join(lines[a..b], "\n"), kind, Tokens(est, lines, a, b))
  }

  predicate ChunkOk(kind: Kind, est: Estimator, lines: seq<string>, chunks: seq<Chunk>, i: nat)
    requires i < |chunks|
  {
    var c := chunks[i];
    && c.lineStart == (if i == 0 then 0 else chunks[i - 1].lineEnd) + 1
    && IsPiece(kind, est, lines, c.lineStart - 1, c.lineEnd)
    && c == Piece(kind, est, lines, i, c.lineStart - 1, c.lineEnd)
  }

  ghost predicate AllOk(kind: Kind, est: Estimator, lines: seq<string>, chunks: seq<Chunk>) {
    forall i | 0 <= i < |chunks| :: ChunkOk(kind, est, lines, chunks, i)
  }

  function Covered(chunks: seq<Chunk>): nat { if chunks == [] then 0 else chunks[|chunks| - 1].lineEnd }

  /** These are the chunks of the lines. */
  ghost predicate IsChunking(kind: Kind, est: Estimator, lines: seq<string>, chunks: seq<Chunk>) {
    AllOk(kind, est, lines, chunks) && Covered(chunks) == |lines|
  }

  // ---------- The loop ----------

  method Split(kind: Kind, est: Estimator, content: string) returns (chunks: seq<Chunk>)
    ensures IsChunking(kind, est, Lines(content), chunks)
  {
    hide IsBoundary, Lines, Join, MustEnd, GoesOn, AllOk, Covered, Minimum, Ceiling;
    var lines := Lines(content);
    chunks := [];
    NoChunks(kind, est, lines);
    if lines == [] {
      return;
    }
    var current: seq<string> := [];
    var startLine := 1;
    var ord := 0;
    assert GoesOn(kind, est, lines, 0, 0) by {
      NothingOpen(kind, est, lines, 0);
    }
    for idx := 0 to |lines|
      invariant 1 <= startLine <= idx + 1 && current == lines[startLine - 1..idx]
      invariant ord == |chunks| && Covered(chunks) == startLine - 1
      invariant AllOk(kind, est, lines, chunks)
      invariant GoesOn(kind, est, lines, startLine - 1, idx)
      invariant startLine - 1 < idx ==> est(Join(current, "\n")) <= Ceiling(kind)
    {
      var lineNum := idx + 1;
      EndOrGoOn(kind, est, lines, startLine - 1, idx);
      if IsBoundary(kind, lines[idx]) && current != [] {
        var text := Join(current, "\n");
        var tokens := est(text);
        if tokens >= Minimum(kind) {
          var chunk := Chunk(ord, startLine, lineNum - 1, text, kind, tokens);
          AddPiece(kind, est, lines, chunks, chunk);
          chunks := chunks + [chunk];
          ord := ord + 1;
          current := [];
          startLine := lineNum;
          NothingOpen(kind, est, lines, idx);
        }
      }
      assert current == lines[startLine - 1..idx] && GoesOn(kind, est, lines, startLine - 1, idx + 1);
      SliceGrows(lines, startLine - 1, idx);
      current := current + [lines[idx]];
      var currentText := Join(current, "\n");
      EndOrGoOn(kind, est, lines, startLine - 1, idx + 1);
      if est(currentText) > Ceiling(kind) {
        var chunk := Chunk(ord, startLine, lineNum, currentText, kind, est(currentText));
        AddPiece(kind, est, lines, chunks, chunk);
        chunks := chunks + [chunk];
        ord := ord + 1;
        current := [];
        startLine := lineNum + 1;
        NothingOpen(kind, est, lines, idx + 1);
      }
    }
    if current != [] {
      var text := Join(current, "\n");
      var chunk := Chunk(ord, startLine, |lines|, text, kind, est(text));
      EndOrGoOn(kind, est, lines, startLine - 1, |lines|);
      AddPiece(kind, est, lines, chunks, chunk);
      chunks := chunks + [chunk];
    }
  }

  /** No chunk is larger than `ceiling` without its last line, and one that ends below the ceiling before the
      document does has at least `minimum` tokens. */
  predicate WithinLimits(est: Estimator, lines: seq<string>, chunks: seq<Chunk>, minimum: nat, ceiling: nat) {
    forall i | 0 <= i < |chunks| ::
      && 0 < chunks[i].lineStart <= chunks[i].lineEnd <= |lines|
      && est(Join(lines[chunks[i].lineStart - 1..chunks[i].lineEnd - 1], "\n")) <= ceiling
      && (i < |chunks| - 1 && chunks[i].tokens <= ceiling ==> chunks[i].tokens >= minimum)
  }

  /** Chunks a file by its extension. */
  method ChunkFile(extension: string, est: Estimator, content: string) returns (chunks: seq<Chunk>)
    ensures IsChunking(KindOf(extension), est, Lines(content), chunks)
    ensures est("") == 0 ==>
      if extension in {"md", "markdown", "mdx"} then WithinLimits(est, Lines(content), chunks, 80, 800)
      else if extension in {"rs", "py", "js", "jsx", "ts", "tsx", "go", "c", "cpp", "h", "hpp", "java", "json", "yaml",
                            "yml", "toml", "sql", "sh", "ps1"} then WithinLimits(est, Lines(content), chunks, 60, 750)
      else WithinLimits(est, Lines(content), chunks, 100, 600)
  {
    chunks := Split(KindOf(extension), est, content);
    if est("") == 0 {
      LimitsHold(KindOf(extension), est, Lines(content), chunks);
    }
    hide WithinLimits, IsChunking, Lines;
  }

  lemma LimitsHold(kind: Kind, est: Estimator, lines: seq<string>, chunks: seq<Chunk>)
    requires IsChunking(kind, est, lines, chunks) && est("") == 0
    ensures WithinLimits(est, lines, chunks, Minimum(kind), Ceiling(kind))
  {
    hide IsBoundary, IsChunking, Join;
    forall i | 0 <= i < |chunks|
      ensures 0 < chunks[i].lineStart <= chunks[i].lineEnd <= |lines|
      ensures est(Join(lines[chunks[i].lineStart - 1..chunks[i].lineEnd - 1], "\n")) <= Ceiling(kind)
      ensures i < |chunks| - 1 && chunks[i].tokens <= Ceiling(kind) ==> chunks[i].tokens >= Minimum(kind)
    {
      ChunkSizes(kind, est, lines, chunks, i);
    }
  }

  lemma SliceGrows(lines: seq<string>, a: nat, b: nat)
    requires a <= b < |lines|
    ensures lines[a..b] + [lines[b]] == lines[a..b + 1]
  {
  }

  lemma NoChunks(kind: Kind, est: Estimator, lines: seq<string>)
    ensures AllOk(kind, est, lines, []) && Covered([]) == 0
  {
  }

  lemma NothingOpen(kind: Kind, est: Estimator, lines: seq<string>, a: nat)
    requires a <= |lines|
    ensures GoesOn(kind, est, lines, a, a)
    ensures a < |lines| ==> GoesOn(kind, est, lines, a, a + 1)
  {
  }

  lemma EndOrGoOn(kind: Kind, est: Estimator, lines: seq<string>, a: nat, b: nat)
    requires a <= b <= |lines| && GoesOn(kind, est, lines, a, b)
    ensures a < b ==>
      (MustEnd(kind, est, lines, a, b) <==>
        || b == |lines|
        || est(Join(lines[a..b], "\n")) > Ceiling(kind)
        || (IsBoundary(kind, lines[b]) && est(Join(lines[a..b], "\n")) >= Minimum(kind)))
    ensures b < |lines| && (a == b || !MustEnd(kind, est, lines, a, b)) ==> GoesOn(kind, est, lines, a, b + 1)
  {
    hide IsBoundary, Join;
  }

  lemma AddPiece(kind: Kind, est: Estimator, lines: seq<string>, chunks: seq<Chunk>, chunk: Chunk)
    requires AllOk(kind, est, lines, chunks)
    requires chunk.lineStart == Covered(chunks) + 1 <= chunk.lineEnd <= |lines|
    requires GoesOn(kind, est, lines, chunk.lineStart - 1, chunk.lineEnd)
    requires MustEnd(kind, est, lines, chunk.lineStart - 1, chunk.lineEnd)
    requires chunk.ord == |chunks| && chunk.kind == kind && chunk.tokens == est(chunk.text)
    requires chunk.text == Join(lines[chunk.lineStart - 1..chunk.lineEnd], "\n")
    ensures AllOk(kind, est, lines, chunks + [chunk]) && Covered(chunks + [chunk]) == chunk.lineEnd
  {
    hide MustEnd, GoesOn, Join;
    var all := chunks + [chunk];
    forall i | 0 <= i < |all|
      ensures ChunkOk(kind, est, lines, all, i)
    {
      if i < |chunks| {
        assert ChunkOk(kind, est, lines, chunks, i);
      }
    }
  }

  // ---------- What chunks are ----------

  /** A chunk after others starts before the end of the document. */
  lemma RoomBefore(kind: Kind, est: Estimator, lines: seq<string>, chunks: seq<Chunk>, n: nat)
    requires AllOk(kind, est, lines, chunks) && n < |chunks|
    ensures Covered(chunks[..n]) < |lines| && chunks[n].lineStart == Covered(chunks[..n]) + 1
  {
    hide MustEnd, Piece;
    assert ChunkOk(kind, est, lines, chunks, n);
  }

  lemma OneWayOn(kind: Kind, est: Estimator, lines: seq<string>, a: nat, b: nat, c: nat)
    requires IsPiece(kind, est, lines, a, b) && IsPiece(kind, est, lines, a, c)
    ensures b == c
  {
    hide MustEnd;
  }

  lemma {:induction false} ChunkingsAgree(kind: Kind, est: Estimator, lines: seq<string>,
                                          xs: seq<Chunk>, ys: seq<Chunk>, n: nat)
    requires AllOk(kind, est, lines, xs) && AllOk(kind, est, lines, ys) && n <= |xs| && n <= |ys|
    ensures xs[..n] == ys[..n]
  {
    hide IsPiece, Piece;
    if n > 0 {
      ChunkingsAgree(kind, est, lines, xs, ys, n - 1);
      var i := n - 1;
      RoomBefore(kind, est, lines, xs, i);
      RoomBefore(kind, est, lines, ys, i);
      assert ChunkOk(kind, est, lines, xs, i) && ChunkOk(kind, est, lines, ys, i);
      OneWayOn(kind, est, lines, xs[i].lineStart - 1, xs[i].lineEnd, ys[i].lineEnd);
      assert xs[..n] == xs[..i] + [xs[i]] && ys[..n] == ys[..i] + [ys[i]];
    }
  }

  /** A document has exactly one chunking. */
  lemma ChunkingIsUnique(kind: Kind, est: Estimator, lines: seq<string>, xs: seq<Chunk>, ys: seq<Chunk>)
    requires IsChunking(kind, est, lines, xs) && IsChunking(kind, est, lines, ys)
    ensures xs == ys
  {
    hide AllOk;
    assert xs[..|xs|] == xs && ys[..|ys|] == ys;
    if |xs| <= |ys| {
      ChunkingsAgree(kind, est, lines, xs, ys, |xs|);
      if |xs| < |ys| {
        RoomBefore(kind, est, lines, ys, |xs|);
      }
    } else {
      ChunkingsAgree(kind, est, lines, xs, ys, |ys|);
      RoomBefore(kind, est, lines, xs, |ys|);
    }
  }

  function Texts(chunks: seq<Chunk>): seq<string> {
    seq(|chunks|, i requires 0 <= i < |chunks| => chunks[i].text)
  }

  lemma {:induction false} TextsJoin(kind: Kind, est: Estimator, lines: seq<string>, chunks: seq<Chunk>)
    requires AllOk(kind, est, lines, chunks)
    ensures Covered(chunks) <= |lines|
    ensures chunks != [] ==> Covered(chunks) > 0
    ensures Join(Texts(chunks), "\n") == Join(lines[..Covered(chunks)], "\n")
  {
    hide MustEnd, Join;
    if chunks == [] {
      assert Texts(chunks) == [] && lines[..0] == [];
    } else {
      var front, last := chunks[..|chunks| - 1], chunks[|chunks| - 1];
      assert ChunkOk(kind, est, lines, chunks, |chunks| - 1);
      forall i | 0 <= i < |front|
        ensures ChunkOk(kind, est, lines, front, i)
      {
        assert ChunkOk(kind, est, lines, chunks, i);
      }
      TextsJoin(kind, est, lines, front);
      assert Texts(chunks) == Texts(front) + [last.text];
      JoinOne(last.text);
      if front != [] {
        JoinAppend(Texts(front), [last.text], "\n");
        var a, b := last.lineStart - 1, last.lineEnd;
        assert lines[..a] + lines[a..b] == lines[..b];
        JoinAppend(lines[..a], lines[a..b], "\n");
      } else {
        assert Texts(chunks) == [last.text] && lines[..last.lineEnd] == lines[0..last.lineEnd];
      }
    }
  }

  lemma JoinOne(s: string)
    ensures Join([s], "\n") == s
  {
  }

  /** The chunks of a document number it through and cut it up without gap or overlap: each takes up at the
      line after the last, none is empty, and joining their texts gives the document's lines joined. */
  lemma ChunkingPartitions(kind: Kind, est: Estimator, lines: seq<string>, chunks: seq<Chunk>)
    requires IsChunking(kind, est, lines, chunks)
    ensures chunks == [] <==> lines == []
    ensures Join(Texts(chunks), "\n") == Join(lines, "\n")
    ensures forall i | 0 <= i < |chunks| ::
      chunks[i].ord == i && 1 <= chunks[i].lineStart <= chunks[i].lineEnd <= |lines|
    ensures forall i | 0 < i < |chunks| :: chunks[i].lineStart == chunks[i - 1].lineEnd + 1
    ensures chunks != [] ==> chunks[0].lineStart == 1 && chunks[|chunks| - 1].lineEnd == |lines|
  {
    hide Join, MustEnd, Texts;
    TextsJoin(kind, est, lines, chunks);
    assert lines[..|lines|] == lines;
    forall i | 0 <= i < |chunks|
      ensures chunks[i].ord == i && 1 <= chunks[i].lineStart <= chunks[i].lineEnd <= |lines|
      ensures chunks[i].lineStart == (if i == 0 then 0 else chunks[i - 1].lineEnd) + 1
    {
      assert ChunkOk(kind, est, lines, chunks, i);
    }
    if chunks != [] {
      assert ChunkOk(kind, est, lines, chunks, 0);
    }
  }

  /** Every chunk is within the ceiling when its last line is left out, whatever the estimator, provided that
      the empty text is. Only a chunk that its last line made too large exceeds the ceiling at all, and a
      chunk below the minimum is the last one. */
  lemma ChunkSizes(kind: Kind, est: Estimator, lines: seq<string>, chunks: seq<Chunk>, i: nat)
    requires IsChunking(kind, est, lines, chunks) && i < |chunks| && est("") <= Ceiling(kind)
    ensures 0 < chunks[i].lineStart <= chunks[i].lineEnd <= |lines|
    ensures est(Join(lines[chunks[i].lineStart - 1..chunks[i].lineEnd - 1], "\n")) <= Ceiling(kind)
    ensures i < |chunks| - 1 ==> chunks[i].lineEnd < |lines|
    ensures i < |chunks| - 1 && chunks[i].tokens <= Ceiling(kind) ==>
      chunks[i].tokens >= Minimum(kind) && IsBoundary(kind, lines[chunks[i].lineEnd])
  {
    hide IsBoundary, Join;
    var c := chunks[i];
    assert ChunkOk(kind, est, lines, chunks, i);
    var a, b := c.lineStart - 1, c.lineEnd;
    if b - 1 == a {
      JoinNone(lines[a..b - 1]);
    } else {
      assert !MustEnd(kind, est, lines, a, b - 1);
    }
    if i < |chunks| - 1 {
      assert ChunkOk(kind, est, lines, chunks, i + 1);
    }
  }

  lemma JoinNone(lines: seq<string>)
    requires |lines| == 0
    ensures Join(lines, "\n") == ""
  {
  }
}
