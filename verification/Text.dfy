/** Lines, joining and trimming, shared by the other modules. */
module Text {

  /** Position of the first occurrence of `c` in `s`, or |s| when there is none. */
  function IndexOf(s: string, c: char): (k: nat)
    ensures k <= |s|
    ensures c !in s[..k]
    ensures k < |s| ==> s[k] == c
  {
    if s == "" then 0
    else if s[0] == c then 0
    else
      var k := 1 + IndexOf(s[1..], c);
      assert s[..k] == [s[0]] + s[1..][..k - 1];
      k
  }

  /** A terminated line loses one carriage return that precedes its line feed. */
  function StripCarriageReturn(line: string): string {
    if line != "" && line[|line| - 1] == '\r' then line[..|line| - 1] else line
  }

  /** The lines of a text: split after every LF, drop the LF and one CR before it. An unterminated
      last line is kept as it is, and a final LF does not open another line. */
  function Lines(s: string): seq<string> {
    var k := IndexOf(s, '\n');
    if s == "" then []
    else if k == |s| then [s]
    else [StripCarriageReturn(s[..k])] + Lines(s[k + 1..])
  }

  function Join(lines: seq<string>, eol: string): string {
    if lines == [] then ""
    else if |lines| == 1 then lines[0]
    else lines[0] + eol + Join(lines[1..], eol)
  }

  lemma {:induction false} JoinAppend(xs: seq<string>, ys: seq<string>, eol: string)
    requires xs != [] && ys != []
    ensures Join(xs + ys, eol) == Join(xs, eol) + eol + Join(ys, eol)
  {
    if |xs| == 1 {
      assert xs + ys == [xs[0]] + ys;
      assert (xs + ys)[1..] == ys;
    } else {
      JoinAppend(xs[1..], ys, eol);
      assert (xs + ys)[1..] == xs[1..] + ys;
      var rest, last := Join(xs[1..], eol), Join(ys, eol);
      assert Join(xs + ys, eol) == xs[0] + eol + (rest + eol + last);
      assert Join(xs, eol) == xs[0] + eol + rest;
      hide *;
      assert xs[0] + eol + (rest + eol + last) == xs[0] + eol + rest + eol + last;
    }
  }

  predicate IsLineEnding(eol: string) {
    eol == "\n" || eol == "\r\n"
  }

  /** Text that fits on one line. */
  predicate OneLine(s: string) {
    '\n' !in s && '\r' !in s
  }

  lemma {:induction false} IndexOfIs(s: string, c: char, k: nat)
    requires k < |s| && c !in s[..k] && s[k] == c
    ensures IndexOf(s, c) == k
  {
    if k > 0 {
      assert s[0] == s[..k][0] && s[1..][..k - 1] == s[..k][1..];
      IndexOfIs(s[1..], c, k - 1);
    }
  }

  lemma LineThenRest(line: string, eol: string, rest: string)
    requires IsLineEnding(eol) && OneLine(line)
    ensures Lines(line + eol + rest) == [line] + Lines(rest)
  {
    var s, body := line + eol + rest, line + eol[..|eol| - 1];
    assert s == body + "\n" + rest;
    assert '\n' !in body;
    assert s[..|body|] == body && s[|body| + 1..] == rest;
    IndexOfIs(s, '\n', |body|);
    assert StripCarriageReturn(body) == line;
  }

  /** Splitting undoes joining, with either line ending, when the last line is not empty. */
  lemma {:induction false} LinesOfJoin(lines: seq<string>, eol: string)
    requires IsLineEnding(eol)
    requires forall i | 0 <= i < |lines| :: OneLine(lines[i])
    requires lines != [] ==> lines[|lines| - 1] != ""
    ensures Lines(Join(lines, eol)) == lines
  {
    if |lines| == 1 {
      assert IndexOf(lines[0], '\n') == |lines[0]|;
    } else if lines != [] {
      hide Lines, OneLine;
      LineThenRest(lines[0], eol, Join(lines[1..], eol));
      LinesOfJoin(lines[1..], eol);
    }
  }

  predicate HasPrefix(s: string, prefix: string) {
    |prefix| <= |s| && s[..|prefix|] == prefix
  }

  /** The characters that Unicode calls white space. */
  predicate IsSpace(c: char) {
    var n := c as int;
    || 9 <= n <= 13 || n == 0x20 || n == 0x85 || n == 0xA0 || n == 0x1680 || 0x2000 <= n <= 0x200A
    || n == 0x2028 || n == 0x2029 || n == 0x202F || n == 0x205F || n == 0x3000
  }

  function TrimStart(s: string): string {
    if s != "" && IsSpace(s[0]) then TrimStart(s[1..]) else s
  }

  function TrimEnd(s: string): string {
    if s != "" && IsSpace(s[|s| - 1]) then TrimEnd(s[..|s| - 1]) else s
  }

  function Trim(s: string): string {
    TrimEnd(TrimStart(s))
  }

  /** What trimming takes away is white space at the ends, and it takes all of it. */
  lemma TrimIs(s: string) returns (before: string, after: string)
    ensures s == before + Trim(s) + after
    ensures forall i | 0 <= i < |before| :: IsSpace(before[i])
    ensures forall i | 0 <= i < |after| :: IsSpace(after[i])
    ensures Trim(s) != "" ==> !IsSpace(Trim(s)[0]) && !IsSpace(Trim(s)[|Trim(s)| - 1])
  {
    hide IsSpace;
    before := TrimStartIs(s);
    after := TrimEndIs(TrimStart(s));
    assert before + (Trim(s) + after) == before + Trim(s) + after;
    assert Trim(s) != "" ==> Trim(s)[0] == TrimStart(s)[0];
  }

  lemma {:induction false} TrimStartIs(s: string) returns (before: string)
    ensures s == before + TrimStart(s)
    ensures forall i | 0 <= i < |before| :: IsSpace(before[i])
    ensures TrimStart(s) != "" ==> !IsSpace(TrimStart(s)[0])
  {
    hide IsSpace;
    before := "";
    if s != "" && IsSpace(s[0]) {
      before := TrimStartIs(s[1..]);
      before := [s[0]] + before;
    }
  }

  lemma {:induction false} TrimEndIs(s: string) returns (after: string)
    ensures s == TrimEnd(s) + after
    ensures forall i | 0 <= i < |after| :: IsSpace(after[i])
    ensures TrimEnd(s) != "" ==> !IsSpace(TrimEnd(s)[|TrimEnd(s)| - 1])
  {
    hide IsSpace;
    after := "";
    if s != "" && IsSpace(s[|s| - 1]) {
      after := TrimEndIs(s[..|s| - 1]);
      after := after + [s[|s| - 1]];
    }
  }

  // ---------- Every text and its lines ----------

  function Weave(lines: seq<string>, ends: seq<string>): string
    requires |lines| == |ends|
  {
    if lines == [] then "" else lines[0] + ends[0] + Weave(lines[1..], ends[1..])
  }

  /** The text is made of these lines with these endings. Only the last line may lack its ending, if it is not
      empty, and a line before a bare LF does not end in CR. */
  predicate IsSplit(s: string, lines: seq<string>, ends: seq<string>) {
    && |lines| == |ends| && s == Weave(lines, ends)
    && forall i | 0 <= i < |lines| ::
         && '\n' !in lines[i]
         && (if ends[i] == "" then i == |lines| - 1 && lines[i] != "" else IsLineEnding(ends[i]))
         && (ends[i] == "\n" && lines[i] != "" ==> lines[i][|lines[i]| - 1] != '\r')
  }

  /** Every text is its lines with their endings. */
  lemma {:induction false} LinesAreSplit(s: string) returns (ends: seq<string>)
    ensures IsSplit(s, Lines(s), ends)
  {
    hide IsSplit;
    var k := IndexOf(s, '\n');
    if s == "" {
      ends := [];
      NothingIsSplit();
    } else if k == |s| {
      ends := [""];
      assert s[..k] == s;
      LastIsSplit(s);
    } else {
      var more := LinesAreSplit(s[k + 1..]);
      var line := StripCarriageReturn(s[..k]);
      var end := if line == s[..k] then "\n" else "\r\n";
      assert s == line + end + s[k + 1..];
      ends := [end] + more;
      SplitOneMore(s, line, end, s[k + 1..], Lines(s[k + 1..]), more);
    }
  }

  lemma NothingIsSplit()
    ensures IsSplit("", [], [])
  {
  }

  lemma LastIsSplit(s: string)
    requires s != "" && '\n' !in s
    ensures IsSplit(s, [s], [""])
  {
    assert [s][1..] == [] && [""][1..] == [];
  }

  lemma SplitOneMore(s: string, line: string, end: string, rest: string, lines: seq<string>, ends: seq<string>)
    requires s == line + end + rest && IsSplit(rest, lines, ends)
    requires '\n' !in line && IsLineEnding(end) && (end == "\n" && line != "" ==> line[|line| - 1] != '\r')
    ensures IsSplit(s, [line] + lines, [end] + ends)
  {
    assert ([line] + lines)[1..] == lines && ([end] + ends)[1..] == ends;
  }

  // ---------- Decimal numbers ----------

  /** The decimal digits of a natural number. */
  function Decimal(n: nat): string {
    if n < 10 then [('0' as int + n) as char] else Decimal(n / 10) + Decimal(n % 10)
  }

  /** Reads digits from the left. */
  function Value(s: string): int {
    if s == "" then 0 else 10 * Value(s[..|s| - 1]) + (s[|s| - 1] as int - '0' as int)
  }

  /** The decimal text of a number consists of digits, has no leading zero unless it is the number 0, and reads
      as the number. */
  lemma {:induction false} DecimalReads(n: nat)
    ensures Value(Decimal(n)) == n
    ensures Decimal(n) != "" && forall i | 0 <= i < |Decimal(n)| :: '0' <= Decimal(n)[i] <= '9'
    ensures n > 0 ==> Decimal(n)[0] != '0'
  {
    var last := [('0' as int + n % 10) as char];
    assert Decimal(n % 10) == last;
    if n < 10 {
      assert Decimal(n) == last && last[..0] == "";
      assert Value(last) == 10 * Value("") + n;
    } else {
      DecimalReads(n / 10);
      var front := Decimal(n / 10);
      assert Decimal(n) == front + last && (front + last)[..|front|] == front;
      assert Value(front + last) == 10 * Value(front) + n % 10;
    }
  }
}
