/** The canonical text of tool arguments and their hash, by which approvals are remembered. */
module CanonicalJson {
  import opened Wrappers
  import Sha256

  /** A JSON value. The members of an object have no order. A number is the text that prints it. */
  datatype Json =
    | Null
    | Bool(b: bool)
    | Num(token: string)
    | Str(s: string)
    | Arr(elems: seq<Json>)
    | Obj(members: map<string, Json>)

  predicate NumberChar(c: char) {
    '0' <= c <= '9' || c in {'-', '+', '.', 'e', 'E'}
  }

  /** What a number prints as: it starts with a digit or a minus and holds no delimiter. */
  predicate IsNumber(token: string) {
    token != "" && ('0' <= token[0] <= '9' || token[0] == '-') && forall i | 0 <= i < |token| :: NumberChar(token[i])
  }

  ghost predicate WellFormed(v: Json) {
    match v
    case Num(token) => IsNumber(token)
    case Arr(elems) => forall i | 0 <= i < |elems| :: WellFormed(elems[i])
    case Obj(members) => forall k | k in members :: WellFormed(members[k])
    case _ => true
  }

  // ---------- Strings ----------

  /** The escapes of a JSON printer: the two-character ones, and hexadecimal for other control characters. */
  function Escape(c: char): (e: string)
    ensures e != ""
  {
    match c
    case '\"' => "\\\""
    case '\\' => "\\\\"
    case '\n' => "\\n"
    case '\r' => "\\r"
    case '\t' => "\\t"
    case _ =>
      if c as int == 8 then "\\b"
      else if c as int == 12 then "\\f"
      else if c as int < 0x20 then "\\u00" + [Sha256.HexDigit(c as int / 16), Sha256.HexDigit(c as int % 16)]
      else [c]
  }

  function Escaped(s: string): string {
    if s == "" then "" else Escape(s[0]) + Escaped(s[1..])
  }

  function Quote(s: string): string { "\"" + Escaped(s) + "\"" }

  // ---------- The order of keys ----------

  predicate Less(a: string, b: string) {
    b != "" && (a == "" || a[0] < b[0] || (a[0] == b[0] && Less(a[1..], b[1..])))
  }

  /** Strings compare by their first difference, code point by code point, and a prefix comes first. */
  lemma {:induction false} LessIsByCodePoint(a: string, b: string)
    ensures Less(a, b) <==> exists k: nat :: FirstDifference(a, b, k)
  {
    if Less(a, b) {
      if a == "" || a[0] < b[0] {
        assert FirstDifference(a, b, 0);
      } else {
        LessIsByCodePoint(a[1..], b[1..]);
        var k: nat :| FirstDifference(a[1..], b[1..], k);
        assert a[..k + 1] == [a[0]] + a[1..][..k] && b[..k + 1] == [b[0]] + b[1..][..k];
        assert FirstDifference(a, b, k + 1);
      }
    }
    if k: nat :| FirstDifference(a, b, k) {
      if k > 0 {
        assert a[0] == a[..k][0] == b[..k][0] == b[0];
        assert a[1..][..k - 1] == a[..k][1..] && b[1..][..k - 1] == b[..k][1..];
        assert FirstDifference(a[1..], b[1..], k - 1);
        LessIsByCodePoint(a[1..], b[1..]);
      }
    }
  }

  predicate FirstDifference(a: string, b: string, k: nat) {
    k <= |a| && k < |b| && a[..k] == b[..k] && (k == |a| || a[k] as int < b[k] as int)
  }

  lemma {:induction false} LessTransitive(a: string, b: string, c: string)
    requires Less(a, b) && Less(b, c)
    ensures Less(a, c)
  {
    if a != "" && a[0] == b[0] && b[0] == c[0] {
      LessTransitive(a[1..], b[1..], c[1..]);
    }
  }

  lemma {:induction false} LessTotal(a: string, b: string)
    ensures a == b || Less(a, b) || Less(b, a)
    ensures !(Less(a, b) && Less(b, a)) && !Less(a, a)
  {
    if a != "" {
      LessTotal(a[1..], a[1..]);
      if b != "" && a[0] == b[0] {
        LessTotal(a[1..], b[1..]);
        assert a == [a[0]] + a[1..] && b == [b[0]] + b[1..];
      }
    }
  }

  predicate Ascending(ks: seq<string>) {
    forall i, j | 0 <= i < j < |ks| :: Less(ks[i], ks[j])
  }

  lemma LaterKeys(ks: seq<string>, k: string)
    requires Ascending(ks) && ks != []
    ensures k in ks[1..] <==> k in ks && k != ks[0]
  {
    LessTotal(k, k);
  }

  lemma {:induction false} AscendingUnique(ks: seq<string>, ls: seq<string>)
    requires Ascending(ks) && Ascending(ls) && |ks| == |ls| && forall k :: k in ks <==> k in ls
    ensures ks == ls
  {
    if ks != [] {
      assert ks[0] in ls && ls[0] in ks;
      var i :| 0 <= i < |ks| && ks[i] == ls[0];
      var j :| 0 <= j < |ls| && ls[j] == ks[0];
      LessTotal(ks[0], ls[0]);
      assert ks[0] == ls[0];
      forall k
        ensures k in ks[1..] <==> k in ls[1..]
      {
        LaterKeys(ks, k);
        LaterKeys(ls, k);
      }
      AscendingUnique(ks[1..], ls[1..]);
    }
  }

  ghost function SortedKeys(keys: set<string>): (ks: seq<string>)
    ensures Ascending(ks) && |ks| == |keys| && forall k :: k in ks <==> k in keys
  {
    if keys == {} then []
    else
      LeastExists(keys);
      var least :| IsLeast(keys, least);
      [least] + SortedKeys(keys - {least})
  }

  predicate IsLeast(keys: set<string>, least: string) {
    least in keys && forall k | k in keys && k != least :: Less(least, k)
  }

  lemma {:induction false} LeastExists(keys: set<string>)
    requires keys != {}
    ensures exists least :: IsLeast(keys, least)
  {
    hide Less;
    var some :| some in keys;
    var others := keys - {some};
    assert keys == {some} + others;
    if others == {} {
      assert IsLeast(keys, some);
    } else {
      LeastExists(others);
      var least :| IsLeast(others, least);
      LessTotal(some, least);
      if Less(some, least) {
        forall k | k in others
          ensures Less(some, k)
        {
          if k != least {
            LessTransitive(some, least, k);
          }
        }
        assert IsLeast(keys, some);
      } else {
        assert IsLeast(keys, least);
      }
    }
  }

  // ---------- The canonical text ----------

  function Width(v: Json): nat {
    match v
    case Arr(elems) => |elems|
    case Obj(members) => |members|
    case _ => 0
  }

  /** Members in ascending order of their keys, no space anywhere. */
  ghost function Canon(v: Json): string
    decreases v, Width(v) + 1
  {
    match v
    case Null => "null"
    case Bool(b) => if b then "true" else "false"
    case Num(token) => token
    case Str(s) => Quote(s)
    case Arr(_) => "[" + Elements(v, 0)
    case Obj(members) => "{" + Members(v, SortedKeys(members.Keys), 0)
  }

  /** The elements from number i on, and the closing bracket. */
  ghost function Elements(v: Json, i: nat): string
    requires v.Arr? && i <= |v.elems|
    decreases v, |v.elems| - i
  {
    if i == |v.elems| then "]"
    else (if i > 0 then "," else "") + Canon(v.elems[i]) + Elements(v, i + 1)
  }

  /** The members from number i on, and the closing brace. */
  ghost function Members(v: Json, ks: seq<string>, i: nat): string
    requires v.Obj? && |ks| == |v.members| && (forall k | k in ks :: k in v.members) && i <= |ks|
    decreases v, |ks| - i
  {
    if i == |ks| then "}"
    else (if i > 0 then "," else "") + Quote(ks[i]) + ":" + Canon(v.members[ks[i]]) + Members(v, ks, i + 1)
  }

  // ---------- A reader of compact JSON texts ----------

  /** What may follow a value. */
  predicate Ends(rest: string) {
    rest == "" || rest[0] in {',', ']', '}'}
  }

  function HexNumber(c: char): Option<nat> {
    if '0' <= c <= '9' then Some(c as int - '0' as int)
    else if 'a' <= c <= 'f' then Some(c as int - 'a' as int + 10)
    else if 'A' <= c <= 'F' then Some(c as int - 'A' as int + 10)
    else None
  }

  /** The character that four hexadecimal digits stand for. Halves of surrogate pairs are not read. */
  function FourHex(a: char, b: char, c: char, d: char): Option<char> {
    match (HexNumber(a), HexNumber(b), HexNumber(c), HexNumber(d))
    case (Some(w), Some(x), Some(y), Some(z)) =>
      var n := 4096 * w + 256 * x + 16 * y + z;
      if n < 0xD800 || 0xE000 <= n < 0x10000 then Some(n as char) else None
    case _ => None
  }

  /** One character of a string, plain or escaped (section 7 of RFC 8259), and what follows it. */
  function ReadChar(s: string): (r: Option<(char, string)>)
    ensures r.Some? ==> |r.value.1| < |s|
  {
    if s == "" || s[0] == '\"' || s[0] as int < 0x20 then None
    else if s[0] != '\\' then Some((s[0], s[1..]))
    else if |s| < 2 then None
    else
      match s[1]
      case '\"' => Some(('\"', s[2..]))
      case '\\' => Some(('\\', s[2..]))
      case '/' => Some(('/', s[2..]))
      case 'b' => Some((8 as char, s[2..]))
      case 'f' => Some((12 as char, s[2..]))
      case 'n' => Some((10 as char, s[2..]))
      case 'r' => Some((13 as char, s[2..]))
      case 't' => Some((9 as char, s[2..]))
      case 'u' =>
        if |s| < 6 then None
        else
          (match FourHex(s[2], s[3], s[4], s[5])
           case Some(c) => Some((c, s[6..]))
           case None => None)
      case _ => None
  }

  /** A string after its opening quote. */
  function ReadString(s: string): (r: Option<(string, string)>)
    ensures r.Some? ==> |r.value.1| < |s|
    decreases |s|
  {
    if s == "" then None
    else if s[0] == '\"' then Some(("", s[1..]))
    else
      match ReadChar(s)
      case None => None
      case Some((c, more)) =>
        match ReadString(more)
        case None => None
        case Some((t, rest)) => Some(([c] + t, rest))
  }

  function TokenLength(s: string): (n: nat)
    ensures n <= |s|
  {
    if s == "" || !NumberChar(s[0]) then 0 else 1 + TokenLength(s[1..])
  }

  predicate StartsWith(s: string, word: string) { |word| <= |s| && s[..|word|] == word }

  /** A value at the start of a text without white space, and what follows it. */
  function Parse(s: string): (r: Option<(Json, string)>)
    ensures r.Some? ==> |r.value.1| < |s|
    decreases |s|, 0
  {
    if s == "" then None
    else if StartsWith(s, "null") then Some((Null, s[4..]))
    else if StartsWith(s, "true") then Some((Bool(true), s[4..]))
    else if StartsWith(s, "false") then Some((Bool(false), s[5..]))
    else if s[0] == '\"' then
      match ReadString(s[1..])
      case Some((t, rest)) => Some((Str(t), rest))
      case None => None
    else if StartsWith(s, "[]") then Some((Arr([]), s[2..]))
    else if s[0] == '[' then
      match ParseElements(s[1..])
      case Some((elems, rest)) => Some((Arr(elems), rest))
      case None => None
    else if StartsWith(s, "{}") then Some((Obj(map[]), s[2..]))
    else if s[0] == '{' then
      match ParseMembers(s[1..])
      case Some((pairs, rest)) => Some((Obj(MapOf(pairs)), rest))
      case None => None
    else if '0' <= s[0] <= '9' || s[0] == '-' then Some((Num(s[..TokenLength(s)]), s[TokenLength(s)..]))
    else None
  }

  function ParseElements(s: string): (r: Option<(seq<Json>, string)>)
    ensures r.Some? ==> |r.value.1| < |s|
    decreases |s|, 1
  {
    match Parse(s)
    case None => None
    case Some((v, more)) =>
      if more != "" && more[0] == ']' then Some(([v], more[1..]))
      else if more != "" && more[0] == ',' then
        match ParseElements(more[1..])
        case Some((vs, rest)) => Some(([v] + vs, rest))
        case None => None
      else None
  }

  /** The members in the order of the text. */
  function ParseMembers(s: string): (r: Option<(seq<(string, Json)>, string)>)
    ensures r.Some? ==> |r.value.1| < |s|
    decreases |s|, 1
  {
    if s == "" || s[0] != '\"' then None
    else
      match ReadString(s[1..])
      case None => None
      case Some((k, colon)) =>
        if colon == "" || colon[0] != ':' then None
        else
          match Parse(colon[1..])
          case None => None
          case Some((v, more)) =>
            if more != "" && more[0] == '}' then Some(([(k, v)], more[1..]))
            else if more != "" && more[0] == ',' then
              match ParseMembers(more[1..])
              case Some((pairs, rest)) => Some(([(k, v)] + pairs, rest))
              case None => None
            else None
  }

  function MapOf(pairs: seq<(string, Json)>): map<string, Json> {
    if pairs == [] then map[] else MapOf(pairs[1..])[pairs[0].0 := pairs[0].1]
  }

  // ---------- Strings are read back ----------

  lemma HexReads(d: nat)
    requires d < 16
    ensures HexNumber(Sha256.HexDigit(d)) == Some(d)
  {
  }

  lemma ControlReads(c: char)
    requires c as int < 0x20
    ensures FourHex('0', '0', Sha256.HexDigit(c as int / 16), Sha256.HexDigit(c as int % 16)) == Some(c)
  {
    HexReads(0);
    HexReads(c as int / 16);
    HexReads(c as int % 16);
  }

  lemma CharReadsBack(c: char, x: string)
    ensures ReadChar(Escape(c) + x) == Some((c, x))
  {
    hide FourHex;
    var s, n := Escape(c) + x, |Escape(c)|;
    assert s[n..] == x;
    if n == 6 {
      ControlReads(c);
      assert s[2] == '0' && s[3] == '0' && s[4] == Escape(c)[4] && s[5] == Escape(c)[5];
    }
  }

  /** No other way of writing a character is shorter. */
  lemma EscapeIsShortest(c: char, e: string)
    requires ReadChar(e) == Some((c, ""))
    ensures |Escape(c)| <= |e|
  {
  }

  lemma {:induction false} StringReadsBack(s: string, x: string)
    ensures ReadString(Escaped(s) + "\"" + x) == Some((s, x))
  {
    hide Escape, ReadChar;
    var text := Escaped(s) + "\"" + x;
    if s == "" {
      assert text[1..] == x;
    } else {
      var more := Escaped(s[1..]) + "\"" + x;
      assert text == Escape(s[0]) + more;
      CharReadsBack(s[0], more);
      PlainStart(s[0], more);
      StringReadsBack(s[1..], x);
      assert [s[0]] + s[1..] == s;
    }
  }

  lemma PlainStart(c: char, more: string)
    ensures (Escape(c) + more)[0] != '\"'
  {
  }

  lemma {:induction false} TokenEnds(token: string, rest: string)
    requires (forall i | 0 <= i < |token| :: NumberChar(token[i])) && Ends(rest)
    ensures TokenLength(token + rest) == |token|
  {
    if token != "" {
      assert (token + rest)[1..] == token[1..] + rest;
      TokenEnds(token[1..], rest);
    }
  }

  // ---------- Values are read back ----------

  lemma WordStart(s: string, word: string)
    requires word != ""
    ensures StartsWith(s, word) ==> s != "" && s[0] == word[0]
  {
    assert StartsWith(s, word) ==> s[..|word|][0] == s[0];
  }

  /** The first character decides what is read. */
  lemma ParseByFirst(s: string)
    requires s != ""
    ensures s[0] !in {'n', 't', 'f'} ==> !StartsWith(s, "null") && !StartsWith(s, "true") && !StartsWith(s, "false")
    ensures s[0] != '[' ==> !StartsWith(s, "[]")
    ensures s[0] != '{' ==> !StartsWith(s, "{}")
  {
    hide StartsWith;
    WordStart(s, "null");
    WordStart(s, "true");
    WordStart(s, "false");
    WordStart(s, "[]");
    WordStart(s, "{}");
  }

  lemma WordReadsBack(v: Json, rest: string)
    requires v.Null? || v.Bool?
    ensures Parse(Canon(v) + rest) == Some((v, rest))
  {
    hide ReadString, ParseElements, ParseMembers, TokenLength;
    var s, word := Canon(v) + rest, Canon(v);
    assert s[|word|..] == rest && s[..|word|] == word;
    if v == Bool(false) {
      WordStart(s, "null");
      WordStart(s, "true");
    } else if v == Bool(true) {
      WordStart(s, "null");
    }
  }

  lemma NumberReadsBack(v: Json, rest: string)
    requires v.Num? && WellFormed(v) && Ends(rest)
    ensures Parse(Canon(v) + rest) == Some((v, rest))
  {
    hide ReadString, ParseElements, ParseMembers, StartsWith;
    var s := v.token + rest;
    TokenEnds(v.token, rest);
    hide TokenLength;
    assert s[..|v.token|] == v.token && s[|v.token|..] == rest;
    ParseByFirst(s);
  }

  lemma TextReadsBack(v: Json, rest: string)
    requires v.Str?
    ensures Parse(Canon(v) + rest) == Some((v, rest))
  {
    hide Escaped, ReadString, ParseElements, ParseMembers, StartsWith, TokenLength;
    var s := Canon(v) + rest;
    assert s[0] == '\"' && s[1..] == Escaped(v.s) + "\"" + rest;
    ParseByFirst(s);
    StringReadsBack(v.s, rest);
  }

  lemma SimpleReadsBack(v: Json, rest: string)
    requires WellFormed(v) && Ends(rest) && (v.Null? || v.Bool? || v.Num? || v.Str?)
    ensures Parse(Canon(v) + rest) == Some((v, rest))
  {
    hide Parse, Canon;
    match v
    case Num(_) => NumberReadsBack(v, rest);
    case Str(_) => TextReadsBack(v, rest);
    case _ => WordReadsBack(v, rest);
  }

  /** The first character of a value is none that closes or separates. */
  lemma FirstChar(v: Json)
    requires WellFormed(v)
    ensures Canon(v) != "" && Canon(v)[0] !in {',', ':', ']', '}'}
  {
  }

  /** The reader reads the canonical text of a value back, and leaves what follows it. */
  lemma {:induction false} ReadsBack(v: Json, rest: string)
    requires WellFormed(v) && Ends(rest)
    ensures Parse(Canon(v) + rest) == Some((v, rest))
    decreases v, Width(v) + 1
  {
    match v
    case Arr(elems) =>
      if elems == [] {
        EmptyReadsBack(v, rest);
      } else {
        ElementsReadBack(v, 0, rest);
        ArrayReadsBack(v, rest);
      }
    case Obj(members) =>
      if members == map[] {
        EmptyReadsBack(v, rest);
      } else {
        var ks := SortedKeys(members.Keys);
        MembersReadBack(v, ks, 0, rest);
        ObjectReadsBack(v, ks, rest);
      }
    case _ => SimpleReadsBack(v, rest);
  }

  lemma EmptyText(v: Json)
    requires v == Arr([]) || v == Obj(map[])
    ensures Canon(v) == if v.Arr? then "[]" else "{}"
  {
    if v.Obj? {
      assert |SortedKeys(v.members.Keys)| == 0;
      ObjectText(v);
    }
  }

  lemma EmptyReadsBack(v: Json, rest: string)
    requires v == Arr([]) || v == Obj(map[])
    ensures Parse(Canon(v) + rest) == Some((v, rest))
  {
    EmptyText(v);
    hide Canon, ReadString, ParseElements, ParseMembers, TokenLength;
    var s, word := Canon(v) + rest, if v.Arr? then "[]" else "{}";
    assert s[0] == word[0] && s[..2] == word && s[2..] == rest;
    ParseByFirst(s);
    assert StartsWith(s, word);
    hide StartsWith;
  }

  /** The text from element i on, without a comma before it. */
  ghost function ElementText(v: Json, i: nat, rest: string): string
    requires v.Arr? && i < |v.elems|
  {
    Canon(v.elems[i]) + (Elements(v, i + 1) + rest)
  }

  lemma ElementsSplit(v: Json, i: nat, rest: string)
    requires v.Arr? && i <= |v.elems|
    ensures i == |v.elems| ==> Elements(v, i) + rest == "]" + rest
    ensures 0 < i < |v.elems| ==> Elements(v, i) + rest == "," + ElementText(v, i, rest)
    ensures i == 0 < |v.elems| ==> Elements(v, i) + rest == ElementText(v, i, rest)
  {
    hide Canon;
  }

  lemma {:induction false} ElementsReadBack(v: Json, i: nat, rest: string)
    requires v.Arr? && i < |v.elems| && WellFormed(v)
    ensures ParseElements(ElementText(v, i, rest)) == Some((v.elems[i..], rest))
    decreases v, |v.elems| - i
  {
    hide Canon, Elements, Parse;
    var more := Elements(v, i + 1) + rest;
    ElementsSplit(v, i + 1, rest);
    ReadsBack(v.elems[i], more);
    if i + 1 < |v.elems| {
      assert more[1..] == ElementText(v, i + 1, rest);
      ElementsReadBack(v, i + 1, rest);
      assert v.elems[i..] == [v.elems[i]] + v.elems[i + 1..];
    } else {
      assert more[1..] == rest && v.elems[i..] == [v.elems[i]];
    }
  }

  lemma ArrayReadsBack(v: Json, rest: string)
    requires v.Arr? && v.elems != [] && WellFormed(v)
    requires ParseElements(ElementText(v, 0, rest)) == Some((v.elems[0..], rest))
    ensures Parse(Canon(v) + rest) == Some((v, rest))
  {
    hide Elements, ParseElements, StartsWith, ReadString, ParseMembers;
    var text, s := ElementText(v, 0, rest), Canon(v) + rest;
    ElementsSplit(v, 0, rest);
    assert s == "[" + text && s[1..] == text;
    FirstChar(v.elems[0]);
    assert text[0] != ']';
    NotAWord(s);
    assert v.elems[0..] == v.elems;
  }

  lemma NotAWord(s: string)
    requires |s| > 1 && s[0] in {'[', '{'} && s[1] !in {']', '}'}
    ensures !StartsWith(s, "null") && !StartsWith(s, "true") && !StartsWith(s, "false")
    ensures !StartsWith(s, "[]") && !StartsWith(s, "{}")
  {
    ParseByFirst(s);
    assert s[..2][1] == s[1];
  }

  function Pairs(members: map<string, Json>, ks: seq<string>): seq<(string, Json)>
    requires forall k | k in ks :: k in members
  {
    seq(|ks|, i requires 0 <= i < |ks| => (ks[i], members[ks[i]]))
  }

  /** The text from member i on, without a comma before it. */
  ghost function MemberText(v: Json, ks: seq<string>, i: nat, rest: string): string
    requires v.Obj? && |ks| == |v.members| && (forall k | k in ks :: k in v.members) && i < |ks|
  {
    "\"" + (Escaped(ks[i]) + "\"" + (":" + (Canon(v.members[ks[i]]) + (Members(v, ks, i + 1) + rest))))
  }

  lemma MembersSplit(v: Json, ks: seq<string>, i: nat, rest: string)
    requires v.Obj? && |ks| == |v.members| && (forall k | k in ks :: k in v.members) && i <= |ks|
    ensures i == |ks| ==> Members(v, ks, i) + rest == "}" + rest
    ensures i < |ks| ==> Members(v, ks, i) + rest == (if i > 0 then "," else "") + MemberText(v, ks, i, rest)
  {
    hide Escaped, Canon;
    if i < |ks| {
      MemberParts(if i > 0 then "," else "", Escaped(ks[i]), Canon(v.members[ks[i]]), Members(v, ks, i + 1), rest);
    }
  }

  lemma MemberParts(c: string, q: string, e: string, t: string, r: string)
    ensures c + ("\"" + q + "\"") + ":" + e + t + r == c + ("\"" + (q + "\"" + (":" + (e + (t + r)))))
  {
  }

  lemma {:induction false} MembersReadBack(v: Json, ks: seq<string>, i: nat, rest: string)
    requires v.Obj? && |ks| == |v.members| && (forall k | k in ks :: k in v.members) && i < |ks| && WellFormed(v)
    ensures ParseMembers(MemberText(v, ks, i, rest)) == Some((Pairs(v.members, ks[i..]), rest))
    decreases v, |ks| - i
  {
    hide Canon, Members, Parse, Escaped, ReadString;
    var k, e := ks[i], v.members[ks[i]];
    var more := Members(v, ks, i + 1) + rest;
    var text := MemberText(v, ks, i, rest);
    MembersSplit(v, ks, i + 1, rest);
    assert text[0] == '\"' && text[1..] == Escaped(k) + "\"" + (":" + (Canon(e) + more));
    StringReadsBack(k, ":" + (Canon(e) + more));
    assert (":" + (Canon(e) + more))[1..] == Canon(e) + more;
    ReadsBack(e, more);
    assert Pairs(v.members, ks[i..]) == [(k, e)] + Pairs(v.members, ks[i + 1..]);
    if i + 1 < |ks| {
      assert more[1..] == MemberText(v, ks, i + 1, rest);
      MembersReadBack(v, ks, i + 1, rest);
    } else {
      assert more[1..] == rest;
      assert ks[i..] == [k] && Pairs(v.members, [k]) == [(k, e)];
    }
  }

  lemma ObjectReadsBack(v: Json, ks: seq<string>, rest: string)
    requires v.Obj? && v.members != map[] && ks == SortedKeys(v.members.Keys)
    requires ParseMembers(MemberText(v, ks, 0, rest)) == Some((Pairs(v.members, ks[0..]), rest))
    ensures Parse(Canon(v) + rest) == Some((v, rest))
    ensures (Canon(v) + rest)[1..] == MemberText(v, ks, 0, rest)
  {
    hide Members, ParseMembers, Escaped, SortedKeys, Canon, StartsWith, ReadString, ParseElements;
    var text, s := MemberText(v, ks, 0, rest), Canon(v) + rest;
    MembersSplit(v, ks, 0, rest);
    ObjectText(v);
    assert ks != [] by {
      assert |ks| == |v.members|;
    }
    assert "" + text == text;
    assert s == "{" + (Members(v, ks, 0) + rest);
    assert s[1..] == text && text[0] == '\"';
    NotAWord(s);
    assert ks[0..] == ks;
    AscendingIsDistinct(ks);
    PairsMakeMap(v.members, ks);
    assert MapOf(Pairs(v.members, ks)) == v.members;
  }

  lemma AscendingIsDistinct(ks: seq<string>)
    requires Ascending(ks)
    ensures forall i, j | 0 <= i < j < |ks| :: ks[i] != ks[j]
  {
    forall i, j | 0 <= i < j < |ks|
      ensures ks[i] != ks[j]
    {
      LessTotal(ks[i], ks[j]);
    }
  }

  lemma {:induction false} PairsMakeMap(members: map<string, Json>, ks: seq<string>)
    requires forall k | k in ks :: k in members
    requires forall i, j | 0 <= i < j < |ks| :: ks[i] != ks[j]
    ensures var m := MapOf(Pairs(members, ks));
      (forall k :: k in m <==> k in ks) && forall k | k in m :: m[k] == members[k]
  {
    if ks != [] {
      assert Pairs(members, ks)[1..] == Pairs(members, ks[1..]);
      PairsMakeMap(members, ks[1..]);
    }
  }

  /** The members of an object stand in its text in ascending order of their keys. */
  lemma MembersInOrder(v: Json, rest: string)
    requires v.Obj? && v.members != map[] && WellFormed(v)
    ensures Canon(v) != ""
    ensures var r := ParseMembers((Canon(v) + rest)[1..]);
      && r.Some? && r.value.1 == rest && |r.value.0| == |v.members|
      && forall i, j | 0 <= i < j < |r.value.0| :: Less(r.value.0[i].0, r.value.0[j].0)
  {
    hide Canon, Parse, Less;
    var ks := SortedKeys(v.members.Keys);
    FirstChar(v);
    MembersReadBack(v, ks, 0, rest);
    ObjectReadsBack(v, ks, rest);
    assert ks[0..] == ks;
  }

  // ---------- What reading back implies ----------

  /** An escaped string up to its closing quote gives the string back. */
  lemma QuoteDecodes(s: string, t: string, x: string, y: string)
    requires Escaped(s) + "\"" + x == Escaped(t) + "\"" + y
    ensures s == t && x == y
  {
    StringReadsBack(s, x);
    StringReadsBack(t, y);
  }

  /** The text of a value can be told from what follows it, and gives the value back. */
  lemma ValueDecodes(v: Json, w: Json, r: string, r': string)
    requires WellFormed(v) && WellFormed(w) && Ends(r) && Ends(r')
    requires Canon(v) + r == Canon(w) + r'
    ensures v == w && r == r'
  {
    hide Canon, Parse;
    ReadsBack(v, r);
    ReadsBack(w, r');
  }

  /** Two values have the same canonical text if and only if they are equal. */
  lemma CanonIsInjective(v: Json, w: Json)
    requires WellFormed(v) && WellFormed(w)
    ensures Canon(v) == Canon(w) <==> v == w
  {
    hide Canon;
    if Canon(v) == Canon(w) {
      ValueDecodes(v, w, "", "");
    }
  }

  // ---------- The printer ----------

  /** The keys of an object, taken as they come and sorted. */
  method SortKeys(keys: set<string>) returns (ks: seq<string>)
    ensures ks == SortedKeys(keys)
  {
    ks := [];
    var left := keys;
    while left != {}
      invariant left <= keys && Ascending(ks) && |ks| == |keys| - |left|
      invariant forall k :: k in ks <==> k in keys - left
      decreases left
    {
      var k :| k in left;
      var at := |ks|;
      while at > 0 && Less(k, ks[at - 1])
        invariant 0 <= at <= |ks|
        invariant forall i | at <= i < |ks| :: Less(k, ks[i])
      {
        at := at - 1;
      }
      InsertKey(ks, at, k);
      ks := ks[..at] + [k] + ks[at..];
      left := left - {k};
    }
    AscendingUnique(ks, SortedKeys(keys));
  }

  lemma InsertKey(ks: seq<string>, at: nat, k: string)
    requires Ascending(ks) && at <= |ks| && k !in ks
    requires at > 0 ==> !Less(k, ks[at - 1])
    requires forall i | at <= i < |ks| :: Less(k, ks[i])
    ensures Ascending(ks[..at] + [k] + ks[at..])
    ensures forall x :: x in ks[..at] + [k] + ks[at..] <==> x in ks || x == k
  {
    hide Less;
    assert ks == ks[..at] + ks[at..];
    forall i | 0 <= i < at
      ensures Less(ks[i], k)
    {
      LessTotal(k, ks[at - 1]);
      if i < at - 1 {
        LessTransitive(ks[i], ks[at - 1], k);
      }
    }
    InsertAscending(ks, at, k);
  }

  lemma InsertAscending(ks: seq<string>, at: nat, k: string)
    requires Ascending(ks) && at <= |ks|
    requires forall i | 0 <= i < at :: Less(ks[i], k)
    requires forall i | at <= i < |ks| :: Less(k, ks[i])
    ensures Ascending(ks[..at] + [k] + ks[at..])
  {
    hide Less;
  }

  lemma ObjectText(v: Json)
    requires v.Obj?
    ensures Canon(v) == "{" + Members(v, SortedKeys(v.members.Keys), 0)
  {
  }

  lemma CanonReads(v: Json)
    ensures WellFormed(v) ==> Parse(Canon(v)) == Some((v, ""))
  {
    hide Canon, Parse, WellFormed;
    if WellFormed(v) {
      ReadsBack(v, "");
      assert Canon(v) + "" == Canon(v);
    }
  }

  /** Prints a value. The reader gets the same value back from the text. */
  method CanonicalArgumentsJson(v: Json) returns (out: string)
    ensures out == Canon(v)
    ensures WellFormed(v) ==> Parse(out) == Some((v, ""))
    decreases v
  {
    CanonReads(v);
    hide Quote, SortedKeys, Parse, WellFormed;
    match v
    case Obj(members) =>
      var keys := SortKeys(members.Keys);
      hide Canon;
      out := "{";
      assert out + Members(v, keys, 0) == Canon(v) by {
        ObjectText(v);
      }
      for i := 0 to |keys|
        invariant out + Members(v, keys, i) == Canon(v)
      {
        ghost var before, rest := out, Members(v, keys, i + 1);
        if i > 0 {
          out := out + ",";
        }
        out := out + Quote(keys[i]);
        out := out + ":";
        var text := CanonicalArgumentsJson(members[keys[i]]);
        out := out + text;
        PrintedMember(before, if i > 0 then "," else "", Quote(keys[i]), text, rest);
      }
      out := out + "}";
    case Arr(elems) =>
      out := "[";
      for i := 0 to |elems|
        invariant out + Elements(v, i) == Canon(v)
      {
        ghost var before, rest := out, Elements(v, i + 1);
        if i > 0 {
          out := out + ",";
        }
        var text := CanonicalArgumentsJson(elems[i]);
        out := out + text;
        PrintedElement(before, if i > 0 then "," else "", text, rest);
      }
      out := out + "]";
    case Null => out := "null";
    case Bool(b) => out := if b then "true" else "false";
    case Num(token) => out := token;
    case Str(s) => out := Quote(s);
  }

  lemma PrintedMember(before: string, comma: string, key: string, text: string, rest: string)
    ensures before + comma + key + ":" + text + rest == before + (comma + key + ":" + text + rest)
    ensures comma == "" ==> before + comma == before
  {
  }

  lemma PrintedElement(before: string, comma: string, text: string, rest: string)
    ensures before + comma + text + rest == before + (comma + text + rest)
    ensures comma == "" ==> before + comma == before
  {
  }

  // ---------- The hash ----------

  /** The UTF-8 form of a character, section 3 of RFC 3629: the bits in groups of six from the right. */
  function Utf8(c: char): (bytes: seq<Sha256.byte>)
    ensures bytes != []
  {
    var n := c as int;
    var m := n / 64;
    var l := m / 64;
    if n < 0x80 then [n as Sha256.byte]
    else if n < 0x800 then [(0xC0 + m) as Sha256.byte, Low(n)]
    else if n < 0x10000 then [(0xE0 + l) as Sha256.byte, Low(m), Low(n)]
    else [(0xF0 + l / 64) as Sha256.byte, Low(l), Low(m), Low(n)]
  }

  function Low(n: nat): Sha256.byte { (0x80 + n % 64) as Sha256.byte }

  function Bytes(s: string): seq<Sha256.byte> {
    if s == "" then [] else Utf8(s[0]) + Bytes(s[1..])
  }

  /** The six bits of a continuation byte. */
  function SixBits(b: Sha256.byte): int { b as int - 0x80 }

  /** Reads one character: the first byte tells how many follow. */
  function ReadUtf8(s: seq<Sha256.byte>): Option<(char, seq<Sha256.byte>)> {
    if s == [] then None
    else
      var b := s[0] as int;
      if b < 0x80 then Some((b as char, s[1..]))
      else if 0xC0 <= b < 0xE0 && |s| >= 2 then Scalar(64 * (b - 0xC0) + SixBits(s[1]), s[2..])
      else if 0xE0 <= b < 0xF0 && |s| >= 3 then
        Scalar(64 * (64 * (b - 0xE0) + SixBits(s[1])) + SixBits(s[2]), s[3..])
      else if 0xF0 <= b && |s| >= 4 then
        Scalar(64 * (64 * (64 * (b - 0xF0) + SixBits(s[1])) + SixBits(s[2])) + SixBits(s[3]), s[4..])
      else None
  }

  function Scalar(n: int, rest: seq<Sha256.byte>): Option<(char, seq<Sha256.byte>)> {
    if 0 <= n < 0xD800 || 0xE000 <= n < 0x110000 then Some((n as char, rest)) else None
  }

  /** The UTF-8 form of a character is read back. */
  lemma Utf8ReadsBack(c: char, x: seq<Sha256.byte>)
    ensures ReadUtf8(Utf8(c) + x) == Some((c, x))
  {
    var n, u := c as int, Utf8(c);
    var m := n / 64;
    var l := m / 64;
    assert (u + x)[|u|..] == x;
    assert n == 64 * m + n % 64 && m == 64 * l + m % 64 && l == 64 * (l / 64) + l % 64;
    LowBits(n);
    LowBits(m);
    LowBits(l);
    hide Low;
    assert forall i | 0 <= i < |u| :: (u + x)[i] == u[i];
  }

  lemma LowBits(n: nat)
    ensures SixBits(Low(n)) == n % 64
  {
  }

  function ReadBytes(s: seq<Sha256.byte>): Option<string>
    decreases |s|
  {
    if s == [] then Some("")
    else
      match ReadUtf8(s)
      case None => None
      case Some((c, rest)) =>
        if |rest| >= |s| then None
        else
          match ReadBytes(rest)
          case None => None
          case Some(t) => Some([c] + t)
  }

  /** The bytes of a text are read back. */
  lemma {:induction false} BytesReadBack(s: string)
    ensures ReadBytes(Bytes(s)) == Some(s)
  {
    hide Utf8, ReadUtf8;
    if s != "" {
      Utf8ReadsBack(s[0], Bytes(s[1..]));
      BytesReadBack(s[1..]);
      assert [s[0]] + s[1..] == s;
    }
  }

  lemma BytesInjective(s: string, t: string)
    requires Bytes(s) == Bytes(t)
    ensures s == t
  {
    BytesReadBack(s);
    BytesReadBack(t);
  }

  method HashArguments(v: Json) returns (hash: string)
    ensures hash == Sha256.Digest(Bytes(Canon(v)))
  {
    var text := CanonicalArgumentsJson(v);
    hash := Sha256.Sha256Hex(Bytes(text));
  }

  /** The hashed messages are equal if and only if the arguments are. So equal arguments have equal hashes, and
      different ones can only have the same hash where two different messages have the same digest. */
  lemma HashTellsArguments(v: Json, w: Json)
    requires WellFormed(v) && WellFormed(w)
    ensures Bytes(Canon(v)) == Bytes(Canon(w)) <==> v == w
  {
    CanonIsInjective(v, w);
    if Bytes(Canon(v)) == Bytes(Canon(w)) {
      BytesInjective(Canon(v), Canon(w));
    }
  }
}
