/** The line diff shown to a reviewer before a file is written: a table of longest common
    subsequence lengths, and a walk back through it that emits an edit script. */
module LineDiff {
  import opened Text

  datatype DiffHunk = DiffHunk(
    hunkIndex: nat,
    oldStart: nat,
    oldLines: nat,
    newStart: nat,
    newLines: nat,
    header: string,
    lines: seq<string>,
    accepted: bool
  )

  // ---------- What an edit script means ----------

  const OLD_TAGS: set<char> := {' ', '-'}
  const NEW_TAGS: set<char> := {' ', '+'}

  /** Every line of a script carries its tag in front: kept, deleted or added. */
  predicate IsScript(script: seq<string>) {
    forall k | 0 <= k < |script| :: IsTagged(script[k])
  }

  predicate IsTagged(line: string) {
    line != "" && line[0] in {' ', '-', '+'}
  }

  /** The lines of a script that carry one of the given tags, in order and without the tag. */
  ghost function Side(script: seq<string>, tags: set<char>): seq<string>
    requires IsScript(script)
  {
    if script == [] then []
    else
      var last := script[|script| - 1];
      Side(script[..|script| - 1], tags) + if last[0] in tags then [last[1..]] else []
  }

  /** The script turns `old` into `new`. */
  ghost predicate Transforms(script: seq<string>, old_: seq<string>, new_: seq<string>) {
    IsScript(script) && Side(script, OLD_TAGS) == old_ && Side(script, NEW_TAGS) == new_
  }

  ghost function Changes(script: seq<string>): nat
    requires IsScript(script)
  {
    |Side(script, {'+'})| + |Side(script, {'-'})|
  }

  lemma {:induction false} SideAppend(s: seq<string>, t: seq<string>, tags: set<char>)
    requires IsScript(s) && IsScript(t)
    ensures IsScript(s + t) && Side(s + t, tags) == Side(s, tags) + Side(t, tags)
  {
    if t == [] {
      assert s + t == s;
    } else {
      var front := t[..|t| - 1];
      SideAppend(s, front, tags);
      assert (s + t)[..|s + t| - 1] == s + front;
    }
  }

  lemma SidePrepend(line: string, s: seq<string>, tags: set<char>)
    requires IsTagged(line) && IsScript(s)
    ensures IsScript([line] + s)
    ensures Side([line] + s, tags) == (if line[0] in tags then [line[1..]] else []) + Side(s, tags)
  {
    SideAppend([line], s, tags);
    assert [line][..0] == [];
  }

  /** Splitting the tags in two splits the line count. */
  lemma {:induction false} SideCount(s: seq<string>, some: set<char>, others: set<char>)
    requires IsScript(s) && some !! others
    ensures |Side(s, some + others)| == |Side(s, some)| + |Side(s, others)|
  {
    if s != [] {
      SideCount(s[..|s| - 1], some, others);
    }
  }

  // ---------- Common subsequences ----------

  ghost predicate Subsequence(c: seq<string>, a: seq<string>) {
    c == []
    || (a != []
        && (Subsequence(c, a[..|a| - 1])
            || (c[|c| - 1] == a[|a| - 1] && Subsequence(c[..|c| - 1], a[..|a| - 1]))))
  }

  /** `n` is the length of a longest common subsequence of `a` and `b`. */
  ghost predicate IsLcsLength(n: nat, a: seq<string>, b: seq<string>) {
    && (exists c :: Subsequence(c, a) && Subsequence(c, b) && |c| == n)
    && (forall c :: Subsequence(c, a) && Subsequence(c, b) ==> |c| <= n)
  }

  /** The recurrence that the table holds. */
  ghost function Lcs(a: seq<string>, b: seq<string>): nat {
    if a == [] || b == [] then 0
    else
      var a', b' := a[..|a| - 1], b[..|b| - 1];
      if a[|a| - 1] == b[|b| - 1] then Lcs(a', b') + 1
      else if Lcs(a', b) > Lcs(a, b') then Lcs(a', b) else Lcs(a, b')
  }

  lemma {:induction false} DropLast(c: seq<string>, a: seq<string>)
    requires Subsequence(c, a) && c != []
    ensures Subsequence(c[..|c| - 1], a)
    ensures Subsequence(c[..|c| - 1], a[..|a| - 1])
  {
    var a' := a[..|a| - 1];
    if Subsequence(c, a') {
      DropLast(c, a');
    }
    Extend(c[..|c| - 1], a);
  }

  lemma Extend(c: seq<string>, a: seq<string>)
    requires a != [] && Subsequence(c, a[..|a| - 1])
    ensures Subsequence(c, a)
  {
  }

  /** No common subsequence is longer than the recurrence says. */
  lemma {:induction false} LcsIsUpperBound(c: seq<string>, a: seq<string>, b: seq<string>)
    requires Subsequence(c, a) && Subsequence(c, b)
    ensures |c| <= Lcs(a, b)
    decreases |a| + |b|
  {
    if c != [] {
      var a', b' := a[..|a| - 1], b[..|b| - 1];
      if a[|a| - 1] == b[|b| - 1] {
        DropLast(c, a);
        DropLast(c, b);
        LcsIsUpperBound(c[..|c| - 1], a', b');
      } else if Subsequence(c, a') {
        LcsIsUpperBound(c, a', b);
      } else {
        LcsIsUpperBound(c, a, b');
      }
    }
  }

  lemma {:induction false} SideIsSubsequence(s: seq<string>, fewer: set<char>, more: set<char>)
    requires IsScript(s) && fewer <= more
    ensures Subsequence(Side(s, fewer), Side(s, more))
  {
    if s != [] {
      var last, front := s[|s| - 1], s[..|s| - 1];
      SideIsSubsequence(front, fewer, more);
      var kept, all := Side(front, fewer), Side(front, more);
      if last[0] in more {
        assert (all + [last[1..]])[..|all|] == all;
        if last[0] in fewer {
          assert (kept + [last[1..]])[..|kept|] == kept;
        } else {
          assert Side(s, fewer) == kept;
        }
      } else {
        assert Side(s, fewer) == kept && Side(s, more) == all;
      }
    }
  }

  // ---------- Scripts and common subsequences ----------

  /** What any script that turns `a` into `b` costs is fixed by the number of lines it keeps. */
  lemma ScriptCost(script: seq<string>, a: seq<string>, b: seq<string>)
    requires Transforms(script, a, b)
    ensures |a| == |Side(script, {' '})| + |Side(script, {'-'})|
    ensures |b| == |Side(script, {' '})| + |Side(script, {'+'})|
    ensures |Side(script, {' '})| <= Lcs(a, b)
  {
    assert OLD_TAGS == {' '} + {'-'} && NEW_TAGS == {' '} + {'+'};
    SideCount(script, {' '}, {'-'});
    SideCount(script, {' '}, {'+'});
    SideIsSubsequence(script, {' '}, OLD_TAGS);
    SideIsSubsequence(script, {' '}, NEW_TAGS);
    LcsIsUpperBound(Side(script, {' '}), a, b);
  }

  /** A script that keeps as many lines as the recurrence says shows that the recurrence is the length
      of a longest common subsequence, and no other script has fewer changes. */
  lemma KeepingMostIsOptimal(script: seq<string>, a: seq<string>, b: seq<string>)
    requires Transforms(script, a, b) && |Side(script, {' '})| == Lcs(a, b)
    ensures IsLcsLength(|Side(script, {' '})|, a, b)
    ensures forall other :: Transforms(other, a, b) ==> Changes(script) <= Changes(other)
  {
    ScriptCost(script, a, b);
    forall other | Transforms(other, a, b)
      ensures Changes(script) <= Changes(other)
    {
      ScriptCost(other, a, b);
    }
    var kept := Side(script, {' '});
    SideIsSubsequence(script, {' '}, OLD_TAGS);
    SideIsSubsequence(script, {' '}, NEW_TAGS);
    assert Subsequence(kept, a) && Subsequence(kept, b);
    forall c | Subsequence(c, a) && Subsequence(c, b)
      ensures |c| <= |kept|
    {
      LcsIsUpperBound(c, a, b);
    }
  }

  // ---------- The algorithm ----------

  /** The recurrence of the table. */
  lemma LcsAt(a: seq<string>, b: seq<string>, i: nat, j: nat)
    requires i <= |a| && j <= |b|
    ensures Lcs(a[..i], b[..j]) ==
      if i == 0 || j == 0 then 0
      else if a[i - 1] == b[j - 1] then Lcs(a[..i - 1], b[..j - 1]) + 1
      else if Lcs(a[..i - 1], b[..j]) > Lcs(a[..i], b[..j - 1]) then Lcs(a[..i - 1], b[..j])
      else Lcs(a[..i], b[..j - 1])
  {
    if i > 0 && j > 0 {
      assert a[..i][..i - 1] == a[..i - 1] && b[..j][..j - 1] == b[..j - 1];
    }
  }

  method FillTable(a: seq<string>, b: seq<string>) returns (dp: array2<nat>)
    ensures fresh(dp) && dp.Length0 == |a| + 1 && dp.Length1 == |b| + 1
    ensures forall i, j | 0 <= i <= |a| && 0 <= j <= |b| :: dp[i, j] == Lcs(a[..i], b[..j])
  {
    hide Lcs;
    dp := new nat[|a| + 1, |b| + 1]((_, _) => 0);
    forall i, j | 0 <= i <= |a| && 0 <= j <= |b| && (i == 0 || j == 0)
      ensures Lcs(a[..i], b[..j]) == 0
    {
      LcsAt(a, b, i, j);
    }
    for i := 1 to |a| + 1
      invariant forall k, j | 0 <= k < i && 0 <= j <= |b| :: dp[k, j] == Lcs(a[..k], b[..j])
      invariant forall k, j | i <= k <= |a| && 0 <= j <= |b| :: dp[k, j] == 0
    {
      for j := 1 to |b| + 1
        invariant forall k, l | 0 <= k < i && 0 <= l <= |b| :: dp[k, l] == Lcs(a[..k], b[..l])
        invariant forall l | 0 <= l < j :: dp[i, l] == Lcs(a[..i], b[..l])
        invariant forall k, l | i < k <= |a| && 0 <= l <= |b| :: dp[k, l] == 0
      {
        LcsAt(a, b, i, j);
        if a[i - 1] == b[j - 1] {
          dp[i, j] := dp[i - 1, j - 1] + 1;
        } else {
          dp[i, j] := if dp[i - 1, j] > dp[i, j - 1] then dp[i - 1, j] else dp[i, j - 1];
        }
      }
    }
  }

  ghost function Reversed(s: seq<string>): seq<string> {
    if s == [] then [] else [s[|s| - 1]] + Reversed(s[..|s| - 1])
  }

  lemma ReversedPush(s: seq<string>, line: string)
    ensures Reversed(s + [line]) == [line] + Reversed(s)
  {
    assert (s + [line])[..|s|] == s;
  }

  method Reverse(s: seq<string>) returns (r: seq<string>)
    ensures r == Reversed(s)
  {
    r := [];
    var i := |s|;
    assert s[..|s|] == s;
    while i > 0
      invariant 0 <= i <= |s|
      invariant r + Reversed(s[..i]) == Reversed(s)
    {
      assert s[..i][..i - 1] == s[..i - 1];
      i := i - 1;
      r := r + [s[i]];
    }
  }

  /** What is known while walking back from the ends: `lines`, read backwards, is the script for the
      suffixes already passed, and the table still promises the rest of the kept lines. */
  ghost predicate WalkedBack(lines: seq<string>, a: seq<string>, b: seq<string>, i: nat, j: nat,
                             additions: nat, deletions: nat) {
    var script := Reversed(lines);
    && i <= |a| && j <= |b|
    && Transforms(script, a[i..], b[j..])
    && additions == |Side(script, {'+'})| && deletions == |Side(script, {'-'})|
    && |Side(script, {' '})| + Lcs(a[..i], b[..j]) == Lcs(a, b)
  }

  lemma WalkStart(a: seq<string>, b: seq<string>)
    ensures WalkedBack([], a, b, |a|, |b|, 0, 0)
  {
    assert a[..|a|] == a && b[..|b|] == b;
  }

  lemma WalkEnd(lines: seq<string>, a: seq<string>, b: seq<string>, additions: nat, deletions: nat)
    requires WalkedBack(lines, a, b, 0, 0, additions, deletions)
    ensures var script := Reversed(lines);
      && Transforms(script, a, b)
      && additions == |Side(script, {'+'})| && deletions == |Side(script, {'-'})|
      && |Side(script, {' '})| == Lcs(a, b)
  {
    assert a[0..] == a && b[0..] == b;
    LcsAt(a, b, 0, 0);
  }

  lemma WalkKeep(lines: seq<string>, a: seq<string>, b: seq<string>, i: nat, j: nat, additions: nat, deletions: nat)
    requires WalkedBack(lines, a, b, i, j, additions, deletions)
    requires i > 0 && j > 0 && a[i - 1] == b[j - 1]
    ensures WalkedBack(lines + [" " + a[i - 1]], a, b, i - 1, j - 1, additions, deletions)
  {
    hide Lcs, Side, Reversed;
    var line := " " + a[i - 1];
    Push(lines, line);
    LcsAt(a, b, i, j);
    assert a[i - 1..] == [a[i - 1]] + a[i..] && b[j - 1..] == [b[j - 1]] + b[j..];
  }

  lemma WalkDelete(lines: seq<string>, a: seq<string>, b: seq<string>, i: nat, j: nat, additions: nat, deletions: nat)
    requires WalkedBack(lines, a, b, i, j, additions, deletions)
    requires i > 0 && Lcs(a[..i - 1], b[..j]) == Lcs(a[..i], b[..j])
    ensures WalkedBack(lines + ["-" + a[i - 1]], a, b, i - 1, j, additions, deletions + 1)
  {
    var line := "-" + a[i - 1];
    Push(lines, line);
    assert a[i - 1..] == [a[i - 1]] + a[i..];
  }

  lemma WalkAdd(lines: seq<string>, a: seq<string>, b: seq<string>, i: nat, j: nat, additions: nat, deletions: nat)
    requires WalkedBack(lines, a, b, i, j, additions, deletions)
    requires j > 0 && Lcs(a[..i], b[..j - 1]) == Lcs(a[..i], b[..j])
    ensures WalkedBack(lines + ["+" + b[j - 1]], a, b, i, j - 1, additions + 1, deletions)
  {
    var line := "+" + b[j - 1];
    Push(lines, line);
    assert b[j - 1..] == [b[j - 1]] + b[j..];
  }

  /** What one pushed line does to the four sides that the walk watches. */
  lemma Push(lines: seq<string>, line: string)
    requires IsTagged(line) && IsScript(Reversed(lines))
    ensures var script, script', tag := Reversed(lines), Reversed(lines + [line]), line[0];
      && IsScript(script')
      && Side(script', OLD_TAGS) == (if tag == '+' then [] else [line[1..]]) + Side(script, OLD_TAGS)
      && Side(script', NEW_TAGS) == (if tag == '-' then [] else [line[1..]]) + Side(script, NEW_TAGS)
      && |Side(script', {'+'})| == |Side(script, {'+'})| + (if tag == '+' then 1 else 0)
      && |Side(script', {'-'})| == |Side(script, {'-'})| + (if tag == '-' then 1 else 0)
      && |Side(script', {' '})| == |Side(script, {' '})| + (if tag == ' ' then 1 else 0)
  {
    var script := Reversed(lines);
    ReversedPush(lines, line);
    SidePrepend(line, script, OLD_TAGS);
    SidePrepend(line, script, NEW_TAGS);
    SidePrepend(line, script, {'+'});
    SidePrepend(line, script, {'-'});
    SidePrepend(line, script, {' '});
  }

  /** The edit script, and the number of added and deleted lines in it. */
  method WalkBack(a: seq<string>, b: seq<string>, dp: array2<nat>)
    returns (lines: seq<string>, additions: nat, deletions: nat)
    requires dp.Length0 == |a| + 1 && dp.Length1 == |b| + 1
    requires forall i, j | 0 <= i <= |a| && 0 <= j <= |b| :: dp[i, j] == Lcs(a[..i], b[..j])
    ensures Transforms(lines, a, b)
    ensures additions == |Side(lines, {'+'})| && deletions == |Side(lines, {'-'})|
    ensures |Side(lines, {' '})| == Lcs(a, b)
  {
    hide Lcs, WalkedBack;
    lines, additions, deletions := [], 0, 0;
    var i, j := |a|, |b|;
    WalkStart(a, b);

    while i > 0 && j > 0
      invariant 0 <= i <= |a| && 0 <= j <= |b|
      invariant WalkedBack(lines, a, b, i, j, additions, deletions)
    {
      LcsAt(a, b, i, j);
      if a[i - 1] == b[j - 1] {
        WalkKeep(lines, a, b, i, j, additions, deletions);
        lines := lines + [" " + a[i - 1]];
        i, j := i - 1, j - 1;
      } else if dp[i - 1, j] >= dp[i, j - 1] {
        WalkDelete(lines, a, b, i, j, additions, deletions);
        lines := lines + ["-" + a[i - 1]];
        deletions := deletions + 1;
        i := i - 1;
      } else {
        WalkAdd(lines, a, b, i, j, additions, deletions);
        lines := lines + ["+" + b[j - 1]];
        additions := additions + 1;
        j := j - 1;
      }
    }

    while i > 0
      invariant 0 <= i <= |a| && 0 <= j <= |b| && (i == 0 || j == 0)
      invariant WalkedBack(lines, a, b, i, j, additions, deletions)
    {
      LcsAt(a, b, i, j);
      LcsAt(a, b, i - 1, j);
      WalkDelete(lines, a, b, i, j, additions, deletions);
      lines := lines + ["-" + a[i - 1]];
      deletions := deletions + 1;
      i := i - 1;
    }

    while j > 0
      invariant i == 0 && 0 <= j <= |b|
      invariant WalkedBack(lines, a, b, i, j, additions, deletions)
    {
      LcsAt(a, b, i, j);
      LcsAt(a, b, i, j - 1);
      WalkAdd(lines, a, b, i, j, additions, deletions);
      lines := lines + ["+" + b[j - 1]];
      additions := additions + 1;
      j := j - 1;
    }

    WalkEnd(lines, a, b, additions, deletions);
    lines := Reverse(lines);
  }

  predicate IsNumber(digits: string, n: nat) {
    && digits != "" && (forall i | 0 <= i < |digits| :: '0' <= digits[i] <= '9')
    && (n > 0 ==> digits[0] != '0') && Value(digits) == n
  }

  /** A unified-diff header whose two counts are these numbers in decimal. */
  ghost predicate HeaderReads(header: string, n: nat, m: nat) {
    exists x, y :: header == "@@ -1," + x + " +1," + y + " @@" && IsNumber(x, n) && IsNumber(y, m)
  }

  /** The hunks of a file change. There is no hunk exactly when both texts have no lines. Otherwise the
      one hunk reconstructs both sides, its counts and header are right, and no other script has fewer
      changes. */
  method ComputeFileHunks(oldText: string, newText: string)
    returns (hunks: seq<DiffHunk>, additions: nat, deletions: nat)
    ensures var a, b := Lines(oldText), Lines(newText);
      && deletions <= |a| && |a| - deletions == |b| - additions
      && IsLcsLength(|a| - deletions, a, b)
      && (forall script :: Transforms(script, a, b) ==> additions + deletions <= Changes(script))
      && (hunks == [] <==> a == [] && b == [])
      && (hunks != [] ==>
            && |hunks| == 1
            && Transforms(hunks[0].lines, a, b)
            && additions == |Side(hunks[0].lines, {'+'})| && deletions == |Side(hunks[0].lines, {'-'})|
            && hunks[0].hunkIndex == 0 && hunks[0].accepted
            && hunks[0].oldStart == 1 && hunks[0].oldLines == |a|
            && hunks[0].newStart == 1 && hunks[0].newLines == |b|
            && hunks[0].header == "@@ -1," + Decimal(|a|) + " +1," + Decimal(|b|) + " @@")
    ensures hunks != [] ==> HeaderReads(hunks[0].header, |Lines(oldText)|, |Lines(newText)|)
  {
    var a, b := Lines(oldText), Lines(newText);
    var n, m := |a|, |b|;
    var dp := FillTable(a, b);
    var lines;
    lines, additions, deletions := WalkBack(a, b, dp);
    ScriptCost(lines, a, b);
    KeepingMostIsOptimal(lines, a, b);

    hunks := [];
    assert IsNumber(Decimal(n), n) && IsNumber(Decimal(m), m) by {
      DecimalReads(n);
      DecimalReads(m);
    }
    if lines != [] {
      hunks := [DiffHunk(0, 1, n, 1, m, "@@ -1," + Decimal(n) + " +1," + Decimal(m) + " @@", lines, true)];
    }
  }
}
