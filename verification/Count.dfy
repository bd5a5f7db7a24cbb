/** lab1/count.c: counting the occurrences of a pattern in a file, a buffer at a time. */
module Count {
  import opened Bytes
  import opened CStrings

  // ----- gen_next --------------------------------------------------------------------------------

  /** The table entry: extended while the characters agree, back to 0 as soon as they do not. */
  function Next(p: seq<Byte>, i: nat): (n: nat)
    requires i < |p|
    ensures n <= i
  {
    if i == 0 then
      0
    else
      var v := Next(p, i - 1);
      if p[i] == p[v] then v + 1 else 0
  }

  lemma NextStep(p: seq<Byte>, i: nat)
    requires i < |p|
    ensures i == 0 ==> Next(p, i) == 0
    ensures i > 0 ==>
              Next(p, i - 1) < i && Next(p, i) == if p[i] == p[Next(p, i - 1)] then Next(p, i - 1) + 1 else 0
  {}

  method GenNext(p: seq<Byte>, next: array<nat>)
    requires next.Length == |p|
    modifies next
    ensures forall i :: 0 <= i < |p| ==> next[i] == Next(p, i)
  {
    hide Next;
    forall k | 0 <= k < next.Length {
      next[k] := 0;
    }
    if p != [] {
      NextStep(p, 0);
    }
    if |p| <= 1 {
      return;
    }
    var val := 0;
    var i := 1;
    while i < |p|
      invariant 1 <= i <= |p| && val == Next(p, i - 1)
      invariant forall k :: 0 <= k < i ==> next[k] == Next(p, k)
      invariant forall k :: i <= k < |p| ==> next[k] == 0
    {
      NextStep(p, i);
      if p[i] == p[val] {
        val := val + 1;
        next[i] := val;
      } else {
        val := 0;
      }
      i := i + 1;
    }
  }

  /** The first `c` characters of p[..i + 1] are also its last, and not all of it. */
  ghost predicate IsBorder(p: seq<Byte>, i: nat, c: nat) {
    c <= i < |p| && p[..c] == p[i + 1 - c..i + 1]
  }

  /** Every entry is the length of a proper border. */
  lemma {:induction false} NextIsBorder(p: seq<Byte>, i: nat)
    requires i < |p|
    ensures IsBorder(p, i, Next(p, i))
  {
    if i == 0 {
    } else {
      NextIsBorder(p, i - 1);
      var v := Next(p, i - 1);
      if p[i] == p[v] {
        assert p[..v + 1] == p[..v] + [p[v]];
        assert p[i - v..i + 1] == p[i - v..i] + [p[i]];
      }
    }
  }

  /** The table holds the longest borders, as the algorithm needs it. */
  ghost predicate Longest(p: seq<Byte>) {
    forall i: nat, c: nat :: IsBorder(p, i, c) ==> c <= Next(p, i)
  }

  /** No border that the table does not know hides an occurrence in a text of fewer than n
      characters: the occurrence would start where the border does. */
  ghost predicate NothingHidden(p: seq<Byte>, n: nat) {
    forall i: nat, c: nat :: IsBorder(p, i, c) && c > Next(p, i) ==> i + 1 - c + |p| >= n
  }

  /** Wherever the table falls back to 0, there is no border to fall back to. */
  ghost predicate ResetIsSafe(p: seq<Byte>) {
    forall i: nat, c: nat :: 0 < i < |p| && p[i] != p[Next(p, i - 1)] && 0 < c ==> !IsBorder(p, i, c)
  }

  lemma ShorterBorder(p: seq<Byte>, i: nat, c: nat)
    requires 0 < c && IsBorder(p, i, c)
    ensures IsBorder(p, i - 1, c - 1) && p[c - 1] == p[i]
  {
    assert p[..c][..c - 1] == p[..c - 1];
    assert p[i + 1 - c..i + 1][..c - 1] == p[i + 1 - c..i];
    assert p[..c][c - 1] == p[i + 1 - c..i + 1][c - 1];
  }

  lemma {:induction false} SafeIsLongest(p: seq<Byte>, i: nat, c: nat)
    requires ResetIsSafe(p) && IsBorder(p, i, c)
    ensures c <= Next(p, i)
  {
    if c == 0 {
    } else {
      ShorterBorder(p, i, c);
      SafeIsLongest(p, i - 1, c - 1);
    }
  }

  lemma LongestIffSafe(p: seq<Byte>)
    ensures Longest(p) <==> ResetIsSafe(p)
  {
    if ResetIsSafe(p) {
      forall i: nat, c: nat | IsBorder(p, i, c)
        ensures c <= Next(p, i)
      {
        SafeIsLongest(p, i, c);
      }
    }
  }

  // ----- kmp_match -------------------------------------------------------------------------------

  /** One turn of the search: `m` characters from `head` on have been matched. */
  function Turn(text: seq<Byte>, p: seq<Byte>, head: nat, m: nat): (r: (nat, nat))
    requires m < |p| && head + m < |text|
    ensures head <= r.0 && r.1 < |p| && r.0 + r.1 <= |text| && 2 * r.0 + r.1 > 2 * head + m
  {
    if text[head + m] != p[m] then
      if m > 0 then (head + (m - Next(p, m - 1)), Next(p, m - 1)) else (head + 1, 0)
    else if m + 1 == |p| then
      (head + (m + 1 - Next(p, m)), Next(p, m))
    else
      (head, m + 1)
  }

  /** The turn completes a match. */
  predicate Hit(text: seq<Byte>, p: seq<Byte>, head: nat, m: nat)
    requires m < |p| && head + m < |text|
  {
    text[head + m] == p[m] && m + 1 == |p|
  }

  /** The starts that are counted from here on. */
  function Found(text: seq<Byte>, p: seq<Byte>, head: nat, m: nat): seq<nat>
    requires m < |p| && head + m <= |text|
    decreases 2 * |text| - (2 * head + m)
  {
    if head + m == |text| then
      []
    else
      var next := Turn(text, p, head, m);
      if Hit(text, p, head, m) then [head] + Found(text, p, next.0, next.1) else Found(text, p, next.0, next.1)
  }

  /** What kmp_match returns for a text; nothing is ever equal to an empty pattern's terminator. */
  function Tally(text: seq<Byte>, p: seq<Byte>): nat {
    if p == [] then 0 else |Found(text, p, 0, 0)|
  }

  function CharAt(p: seq<Byte>, k: nat): Byte {
    if k < |p| then p[k] else 0
  }

  /** The search loop; `turns` counts its iterations. */
  method KmpMatch(text: array<Byte>, pattern: seq<Byte>) returns (times: nat, ghost turns: nat)
    requires 0 in text[..] && 0 !in pattern
    ensures times == Tally(CString(text[..]), pattern)
    ensures turns <= 2 * |CString(text[..])|
  {
    hide CString, Found, Next;
    ghost var s := CString(text[..]);
    CStringEnds(text[..]);
    var next := new nat[|pattern|];
    GenNext(pattern, next);
    var curHead, t, matchedLen := 0, 0, 0;
    times := 0;
    turns := 0;
    while text[t] != 0
      invariant forall k :: 0 <= k < |pattern| ==> next[k] == Next(pattern, k)
      invariant 0 <= curHead <= t == curHead + matchedLen <= |s|
      invariant matchedLen == 0 || matchedLen < |pattern|
      invariant pattern != [] ==> times + |Found(s, pattern, curHead, matchedLen)| == Tally(s, pattern)
      invariant pattern == [] ==> times == 0
      invariant turns <= 2 * curHead + matchedLen
      decreases 2 * |s| - (2 * curHead + matchedLen)
    {
      turns := turns + 1;
      CStringAt(text[..], t);
      if text[t] != CharAt(pattern, matchedLen) {
        if matchedLen > 0 {
          FoundFalls(s, pattern, curHead, matchedLen);
          curHead := curHead + (matchedLen - next[matchedLen - 1]);
          t := curHead + next[matchedLen - 1];
          matchedLen := next[matchedLen - 1];
        } else {
          if pattern != [] {
            FoundMoves(s, pattern, curHead);
          }
          curHead := curHead + 1;
          t := curHead;
        }
      } else {
        FoundMatches(s, pattern, curHead, matchedLen);
        t := t + 1;
        matchedLen := matchedLen + 1;
        if matchedLen == |pattern| {
          times := times + 1;
          curHead := curHead + (matchedLen - next[matchedLen - 1]);
          t := curHead + next[matchedLen - 1];
          matchedLen := next[matchedLen - 1];
        }
      }
    }
    CStringAt(text[..], t);
    if pattern != [] {
      FoundEnd(s, pattern, curHead, matchedLen);
    }
  }

  lemma FoundTurn(text: seq<Byte>, p: seq<Byte>, head: nat, m: nat)
    requires m < |p| && head + m < |text|
    ensures Next(p, m) <= m
    ensures |Found(text, p, head, m)| ==
              (if Hit(text, p, head, m) then 1 else 0) +
                  |Found(text, p, Turn(text, p, head, m).0, Turn(text, p, head, m).1)|
  {}

  lemma FoundFalls(text: seq<Byte>, p: seq<Byte>, head: nat, m: nat)
    requires 0 < m < |p| && head + m < |text| && text[head + m] != p[m]
    ensures Next(p, m - 1) < m
    ensures |Found(text, p, head, m)| == |Found(text, p, head + (m - Next(p, m - 1)), Next(p, m - 1))|
  {}

  lemma FoundMoves(text: seq<Byte>, p: seq<Byte>, head: nat)
    requires p != [] && head < |text| && text[head] != p[0]
    ensures |Found(text, p, head, 0)| == |Found(text, p, head + 1, 0)|
  {}

  lemma FoundMatches(text: seq<Byte>, p: seq<Byte>, head: nat, m: nat)
    requires m < |p| && head + m < |text| && text[head + m] == p[m]
    ensures Next(p, m) <= m
    ensures m + 1 < |p| ==> |Found(text, p, head, m)| == |Found(text, p, head, m + 1)|
    ensures m + 1 == |p| ==>
      |Found(text, p, head, m)| == 1 + |Found(text, p, head + (m + 1 - Next(p, m)), Next(p, m))|
  {
    hide Next;
    FoundTurn(text, p, head, m);
    hide Found;
  }

  lemma FoundEnd(text: seq<Byte>, p: seq<Byte>, head: nat, m: nat)
    requires m < |p| && head + m == |text|
    ensures Found(text, p, head, m) == []
  {}

  // ----- Occurrences -----------------------------------------------------------------------------

  ghost predicate Occurs(text: seq<Byte>, p: seq<Byte>, s: nat) {
    s + |p| <= |text| && text[s..s + |p|] == p
  }

  /** How many occurrences start at `from` or later. */
  ghost function Occurrences(text: seq<Byte>, p: seq<Byte>, from: nat): nat
    decreases |text| - from
  {
    if from + |p| > |text| || from == |text| then
      0
    else
      (if Occurs(text, p, from) then 1 else 0) + Occurrences(text, p, from + 1)
  }

  lemma {:induction false} NoneBetween(text: seq<Byte>, p: seq<Byte>, a: nat, b: nat)
    requires p != [] && a <= b && forall s :: a <= s < b ==> !Occurs(text, p, s)
    ensures Occurrences(text, p, a) == Occurrences(text, p, b)
    decreases b - a
  {
    if a == b {
    } else {
      NoneBetween(text, p, a + 1, b);
    }
  }

  lemma {:induction false} FewerLater(text: seq<Byte>, p: seq<Byte>, a: nat, b: nat)
    requires p != [] && a <= b
    ensures Occurrences(text, p, a) >= Occurrences(text, p, b)
    decreases b - a
  {
    if a == b {
    } else {
      FewerLater(text, p, a + 1, b);
    }
  }

  lemma Skipped(text: seq<Byte>, p: seq<Byte>, a: nat, s: nat, b: nat)
    requires p != [] && a <= s < b && Occurs(text, p, s)
    ensures Occurrences(text, p, a) >= 1 + Occurrences(text, p, b)
  {
    FewerLater(text, p, a, s);
    FewerLater(text, p, s + 1, b);
  }

  // ----- The search against the occurrences ------------------------------------------------------

  ghost predicate Matches(text: seq<Byte>, p: seq<Byte>, head: nat, m: nat) {
    head + m <= |text| && m <= |p| && text[head..head + m] == p[..m]
  }

  lemma MatchMore(text: seq<Byte>, p: seq<Byte>, head: nat, m: nat)
    requires Matches(text, p, head, m) && m < |p| && head + m < |text| && text[head + m] == p[m]
    ensures Matches(text, p, head, m + 1)
  {
    assert text[head..head + m + 1] == text[head..head + m] + [text[head + m]];
    assert p[..m + 1] == p[..m] + [p[m]];
  }

  /** Moving the head so far that a border stays matched. */
  lemma MatchShifted(text: seq<Byte>, p: seq<Byte>, head: nat, m: nat, c: nat)
    requires 0 < m && Matches(text, p, head, m) && IsBorder(p, m - 1, c)
    ensures Matches(text, p, head + (m - c), c)
  {
    assert text[head + (m - c)..head + m] == text[head..head + m][m - c..];
    assert p[..m][m - c..] == p[m - c..m];
  }

  lemma TurnMatches(text: seq<Byte>, p: seq<Byte>, head: nat, m: nat)
    requires m < |p| && head + m < |text| && Matches(text, p, head, m)
    ensures var next := Turn(text, p, head, m); Matches(text, p, next.0, next.1)
    ensures Hit(text, p, head, m) ==> Occurs(text, p, head) && Turn(text, p, head, m).0 > head
  {
    hide IsBorder, Next;
    if text[head + m] == p[m] {
      MatchMore(text, p, head, m);
      if m + 1 == |p| {
        NextIsBorder(p, m);
        MatchShifted(text, p, head, m + 1, Next(p, m));
      }
    } else if m > 0 {
      NextIsBorder(p, m - 1);
      MatchShifted(text, p, head, m, Next(p, m - 1));
    }
  }

  ghost predicate Ascending(s: seq<nat>) {
    forall i, j :: 0 <= i < j < |s| ==> s[i] < s[j]
  }

  lemma PrependAscending(head: nat, rest: seq<nat>)
    requires Ascending(rest) && forall s :: s in rest ==> s > head
    ensures Ascending([head] + rest)
  {
    forall i, j | 0 <= i < j < |[head] + rest|
      ensures ([head] + rest)[i] < ([head] + rest)[j]
    {
      assert ([head] + rest)[j] in rest;
    }
  }

  /** Only real occurrences are counted, each once. */
  lemma {:induction false} FoundOccur(text: seq<Byte>, p: seq<Byte>, head: nat, m: nat)
    requires m < |p| && Matches(text, p, head, m)
    ensures Ascending(Found(text, p, head, m))
    ensures forall s :: s in Found(text, p, head, m) ==> s >= head && Occurs(text, p, s)
    decreases 2 * |text| - (2 * head + m)
  {
    if head + m == |text| {
    } else {
      hide Occurs, Hit, Turn, Matches;
      TurnMatches(text, p, head, m);
      TurnProgress(text, p, head, m);
      var next := Turn(text, p, head, m);
      FoundOccur(text, p, next.0, next.1);
      if Hit(text, p, head, m) {
        PrependAscending(head, Found(text, p, next.0, next.1));
      }
      hide Ascending;
    }
  }

  lemma {:induction false} FoundAtMost(text: seq<Byte>, p: seq<Byte>, head: nat, m: nat)
    requires m < |p| && Matches(text, p, head, m)
    ensures |Found(text, p, head, m)| <= Occurrences(text, p, head)
    decreases 2 * |text| - (2 * head + m)
  {
    if head + m == |text| {
    } else {
      hide Occurs, Hit, Occurrences, Turn, Matches;
      TurnMatches(text, p, head, m);
      TurnProgress(text, p, head, m);
      var next := Turn(text, p, head, m);
      FoundAtMost(text, p, next.0, next.1);
      FewerLater(text, p, head, next.0);
      if Hit(text, p, head, m) {
        Skipped(text, p, head, head, next.0);
      }
    }
  }

  /** An occurrence that starts inside the matched part makes a border. */
  lemma OverlapIsBorder(text: seq<Byte>, p: seq<Byte>, head: nat, m: nat, s: nat)
    requires Matches(text, p, head, m) && head < s < head + m && Occurs(text, p, s)
    ensures IsBorder(p, m - 1, head + m - s)
  {
    var c := head + m - s;
    assert text[s..head + m] == text[s..s + |p|][..c];
    assert text[s..head + m] == text[head..head + m][m - c..];
    assert p[m - c..m] == p[..m][m - c..];
  }

  /** With nothing hidden, no occurrence starts between the old and the new head. */
  lemma NoneJumped(text: seq<Byte>, p: seq<Byte>, head: nat, m: nat)
    requires NothingHidden(p, |text| + 1) && 0 < m && Matches(text, p, head, m)
    ensures Occurrences(text, p, head + 1) == Occurrences(text, p, head + (m - Next(p, m - 1)))
  {
    forall s | head + 1 <= s < head + (m - Next(p, m - 1))
      ensures !Occurs(text, p, s)
    {
      if Occurs(text, p, s) {
        OverlapIsBorder(text, p, head, m, s);
        assert false;
      }
    }
    NoneBetween(text, p, head + 1, head + (m - Next(p, m - 1)));
  }

  lemma OccursAt(text: seq<Byte>, p: seq<Byte>, s: nat, m: nat)
    requires m < |p| && Occurs(text, p, s)
    ensures text[s + m] == p[m]
  {
    assert text[s..s + |p|][m] == p[m];
  }

  lemma OccurrencesAt(text: seq<Byte>, p: seq<Byte>, s: nat)
    requires p != []
    ensures Occurrences(text, p, s) == (if Occurs(text, p, s) then 1 else 0) + Occurrences(text, p, s + 1)
  {}

  lemma FullMatch(text: seq<Byte>, p: seq<Byte>, head: nat)
    requires Matches(text, p, head, |p|)
    ensures Occurs(text, p, head)
  {
    assert p[..|p|] == p;
  }

  lemma HitExact(text: seq<Byte>, p: seq<Byte>, head: nat)
    requires NothingHidden(p, |text| + 1) && p != [] && Matches(text, p, head, |p|)
    ensures Occurrences(text, p, head) == 1 + Occurrences(text, p, head + (|p| - Next(p, |p| - 1)))
  {
    hide Matches, Occurs, Occurrences, NothingHidden;
    FullMatch(text, p, head);
    OccurrencesAt(text, p, head);
    NoneJumped(text, p, head, |p|);
  }

  lemma MismatchExact(text: seq<Byte>, p: seq<Byte>, head: nat, m: nat)
    requires NothingHidden(p, |text| + 1) && m < |p|
    requires head + m < |text| && Matches(text, p, head, m) && text[head + m] != p[m]
    ensures Occurrences(text, p, head) == Occurrences(text, p, head + 1)
    ensures m > 0 ==> Occurrences(text, p, head) == Occurrences(text, p, head + (m - Next(p, m - 1)))
  {
    hide Matches, Occurs, Occurrences, NothingHidden;
    if Occurs(text, p, head) {
      OccursAt(text, p, head, m);
      assert false;
    }
    OccurrencesAt(text, p, head);
    if m > 0 {
      NoneJumped(text, p, head, m);
    }
  }

  /** With nothing hidden a turn passes over nothing that it does not count. */
  lemma TurnExact(text: seq<Byte>, p: seq<Byte>, head: nat, m: nat)
    requires NothingHidden(p, |text| + 1) && m < |p| && head + m < |text| && Matches(text, p, head, m)
    ensures Occurrences(text, p, head) ==
              (if Hit(text, p, head, m) then 1 else 0) + Occurrences(text, p, Turn(text, p, head, m).0)
  {
    hide NothingHidden, Matches, Occurrences;
    if text[head + m] == p[m] {
      if m + 1 == |p| {
        MatchMore(text, p, head, m);
        HitExact(text, p, head);
      }
    } else {
      MismatchExact(text, p, head, m);
    }
  }

  /** With nothing hidden every occurrence is counted, overlapping ones too. */
  lemma {:induction false} FoundAll(text: seq<Byte>, p: seq<Byte>, head: nat, m: nat)
    requires NothingHidden(p, |text| + 1) && m < |p| && Matches(text, p, head, m)
    ensures |Found(text, p, head, m)| == Occurrences(text, p, head)
    decreases 2 * |text| - (2 * head + m)
  {
    if head + m == |text| {
    } else {
      hide NothingHidden, Turn, Hit, Matches, Occurrences;
      TurnMatches(text, p, head, m);
      TurnExact(text, p, head, m);
      TurnProgress(text, p, head, m);
      var next := Turn(text, p, head, m);
      FoundAll(text, p, next.0, next.1);
    }
  }

  lemma TurnProgress(text: seq<Byte>, p: seq<Byte>, head: nat, m: nat)
    requires m < |p| && head + m < |text|
    ensures var r := Turn(text, p, head, m);
            head <= r.0 && r.1 < |p| && r.0 + r.1 <= |text| && 2 * r.0 + r.1 > 2 * head + m
  {}

  // ----- Exactly when the count is right ---------------------------------------------------------

  /** A border that the table does not know can be lengthened until the pattern ends or the next
      characters differ; the table does not catch up. */
  lemma {:induction false} UnknownBorder(p: seq<Byte>, i: nat, c: nat) returns (j: nat, d: nat)
    requires i < |p| && IsBorder(p, i, c) && c > Next(p, i)
    ensures j < |p| && IsBorder(p, j, d) && d > Next(p, j) && j - d == i - c
    ensures j + 1 == |p| || p[d] != p[j + 1]
    decreases |p| - i
  {
    if i + 1 == |p| || p[c] != p[i + 1] {
      j, d := i, c;
    } else {
      assert p[..c + 1] == p[..c] + [p[c]];
      assert p[i + 1 - c..i + 2] == p[i + 1 - c..i + 1] + [p[i + 1]];
      j, d := UnknownBorder(p, i + 1, c + 1);
    }
  }

  lemma {:induction false} MatchUpTo(text: seq<Byte>, p: seq<Byte>, m: nat)
    requires m < |p| && Matches(text, p, 0, m)
    ensures Found(text, p, 0, 0) == Found(text, p, 0, m)
  {
    if m == 0 {
    } else {
      assert text[..m - 1] == text[0..m][..m - 1] == p[..m - 1];
      assert text[0..m][m - 1] == p[..m][m - 1];
      MatchUpTo(text, p, m - 1);
    }
  }

  /** The text that continues with the unknown border. */
  function Hiding(p: seq<Byte>, j: nat, d: nat): (text: seq<Byte>)
    requires d <= j < |p|
    ensures |text| == j + 1 + |p| - d && text[..j + 1] == p[..j + 1] && text[j + 1..] == p[d..]
  {
    p[..j + 1] + p[d..]
  }

  lemma HidesOccurrence(p: seq<Byte>, j: nat, d: nat)
    requires IsBorder(p, j, d)
    ensures Occurs(Hiding(p, j, d), p, j + 1 - d)
  {
    var text, s := Hiding(p, j, d), j + 1 - d;
    assert text[s..s + |p|] == p[s..j + 1] + p[d..];
    assert p == p[..d] + p[d..];
  }

  lemma HidingMatches(p: seq<Byte>, j: nat, d: nat, m: nat)
    requires d <= j < |p| && m <= j + 1
    ensures Matches(Hiding(p, j, d), p, 0, m)
  {
    var text := Hiding(p, j, d);
    assert text[0..m] == text[..j + 1][..m] == p[..j + 1][..m];
  }

  lemma HidingNext(p: seq<Byte>, j: nat, d: nat)
    requires IsBorder(p, j, d)
    ensures var text := Hiding(p, j, d);
            j + 1 < |p| ==> j + 1 < |text| && text[j + 1] == p[d]
  {
    var text := Hiding(p, j, d);
    assert j + 1 < |p| ==> text[j + 1..][0] == p[d..][0];
  }

  lemma MatchedAt(text: seq<Byte>, p: seq<Byte>, j: nat)
    requires j < |p| && Matches(text, p, 0, j + 1)
    ensures text[j] == p[j]
  {
    assert text[0..j + 1][j] == p[..j + 1][j];
  }

  /** Having matched p[..j + 1], the search looks only from head j + 1 - Next(p, j) on. */
  lemma JumpsTo(text: seq<Byte>, p: seq<Byte>, j: nat)
    requires j < |p| && Matches(text, p, 0, j) && Matches(text, p, 0, j + 1)
    requires j + 1 < |p| ==> j + 1 < |text| && text[j + 1] != p[j + 1]
    ensures |Found(text, p, 0, 0)| <=
              (if j + 1 == |p| then 1 else 0) + Occurrences(text, p, j + 1 - Next(p, j))
  {
    hide IsBorder, Matches, Occurrences, Found;
    var n := Next(p, j);
    NextIsBorder(p, j);
    MatchShifted(text, p, 0, j + 1, n);
    FoundAtMost(text, p, j + 1 - n, n);
    if j + 1 == |p| {
      MatchedAt(text, p, j);
      MatchUpTo(text, p, j);
      FoundTurn(text, p, 0, j);
    } else {
      MatchUpTo(text, p, j + 1);
      FoundTurn(text, p, 0, j + 1);
    }
  }

  lemma Jumped(text: seq<Byte>, p: seq<Byte>, j: nat, s: nat)
    requires j < |p| && Matches(text, p, 0, j) && Matches(text, p, 0, j + 1)
    requires j + 1 < |p| ==> j + 1 < |text| && text[j + 1] != p[j + 1]
    requires 0 < s < j + 1 - Next(p, j) && Occurs(text, p, s)
    ensures |Found(text, p, 0, 0)| < Occurrences(text, p, 0)
  {
    hide Matches, Occurs, Occurrences, Found;
    JumpsTo(text, p, j);
    if j + 1 == |p| {
      FullMatch(text, p, 0);
      Skipped(text, p, 0, 0, 1);
      Skipped(text, p, 1, s, j + 1 - Next(p, j));
    } else {
      Skipped(text, p, 0, s, j + 1 - Next(p, j));
    }
  }

  /** The search jumps over the occurrence. */
  lemma Missed(p: seq<Byte>, j: nat, d: nat)
    requires IsBorder(p, j, d) && d > Next(p, j)
    requires j + 1 == |p| || p[d] != p[j + 1]
    ensures |Found(Hiding(p, j, d), p, 0, 0)| < Occurrences(Hiding(p, j, d), p, 0)
  {
    hide Matches, Occurs, Occurrences, Found;
    HidesOccurrence(p, j, d);
    HidingNext(p, j, d);
    HidingMatches(p, j, d, j);
    HidingMatches(p, j, d, j + 1);
    Jumped(Hiding(p, j, d), p, j, j + 1 - d);
  }

  /** In aabaaabaaa the second occurrence of aabaaa is missed (a is 1 and b is 2 here): after the
      first one the table entry is 0, although aa is a border. */
  lemma MissedExample()
    ensures var p: seq<Byte> := [1, 1, 2, 1, 1, 1];
            && Hiding(p, 5, 2) == [1, 1, 2, 1, 1, 1, 2, 1, 1, 1]
            && |Found(Hiding(p, 5, 2), p, 0, 0)| < Occurrences(Hiding(p, 5, 2), p, 0)
  {
    hide Found, Occurrences;
    var p: seq<Byte> := [1, 1, 2, 1, 1, 1];
    assert Next(p, 0) == 0 && Next(p, 1) == 1 && Next(p, 2) == 0;
    assert Next(p, 3) == 1 && Next(p, 4) == 2 && Next(p, 5) == 0;
    assert p[..2] == p[4..6];
    Missed(p, 5, 2);
  }

  /** The search is right on every text of fewer than n characters. */
  ghost predicate RightBelow(p: seq<Byte>, n: nat) {
    forall text: seq<Byte> :: |text| < n && 0 !in text ==> Tally(text, p) == Occurrences(text, p, 0)
  }

  lemma HiddenLess(p: seq<Byte>, n: nat, m: nat)
    requires NothingHidden(p, n) && m <= n
    ensures NothingHidden(p, m)
  {}

  /** The search is right on every text of fewer than n characters if and only if no unknown border
      hides an occurrence in such a text. */
  lemma ExactBelow(p: seq<Byte>, n: nat)
    requires p != [] && 0 !in p
    ensures RightBelow(p, n) <==> NothingHidden(p, n)
  {
    hide Found, Occurrences;
    if NothingHidden(p, n) {
      forall text: seq<Byte> | |text| < n && 0 !in text
        ensures Tally(text, p) == Occurrences(text, p, 0)
      {
        HiddenLess(p, n, |text| + 1);
        FoundAll(text, p, 0, 0);
      }
    } else {
      var i: nat, c: nat :| IsBorder(p, i, c) && c > Next(p, i) && i + 1 - c + |p| < n;
      var j, d := UnknownBorder(p, i, c);
      Missed(p, j, d);
      var text := Hiding(p, j, d);
      assert |text| < n && 0 !in text;
      assert Tally(text, p) != Occurrences(text, p, 0);
    }
  }

  /** And on every text if and only if the table never resets in front of a border. */
  lemma ExactIffSafe(p: seq<Byte>)
    requires p != [] && 0 !in p
    ensures (forall text: seq<Byte> :: 0 !in text ==> Tally(text, p) == Occurrences(text, p, 0)) <==> ResetIsSafe(p)
  {
    hide Tally, Occurrences;
    LongestIffSafe(p);
    if Longest(p) {
      forall text: seq<Byte> | 0 !in text
        ensures Tally(text, p) == Occurrences(text, p, 0)
      {
        ExactBelow(p, |text| + 1);
      }
    } else {
      var i: nat, c: nat :| IsBorder(p, i, c) && c > Next(p, i);
      ExactBelow(p, i + 2 + |p|);
    }
  }

  // ----- The reader in main ----------------------------------------------------------------------

  const TEXT_SIZE := 100

  /** How many characters the next fread gets. */
  function Chunk(kept: nat, left: nat): nat
    requires kept < TEXT_SIZE
  {
    if left < TEXT_SIZE - kept - 1 then left else TEXT_SIZE - kept - 1
  }

  /** What the buffer holds when `kept` was carried over and the next piece has been read. */
  function Buffer(input: seq<Byte>, kept: seq<Byte>): (text: seq<Byte>)
    requires |kept| < TEXT_SIZE
    ensures |text| == |kept| + Chunk(|kept|, |input|)
  {
    kept + input[..Chunk(|kept|, |input|)]
  }

  predicate GoesOn(text: seq<Byte>, p: seq<Byte>) {
    p != [] && |text| >= |p| - 1
  }

  function Carried(text: seq<Byte>, p: seq<Byte>): (kept: seq<Byte>)
    requires GoesOn(text, p)
    ensures |kept| == |p| - 1
  {
    Copied(text[|text| - (|p| - 1)..])
  }

  /** The two numbers main prints for an input, when `kept` was carried over from before it. */
  function ReadAll(input: seq<Byte>, kept: seq<Byte>, p: seq<Byte>): (nat, nat)
    requires |kept| < TEXT_SIZE
  {
    var n := Chunk(|kept|, |input|);
    var text := Buffer(input, kept);
    if n == 0 then
      (0, 0)
    else
      var rest := if GoesOn(text, p) then ReadAll(input[n..], Carried(text, p), p) else (0, 0);
      (n + rest.0, Tally(CString(text), p) + rest.1)
  }

  /** memset and fread: the rest of the buffer is cleared and the next piece read into it. */
  method ReadChunk(text: array<Byte>, leftWord: nat, input: seq<Byte>) returns (readNum: nat)
    requires text.Length == TEXT_SIZE && leftWord < TEXT_SIZE
    modifies text
    ensures readNum == Chunk(leftWord, |input|)
    ensures text[..leftWord + readNum] == Buffer(input, old(text[..leftWord]))
    ensures 0 in text[..]
    ensures CString(text[..]) == CString(text[..leftWord + readNum])
  {
    readNum := Chunk(leftWord, |input|);
    forall k | leftWord <= k < TEXT_SIZE {
      text[k] := if k < leftWord + readNum then input[k - leftWord] else 0;
    }
    var n := leftWord + readNum;
    assert text[n] == 0 && text[..] == text[..n] + text[n..];
    CStringPadded(text[..n], text[n..]);
  }

  /** The loop over the file. */
  method CountFile(input: seq<Byte>, pattern: seq<Byte>) returns (cnt: nat, times: nat)
    requires 0 !in pattern
    ensures (cnt, times) == ReadAll(input, [], pattern)
  {
    hide Tally, CString, Copied, Buffer, ReadAll, GoesOn, Carried, Found, Chunk;
    var text := new Byte[TEXT_SIZE](_ => 0);
    var left, leftWord := input, 0;
    cnt, times := 0, 0;
    assert text[..0] == [];
    ghost var total, rest := ReadAll(input, [], pattern), ReadAll(input, [], pattern);
    while true
      invariant 0 <= leftWord < TEXT_SIZE
      invariant rest == ReadAll(left, text[..leftWord], pattern)
      invariant total == (cnt + rest.0, times + rest.1)
      decreases |left|
    {
      ReadStep(left, text[..leftWord], pattern);
      ReadSizes(left, text[..leftWord], pattern);
      var readNum := ReadChunk(text, leftWord, left);
      if readNum <= 0 {
        break;
      }
      ghost var buffer := text[..leftWord + readNum];
      var found, _ := KmpMatch(text, pattern);
      cnt := cnt + readNum;
      times := times + found;
      left := left[readNum..];
      if |pattern| == 0 || leftWord + readNum < |pattern| - 1 {
        break;
      }
      var keep := |pattern| - 1;
      assert text[leftWord + readNum - keep..leftWord + readNum] == buffer[|buffer| - keep..];
      rest := ReadAll(left, Carried(buffer, pattern), pattern);
      StrNCopyDown(text, leftWord + readNum - keep, keep);
      leftWord := keep;
      assert text[..leftWord] == Carried(buffer, pattern);
    }
  }

  lemma ReadStep(input: seq<Byte>, kept: seq<Byte>, p: seq<Byte>)
    requires |kept| < TEXT_SIZE
    ensures var n, text := Chunk(|kept|, |input|), Buffer(input, kept);
            ReadAll(input, kept, p) ==
              if n == 0 then (0, 0)
              else if GoesOn(text, p) then
                var rest := ReadAll(input[n..], Carried(text, p), p);
                (n + rest.0, Tally(CString(text), p) + rest.1)
              else (n, Tally(CString(text), p))
  {
    hide Tally, CString, Buffer, Carried;
  }

  lemma ReadSizes(input: seq<Byte>, kept: seq<Byte>, p: seq<Byte>)
    requires |kept| < TEXT_SIZE
    ensures var n, text := Chunk(|kept|, |input|), Buffer(input, kept);
            && n <= |input| && |text| == |kept| + n < TEXT_SIZE
            && (GoesOn(text, p) <==> p != [] && |text| >= |p| - 1)
            && (GoesOn(text, p) ==> Carried(text, p) == Copied(text[|text| - (|p| - 1)..]))
  {
    hide Copied;
  }

  // ----- The reader adds no error of its own -----------------------------------------------------

  lemma {:induction false} OccurrencesBefore(a: seq<Byte>, b: seq<Byte>, p: seq<Byte>, from: nat, end: nat)
    requires p != [] && from <= end && end + |p| == |a| + 1
    ensures Occurrences(a + b, p, from) == Occurrences(a, p, from) + Occurrences(a + b, p, end)
    decreases |a| - from
  {
    if from == end {
    } else {
      OccurrencesBefore(a, b, p, from + 1, end);
      assert (a + b)[from..from + |p|] == a[from..from + |p|];
    }
  }

  lemma {:induction false} OccurrencesShifted(a: seq<Byte>, b: seq<Byte>, p: seq<Byte>, from: nat)
    requires p != [] && from <= |b|
    ensures Occurrences(a + b, p, |a| + from) == Occurrences(b, p, from)
    decreases |b| - from
  {
    if from + |p| > |b| {
    } else {
      OccurrencesShifted(a, b, p, from + 1);
      assert (a + b)[|a| + from..|a| + from + |p|] == b[from..from + |p|];
    }
  }

  /** Carrying over one character less than the pattern has loses nothing and repeats nothing. */
  lemma CarryOver(before: seq<Byte>, kept: seq<Byte>, rest: seq<Byte>, p: seq<Byte>)
    requires |p| == |kept| + 1
    ensures Occurrences(before + kept + rest, p, 0) == Occurrences(before + kept, p, 0) + Occurrences(kept + rest, p, 0)
  {
    hide *;
    OccurrencesBefore(before + kept, rest, p, 0, |before|);
    OccurrencesShifted(before, kept + rest, p, 0);
    assert before + (kept + rest) == before + kept + rest;
  }

  lemma CopiedWhole(s: seq<Byte>)
    requires 0 !in s
    ensures Copied(s) == s && CString(s) == s
  {
    CStringIsPrefix(s, s);
  }

  lemma {:induction false} ReadsEverything(input: seq<Byte>, kept: seq<Byte>, p: seq<Byte>)
    requires 0 < |p| < TEXT_SIZE && RightBelow(p, TEXT_SIZE)
    requires 0 !in input && 0 !in kept && (kept == [] || |kept| == |p| - 1)
    ensures ReadAll(input, kept, p) == (|input|, Occurrences(kept + input, p, 0))
    decreases |input|
  {
    hide Tally, CString, Copied, Occurrences, ReadAll, GoesOn, Carried, Chunk;
    ReadStep(input, kept, p);
    ReadSizes(input, kept, p);
    var n := Chunk(|kept|, |input|);
    var text := Buffer(input, kept);
    if n == 0 {
      NothingLeft(|kept|, |input|);
      TooShort(kept + input, p);
    } else {
      CopiedWhole(text);
      assert kept + input == text + input[n..];
      if GoesOn(text, p) {
        CopiedWhole(text[|text| - (|p| - 1)..]);
        ReadsEverything(input[n..], Carried(text, p), p);
        var end := |text| - (|p| - 1);
        CarryOver(text[..end], text[end..], input[n..], p);
        assert text[..end] + text[end..] == text;
      } else {
        NothingLeft(|kept|, |input|);
        assert text == kept + input;
      }
    }
  }

  lemma NothingLeft(kept: nat, left: nat)
    requires kept < TEXT_SIZE - 1
    ensures Chunk(kept, left) == 0 ==> left == 0
    ensures kept + Chunk(kept, left) < TEXT_SIZE - 1 ==> Chunk(kept, left) == left
  {}

  lemma TooShort(text: seq<Byte>, p: seq<Byte>)
    requires |text| < |p|
    ensures Occurrences(text, p, 0) == 0
  {}

  lemma {:induction false} LongPattern(input: seq<Byte>, kept: seq<Byte>, p: seq<Byte>)
    requires |p| >= TEXT_SIZE > |kept|
    ensures ReadAll(input, kept, p).1 == 0
    decreases |input|
  {
    hide CString, Copied, Occurrences, Found, ReadAll, Buffer, Carried;
    ReadStep(input, kept, p);
    BufferFits(input, kept, p);
    var n := Chunk(|kept|, |input|);
    var text := Buffer(input, kept);
    if n > 0 && GoesOn(text, p) {
      LongPattern(input[n..], Carried(text, p), p);
    }
  }

  lemma BufferFits(input: seq<Byte>, kept: seq<Byte>, p: seq<Byte>)
    requires |p| >= TEXT_SIZE > |kept|
    ensures var text := Buffer(input, kept);
            && |text| < TEXT_SIZE
            && Tally(CString(text), p) == 0
            && (GoesOn(text, p) ==> |Carried(text, p)| < TEXT_SIZE)
  {
    hide Found, Occurrences;
    var s := CString(Buffer(input, kept));
    TooShort(s, p);
    FoundAtMost(s, p, 0, 0);
  }

  lemma OneBuffer(text: seq<Byte>, p: seq<Byte>)
    requires 0 < |p| < TEXT_SIZE && |text| < TEXT_SIZE && 0 !in text
    ensures ReadAll(text, [], p).1 == Tally(text, p)
  {
    hide Tally, CString, Carried, ReadAll;
    ReadStep(text, [], p);
    assert Buffer(text, []) == text;
    CStringIsPrefix(text, text);
    if GoesOn(text, p) && text != [] {
      ReadStep(text[|text|..], Carried(text, p), p);
    }
    NothingInNothing(p);
  }

  lemma NothingInNothing(p: seq<Byte>)
    ensures Tally([], p) == 0
  {}

  /** For text files, the reader's total is right on every input if and only if the pattern fits
      into the buffer and no unknown border of it hides an occurrence in a text that does. */
  lemma ReaderExactIff(p: seq<Byte>)
    requires p != [] && 0 !in p
    ensures (forall input: seq<Byte> :: 0 !in input ==> ReadAll(input, [], p) == (|input|, Occurrences(input, p, 0)))
      <==> |p| < 100 && NothingHidden(p, 100)
  {
    hide Tally, CString, Copied, Occurrences, ReadAll, NothingHidden;
    ExactBelow(p, TEXT_SIZE);
    if |p| < TEXT_SIZE && RightBelow(p, TEXT_SIZE) {
      forall input: seq<Byte> | 0 !in input
        ensures ReadAll(input, [], p) == (|input|, Occurrences(input, p, 0))
      {
        ReadsEverything(input, [], p);
        assert [] + input == input;
      }
    } else if |p| < TEXT_SIZE {
      var text :| |text| < TEXT_SIZE && 0 !in text && Tally(text, p) != Occurrences(text, p, 0);
      OneBuffer(text, p);
    } else {
      LongPattern(p, [], p);
      OccursInItself(p);
    }
  }

  lemma OccursInItself(p: seq<Byte>)
    requires p != []
    ensures Occurrences(p, p, 0) > 0
  {
    assert Occurs(p, p, 0);
  }

  /** A pattern whose table is safe is counted right in every text file. */
  lemma SafeReader(p: seq<Byte>, input: seq<Byte>)
    requires 0 < |p| < TEXT_SIZE && 0 !in p && ResetIsSafe(p) && 0 !in input
    ensures ReadAll(input, [], p) == (|input|, Occurrences(input, p, 0))
  {
    LongestIffSafe(p);
    ReaderExactIff(p);
  }
}
