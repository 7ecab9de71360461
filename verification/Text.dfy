/** Strings as sequences of characters: the library operations the agent's text handling relies on. */
module Text {

  predicate OccursAt(s: string, part: string, i: nat) {
    i + |part| <= |s| && s[i..i + |part|] == part
  }

  predicate Contains(s: string, part: string) {
    exists i: nat | i <= |s| :: OccursAt(s, part, i)
  }

  predicate StartsWith(s: string, prefix: string) {
    OccursAt(s, prefix, 0)
  }

  predicate EndsWith(s: string, suffix: string) {
    |suffix| <= |s| && OccursAt(s, suffix, |s| - |suffix|)
  }

  // The same tests, as concatenations

  lemma StartsWithExactly(s: string, prefix: string)
    ensures StartsWith(s, prefix) <==> exists k: nat | k <= |s| :: s == prefix + s[k..]
  {
    if StartsWith(s, prefix) {
      assert s == prefix + s[|prefix|..];
    }
    if k: nat :| k <= |s| && s == prefix + s[k..] {
      assert s[0..|prefix|] == (prefix + s[k..])[..|prefix|] == prefix;
    }
  }

  lemma EndsWithExactly(s: string, suffix: string)
    ensures EndsWith(s, suffix) <==> exists k: nat | k <= |s| :: s == s[..k] + suffix
  {
    if EndsWith(s, suffix) {
      assert s == s[..|s| - |suffix|] + suffix;
    }
    if k: nat :| k <= |s| && s == s[..k] + suffix {
      assert |s[..k]| == k == |s| - |suffix| && s[k..|s|] == (s[..k] + suffix)[k..] == suffix;
    }
  }

  lemma ContainsExactly(s: string, part: string)
    ensures Contains(s, part) <==> exists i: nat, k: nat | i <= |s| && k <= |s| :: s == s[..i] + part + s[k..]
  {
    if i: nat :| i <= |s| && OccursAt(s, part, i) {
      assert s == s[..i] + part + s[i + |part|..];
    }
    if i: nat, k: nat :| i <= |s| && k <= |s| && s == s[..i] + part + s[k..] {
      assert s[i..i + |part|] == (s[..i] + part + s[k..])[i..i + |part|] == part;
      assert OccursAt(s, part, i);
    }
  }

  /** The pieces of s between occurrences of sep; the empty string has one (empty) piece. */
  function Split(s: string, sep: char): (parts: seq<string>)
    ensures |parts| >= 1
  {
    if s == "" then [""]
    else
      var rest := Split(s[1..], sep);
      if s[0] == sep then [""] + rest else [[s[0]] + rest[0]] + rest[1..]
  }

  function Join(parts: seq<string>, sep: char): string {
    if |parts| == 0 then ""
    else if |parts| == 1 then parts[0]
    else parts[0] + [sep] + Join(parts[1..], sep)
  }

  /** Prepending a separator-free piece and a separator adds exactly one piece in front. */
  lemma {:induction false} SplitCons(piece: string, rest: string, sep: char)
    requires sep !in piece
    ensures Split(piece + [sep] + rest, sep) == [piece] + Split(rest, sep)
  {
    var s := piece + [sep] + rest;
    if piece == "" {
      assert s[1..] == rest;
    } else {
      assert s[1..] == piece[1..] + [sep] + rest;
      SplitCons(piece[1..], rest, sep);
      assert [piece[0]] + piece[1..] == piece;
    }
  }

  lemma {:induction false} SplitWhole(piece: string, sep: char)
    requires sep !in piece
    ensures Split(piece, sep) == [piece]
  {
    if piece != "" {
      SplitWhole(piece[1..], sep);
      assert [piece[0]] + piece[1..] == piece;
    }
  }

  lemma {:induction false} SplitOfJoin(parts: seq<string>, sep: char)
    requires |parts| >= 1
    requires forall p | p in parts :: sep !in p
    ensures Split(Join(parts, sep), sep) == parts
  {
    if |parts| == 1 {
      SplitWhole(parts[0], sep);
    } else {
      SplitOfJoin(parts[1..], sep);
      SplitCons(parts[0], Join(parts[1..], sep), sep);
      assert parts == [parts[0]] + parts[1..];
    }
  }

  /** Appending one piece to a non-empty join puts a separator before it. */
  lemma {:induction false} JoinSnoc(parts: seq<string>, last: string, sep: char)
    ensures Join(parts + [last], sep) == if parts == [] then last else Join(parts, sep) + [sep] + last
  {
    var all := parts + [last];
    if |parts| == 1 {
      assert all[1..] == [last];
    } else if |parts| > 1 {
      JoinSnoc(parts[1..], last, sep);
      assert all[1..] == parts[1..] + [last];
    }
  }

  /** A prefix that itself contains a string makes the whole contain it. */
  lemma ContainsByPosition(s: string, part: string, i: nat)
    requires OccursAt(s, part, i)
    ensures Contains(s, part)
  {
  }

  lemma LastOfSuffix(s: string, suffix: string)
    requires s != "" && suffix != ""
    ensures EndsWith(s, suffix) ==> s[|s| - 1] == suffix[|suffix| - 1]
  {
    if EndsWith(s, suffix) {
      assert s[|s| - |suffix|..|s|][|suffix| - 1] == s[|s| - 1];
    }
  }

  // Where text occurs among joined pieces

  lemma JoinCons(parts: seq<string>, sep: char)
    requires |parts| > 1
    ensures Join(parts, sep) == parts[0] + [sep] + Join(parts[1..], sep)
  {
  }

  /** An occurrence keeps clear of a character it does not contain. */
  lemma ClearOf(s: string, part: string, i: nat, k: nat)
    requires k < |s|
    ensures OccursAt(s, part, i) && s[k] !in part ==> k < i || i + |part| <= k
  {
    if OccursAt(s, part, i) {
      assert forall j | i <= j < i + |part| :: s[j] == part[j - i];
    }
  }

  lemma OccursSplit(s: string, x: string, y: string, i: nat)
    ensures OccursAt(s, x + y, i) <==> OccursAt(s, x, i) && OccursAt(s, y, i + |x|)
  {
    if i + |x| + |y| <= |s| {
      assert s[i..i + |x| + |y|] == s[i..i + |x|] + s[i + |x|..i + |x| + |y|];
      assert (x + y)[..|x|] == x && (x + y)[|x|..] == y;
    }
  }

  lemma OccursInTail(head: string, tail: string, part: string, i: nat)
    ensures OccursAt(head + tail, part, |head| + i) <==> OccursAt(tail, part, i)
  {
    if i + |part| <= |tail| {
      assert (head + tail)[|head| + i..|head| + i + |part|] == tail[i..i + |part|];
    }
  }

  lemma OccursInHead(head: string, tail: string, part: string, i: nat)
    requires i + |part| <= |head|
    ensures OccursAt(head + tail, part, i) <==> OccursAt(head, part, i)
  {
    assert (head + tail)[i..i + |part|] == head[i..i + |part|];
  }

  /** Text without the separator occurs inside one piece. */
  lemma {:induction false} OccursInPiece(parts: seq<string>, sep: char, part: string, i: nat) returns (p: nat, k: nat)
    requires |parts| > 0 && sep !in part && part != "" && OccursAt(Join(parts, sep), part, i)
    ensures p < |parts| && OccursAt(parts[p], part, k)
    ensures p == 0 ==> k == i
    decreases |parts|
  {
    if |parts| == 1 {
      p, k := 0, i;
    } else {
      var n, rest := |parts[0]|, Join(parts[1..], sep);
      var head := parts[0] + [sep];
      JoinCons(parts, sep);
      assert Join(parts, sep) == head + rest && (head + rest)[n] == sep;
      ClearOf(head + rest, part, i, n);
      if i + |part| <= n {
        assert head + rest == parts[0] + ([sep] + rest);
        OccursInHead(parts[0], [sep] + rest, part, i);
        p, k := 0, i;
      } else {
        OccursInTail(head, rest, part, i - n - 1);
        p, k := OccursInPiece(parts[1..], sep, part, i - n - 1);
        p := p + 1;
      }
    }
  }

  /** Some piece ends with the first text, and the piece after it starts with the second. */
  ghost predicate Adjacent(parts: seq<string>, first: string, second: string) {
    exists i: nat | i + 1 < |parts| :: EndsWith(parts[i], first) && StartsWith(parts[i + 1], second)
  }

  lemma AdjacentCons(parts: seq<string>, first: string, second: string)
    requires |parts| > 1
    ensures Adjacent(parts, first, second)
       <==> (EndsWith(parts[0], first) && StartsWith(parts[1], second)) || Adjacent(parts[1..], first, second)
  {
    var rest := parts[1..];
    assert forall i: nat | i < |rest| :: rest[i] == parts[i + 1];
    if i: nat :| i + 1 < |parts| && EndsWith(parts[i], first) && StartsWith(parts[i + 1], second) && i > 0 {
      assert EndsWith(rest[i - 1], first) && StartsWith(rest[i], second);
    }
    if i: nat :| i + 1 < |rest| && EndsWith(rest[i], first) && StartsWith(rest[i + 1], second) {
      assert EndsWith(parts[i + 1], first) && StartsWith(parts[i + 2], second);
    }
  }

  lemma StartsJoin(parts: seq<string>, sep: char, text: string)
    requires |parts| > 0 && sep !in text
    ensures StartsWith(Join(parts, sep), text) <==> StartsWith(parts[0], text)
  {
    if |parts| > 1 {
      var rest := [sep] + Join(parts[1..], sep);
      JoinCons(parts, sep);
      assert Join(parts, sep) == parts[0] + rest;
      if |text| <= |parts[0]| {
        OccursInHead(parts[0], rest, text, 0);
      } else {
        ClearOf(parts[0] + rest, text, 0, |parts[0]|);
      }
    }
  }

  lemma TwoPartsAt(s: string, first: string, sep: char, second: string, i: nat)
    ensures OccursAt(s, first + [sep] + second, i)
       <==> OccursAt(s, first, i) && i + |first| < |s| && s[i + |first|] == sep && OccursAt(s, second, i + |first| + 1)
  {
    OccursSplit(s, first + [sep], second, i);
    OccursSplit(s, first, [sep], i);
  }

  /** The needle's separator falls on the first one of the joined pieces, or behind it. */
  lemma TwoPartsInCons(a: string, rest: string, sep: char, first: string, second: string, i: nat)
    requires sep !in a && sep !in first && OccursAt(a + [sep] + rest, first + [sep] + second, i)
    ensures if i + |first| == |a| then EndsWith(a, first) && StartsWith(rest, second)
            else i > |a| && OccursAt(rest, first + [sep] + second, i - |a| - 1)
  {
    var s, n, m := a + [sep] + rest, |a|, |first|;
    TwoPartsAt(s, first, sep, second, i);
    ClearOf(s, first, i, n);
    assert s == a + ([sep] + rest);
    assert s[n] == sep;
    if i + m <= n {
      assert i + m == n;
      OccursInHead(a, [sep] + rest, first, i);
      OccursInTail(a + [sep], rest, second, 0);
    } else {
      OccursInTail(a + [sep], rest, first + [sep] + second, i - n - 1);
    }
  }

  lemma TwoPartsAtSeam(a: string, rest: string, sep: char, first: string, second: string)
    requires EndsWith(a, first) && StartsWith(rest, second)
    ensures OccursAt(a + [sep] + rest, first + [sep] + second, |a| - |first|)
  {
    var s := a + [sep] + rest;
    assert s == a + ([sep] + rest);
    OccursInHead(a, [sep] + rest, first, |a| - |first|);
    OccursInTail(a + [sep], rest, second, 0);
    TwoPartsAt(s, first, sep, second, |a| - |first|);
  }

  lemma TwoPartsCons(a: string, rest: string, sep: char, first: string, second: string)
    requires sep !in a && sep !in first
    ensures Contains(a + [sep] + rest, first + [sep] + second)
       <==> (EndsWith(a, first) && StartsWith(rest, second)) || Contains(rest, first + [sep] + second)
  {
    hide OccursAt, StartsWith, EndsWith;
    var s, needle := a + [sep] + rest, first + [sep] + second;
    if i: nat :| i <= |s| && OccursAt(s, needle, i) {
      TwoPartsInCons(a, rest, sep, first, second, i);
    }
    if EndsWith(a, first) && StartsWith(rest, second) {
      SuffixFits(a, first);
      TwoPartsAtSeam(a, rest, sep, first, second);
    }
    if i: nat :| i <= |rest| && OccursAt(rest, needle, i) {
      OccursInTail(a + [sep], rest, needle, i);
      assert OccursAt(s, needle, |a| + 1 + i);
    }
  }

  lemma SuffixFits(s: string, suffix: string)
    requires EndsWith(s, suffix)
    ensures |suffix| <= |s|
  {
  }

  /** A two-part text occurs in joined pieces exactly where one piece ends with its first part and the next one starts
      with its second. */
  lemma {:induction false} TwoPartsExactly(parts: seq<string>, sep: char, first: string, second: string)
    requires |parts| > 0 && sep !in first && sep !in second && forall p | p in parts :: sep !in p
    ensures Contains(Join(parts, sep), first + [sep] + second) <==> Adjacent(parts, first, second)
    decreases |parts|
  {
    if |parts| == 1 {
      ElementsOccur(parts[0], first + [sep] + second);
      assert sep in first + [sep] + second;
    } else {
      JoinCons(parts, sep);
      TwoPartsCons(parts[0], Join(parts[1..], sep), sep, first, second);
      StartsJoin(parts[1..], sep, second);
      AdjacentCons(parts, first, second);
      TwoPartsExactly(parts[1..], sep, first, second);
    }
  }

  lemma ElementsOccur(s: string, needle: string)
    ensures Contains(s, needle) ==> forall c | c in needle :: c in s
  {
    if i: nat :| i <= |s| && OccursAt(s, needle, i) {
      assert forall j | 0 <= j < |needle| :: needle[j] == s[i + j];
    }
  }
}
