/** The regular-expression text cleanup helpers of the generators module
    (duplicated verbatim in the command-line script) and Python's
    `str.split` on a one-character separator, as pure functions over
    `string`.

    Two `re.sub` shapes occur: deleting every character of a one-character
    class (`[^\x00-\x7F]`, `\s+`), which is `Keep`, and deleting every
    leftmost non-overlapping occurrence of a literal (` \n\n`, `\n\n`),
    which is `Strip`. `\s` is taken to be ASCII whitespace. */
module Text {

  /** A code point the class `[\x00-\x7F]` matches. */
  predicate IsAscii(c: char) {
    c as int <= 0x7F
  }

  /** ASCII whitespace: space, tab, line feed, carriage return, vertical tab
      and form feed. This stands in for the Unicode class `\s`. */
  predicate IsWhitespace(c: char) {
    c == ' ' || c == '\t' || c == '\n' || c == '\r' || c as int == 0x0B || c as int == 0x0C
  }

  predicate NotWhitespace(c: char) {
    !IsWhitespace(c)
  }

  predicate AllAscii(s: string) {
    forall i :: 0 <= i < |s| ==> IsAscii(s[i])
  }

  predicate NoWhitespace(s: string) {
    forall i :: 0 <= i < |s| ==> !IsWhitespace(s[i])
  }

  predicate NoDoubleNewline(s: string) {
    forall i :: 0 <= i < |s| - 1 ==> !(s[i] == '\n' && s[i + 1] == '\n')
  }

  /** `pat` occurs somewhere in `s` as a contiguous block. */
  ghost predicate Occurs(s: string, pat: string) {
    exists i :: OccursAt(s, pat, i)
  }

  predicate OccursAt(s: string, pat: string, i: int) {
    0 <= i && i + |pat| <= |s| && s[i..i + |pat|] == pat
  }

  // ---------------------------------------------------------------------
  // Deleting a character class

  /** The characters of `s` that satisfy `p`, in their original order:
      `re.sub(<class>, '', s)` for the class of characters failing `p`. */
  function Keep(s: string, p: char -> bool): (r: string)
    ensures |r| <= |s|
    ensures forall i :: 0 <= i < |r| ==> p(r[i])
  {
    if s == [] then [] else (if p(s[0]) then [s[0]] else []) + Keep(s[1..], p)
  }

  /** Deleting characters distributes over concatenation, so the result keeps
      the surviving characters in their original order. */
  lemma {:induction false} KeepConcat(a: string, b: string, p: char -> bool)
    ensures Keep(a + b, p) == Keep(a, p) + Keep(b, p)
  {
    if a == [] {
      assert a + b == b;
    } else {
      assert (a + b)[1..] == a[1..] + b;
      KeepConcat(a[1..], b, p);
    }
  }

  /** Every character satisfying `p` survives as often as it occurred; every
      other character is gone. */
  lemma {:induction false} KeepCount(s: string, p: char -> bool, c: char)
    ensures multiset(Keep(s, p))[c] == if p(c) then multiset(s)[c] else 0
  {
    if s != [] {
      assert s == [s[0]] + s[1..];
      KeepCount(s[1..], p, c);
    }
  }

  /** Deleting changes nothing exactly when nothing is to be deleted. */
  lemma {:induction false} KeepFixed(s: string, p: char -> bool)
    ensures Keep(s, p) == s <==> forall i :: 0 <= i < |s| ==> p(s[i])
  {
    if s != [] {
      KeepFixed(s[1..], p);
      if !p(s[0]) {
        assert |Keep(s, p)| < |s|;
      }
    }
  }

  lemma KeepIdempotent(s: string, p: char -> bool)
    ensures Keep(Keep(s, p), p) == Keep(s, p)
  {
    KeepFixed(Keep(s, p), p);
  }

  /** `remove_non_ascii`: drops every character above 0x7F. */
  function RemoveNonAscii(s: string): (r: string)
    ensures AllAscii(r)
    ensures |r| <= |s|
  {
    Keep(s, IsAscii)
  }

  /** The ASCII characters of the input survive with their multiplicities,
      the others vanish, the order is kept (concatenation distributes), and
      ASCII input is returned unchanged. */
  lemma RemoveNonAsciiExact(s: string, t: string, c: char)
    ensures multiset(RemoveNonAscii(s))[c] == if IsAscii(c) then multiset(s)[c] else 0
    ensures RemoveNonAscii(s + t) == RemoveNonAscii(s) + RemoveNonAscii(t)
    ensures RemoveNonAscii(s) == s <==> AllAscii(s)
    ensures RemoveNonAscii(RemoveNonAscii(s)) == RemoveNonAscii(s)
  {
    KeepCount(s, IsAscii, c);
    KeepConcat(s, t, IsAscii);
    KeepFixed(s, IsAscii);
    KeepIdempotent(s, IsAscii);
  }

  /** `remove_whitespace`: `re.sub(r'\s+', '', s)`; deleting maximal runs
      deletes exactly the whitespace characters. */
  function RemoveWhitespace(s: string): (r: string)
    ensures NoWhitespace(r)
    ensures |r| <= |s|
  {
    Keep(s, NotWhitespace)
  }

  /** The non-whitespace characters survive in order, the whitespace ones
      vanish, and the function is idempotent. */
  lemma RemoveWhitespaceExact(s: string, t: string, c: char)
    ensures multiset(RemoveWhitespace(s))[c] == if IsWhitespace(c) then 0 else multiset(s)[c]
    ensures RemoveWhitespace(s + t) == RemoveWhitespace(s) + RemoveWhitespace(t)
    ensures RemoveWhitespace(s) == s <==> NoWhitespace(s)
    ensures RemoveWhitespace(RemoveWhitespace(s)) == RemoveWhitespace(s)
  {
    KeepCount(s, NotWhitespace, c);
    KeepConcat(s, t, NotWhitespace);
    KeepFixed(s, NotWhitespace);
    KeepIdempotent(s, NotWhitespace);
  }

  // ---------------------------------------------------------------------
  // Deleting a literal

  /** `re.sub(pat, '', s)` for a literal pattern: scanning left to right,
      each occurrence is deleted and the scan resumes after it, so matches
      never overlap and text that becomes adjacent is not rescanned. */
  function Strip(s: string, pat: string): (r: string)
    requires pat != []
    ensures |r| <= |s|
    ensures forall i :: 0 <= i < |r| ==> r[i] in s
    decreases |s|
  {
    if |s| < |pat| then s
    else if s[..|pat|] == pat then Strip(s[|pat|..], pat)
    else [s[0]] + Strip(s[1..], pat)
  }

  /** What survives a deletion: everything before the first occurrence is
      kept as it is, the occurrence goes, and the scan resumes right after
      it. With `StripAbsent` this fixes the result on every input. */
  lemma StripAtFirst(s: string, pat: string, i: nat)
    requires pat != []
    requires OccursAt(s, pat, i)
    requires forall j :: 0 <= j < i ==> !OccursAt(s, pat, j)
    ensures Strip(s, pat) == s[..i] + Strip(s[i + |pat|..], pat)
  {
    StripFrom(s, pat, 0, i);
    assert s[0..] == s;
  }

  /** `StripAtFirst` for the suffix that starts at `k`: the characters from
      `k` up to the occurrence at `i` are kept one by one. */
  lemma {:induction false} StripFrom(s: string, pat: string, k: nat, i: nat)
    requires pat != [] && k <= i
    requires OccursAt(s, pat, i)
    requires forall j :: k <= j < i ==> !OccursAt(s, pat, j)
    ensures Strip(s[k..], pat) == s[k..i] + Strip(s[i + |pat|..], pat)
    decreases i - k
  {
    if k == i {
      StripHitAt(s, pat, i);
    } else {
      StripSkipAt(s, pat, k);
      StripFrom(s, pat, k + 1, i);
      ConsAt(s, k, i, Strip(s[k + 1..], pat), Strip(s[i + |pat|..], pat));
    }
  }

  /** Where `pat` does not occur, the scan keeps one character and moves on. */
  lemma StripSkipAt(s: string, pat: string, k: nat)
    requires pat != [] && k + |pat| <= |s|
    requires !OccursAt(s, pat, k)
    ensures Strip(s[k..], pat) == [s[k]] + Strip(s[k + 1..], pat)
  {
    assert s[k..][..|pat|] == s[k..k + |pat|];
    assert s[k..][1..] == s[k + 1..];
  }

  /** Where `pat` occurs, the scan drops it and resumes right after it. */
  lemma StripHitAt(s: string, pat: string, i: nat)
    requires pat != [] && OccursAt(s, pat, i)
    ensures Strip(s[i..], pat) == Strip(s[i + |pat|..], pat)
  {
    assert s[i..][..|pat|] == pat;
    assert s[i..][|pat|..] == s[i + |pat|..];
  }

  lemma ConsAt(s: string, k: nat, i: nat, a: string, b: string)
    requires k < i <= |s|
    requires a == s[k + 1..i] + b
    ensures [s[k]] + a == s[k..i] + b
  {
    assert [s[k]] + s[k + 1..i] == s[k..i];
  }

  /** With no occurrence there is nothing to delete. */
  lemma {:induction false} StripAbsent(s: string, pat: string)
    requires pat != []
    requires !Occurs(s, pat)
    ensures Strip(s, pat) == s
    decreases |s|
  {
    if |s| >= |pat| {
      assert !OccursAt(s, pat, 0);
      forall i | 0 <= i && i + |pat| <= |s[1..]|
        ensures !OccursAt(s[1..], pat, i)
      {
        assert s[1..][i..i + |pat|] == s[i + 1..i + 1 + |pat|];
        assert !OccursAt(s, pat, i + 1);
      }
      StripAbsent(s[1..], pat);
    }
  }

  /** Deleting `\n\n` leaves no `\n\n` behind, although deleting can bring
      characters together: a kept line feed is never followed by another. */
  lemma {:induction false} StripDoubleNewline(s: string)
    ensures NoDoubleNewline(Strip(s, "\n\n"))
    ensures |s| > 0 && s[0] != '\n' ==> Strip(s, "\n\n") == [s[0]] + Strip(s[1..], "\n\n")
    decreases |s|
  {
    var nn := "\n\n";
    if |s| < 2 {
      if |s| == 1 {
        assert [s[0]] + Strip(s[1..], nn) == [s[0]] + [] == s;
      }
    } else if s[..2] == nn {
      StripDoubleNewline(s[2..]);
    } else {
      StripDoubleNewline(s[1..]);
      var t := Strip(s[1..], nn);
      assert Strip(s, nn) == [s[0]] + t;
      if s[0] == '\n' {
        assert s[1] != '\n';
        assert s[1..][1..] == s[2..];
        assert t == [s[1]] + Strip(s[2..], nn);
      }
    }
  }

  /** Every occurrence of ` \n\n` contains an occurrence of `\n\n`. */
  lemma SpaceDoubleNewlineHasDoubleNewline(s: string)
    requires Occurs(s, " \n\n")
    ensures !NoDoubleNewline(s)
  {
    var i :| OccursAt(s, " \n\n", i);
    assert s[i + 1] == s[i..i + 3][1] && s[i + 2] == s[i..i + 3][2];
  }

  lemma NoDoubleNewlineAbsent(s: string)
    requires NoDoubleNewline(s)
    ensures !Occurs(s, "\n\n")
  {
    forall i | 0 <= i && i + 2 <= |s|
      ensures !OccursAt(s, "\n\n", i)
    {
      assert s[i..i + 2][0] == s[i] && s[i..i + 2][1] == s[i + 1];
    }
  }

  /** Characters that all satisfy a property still do after any deletion. */
  lemma StripAscii(s: string, pat: string)
    requires pat != []
    requires AllAscii(s)
    ensures AllAscii(Strip(s, pat))
  {
  }

  /** `remove_double_newlines`: deletes ` \n\n`, then `\n\n`. */
  function RemoveDoubleNewlines(s: string): (r: string)
    ensures NoDoubleNewline(r)
    ensures |r| <= |s|
    ensures forall i :: 0 <= i < |r| ==> r[i] in s
    ensures AllAscii(s) ==> AllAscii(r)
  {
    var t := Strip(s, " \n\n");
    StripDoubleNewline(t);
    Strip(t, "\n\n")
  }

  /** Text without `\n\n` passes unchanged, so the cleanup is idempotent. */
  lemma RemoveDoubleNewlinesIdempotent(s: string)
    ensures NoDoubleNewline(s) ==> RemoveDoubleNewlines(s) == s
    ensures RemoveDoubleNewlines(RemoveDoubleNewlines(s)) == RemoveDoubleNewlines(s)
  {
    forall t: string | NoDoubleNewline(t)
      ensures RemoveDoubleNewlines(t) == t
    {
      if Occurs(t, " \n\n") {
        SpaceDoubleNewlineHasDoubleNewline(t);
      }
      StripAbsent(t, " \n\n");
      NoDoubleNewlineAbsent(t);
      StripAbsent(t, "\n\n");
    }
  }

  // ---------------------------------------------------------------------
  // Sentence and leading-whitespace trimming

  /** Index of the last '.' in `s`, or `|s|` when there is none. */
  function LastDot(s: string): (k: nat)
    ensures k <= |s|
    ensures k < |s| ==> s[k] == '.'
    ensures forall i :: k < i < |s| ==> s[i] != '.'
    ensures k == |s| ==> forall i :: 0 <= i < |s| ==> s[i] != '.'
  {
    if s == [] then 0
    else if s[|s| - 1] == '.' then |s| - 1
    else
      var k := LastDot(s[..|s| - 1]);
      if k == |s| - 1 then |s| else k
  }

  /** `remove_incomplete_sentences`: `re.sub(r'\.([^\.]*)$', '', s) + "."`.
      The pattern can only match at the last '.', and the greedy class then
      runs to the end, so everything from the last '.' on is replaced by a
      single '.'; without a '.', one is appended. */
  function RemoveIncompleteSentences(s: string): (r: string)
    ensures |r| >= 1 && r[|r| - 1] == '.'
    ensures |r| - 1 <= |s| && r[..|r| - 1] == s[..|r| - 1]
    ensures |r| - 1 < |s| ==> s[|r| - 1] == '.'
    ensures forall i :: |r| - 1 < i < |s| ==> s[i] != '.'
    ensures '.' !in s <==> r == s + "."
    ensures AllAscii(s) ==> AllAscii(r)
    ensures NoDoubleNewline(s) ==> NoDoubleNewline(r)
  {
    var k := LastDot(s);
    assert forall i :: 0 <= i < k ==> (s[..k] + ".")[i] == s[i];
    s[..k] + "."
  }

  lemma RemoveIncompleteSentencesIdempotent(s: string)
    ensures RemoveIncompleteSentences(RemoveIncompleteSentences(s)) == RemoveIncompleteSentences(s)
  {
    var r := RemoveIncompleteSentences(s);
    var rr := RemoveIncompleteSentences(r);
    assert |rr| - 1 == |r| - 1;
  }

  /** `remove_leading_whitespace`: `re.sub(r'^\s+', '', s)`. */
  function RemoveLeadingWhitespace(s: string): (r: string)
    ensures |r| <= |s| && r == s[|s| - |r|..]
    ensures forall i :: 0 <= i < |s| - |r| ==> IsWhitespace(s[i])
    ensures r == [] || !IsWhitespace(r[0])
    ensures AllAscii(s) ==> AllAscii(r)
    ensures NoDoubleNewline(s) ==> NoDoubleNewline(r)
  {
    if s != [] && IsWhitespace(s[0]) then
      var r := RemoveLeadingWhitespace(s[1..]);
      assert s[1..][|s| - 1 - |r|..] == s[|s| - |r|..];
      assert forall i :: 1 <= i < |s| - |r| ==> s[i] == s[1..][i - 1];
      r
    else
      s
  }

  lemma RemoveLeadingWhitespaceIdempotent(s: string)
    ensures RemoveLeadingWhitespace(RemoveLeadingWhitespace(s)) == RemoveLeadingWhitespace(s)
  {
  }

  /** `make_printable`: non-ASCII removal, double-newline removal, sentence
      trimming and leading-whitespace removal, in that order. The result
      is what each step promises: ASCII, free of `\n\n`, ending with '.'
      and not starting with whitespace. */
  function MakePrintable(s: string): (r: string)
    ensures AllAscii(r)
    ensures |r| >= 1 && r[|r| - 1] == '.'
    ensures !IsWhitespace(r[0])
    ensures NoDoubleNewline(r)
  {
    var a := RemoveNonAscii(s);
    var b := RemoveDoubleNewlines(a);
    var c := RemoveIncompleteSentences(b);
    var d := RemoveLeadingWhitespace(c);
    assert !IsWhitespace(c[|c| - 1]);
    d
  }

  /** Text that is already ASCII, free of `\n\n`, ends with '.' and does
      not start with whitespace is a fixed point: each of the four steps
      finds nothing to do. */
  lemma MakePrintableFixed(r: string)
    requires AllAscii(r) && NoDoubleNewline(r)
    requires |r| >= 1 && r[|r| - 1] == '.' && !IsWhitespace(r[0])
    ensures MakePrintable(r) == r
  {
    RemoveNonAsciiExact(r, [], '.');
    var a := RemoveNonAscii(r);
    assert a == r;
    RemoveDoubleNewlinesIdempotent(r);
    var b := RemoveDoubleNewlines(a);
    assert b == r;
    assert LastDot(r) == |r| - 1;
    var c := RemoveIncompleteSentences(b);
    assert c == r[..|r| - 1] + ".";
    assert r[|r| - 1..] == ".";
    assert r == r[..|r| - 1] + r[|r| - 1..];
    var d := RemoveLeadingWhitespace(c);
    assert d == r;
  }

  /** Cleaning cleaned text changes nothing. */
  lemma MakePrintableIdempotent(s: string)
    ensures MakePrintable(MakePrintable(s)) == MakePrintable(s)
  {
    MakePrintableFixed(MakePrintable(s));
  }

  // ---------------------------------------------------------------------
  // str.split on one character

  /** Index of the first `c` in `s`, or `|s|` when there is none. */
  function IndexOf(s: string, c: char): (i: nat)
    ensures i <= |s|
    ensures i < |s| ==> s[i] == c
    ensures forall k :: 0 <= k < i ==> s[k] != c
  {
    if s == [] then 0
    else if s[0] == c then 0
    else 1 + IndexOf(s[1..], c)
  }

  /** `sep.join(parts)`. */
  function Join(parts: seq<string>, sep: char): string
    requires |parts| >= 1
  {
    if |parts| == 1 then parts[0] else parts[0] + [sep] + Join(parts[1..], sep)
  }

  /** `s.split(sep)`: the pieces between separators, never fewer than one. */
  function Split(s: string, sep: char): (parts: seq<string>)
    ensures |parts| >= 1
    ensures forall k :: 0 <= k < |parts| ==> sep !in parts[k]
    ensures Join(parts, sep) == s
    decreases |s|
  {
    var i := IndexOf(s, sep);
    if i == |s| then
      [s]
    else
      var rest := Split(s[i + 1..], sep);
      assert s == s[..i] + [sep] + s[i + 1..];
      [s[..i]] + rest
  }

  /** The other direction of the round trip: pieces free of the separator
      come back from splitting their join. */
  lemma {:induction false} SplitJoin(parts: seq<string>, sep: char)
    requires |parts| >= 1
    requires forall k :: 0 <= k < |parts| ==> sep !in parts[k]
    ensures Split(Join(parts, sep), sep) == parts
  {
    if |parts| == 1 {
      assert IndexOf(parts[0], sep) == |parts[0]|;
    } else {
      SplitJoin(parts[1..], sep);
      SplitCons(parts[0], Join(parts[1..], sep), sep);
      assert parts == [parts[0]] + parts[1..];
    }
  }

  /** Splitting a separator-free piece, the separator and a rest gives the
      piece followed by the pieces of the rest. */
  lemma SplitCons(p: string, t: string, sep: char)
    requires sep !in p
    ensures Split(p + [sep] + t, sep) == [p] + Split(t, sep)
  {
    var s := p + [sep] + t;
    IndexOfPrefix(p, t, sep);
    assert s[..|p|] == p;
    assert s[|p| + 1..] == t;
  }

  lemma {:induction false} IndexOfPrefix(p: string, t: string, sep: char)
    requires sep !in p
    ensures IndexOf(p + [sep] + t, sep) == |p|
  {
    if p != [] {
      assert (p + [sep] + t)[1..] == p[1..] + [sep] + t;
      IndexOfPrefix(p[1..], t, sep);
    }
  }

  /** Splitting yields at least two pieces exactly when the separator occurs. */
  lemma SplitHasSecondPiece(s: string, sep: char)
    ensures |Split(s, sep)| >= 2 <==> sep in s
  {
    var i := IndexOf(s, sep);
    if i < |s| {
      assert s[i] == sep;
    }
  }
}
