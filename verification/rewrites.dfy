/**
 * The regular-expression rewrites the Python code applies with `re.sub` and
 * `re.split`, each written out as a recursive function over `string`, with the
 * lemmas the enhancer and the chunk splitter rely on.
 */
module Rewrites {
  import opened Wrappers
  import opened Strings

  const EmDash: char := '\U{2014}'
  const Ellipsis: char := '\U{2026}'

  /** Sentence-ending characters `.`, `!`, `?`. */
  const Terminals: set<char> := {'.', '!', '?'}

  /** No character of `s` is whitespace. */
  predicate NoSpace(s: string)
  {
    forall i :: 0 <= i < |s| ==> !IsSpace(s[i])
  }

  /** No two adjacent characters of `s` are both whitespace. */
  predicate NoDoubleSpace(s: string)
  {
    forall i, j :: 0 <= i < |s| && 0 <= j < |s| && j == i + 1 ==> !(IsSpace(s[i]) && IsSpace(s[j]))
  }

  /** Every run of `.` in `s` is shorter than four. */
  predicate NoFourDots(s: string)
  {
    forall i :: 0 <= i < |s| ==> LeadingRun(s[i..], {'.'}) < 4
  }

  /** Number of whitespace characters that start `s`. */
  function LeadSpaces(s: string): (n: nat)
    ensures n <= |s|
    ensures forall i :: 0 <= i < n ==> IsSpace(s[i])
    ensures n < |s| ==> !IsSpace(s[n])
  {
    if s != [] && IsSpace(s[0]) then 1 + LeadSpaces(s[1..]) else 0
  }

  lemma {:induction false} LeadSpacesAppend(s: string, e: string)
    requires e == [] || !IsSpace(e[0])
    ensures LeadSpaces(s + e) == LeadSpaces(s)
    decreases |s|
  {
    if s == [] {
      assert s + e == e;
    } else if IsSpace(s[0]) {
      assert (s + e)[1..] == s[1..] + e;
      LeadSpacesAppend(s[1..], e);
    }
  }

  /** A run that starts `a` and does not reach its end is also the run that starts `a + b`. */
  lemma {:induction false} LeadingRunAppend(a: string, b: string, cs: set<char>)
    requires LeadingRun(a, cs) < |a|
    ensures LeadingRun(a + b, cs) == LeadingRun(a, cs)
    decreases |a|
  {
    if a[0] in cs {
      assert (a + b)[1..] == a[1..] + b;
      LeadingRunAppend(a[1..], b, cs);
    }
  }

  /** A prefix made only of characters of `cs` adds its length to the leading run. */
  lemma {:induction false} LeadingRunPrefix(a: string, b: string, cs: set<char>)
    requires AllIn(a, cs)
    ensures LeadingRun(a + b, cs) == |a| + LeadingRun(b, cs)
    decreases |a|
  {
    if a == [] {
      assert a + b == b;
    } else {
      assert (a + b)[1..] == a[1..] + b;
      LeadingRunPrefix(a[1..], b, cs);
    }
  }

  // ---------------------------------------------------------------------------
  // re.sub(r'\s+', ' ', s)
  // ---------------------------------------------------------------------------

  /**
   * The whitespace collapse scanning `s` when the previous character was
   * whitespace (`afterSpace`) or not: a whitespace run yields one space.
   */
  function Collapse(s: string, afterSpace: bool): string
  {
    if s == [] then []
    else if IsSpace(s[0]) then (if afterSpace then [] else [' ']) + Collapse(s[1..], true)
    else [s[0]] + Collapse(s[1..], false)
  }

  /** `re.sub(r'\s+', ' ', s)`: every maximal whitespace run becomes one space. */
  function CollapseSpace(s: string): string
  {
    Collapse(s, false)
  }

  /** The collapse leaves no two adjacent whitespace characters, and after whitespace it emits none first. */
  lemma {:induction false} CollapseNoDoubleSpace(s: string, afterSpace: bool)
    ensures NoDoubleSpace(Collapse(s, afterSpace))
    ensures afterSpace && Collapse(s, afterSpace) != [] ==> !IsSpace(Collapse(s, afterSpace)[0])
    decreases |s|
  {
    if s != [] {
      CollapseNoDoubleSpace(s[1..], IsSpace(s[0]));
      var rest := Collapse(s[1..], IsSpace(s[0]));
      var r := Collapse(s, afterSpace);
      if IsSpace(s[0]) && !afterSpace {
        assert r == [' '] + rest;
      } else if !IsSpace(s[0]) {
        assert r == [s[0]] + rest;
      }
    }
  }

  /** A string without whitespace is left alone by the collapse. */
  lemma {:induction false} CollapseNoSpace(e: string, afterSpace: bool)
    requires NoSpace(e)
    ensures Collapse(e, afterSpace) == e
    decreases |e|
  {
    if e != [] {
      CollapseNoSpace(e[1..], false);
    }
  }

  /** Collapsing whitespace commutes with appending a whitespace-free suffix. */
  lemma {:induction false} CollapseAppend(s: string, e: string, afterSpace: bool)
    requires NoSpace(e)
    ensures Collapse(s + e, afterSpace) == Collapse(s, afterSpace) + e
    decreases |s|
  {
    if s == [] {
      assert s + e == e;
      CollapseNoSpace(e, afterSpace);
    } else {
      assert (s + e)[1..] == s[1..] + e;
      CollapseAppend(s[1..], e, IsSpace(s[0]));
    }
  }

  /** Dots are not whitespace, so the collapse keeps the run of dots that starts a string. */
  lemma {:induction false} CollapseLeadingDots(s: string)
    ensures LeadingRun(CollapseSpace(s), {'.'}) == LeadingRun(s, {'.'})
    decreases |s|
  {
    if s != [] && s[0] == '.' {
      CollapseLeadingDots(s[1..]);
      assert CollapseSpace(s)[1..] == CollapseSpace(s[1..]);
    }
  }

  /** A suffix of a string without long dot runs has none either. */
  lemma {:induction false} NoFourDotsSuffix(s: string, k: nat)
    requires NoFourDots(s) && k <= |s|
    ensures NoFourDots(s[k..])
  {
    var t := s[k..];
    forall i | 0 <= i < |t| ensures LeadingRun(t[i..], {'.'}) < 4 {
      assert t[i..] == s[i + k..];
    }
  }

  /** Prepending one character `c` keeps the property when the run it starts stays short. */
  lemma {:induction false} NoFourDotsCons(c: char, t: string)
    requires NoFourDots(t)
    requires LeadingRun([c] + t, {'.'}) < 4
    ensures NoFourDots([c] + t)
  {
    var r := [c] + t;
    forall i | 0 <= i < |r| ensures LeadingRun(r[i..], {'.'}) < 4 {
      if i == 0 {
        assert r[0..] == r;
      } else {
        assert r[i..] == t[i - 1..];
      }
    }
  }

  /** The collapse never lengthens a run of dots. */
  lemma {:induction false} CollapseNoFourDots(s: string, afterSpace: bool)
    requires NoFourDots(s)
    ensures NoFourDots(Collapse(s, afterSpace))
    decreases |s|
  {
    if s != [] {
      var t := s[1..];
      NoFourDotsSuffix(s, 1);
      CollapseNoFourDots(t, IsSpace(s[0]));
      var rest := Collapse(t, IsSpace(s[0]));
      if !IsSpace(s[0]) || !afterSpace {
        var c := if IsSpace(s[0]) then ' ' else s[0];
        assert Collapse(s, afterSpace) == [c] + rest;
        if c == '.' {
          CollapseLeadingDots(t);
          assert ([c] + rest)[1..] == rest;
          assert LeadingRun([c] + rest, {'.'}) == 1 + LeadingRun(rest, {'.'});
          assert s[0..] == s;
          assert LeadingRun(s, {'.'}) < 4;
        }
        NoFourDotsCons(c, rest);
      } else {
        assert Collapse(s, afterSpace) == rest;
      }
    }
  }

  /** The collapse never ends in a non-space character `c` that the input did not end in. */
  lemma {:induction false} CollapseLastNot(s: string, afterSpace: bool, c: char)
    requires !IsSpace(c) && s != [] && s[|s| - 1] != c
    ensures var r := Collapse(s, afterSpace); r == [] || r[|r| - 1] != c
    decreases |s|
  {
    if |s| > 1 {
      var b := IsSpace(s[0]);
      CollapseLastNot(s[1..], b, c);
      if !b {
        assert Collapse(s[1..], false) != [];
      }
    }
  }

  // ---------------------------------------------------------------------------
  // re.sub(r'—\s*—', '—', s)
  // ---------------------------------------------------------------------------

  /**
   * How far one step of the dash merge advances: past `—\s*—` when `s`
   * starts with such a match, else by one character.
   */
  function MergeSkip(s: string): (k: nat)
    requires s != []
    ensures 1 <= k <= |s|
    ensures k > 1 ==> s[0] == EmDash && s[k - 1] == EmDash
  {
    var n := LeadSpaces(s[1..]);
    if s[0] == EmDash && 1 + n < |s| && s[1 + n] == EmDash then n + 2 else 1
  }

  /**
   * `re.sub(r'—\s*—', '—', s)`: two dashes separated only by whitespace become
   * one dash; the scan resumes after the second dash, as `re.sub` does.
   */
  function MergeDashes(s: string): string
    decreases |s|
  {
    if s == [] then [] else [s[0]] + MergeDashes(s[MergeSkip(s)..])
  }

  /** A character put before a string without doubled whitespace, not both whitespace with its first character. */
  lemma {:induction false} NoDoubleSpaceCons(c: char, r: string)
    requires NoDoubleSpace(r) && (r == [] || !(IsSpace(c) && IsSpace(r[0])))
    ensures NoDoubleSpace([c] + r)
  {
    var t := [c] + r;
    forall i, j | 0 <= i < |t| && 0 <= j < |t| && j == i + 1 ensures !(IsSpace(t[i]) && IsSpace(t[j])) {
      if i > 0 {
        assert t[i] == r[i - 1] && t[j] == r[j - 1];
      }
    }
  }

  /** A suffix of a string without doubled whitespace has none either. */
  lemma {:induction false} NoDoubleSpaceSuffix(s: string, k: nat)
    requires NoDoubleSpace(s) && k <= |s|
    ensures NoDoubleSpace(s[k..])
  {
    var t := s[k..];
    forall i, j | 0 <= i < |t| && 0 <= j < |t| && j == i + 1 ensures !(IsSpace(t[i]) && IsSpace(t[j])) {
      assert t[i] == s[i + k] && t[j] == s[j + k];
    }
  }

  /** Merging dashes never puts two whitespace characters side by side. */
  lemma {:induction false} MergeDashesNoDoubleSpace(s: string)
    requires NoDoubleSpace(s)
    ensures NoDoubleSpace(MergeDashes(s))
    decreases |s|
  {
    if s != [] {
      var k := MergeSkip(s);
      var t := s[k..];
      NoDoubleSpaceSuffix(s, k);
      MergeDashesNoDoubleSpace(t);
      if t != [] {
        assert MergeDashes(t)[0] == t[0] == s[k];
        assert k == 1 ==> !(IsSpace(s[0]) && IsSpace(s[1]));
      }
      NoDoubleSpaceCons(s[0], MergeDashes(t));
    }
  }

  /** A string without a dash is left alone by the merge. */
  lemma {:induction false} MergeDashesNoDash(e: string)
    requires EmDash !in e
    ensures MergeDashes(e) == e
    decreases |e|
  {
    if e != [] {
      assert MergeSkip(e) == 1;
      MergeDashesNoDash(e[1..]);
    }
  }

  /** A suffix free of dashes and whitespace does not change the first merge step. */
  lemma {:induction false} MergeSkipAppend(s: string, e: string)
    requires s != [] && EmDash !in e && NoSpace(e)
    ensures MergeSkip(s + e) == MergeSkip(s)
  {
    assert (s + e)[1..] == s[1..] + e;
    LeadSpacesAppend(s[1..], e);
  }

  /** Merging dashes commutes with appending a suffix free of dashes and whitespace. */
  lemma {:induction false} MergeDashesAppend(s: string, e: string)
    requires EmDash !in e && NoSpace(e)
    ensures MergeDashes(s + e) == MergeDashes(s) + e
    decreases |s|
  {
    if s == [] {
      assert s + e == e;
      MergeDashesNoDash(e);
    } else {
      MergeDashesAppend(s[MergeSkip(s)..], e);
      MergeDashesAppendStep(s, e);
    }
  }

  /** One step of `MergeDashesAppend`: the claim for `s` from the claim for what the first merge step leaves. */
  lemma {:induction false} MergeDashesAppendStep(s: string, e: string)
    requires EmDash !in e && NoSpace(e) && s != []
    requires MergeDashes(s[MergeSkip(s)..] + e) == MergeDashes(s[MergeSkip(s)..]) + e
    ensures MergeDashes(s + e) == MergeDashes(s) + e
  {
    MergeDashesAppendHead(s, e);
    MergeDashesUnfold(s);
    AppendAssoc([s[0]], MergeDashes(s[MergeSkip(s)..]), e);
  }

  /** The first merge step of `s + e` is that of `s`. */
  lemma {:induction false} MergeDashesAppendHead(s: string, e: string)
    requires EmDash !in e && NoSpace(e) && s != []
    ensures MergeDashes(s + e) == [s[0]] + MergeDashes(s[MergeSkip(s)..] + e)
  {
    var k := MergeSkip(s);
    var t := s + e;
    MergeSkipAppend(s, e);
    assert t[k..] == s[k..] + e;
  }

  /** One merge step. */
  lemma {:induction false} MergeDashesUnfold(s: string)
    requires s != []
    ensures MergeDashes(s) == [s[0]] + MergeDashes(s[MergeSkip(s)..])
  {
  }

  /** The merge never ends in a non-dash character `c` that the input did not end in. */
  lemma {:induction false} MergeDashesLastNot(s: string, c: char)
    requires c != EmDash && s != [] && s[|s| - 1] != c
    ensures var r := MergeDashes(s); r == [] || r[|r| - 1] != c
    decreases |s|
  {
    var rest := s[MergeSkip(s)..];
    if rest != [] {
      assert rest[|rest| - 1] == s[|s| - 1];
      MergeDashesLastNot(rest, c);
    }
  }

  // ---------------------------------------------------------------------------
  // re.sub(r'\.{4,}', '...', s)
  // ---------------------------------------------------------------------------

  /** `re.sub(r'\.{4,}', '...', s)`: every run of four or more dots becomes exactly three. */
  function SquashDots(s: string): string
    decreases |s|
  {
    if s == [] then []
    else if s[0] == '.' then
      var n := LeadingRun(s, {'.'});
      (if n >= 4 then "..." else s[..n]) + SquashDots(s[n..])
    else [s[0]] + SquashDots(s[1..])
  }

  /** The squash keeps the first character. */
  lemma {:induction false} SquashDotsFirst(s: string)
    requires s != []
    ensures SquashDots(s) != [] && SquashDots(s)[0] == s[0]
  {
    if s[0] == '.' {
      var n := LeadingRun(s, {'.'});
      assert n >= 1;
    }
  }

  /** At most three dots put before a string free of four-dot runs that does not start with a dot. */
  lemma {:induction false} DotsBeforeNoFourDots(head: string, tail: string)
    requires AllIn(head, {'.'}) && |head| <= 3
    requires NoFourDots(tail) && (tail == [] || tail[0] != '.')
    ensures NoFourDots(head + tail)
  {
    var r := head + tail;
    forall i | 0 <= i < |r| ensures LeadingRun(r[i..], {'.'}) < 4 {
      if i < |head| {
        assert r[i..] == head[i..] + tail;
        LeadingRunPrefix(head[i..], tail, {'.'});
      } else {
        assert r[i..] == tail[i - |head|..];
      }
    }
  }

  /** A character other than a dot put before a string free of four-dot runs. */
  lemma {:induction false} OtherBeforeNoFourDots(c: char, tail: string)
    requires c != '.' && NoFourDots(tail)
    ensures NoFourDots([c] + tail)
  {
    var r := [c] + tail;
    forall i | 0 <= i < |r| ensures LeadingRun(r[i..], {'.'}) < 4 {
      if i > 0 {
        assert r[i..] == tail[i - 1..];
      }
    }
  }

  /** After the squash no run of dots is four long. */
  lemma {:induction false} SquashDotsNoFourDots(s: string)
    ensures NoFourDots(SquashDots(s))
    decreases |s|
  {
    if s == [] {
    } else if s[0] == '.' {
      var n := LeadingRun(s, {'.'});
      var head := if n >= 4 then "..." else s[..n];
      SquashDotsNoFourDots(s[n..]);
      if s[n..] != [] {
        SquashDotsFirst(s[n..]);
      }
      DotsBeforeNoFourDots(head, SquashDots(s[n..]));
    } else {
      SquashDotsNoFourDots(s[1..]);
      OtherBeforeNoFourDots(s[0], SquashDots(s[1..]));
    }
  }

  /** A string not ending in a dot still does not after the squash. */
  lemma {:induction false} SquashDotsLastNot(s: string)
    requires s != [] && s[|s| - 1] != '.'
    ensures var r := SquashDots(s); r != [] && r[|r| - 1] != '.'
    decreases |s|
  {
    if s[0] == '.' {
      var n := LeadingRun(s, {'.'});
      assert n < |s|;
      SquashDotsLastNot(s[n..]);
    } else if |s| > 1 {
      SquashDotsLastNot(s[1..]);
    }
  }

  /** At most three dots are left alone by the squash. */
  lemma {:induction false} SquashDotsShort(e: string)
    requires |e| <= 3 && AllIn(e, {'.'})
    ensures SquashDots(e) == e
  {
    if e != [] {
      LeadingRunPrefix(e, [], {'.'});
      assert e + [] == e;
      assert e[|e|..] == [];
      assert e[..|e|] == e;
    }
  }

  /** One step of `SquashDots` on a leading run of dots. */
  lemma {:induction false} SquashDotsDotUnfold(s: string)
    requires s != [] && s[0] == '.'
    ensures var n := LeadingRun(s, {'.'});
      SquashDots(s) == (if n >= 4 then "..." else s[..n]) + SquashDots(s[n..])
  {
  }

  /** One step of `SquashDots` on a leading run of dots followed by more text. */
  lemma {:induction false} SquashDotsDotUnfoldAppend(s: string, e: string)
    requires s != [] && s[0] == '.' && s[|s| - 1] != '.'
    ensures var n := LeadingRun(s, {'.'});
      && n < |s|
      && SquashDots(s + e) == (if n >= 4 then "..." else s[..n]) + SquashDots(s[n..] + e)
  {
    var n := LeadingRun(s, {'.'});
    LeadingRunAppend(s, e, {'.'});
    var t := s + e;
    assert t[0] == '.' && t[n..] == s[n..] + e && t[..n] == s[..n];
    SquashDotsDotUnfold(t);
  }

  /** One step of `SquashDots` on a character other than a dot. */
  lemma {:induction false} SquashDotsOtherUnfold(s: string)
    requires s != [] && s[0] != '.'
    ensures SquashDots(s) == [s[0]] + SquashDots(s[1..])
  {
  }

  /** One step of `SquashDots` on a character other than a dot followed by more text. */
  lemma {:induction false} SquashDotsOtherUnfoldAppend(s: string, e: string)
    requires s != [] && s[0] != '.'
    ensures SquashDots(s + e) == [s[0]] + SquashDots(s[1..] + e)
  {
    var t := s + e;
    assert t[0] == s[0] && t[1..] == s[1..] + e;
    SquashDotsOtherUnfold(t);
  }

  /** Appending at most three dots to a string that does not end in a dot commutes with the squash. */
  lemma {:induction false} SquashDotsAppend(s: string, e: string)
    requires s == [] || s[|s| - 1] != '.'
    requires |e| <= 3 && AllIn(e, {'.'})
    ensures SquashDots(s + e) == SquashDots(s) + e
    decreases |s|
  {
    if s == [] {
      assert s + e == e;
      SquashDotsShort(e);
    } else if s[0] == '.' {
      var n := LeadingRun(s, {'.'});
      assert n < |s|;
      SquashDotsAppend(s[n..], e);
      SquashDotsDotUnfold(s);
      SquashDotsDotUnfoldAppend(s, e);
      AppendAssoc(if n >= 4 then "..." else s[..n], SquashDots(s[n..]), e);
    } else {
      SquashDotsAppend(s[1..], e);
      SquashDotsOtherUnfold(s);
      SquashDotsOtherUnfoldAppend(s, e);
      AppendAssoc([s[0]], SquashDots(s[1..]), e);
    }
  }

  // ---------------------------------------------------------------------------
  // re.sub(rf'\b({w})\b', before + r'\1' + after, s, count=1, flags=re.IGNORECASE)
  // ---------------------------------------------------------------------------

  /** The regex assertion `\b` at position `i` of `s`. */
  predicate Boundary(s: string, i: int)
    requires 0 <= i <= |s|
  {
    (i > 0 && IsWordChar(s[i - 1])) != (i < |s| && IsWordChar(s[i]))
  }

  /** `\b(w)\b` matches `s` at position `p`, ignoring ASCII case. */
  predicate MatchesAt(s: string, w: string, p: int)
  {
    && 0 <= p && p + |w| <= |s|
    && (forall k :: 0 <= k < |w| ==> Lower(s[p + k]) == Lower(w[k]))
    && Boundary(s, p) && Boundary(s, p + |w|)
  }

  /** The leftmost position at or after `from` where `\b(w)\b` matches. */
  function FindWord(s: string, w: string, from: nat): (r: Option<nat>)
    ensures r.Some? ==> from <= r.value && MatchesAt(s, w, r.value)
    ensures forall q :: from <= q && (r.None? || q < r.value) ==> !MatchesAt(s, w, q)
    decreases |s| + 1 - from
  {
    if from > |s| then None
    else if MatchesAt(s, w, from) then Some(from)
    else FindWord(s, w, from + 1)
  }

  /** A replacement template `before + \1 + after` around the matched keyword. */
  datatype Mark = Mark(before: string, after: string)

  /** `re.sub(rf'\b({w})\b', before + r'\1' + after, s, count=1, flags=re.IGNORECASE)`. */
  function MarkFirst(s: string, w: string, m: Mark): string
  {
    match FindWord(s, w, 0)
    case None => s
    case Some(p) => s[..p] + m.before + s[p..p + |w|] + m.after + s[p + |w|..]
  }

  /** The keyword loop: `MarkFirst` with each word of `words`, in list order. */
  function MarkEach(s: string, words: seq<string>, m: Mark): string
    decreases |words|
  {
    if words == [] then s else MarkEach(MarkFirst(s, words[0], m), words[1..], m)
  }

  /** A word whose first two letters occur at no position where it would fit matches nowhere. */
  lemma {:induction false} NoMatchHead(s: string, w: string)
    requires |w| >= 2
    requires forall q :: 0 <= q && q + |w| <= |s| ==> Lower(s[q]) != Lower(w[0]) || Lower(s[q + 1]) != Lower(w[1])
    ensures forall q :: !MatchesAt(s, w, q)
  {
    forall q | 0 <= q && q + |w| <= |s| ensures !MatchesAt(s, w, q) {
      var k := if Lower(s[q]) != Lower(w[0]) then 0 else 1;
      assert Lower(s[q + k]) != Lower(w[k]);
    }
  }

  /** Words that match nowhere leave the text alone. */
  lemma {:induction false} MarkEachNone(s: string, words: seq<string>, m: Mark)
    requires forall i, q :: 0 <= i < |words| ==> !MatchesAt(s, words[i], q)
    ensures MarkEach(s, words, m) == s
    decreases |words|
  {
    if words != [] {
      assert FindWord(s, words[0], 0).None?;
      MarkEachNone(s, words[1..], m);
    }
  }

  /** A keyword of the source's lists: non-empty, made of word characters and apostrophes. */
  predicate IsKeyword(w: string)
  {
    |w| > 0 && forall i :: 0 <= i < |w| ==> IsWordChar(w[i]) || w[i] == '\''
  }

  /** A suffix made of sentence-ending punctuation can never take part in a keyword match. */
  lemma {:induction false} MatchesAtAppend(s: string, e: string, w: string, p: int)
    requires IsKeyword(w) && AllIn(e, Terminals)
    ensures MatchesAt(s + e, w, p) <==> MatchesAt(s, w, p)
  {
    var t := s + e;
    if 0 <= p && p + |w| <= |t| && p + |w| > |s| {
      var k := if p <= |s| then |s| - p else 0;
      assert t[p + k] == e[p + k - |s|];
      assert Lower(t[p + k]) != Lower(w[k]);
    }
    if 0 <= p && p + |w| <= |s| {
      assert forall i :: p <= i < p + |w| ==> t[i] == s[i];
      assert p > 0 ==> t[p - 1] == s[p - 1];
      assert p < |s| ==> t[p] == s[p];
      assert p + |w| < |s| ==> t[p + |w|] == s[p + |w|];
      if |e| > 0 {
        assert t[|s|] == e[0];
      }
    }
  }

  lemma {:induction false} FindWordAppend(s: string, e: string, w: string, from: nat)
    requires IsKeyword(w) && AllIn(e, Terminals)
    ensures FindWord(s + e, w, from) == FindWord(s, w, from)
    decreases |s| + |e| + 1 - from
  {
    MatchesAtAppend(s, e, w, from);
    if from <= |s + e| && !MatchesAt(s + e, w, from) {
      FindWordAppend(s, e, w, from + 1);
    }
  }

  /** Marking a keyword commutes with appending sentence-ending punctuation. */
  lemma {:induction false} MarkFirstAppend(s: string, e: string, w: string, m: Mark)
    requires IsKeyword(w) && AllIn(e, Terminals)
    ensures MarkFirst(s + e, w, m) == MarkFirst(s, w, m) + e
  {
    FindWordAppend(s, e, w, 0);
    match FindWord(s, w, 0)
    case None =>
    case Some(p) =>
      var t := s + e;
      assert t[..p] == s[..p];
      assert t[p..p + |w|] == s[p..p + |w|];
      assert t[p + |w|..] == s[p + |w|..] + e;
  }

  lemma {:induction false} MarkEachAppend(s: string, e: string, words: seq<string>, m: Mark)
    requires forall i :: 0 <= i < |words| ==> IsKeyword(words[i])
    requires AllIn(e, Terminals)
    ensures MarkEach(s + e, words, m) == MarkEach(s, words, m) + e
    decreases |words|
  {
    if words != [] {
      MarkFirstAppend(s, e, words[0], m);
      MarkEachAppend(MarkFirst(s, words[0], m), e, words[1..], m);
    }
  }

  /** The template leaves the end of a string outside `cs`: nothing after the word, or a last character outside `cs`. */
  predicate EndsOutside(m: Mark, cs: set<char>)
  {
    m.after == [] || m.after[|m.after| - 1] !in cs
  }

  /** The string is empty or its last character lies outside `cs`. */
  predicate LastOutside(s: string, cs: set<char>)
  {
    s == [] || s[|s| - 1] !in cs
  }

  /** One marking keeps a last character outside `cs` outside `cs`. */
  lemma {:induction false} MarkFirstLastOutside(s: string, w: string, m: Mark, cs: set<char>)
    requires |w| > 0 && EndsOutside(m, cs) && LastOutside(s, cs)
    ensures LastOutside(MarkFirst(s, w, m), cs)
  {
    match FindWord(s, w, 0)
    case None =>
    case Some(p) =>
      var r := MarkFirst(s, w, m);
      if p + |w| < |s| {
        assert r[|r| - 1] == s[p + |w|..][|s| - p - |w| - 1];
      } else if m.after == [] {
        assert r == s[..p] + m.before + s[p..p + |w|];
        assert r[|r| - 1] == s[p..p + |w|][|w| - 1];
      } else {
        assert r == s[..p] + m.before + s[p..p + |w|] + m.after;
      }
  }

  /** The keyword loop keeps a last character outside `cs` outside `cs`. */
  lemma {:induction false} MarkEachLastOutside(s: string, words: seq<string>, m: Mark, cs: set<char>)
    requires forall i :: 0 <= i < |words| ==> IsKeyword(words[i])
    requires EndsOutside(m, cs) && LastOutside(s, cs)
    ensures LastOutside(MarkEach(s, words, m), cs)
    decreases |words|
  {
    if words != [] {
      MarkFirstLastOutside(s, words[0], m, cs);
      MarkEachLastOutside(MarkFirst(s, words[0], m), words[1..], m, cs);
    }
  }

  // ---------------------------------------------------------------------------
  // re.split(r'(<delimiter>)', s)
  // ---------------------------------------------------------------------------

  /** One delimiter match: a single character of `delims`, or a run of characters of `runs`. */
  predicate IsToken(t: string, delims: set<char>, runs: set<char>)
  {
    |t| >= 1 && AllIn(t, delims) && (|t| == 1 || AllIn(t, runs))
  }

  /**
   * `re.split` with one capturing group: text pieces at even indices, delimiter
   * matches at odd indices. A match starting with a character of `runs` is the
   * maximal run of such characters, any other match is one character of `delims`.
   */
  function SplitKeep(s: string, delims: set<char>, runs: set<char>): (parts: seq<string>)
    ensures |parts| % 2 == 1
    decreases |s|
  {
    if s == [] then [[]]
    else if s[0] !in delims then
      var rest := SplitKeep(s[1..], delims, runs);
      [[s[0]] + rest[0]] + rest[1..]
    else
      var n := TokenLen(s, runs);
      [[], s[..n]] + SplitKeep(s[n..], delims, runs)
  }

  /** Length of the delimiter match at the start of `s`: the whole run for a run character, else one. */
  function TokenLen(s: string, runs: set<char>): (n: nat)
    requires s != []
    ensures 1 <= n <= |s|
  {
    if s[0] in runs then LeadingRun(s, runs) else 1
  }

  /** Dropping the last element of a concatenation of lists touches only the second list. */
  lemma {:induction false} ButLast(a: seq<string>, b: seq<string>)
    requires b != []
    ensures (a + b)[..|a + b| - 1] == a + b[..|b| - 1]
    ensures (a + b)[|a + b| - 1] == b[|b| - 1]
  {
  }

  /** Joining the pieces of a split gives back the input. */
  lemma {:induction false} SplitKeepConcat(s: string, delims: set<char>, runs: set<char>)
    ensures Concat(SplitKeep(s, delims, runs)) == s
    decreases |s|
  {
    var parts := SplitKeep(s, delims, runs);
    if s == [] {
      assert Concat(parts) == [] + Concat([]);
    } else if s[0] !in delims {
      SplitKeepConcat(s[1..], delims, runs);
      var rest := SplitKeep(s[1..], delims, runs);
      assert parts[1..] == rest[1..];
      assert Concat(parts) == [s[0]] + rest[0] + Concat(rest[1..]);
      assert s == [s[0]] + s[1..];
    } else {
      var n := TokenLen(s, runs);
      SplitKeepConcat(s[n..], delims, runs);
      var rest := SplitKeep(s[n..], delims, runs);
      assert parts[2..] == rest;
      assert Concat(parts) == [] + (s[..n] + Concat(rest));
      assert s == s[..n] + s[n..];
    }
  }

  /** Delimiter-free text at even indices, delimiter tokens at odd ones. */
  predicate Alternates(parts: seq<string>, delims: set<char>, runs: set<char>)
  {
    && (forall i :: 0 <= i < |parts| && i % 2 == 0 ==> NoneIn(parts[i], delims))
    && (forall i :: 0 <= i < |parts| && i % 2 == 1 ==> IsToken(parts[i], delims, runs))
  }

  /** The pieces of a split alternate between text and delimiter tokens. */
  lemma {:induction false} SplitKeepPieces(s: string, delims: set<char>, runs: set<char>)
    requires runs <= delims
    ensures Alternates(SplitKeep(s, delims, runs), delims, runs)
    decreases |s|
  {
    var parts := SplitKeep(s, delims, runs);
    if s == [] {
    } else if s[0] !in delims {
      SplitKeepPieces(s[1..], delims, runs);
      var rest := SplitKeep(s[1..], delims, runs);
      assert NoneIn(rest[0], delims);
      assert parts[0] == [s[0]] + rest[0];
      assert NoneIn(parts[0], delims);
      forall i | 1 <= i < |parts|
        ensures i % 2 == 0 ==> NoneIn(parts[i], delims)
        ensures i % 2 == 1 ==> IsToken(parts[i], delims, runs)
      {
        assert parts[i] == rest[i];
      }
    } else {
      var n := TokenLen(s, runs);
      SplitKeepPieces(s[n..], delims, runs);
      var rest := SplitKeep(s[n..], delims, runs);
      assert n >= 1;
      assert parts[1] == s[..n];
      assert IsToken(parts[1], delims, runs);
      forall i | 2 <= i < |parts|
        ensures i % 2 == 0 ==> NoneIn(parts[i], delims)
        ensures i % 2 == 1 ==> IsToken(parts[i], delims, runs)
      {
        assert parts[i] == rest[i - 2];
        assert (i - 2) % 2 == i % 2;
        if i % 2 == 0 {
          assert NoneIn(rest[i - 2], delims);
        } else {
          assert IsToken(rest[i - 2], delims, runs);
        }
      }
    }
  }

  /** A split of text with no delimiter is the text itself. */
  lemma {:induction false} SplitKeepNone(s: string, delims: set<char>, runs: set<char>)
    requires NoneIn(s, delims)
    ensures SplitKeep(s, delims, runs) == [s]
    decreases |s|
  {
    if s != [] {
      SplitKeepNone(s[1..], delims, runs);
      assert [s[0]] + s[1..] == s;
    }
  }

  /** Text containing a delimiter splits into more than one piece. */
  lemma {:induction false} SplitKeepSome(s: string, delims: set<char>, runs: set<char>)
    requires runs <= delims && !NoneIn(s, delims)
    ensures |SplitKeep(s, delims, runs)| >= 3
  {
    var parts := SplitKeep(s, delims, runs);
    SplitKeepConcat(s, delims, runs);
    SplitKeepPieces(s, delims, runs);
    ConcatOne(parts[0]);
  }

  /** Text made only of run characters is one delimiter match between two empty pieces. */
  lemma {:induction false} SplitKeepAllRun(s: string, delims: set<char>, runs: set<char>)
    requires runs <= delims && s != [] && AllIn(s, runs)
    ensures SplitKeep(s, delims, runs) == [[], s, []]
  {
    LeadingRunPrefix(s, [], runs);
    assert s + [] == s;
    assert s[..|s|] == s;
    assert s[|s|..] == [];
  }

  /**
   * Text after the last delimiter only changes the last piece: the split of
   * `p + q`, with `p` ending in a delimiter and `q` free of them, is the split
   * of `p` with its (empty) last piece replaced by `q`.
   */
  lemma {:induction false} SplitKeepTail(p: string, q: string, delims: set<char>, runs: set<char>)
    requires runs <= delims && NoneIn(q, delims)
    requires p != [] && p[|p| - 1] in delims
    ensures var sp := SplitKeep(p, delims, runs);
      && |sp| >= 3 && sp[|sp| - 1] == []
      && SplitKeep(p + q, delims, runs) == sp[..|sp| - 1] + [q]
    decreases |p|, 1
  {
    if p[0] !in delims {
      SplitKeepTailText(p, q, delims, runs);
    } else {
      SplitKeepTailDelim(p, q, delims, runs);
    }
  }

  /** One step of `SplitKeep` on text that starts with a non-delimiter. */
  lemma {:induction false} SplitKeepTextUnfold(s: string, delims: set<char>, runs: set<char>)
    requires s != [] && s[0] !in delims
    ensures var rest := SplitKeep(s[1..], delims, runs);
      SplitKeep(s, delims, runs) == [[s[0]] + rest[0]] + rest[1..]
  {
  }

  /** `SplitKeepTextUnfold` for a concatenation, split at its first character. */
  lemma {:induction false} SplitKeepTextUnfoldAppend(p: string, q: string, delims: set<char>, runs: set<char>)
    requires p != [] && p[0] !in delims
    ensures var rest := SplitKeep(p[1..] + q, delims, runs);
      SplitKeep(p + q, delims, runs) == [[p[0]] + rest[0]] + rest[1..]
  {
    var t := p + q;
    assert t[0] == p[0] && t[1..] == p[1..] + q;
    SplitKeepTextUnfold(t, delims, runs);
  }

  /** Extending the first piece commutes with replacing the last one. */
  lemma {:induction false} ExtendFirstReplaceLast(x: string, r: seq<string>, q: string)
    requires |r| >= 2
    ensures var a := [x + r[0]] + r[1..];
      var r' := r[..|r| - 1] + [q];
      && |a| == |r| && a[|a| - 1] == r[|r| - 1]
      && [x + r'[0]] + r'[1..] == a[..|a| - 1] + [q]
  {
    var a := [x + r[0]] + r[1..];
    var r' := r[..|r| - 1] + [q];
    assert r'[1..] == r[1..|r| - 1] + [q];
    assert a[..|a| - 1] == [x + r[0]] + r[1..|r| - 1];
  }

  /** `SplitKeepTail` when `p` starts with text. */
  lemma {:induction false} SplitKeepTailText(p: string, q: string, delims: set<char>, runs: set<char>)
    requires runs <= delims && NoneIn(q, delims)
    requires p != [] && p[|p| - 1] in delims && p[0] !in delims
    ensures var sp := SplitKeep(p, delims, runs);
      && |sp| >= 3 && sp[|sp| - 1] == []
      && SplitKeep(p + q, delims, runs) == sp[..|sp| - 1] + [q]
    decreases |p|, 0
  {
    SplitKeepTail(p[1..], q, delims, runs);
    SplitKeepTextUnfold(p, delims, runs);
    SplitKeepTextUnfoldAppend(p, q, delims, runs);
    var r := SplitKeep(p[1..], delims, runs);
    ExtendFirstReplaceLast([p[0]], r, q);
  }

  /** A suffix that does not start with a run character leaves the head match alone. */
  lemma {:induction false} TokenLenAppend(p: string, q: string, runs: set<char>)
    requires p != [] && (q == [] || q[0] !in runs)
    ensures TokenLen(p + q, runs) == TokenLen(p, runs)
  {
    if p[0] in runs {
      if LeadingRun(p, runs) < |p| {
        LeadingRunAppend(p, q, runs);
      } else {
        LeadingRunPrefix(p, q, runs);
      }
    }
  }

  /** The delimiter match at the head of `p` is the same in `p + q` when `q` starts with no delimiter. */
  lemma {:induction false} SplitKeepHead(p: string, q: string, delims: set<char>, runs: set<char>)
    requires runs <= delims && (q == [] || q[0] !in delims)
    requires p != [] && p[0] in delims
    ensures var n := TokenLen(p, runs);
      SplitKeep(p + q, delims, runs) == [[], p[..n]] + SplitKeep(p[n..] + q, delims, runs)
  {
    var t := p + q;
    var n := TokenLen(p, runs);
    TokenLenAppend(p, q, runs);
    assert t[0] == p[0];
    assert t[..n] == p[..n];
    assert t[n..] == p[n..] + q;
  }

  /** One step of `SplitKeep` on text that starts with a delimiter. */
  lemma {:induction false} SplitKeepDelimUnfold(s: string, delims: set<char>, runs: set<char>)
    requires s != [] && s[0] in delims
    ensures var n := TokenLen(s, runs);
      SplitKeep(s, delims, runs) == [[], s[..n]] + SplitKeep(s[n..], delims, runs)
  {
  }

  /**
   * `SplitKeepTail` extended to the empty prefix: the split of `s` ends in an
   * empty piece, and appending delimiter-free `q` replaces that piece by `q`.
   */
  lemma {:induction false} SplitKeepTailOrEmpty(s: string, q: string, delims: set<char>, runs: set<char>)
    requires runs <= delims && NoneIn(q, delims)
    requires s == [] || s[|s| - 1] in delims
    ensures var r := SplitKeep(s, delims, runs);
      && r != [] && r[|r| - 1] == []
      && SplitKeep(s + q, delims, runs) == r[..|r| - 1] + [q]
    decreases |s|, 2
  {
    if s == [] {
      assert s + q == q;
      SplitKeepNone(q, delims, runs);
    } else {
      SplitKeepTail(s, q, delims, runs);
    }
  }

  /** `SplitKeepTail` when `p` starts with a delimiter. */
  lemma {:induction false} SplitKeepTailDelim(p: string, q: string, delims: set<char>, runs: set<char>)
    requires runs <= delims && NoneIn(q, delims)
    requires p != [] && p[|p| - 1] in delims && p[0] in delims
    ensures var sp := SplitKeep(p, delims, runs);
      && |sp| >= 3 && sp[|sp| - 1] == []
      && SplitKeep(p + q, delims, runs) == sp[..|sp| - 1] + [q]
    decreases |p|, 0
  {
    var n := TokenLen(p, runs);
    SplitKeepDelimUnfold(p, delims, runs);
    SplitKeepHead(p, q, delims, runs);
    assert n == |p| || p[n..][|p| - n - 1] == p[|p| - 1];
    SplitKeepTailOrEmpty(p[n..], q, delims, runs);
    ButLast([[], p[..n]], SplitKeep(p[n..], delims, runs));
  }
}
