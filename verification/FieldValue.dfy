/**
 Normalization of header field values: line foldings become one space, and stray CR, LF and
 NUL bytes become spaces (section 5.5 of RFC 9110 and section 5.2 of RFC 9112).
 */
module FieldValue {
  import opened Basics

  type Bytes = seq<Byte>

  const NUL: Byte := 0x00
  const TAB: Byte := 0x09
  const FF: Byte := 0x0C
  const SP: Byte := 0x20

  predicate IsSpace(b: Byte) { b == SP || b == TAB || b == LF || b == FF || b == CR }

  predicate IsDirty(b: Byte) { b == CR || b == LF || b == NUL }

  predicate IsClean(s: Bytes) { forall k :: 0 <= k < |s| ==> !IsDirty(s[k]) }

  /** The bytes that carry the value: neither white space nor NUL. */
  function Substance(s: Bytes): Bytes {
    if s == [] then [] else (if IsSpace(s[0]) || s[0] == NUL then [] else [s[0]]) + Substance(s[1..])
  }

  // ----- The pieces -----

  function TrimEnd(s: Bytes): Bytes {
    if s != [] && IsSpace(s[|s| - 1]) then TrimEnd(s[..|s| - 1]) else s
  }

  function TrimStart(s: Bytes): Bytes {
    if s != [] && IsSpace(s[0]) then TrimStart(s[1..]) else s
  }

  function Trim(s: Bytes): Bytes { TrimEnd(TrimStart(s)) }

  /** CR and NUL become spaces; used only where no LF is left. */
  function Replace(s: Bytes): Bytes {
    seq(|s|, i requires 0 <= i < |s| => if s[i] == CR || s[i] == NUL then SP else s[i])
  }

  function LineEnd(s: Bytes): (n: nat)
    ensures n <= |s| && (n < |s| ==> s[n] == LF) && LF !in s[..n]
  {
    if s == [] || s[0] == LF then 0 else
      var n := 1 + LineEnd(s[1..]);
      assert s[..n] == [s[0]] + s[1..][..n - 1];
      n
  }

  function Joined(done: Bytes, line: Bytes): Bytes {
    if line == [] then done
    else if done == [] then Replace(line)
    else done + [SP] + Replace(line)
  }

  /** Go on with the lines of `rest`. */
  function Unfold(done: Bytes, rest: Bytes): Bytes
    decreases |rest|
  {
    var n := LineEnd(rest);
    var next := Joined(done, Trim(rest[..n]));
    if n == |rest| then next else Unfold(next, rest[n + 1..])
  }

  function Normalize(raw: Bytes): Bytes {
    if IsClean(raw) then raw
    else
      var n := LineEnd(raw);
      if n == |raw| then Replace(raw) else Unfold(Replace(TrimEnd(raw[..n])), raw[n + 1..])
  }

  // ----- The reference: words, and lines joined by one space -----

  /** White space and NUL separate words. */
  predicate Separates(b: Byte) { IsSpace(b) || b == NUL }

  function WordEnd(s: Bytes): (n: nat)
    ensures n <= |s| && (n < |s| ==> Separates(s[n])) && forall k :: 0 <= k < n ==> !Separates(s[k])
  {
    if s == [] || Separates(s[0]) then 0 else 1 + WordEnd(s[1..])
  }

  /** The maximal runs of bytes that separate nothing, in order. */
  function Words(s: Bytes): seq<Bytes>
    decreases |s|
  {
    if s == [] then []
    else if Separates(s[0]) then Words(s[1..])
    else [s[..WordEnd(s)]] + Words(s[WordEnd(s)..])
  }

  function Concat(words: seq<Bytes>): Bytes { if words == [] then [] else words[0] + Concat(words[1..]) }

  function Lines(s: Bytes): (lines: seq<Bytes>)
    ensures lines != [] && forall line <- lines :: LF !in line
    decreases |s|
  {
    var n := LineEnd(s);
    if n == |s| then [s[..n]] else [s[..n]] + Lines(s[n + 1..])
  }

  /** What is left of the lines after the first: those that are not blank, trimmed on both sides. */
  function Kept(lines: seq<Bytes>): seq<Bytes> {
    if lines == [] then []
    else (if Trim(lines[0]) == [] then [] else [Replace(Trim(lines[0]))]) + Kept(lines[1..])
  }

  /** The first line keeps the white space it begins with. */
  function Pieces(lines: seq<Bytes>): seq<Bytes>
    requires lines != []
  {
    (if TrimEnd(lines[0]) == [] then [] else [Replace(TrimEnd(lines[0]))]) + Kept(lines[1..])
  }

  /** One space between one piece and the next, and none around them. */
  function Spaced(pieces: seq<Bytes>): Bytes {
    if pieces == [] then [] else if |pieces| == 1 then pieces[0] else pieces[0] + [SP] + Spaced(pieces[1..])
  }

  // ----- Facts about words -----

  lemma {:induction false} WordEndIsUnique(s: Bytes, n: nat)
    requires n <= |s| && (n < |s| ==> Separates(s[n])) && forall k :: 0 <= k < n ==> !Separates(s[k])
    ensures n == WordEnd(s)
  {
  }

  lemma {:induction false} FirstWordAround(a: Bytes, b: Byte, c: Bytes)
    requires Separates(b)
    ensures
      var s, n := a + [b] + c, WordEnd(a);
      WordEnd(s) == n && s[..n] == a[..n] && s[n..] == a[n..] + [b] + c
  {
    var s, n := a + [b] + c, WordEnd(a);
    assert s[..|a|] == a && s[|a|] == b;
    assert forall k :: 0 <= k < |a| ==> s[k] == a[k];
    WordEndIsUnique(s, n);
  }

  /** No word reaches across a separator. */
  lemma {:induction false} WordsAround(a: Bytes, b: Byte, c: Bytes)
    requires Separates(b)
    ensures Words(a + [b] + c) == Words(a) + Words(c)
    decreases |a|
  {
    var s := a + [b] + c;
    if a == [] {
      assert s[1..] == c;
    } else if Separates(a[0]) {
      assert s[1..] == a[1..] + [b] + c;
      WordsAround(a[1..], b, c);
    } else {
      FirstWordAround(a, b, c);
      WordsAround(a[WordEnd(a)..], b, c);
    }
  }

  lemma {:induction false} WordsOfReplaced(s: Bytes)
    ensures Words(Replace(s)) == Words(s)
    decreases |s|
  {
    if s != [] {
      if Separates(s[0]) {
        WordsOfReplaced(s[1..]);
        assert Replace(s)[1..] == Replace(s[1..]);
      } else {
        var n := WordEnd(s);
        WordEndIsUnique(Replace(s), n);
        WordsOfReplaced(s[n..]);
        assert Replace(s)[..n] == s[..n] && Replace(s)[n..] == Replace(s[n..]);
      }
    }
  }

  lemma {:induction false} WordsOfTrimmedEnd(s: Bytes)
    ensures Words(TrimEnd(s)) == Words(s) && |TrimEnd(s)| <= |s| && (LF !in s ==> LF !in TrimEnd(s))
    decreases |s|
  {
    if s != [] && IsSpace(s[|s| - 1]) {
      var front := s[..|s| - 1];
      WordsOfTrimmedEnd(front);
      WordsAround(front, s[|s| - 1], []);
      assert s == front + [s[|s| - 1]] + [];
    }
  }

  lemma {:induction false} WordsOfTrimmedStart(s: Bytes)
    ensures Words(TrimStart(s)) == Words(s) && |TrimStart(s)| <= |s| && (LF !in s ==> LF !in TrimStart(s))
    decreases |s|
  {
    if s != [] && IsSpace(s[0]) { WordsOfTrimmedStart(s[1..]); }
  }

  lemma {:induction false} WordsOfTrimmed(s: Bytes)
    ensures Words(Trim(s)) == Words(s) && |Trim(s)| <= |s| && (LF !in s ==> LF !in Trim(s))
  {
    WordsOfTrimmedStart(s);
    WordsOfTrimmedEnd(TrimStart(s));
  }

  /** Trimming takes away white space only, and as much of it as there is at the edges. */
  lemma {:induction false} TrimCutsTheEdges(s: Bytes) returns (i: nat, j: nat)
    ensures i <= j <= |s| && Trim(s) == s[i..j]
    ensures forall k | 0 <= k < i || j <= k < |s| :: IsSpace(s[k])
    ensures i < j ==> !IsSpace(s[i]) && !IsSpace(s[j - 1])
  {
    i := TrimStartCuts(s);
    var t := s[i..];
    var n := TrimEndCuts(t);
    j := i + n;
    assert t[..j - i] == s[i..j];
    forall k | j <= k < |s| ensures IsSpace(s[k]) { assert t[k - i] == s[k]; }
    assert i < j ==> t[j - i - 1] == s[j - 1] && t[0] == s[i];
  }

  lemma {:induction false} TrimStartCuts(s: Bytes) returns (i: nat)
    ensures i <= |s| && TrimStart(s) == s[i..] && (i < |s| ==> !IsSpace(s[i]))
    ensures forall k | 0 <= k < i :: IsSpace(s[k])
    decreases |s|
  {
    i := 0;
    if s != [] && IsSpace(s[0]) {
      var n := TrimStartCuts(s[1..]);
      i := n + 1;
      assert s[1..][n..] == s[i..];
      forall k | 0 <= k < i ensures IsSpace(s[k]) { assert k > 0 ==> s[1..][k - 1] == s[k]; }
    }
  }

  lemma {:induction false} TrimEndCuts(s: Bytes) returns (j: nat)
    ensures j <= |s| && TrimEnd(s) == s[..j] && (j > 0 ==> !IsSpace(s[j - 1]))
    ensures forall k | j <= k < |s| :: IsSpace(s[k])
    decreases |s|
  {
    j := |s|;
    if s != [] && IsSpace(s[|s| - 1]) {
      j := TrimEndCuts(s[..|s| - 1]);
      assert s[..|s| - 1][..j] == s[..j];
    }
  }

  // ----- Words survive, line by line -----

  /** What the value so far becomes once `read` has been worked into it. */
  predicate Keeps(done: Bytes, read: Bytes, result: Bytes) {
    IsClean(result) && |result| <= |done| + 1 + |read| && Words(result) == Words(done) + Words(read)
  }

  lemma {:induction false} JoinedKeeps(done: Bytes, line: Bytes)
    requires IsClean(done) && LF !in line
    ensures Keeps(done, line, Joined(done, line))
  {
    var r := Replace(line);
    ReplacedIsClean(line);
    WordsOfReplaced(line);
    if done != [] && line != [] {
      WordsAround(done, SP, r);
      CleanBetween(done, r);
    }
  }

  lemma {:induction false} CleanBetween(a: Bytes, b: Bytes)
    requires IsClean(a) && IsClean(b)
    ensures IsClean(a + [SP] + b)
  {
  }

  lemma {:induction false} LineKeeps(done: Bytes, line: Bytes)
    requires IsClean(done) && LF !in line
    ensures Keeps(done, line, Joined(done, Trim(line)))
  {
    WordsOfTrimmed(line);
    JoinedKeeps(done, Trim(line));
  }

  lemma {:induction false} WordsAroundLineEnd(s: Bytes, n: nat)
    requires n < |s| && s[n] == LF
    ensures Words(s) == Words(s[..n]) + Words(s[n + 1..])
  {
    assert s == s[..n] + [LF] + s[n + 1..];
    WordsAround(s[..n], LF, s[n + 1..]);
  }

  lemma {:induction false} KeepsGoesOn(done: Bytes, rest: Bytes, n: nat, next: Bytes, result: Bytes)
    requires n < |rest| && rest[n] == LF && Keeps(done, rest[..n], next) && Keeps(next, rest[n + 1..], result)
    ensures Keeps(done, rest, result)
  {
    WordsAroundLineEnd(rest, n);
    var a, b, c := Words(done), Words(rest[..n]), Words(rest[n + 1..]);
    assert a + b + c == a + (b + c);
  }

  lemma {:induction false} UnfoldKeeps(done: Bytes, rest: Bytes)
    requires IsClean(done)
    ensures Keeps(done, rest, Unfold(done, rest))
    decreases |rest|
  {
    var n := LineEnd(rest);
    var next := Joined(done, Trim(rest[..n]));
    LineKeeps(done, rest[..n]);
    if n == |rest| {
      assert rest[..n] == rest;
    } else {
      UnfoldKeeps(next, rest[n + 1..]);
      KeepsGoesOn(done, rest, n, next, Unfold(next, rest[n + 1..]));
    }
  }

  lemma {:induction false} ReplacedHeadKeeps(head: Bytes)
    requires LF !in head
    ensures
      var r := Replace(TrimEnd(head));
      IsClean(r) && |r| <= |head| && Words(r) == Words(head)
  {
    WordsOfTrimmedEnd(head);
    ReplacedIsClean(TrimEnd(head));
    WordsOfReplaced(TrimEnd(head));
  }

  // ----- Lines joined by one space -----

  lemma {:induction false} SpacedGrows(done: Bytes, piece: Bytes, rest: seq<Bytes>)
    requires done != []
    ensures Spaced([done] + ([piece] + rest)) == Spaced([done + [SP] + piece] + rest)
  {
    var all, merged := [done] + ([piece] + rest), [done + [SP] + piece] + rest;
    assert all[1..] == [piece] + rest && merged[1..] == rest;
    assert all[1..][1..] == rest;
    if rest != [] { assert done + [SP] + (piece + [SP] + Spaced(rest)) == done + [SP] + piece + [SP] + Spaced(rest); }
  }

  /** The value so far, as a piece of its own. */
  function AsPiece(done: Bytes): seq<Bytes> { if done == [] then [] else [done] }

  lemma {:induction false} JoinedIsSpaced(done: Bytes, line: Bytes, rest: seq<Bytes>)
    ensures Spaced(AsPiece(Joined(done, line)) + rest) == Spaced(AsPiece(done) + (AsPiece(Replace(line)) + rest))
  {
    if line == [] {
      assert AsPiece(Replace(line)) + rest == rest;
    } else if done == [] {
      assert AsPiece(done) + (AsPiece(Replace(line)) + rest) == [Replace(line)] + rest;
    } else {
      SpacedGrows(done, Replace(line), rest);
    }
  }

  lemma {:induction false} UnfoldIsSpaced(done: Bytes, rest: Bytes)
    ensures Unfold(done, rest) == Spaced(AsPiece(done) + Kept(Lines(rest)))
    decreases |rest|
  {
    var n := LineEnd(rest);
    var line := Trim(rest[..n]);
    var next := Joined(done, line);
    var lines := Lines(rest);
    assert lines[0] == rest[..n];
    assert Kept(lines) == AsPiece(Replace(line)) + Kept(lines[1..]);
    JoinedIsSpaced(done, line, Kept(lines[1..]));
    if n == |rest| {
      assert Kept(lines[1..]) == [];
      assert AsPiece(next) + [] == AsPiece(next);
    } else {
      assert lines[1..] == Lines(rest[n + 1..]);
      UnfoldIsSpaced(next, rest[n + 1..]);
    }
  }

  // ----- Main results -----

  lemma {:induction false} DirtyIsCleaned(raw: Bytes)
    requires !IsClean(raw)
    ensures IsClean(Normalize(raw)) && |Normalize(raw)| <= |raw| && Words(Normalize(raw)) == Words(raw)
  {
    var n := LineEnd(raw);
    if n == |raw| {
      assert LF !in raw by { assert raw[..n] == raw; }
      assert Normalize(raw) == Replace(raw);
      ReplacedIsClean(raw);
      WordsOfReplaced(raw);
    } else {
      FoldedIsCleaned(raw, n);
    }
  }

  lemma {:induction false} ReplacedIsClean(s: Bytes)
    requires LF !in s
    ensures IsClean(Replace(s))
  {
    forall k | 0 <= k < |s| ensures !IsDirty(Replace(s)[k]) { assert s[k] in s; }
  }

  lemma {:induction false} FoldedIsCleaned(raw: Bytes, n: nat)
    requires n < |raw| && raw[n] == LF && LF !in raw[..n]
    ensures
      var r := Unfold(Replace(TrimEnd(raw[..n])), raw[n + 1..]);
      IsClean(r) && |r| <= |raw| && Words(r) == Words(raw)
  {
    ReplacedHeadKeeps(raw[..n]);
    UnfoldKeeps(Replace(TrimEnd(raw[..n])), raw[n + 1..]);
    WordsAroundLineEnd(raw, n);
  }

  lemma {:induction false} SubstanceIsTheWords(s: Bytes)
    ensures Substance(s) == Concat(Words(s))
    decreases |s|
  {
    if s != [] {
      if Separates(s[0]) {
        SubstanceIsTheWords(s[1..]);
      } else {
        SubstanceIsTheWords(s[WordEnd(s)..]);
        SubstanceOfRun(s, WordEnd(s));
        assert Words(s)[1..] == Words(s[WordEnd(s)..]);
      }
    }
  }

  lemma {:induction false} SubstanceOfRun(s: Bytes, n: nat)
    requires n <= |s| && forall k :: 0 <= k < n ==> !Separates(s[k])
    ensures Substance(s) == s[..n] + Substance(s[n..])
    decreases n
  {
    if n == 0 {
      assert s[..n] + Substance(s[n..]) == Substance(s);
    } else {
      SubstanceOfRun(s[1..], n - 1);
      assert s[1..][n - 1..] == s[n..] && s[..n] == [s[0]] + s[1..][..n - 1];
    }
  }

  /** The output is clean, no longer, has the same words in the same order, and is its own normal form. */
  lemma {:induction false} NormalizeIsFaithful(raw: Bytes)
    ensures IsClean(Normalize(raw)) && |Normalize(raw)| <= |raw|
    ensures Words(Normalize(raw)) == Words(raw)
    ensures Substance(Normalize(raw)) == Substance(raw)
    ensures IsClean(raw) ==> Normalize(raw) == raw
    ensures Normalize(Normalize(raw)) == Normalize(raw)
  {
    if !IsClean(raw) { DirtyIsCleaned(raw); }
    SubstanceIsTheWords(raw);
    SubstanceIsTheWords(Normalize(raw));
  }

  /**
   A value with a newline in it becomes its lines, without the blank ones and without the white
   space at their edges, with exactly one space between one line and the next.
   */
  lemma {:induction false} LinesAreJoinedByOneSpace(raw: Bytes)
    requires LF in raw
    ensures Normalize(raw) == Spaced(Pieces(Lines(raw)))
  {
    var n := LineEnd(raw);
    assert raw[..|raw|] == raw;
    var head := TrimEnd(raw[..n]);
    UnfoldIsSpaced(Replace(head), raw[n + 1..]);
    assert Lines(raw)[0] == raw[..n] && Lines(raw)[1..] == Lines(raw[n + 1..]);
    assert Pieces(Lines(raw)) == AsPiece(Replace(head)) + Kept(Lines(raw[n + 1..]));
  }

  /** Without a newline every stray byte becomes a space in its place, and nothing else changes. */
  lemma {:induction false} StrayBytesBecomeSpaces(raw: Bytes)
    requires LF !in raw
    ensures |Normalize(raw)| == |raw|
    ensures forall k :: 0 <= k < |raw| ==> Normalize(raw)[k] == if IsDirty(raw[k]) then SP else raw[k]
  {
  }

  // ----- The buffer being built -----

  method PushLine(unfolded: Bytes, line: Bytes) returns (r: Bytes)
    ensures r == Joined(unfolded, line)
  {
    r := unfolded;
    if line != [] {
      if r != [] { r := r + [SP]; }
      r := r + Replace(line);
    }
  }

  method NormalizeFieldValue(raw: Bytes) returns (r: Bytes)
    ensures r == Normalize(raw)
  {
    if IsClean(raw) { return raw; }
    var n := LineEnd(raw);
    if n == |raw| { return Replace(raw); }
    r := Replace(TrimEnd(raw[..n]));
    var rest, more := raw[n + 1..], true;
    ghost var goal := Unfold(r, rest);
    while more
      invariant goal == if more then Unfold(r, rest) else r
      decreases more, |rest|
    {
      var end := LineEnd(rest);
      r := PushLine(r, Trim(rest[..end]));
      more := end < |rest|;
      if more { rest := rest[end + 1..]; }
    }
  }
}
