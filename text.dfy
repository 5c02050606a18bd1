/**
  The string operations the system relies on, with Python's meaning:
  ASCII `str.lower()`, the `in` substring test, `str.split(sep)`,
  `str.strip()`, `str.replace` of one character, and the sentence
  split `re.split(r'(?<=[.!?])\s+', text)`.
 */
module Text {
  import opened Wrappers

  /**
    Whitespace as Python's `str.isspace()`, `str.strip()` and the regex
    class `\s` on `str` patterns see it: the ASCII controls tab to carriage
    return and the four separators, the space, NEL, no-break space, and the
    Unicode space separators and line and paragraph separators.
   */
  predicate IsSpace(c: char) {
    || c == ' ' || ('\t' <= c <= '\r') || ('\U{001C}' <= c <= '\U{001F}')
    || c == '\U{0085}' || c == '\U{00A0}' || c == '\U{1680}'
    || ('\U{2000}' <= c <= '\U{200A}')
    || c == '\U{2028}' || c == '\U{2029}' || c == '\U{202F}' || c == '\U{205F}' || c == '\U{3000}'
  }

  function LowerChar(c: char): char {
    if 'A' <= c <= 'Z' then (c as int + 32) as char else c
  }

  /** `s.lower()` on ASCII letters; every other character is kept. */
  function Lower(s: string): (r: string)
    ensures |r| == |s|
    ensures forall i :: 0 <= i < |s| ==> r[i] == LowerChar(s[i])
  {
    seq(|s|, i requires 0 <= i < |s| => LowerChar(s[i]))
  }

  /** `s.replace(a, b)` for one-character `a` and `b`. */
  function ReplaceChar(s: string, a: char, b: char): (r: string)
    ensures |r| == |s|
  {
    seq(|s|, i requires 0 <= i < |s| => if s[i] == a then b else s[i])
  }

  predicate IsPrefix(p: string, s: string) {
    |p| <= |s| && s[..|p|] == p
  }

  /** `sub` occurs in `s` starting at position `i`. */
  predicate OccursAt(s: string, sub: string, i: int) {
    0 <= i && i + |sub| <= |s| && s[i..i + |sub|] == sub
  }

  /** Python's `sub in s`. */
  predicate Contains(s: string, sub: string)
    decreases |s|
  {
    IsPrefix(sub, s) || (|s| > 0 && Contains(s[1..], sub))
  }

  /** An occurrence in `s[1..]` is an occurrence in `s` one position later. */
  lemma ShiftOccurrence(s: string, sub: string, k: int)
    requires |s| > 0 && 0 <= k
    ensures OccursAt(s[1..], sub, k) <==> OccursAt(s, sub, k + 1)
  {
    if 0 <= k && k + |sub| <= |s| - 1 {
      assert s[1..][k..k + |sub|] == s[k + 1..k + 1 + |sub|];
    }
  }

  /** `Contains` agrees with the textbook definition: some window of `s` equals `sub`. */
  lemma {:induction false} ContainsIff(s: string, sub: string)
    ensures Contains(s, sub) <==> exists i :: OccursAt(s, sub, i)
    decreases |s|
  {
    if IsPrefix(sub, s) {
      assert OccursAt(s, sub, 0);
    } else if |s| == 0 {
      forall i | OccursAt(s, sub, i) ensures false {
      }
    } else {
      ContainsIff(s[1..], sub);
      if Contains(s[1..], sub) {
        var i :| OccursAt(s[1..], sub, i);
        ShiftOccurrence(s, sub, i);
      }
      forall i | OccursAt(s, sub, i) ensures Contains(s[1..], sub) {
        if i > 0 {
          ShiftOccurrence(s, sub, i - 1);
        }
      }
    }
  }

  /** The first position at which `sub` occurs in `s` (Python's `s.find(sub)`, None for -1). */
  function IndexOf(s: string, sub: string): (r: Option<nat>)
    ensures r.Some? <==> Contains(s, sub)
    ensures r.Some? ==> OccursAt(s, sub, r.value)
    ensures r.Some? ==> forall k :: 0 <= k < r.value ==> !OccursAt(s, sub, k)
    ensures r.None? ==> forall k :: !OccursAt(s, sub, k)
    decreases |s|
  {
    if IsPrefix(sub, s) then
      assert s[0..0 + |sub|] == s[..|sub|];
      Some(0)
    else if |s| == 0 then
      None
    else
      assert !OccursAt(s, sub, 0) by {
        if |sub| <= |s| {
          assert s[..|sub|] == s[0..0 + |sub|];
        }
      }
      assert forall k :: 0 <= k ==> (OccursAt(s, sub, k + 1) <==> OccursAt(s[1..], sub, k)) by {
        forall k | 0 <= k ensures OccursAt(s, sub, k + 1) <==> OccursAt(s[1..], sub, k) {
          ShiftOccurrence(s, sub, k);
        }
      }
      match IndexOf(s[1..], sub)
      case None =>
        assert forall k :: !OccursAt(s, sub, k) by {
          forall k ensures !OccursAt(s, sub, k) {
            if k > 0 {
              ShiftOccurrence(s, sub, k - 1);
            }
          }
        }
        None
      case Some(i) =>
        assert forall k :: 0 < k < i + 1 ==> !OccursAt(s, sub, k) by {
          forall k | 0 < k < i + 1 ensures !OccursAt(s, sub, k) {
            ShiftOccurrence(s, sub, k - 1);
          }
        }
        ShiftOccurrence(s, sub, i);
        Some(i + 1)
  }

  /** Python's `s.split(sep)` for a non-empty separator (an empty one raises ValueError). */
  function Split(s: string, sep: string): (r: seq<string>)
    requires |sep| > 0
    ensures |r| >= 1
    decreases |s|
  {
    match IndexOf(s, sep)
    case None => [s]
    case Some(i) => [s[..i]] + Split(s[i + |sep|..], sep)
  }

  /** `sep.join(parts)`. */
  function Join(parts: seq<string>, sep: string): string
  {
    if |parts| == 0 then ""
    else if |parts| == 1 then parts[0]
    else parts[0] + sep + Join(parts[1..], sep)
  }

  /** Splitting and joining with the same separator gives the text back. */
  lemma {:induction false} JoinSplit(s: string, sep: string)
    requires |sep| > 0
    ensures Join(Split(s, sep), sep) == s
    decreases |s|
  {
    var found := IndexOf(s, sep);
    if found.Some? {
      var i := found.value;
      var head, rest := s[..i], s[i + |sep|..];
      var parts := Split(rest, sep);
      JoinSplit(rest, sep);
      calc {
        Join(Split(s, sep), sep);
        Join([head] + parts, sep);
        { assert ([head] + parts)[1..] == parts; }
        head + sep + Join(parts, sep);
        head + sep + rest;
        { assert s[i..i + |sep|] == sep; }
        s;
      }
    }
  }

  /** A prefix that stops before the first occurrence of `sep` does not contain it. */
  lemma {:induction false} NoOccurrenceBefore(s: string, sep: string, i: nat)
    requires i <= |s|
    requires forall k :: 0 <= k < i ==> !OccursAt(s, sep, k)
    ensures |sep| > 0 ==> !Contains(s[..i], sep)
  {
    if |sep| > 0 {
      ContainsIff(s[..i], sep);
      if Contains(s[..i], sep) {
        var k :| OccursAt(s[..i], sep, k);
        assert s[..i][k..k + |sep|] == s[k..k + |sep|];
        assert OccursAt(s, sep, k);
      }
    }
  }

  /** No piece that `Split` returns contains the separator. */
  lemma {:induction false} SplitPiecesAreFree(s: string, sep: string)
    requires |sep| > 0
    ensures forall p :: p in Split(s, sep) ==> !Contains(p, sep)
    decreases |s|
  {
    match IndexOf(s, sep)
    case None =>
      NoOccurrenceBefore(s, sep, |s|);
      assert s[..|s|] == s;
    case Some(i) =>
      NoOccurrenceBefore(s, sep, i);
      SplitPiecesAreFree(s[i + |sep|..], sep);
  }

  /** The first index at or after `i` that is not whitespace. */
  function SkipSpaces(s: string, i: nat): (j: nat)
    requires i <= |s|
    ensures i <= j <= |s|
    ensures forall k :: i <= k < j ==> IsSpace(s[k])
    ensures j == |s| || !IsSpace(s[j])
    decreases |s| - i
  {
    if i < |s| && IsSpace(s[i]) then SkipSpaces(s, i + 1) else i
  }

  /** The end of `s[lo..j]` once its trailing whitespace is removed. */
  function TrimEnd(s: string, lo: nat, j: nat): (e: nat)
    requires lo <= j <= |s|
    ensures lo <= e <= j
    ensures forall k :: e <= k < j ==> IsSpace(s[k])
    ensures e == lo || !IsSpace(s[e - 1])
    decreases j
  {
    if j > lo && IsSpace(s[j - 1]) then TrimEnd(s, lo, j - 1) else j
  }

  /** Python's `s.strip()`. */
  function Strip(s: string): string
  {
    var b := SkipSpaces(s, 0);
    s[b..TrimEnd(s, b, |s|)]
  }

  predicate IsStripped(s: string) {
    s == "" || (!IsSpace(s[0]) && !IsSpace(s[|s| - 1]))
  }

  /** `Strip` leaves no whitespace at either end. */
  lemma StrippedEnds(s: string)
    ensures IsStripped(Strip(s))
  {
    var b := SkipSpaces(s, 0);
    var e := TrimEnd(s, b, |s|);
    assert Strip(s) == s[b..e];
    if b < e {
      assert Strip(s)[0] == s[b];
      assert Strip(s)[|Strip(s)| - 1] == s[e - 1];
    }
  }

  /** `Strip` removes exactly the whitespace at both ends and keeps the middle. */
  lemma StripIsTrim(s: string)
    ensures IsStripped(Strip(s))
    ensures exists b, e :: 0 <= b <= e <= |s| && Strip(s) == s[b..e]
                        && (forall k :: 0 <= k < b ==> IsSpace(s[k]))
                        && (forall k :: e <= k < |s| ==> IsSpace(s[k]))
  {
    StrippedEnds(s);
    var b := SkipSpaces(s, 0);
    var e := TrimEnd(s, b, |s|);
    assert Strip(s) == s[b..e];
  }

  /** `[f(p) for p in parts if f(p)]`: the non-empty images of the parts, in order. */
  function NonEmptyImages(parts: seq<string>, f: string -> string): (r: seq<string>)
    ensures |r| <= |parts|
  {
    if parts == [] then []
    else (if f(parts[0]) != "" then [f(parts[0])] else []) + NonEmptyImages(parts[1..], f)
  }

  /** The positions of the parts whose image is not empty, ascending. */
  function KeptPositions(parts: seq<string>, f: string -> string): (r: seq<nat>)
    ensures |r| <= |parts|
  {
    if parts == [] then []
    else
      var rest := KeptPositions(parts[1..], f);
      (if f(parts[0]) != "" then [0] else []) + seq(|rest|, j requires 0 <= j < |rest| => rest[j] + 1)
  }

  /** The positions strictly increase. */
  predicate Ascending(p: seq<int>) {
    forall j, k :: 0 <= j < k < |p| ==> p[j] < p[k]
  }

  /**
    `r` is `[f(p) for p in parts if f(p)]` as read through the kept
    positions `pos`: item `j` is the image of part `pos[j]`, the positions
    ascend, and a position is kept exactly when its image is not empty.
   */
  predicate KeptAt(r: seq<string>, parts: seq<string>, pos: seq<nat>, f: string -> string) {
    && |pos| == |r|
    && (forall j :: 0 <= j < |pos| ==> pos[j] < |parts| && r[j] == f(parts[pos[j]]))
    && Ascending(pos)
    && (forall i :: 0 <= i < |parts| ==> (i in pos <==> f(parts[i]) != ""))
  }

  /** The comprehension keeps the non-empty image of every part, in order, and nothing else. */
  lemma NonEmptyImagesSpec(parts: seq<string>, f: string -> string)
    ensures KeptAt(NonEmptyImages(parts, f), parts, KeptPositions(parts, f), f)
  {
    KeptItems(parts, f);
    KeptAscending(parts, f);
    KeptMembers(parts, f);
  }

  lemma {:induction false} KeptItems(parts: seq<string>, f: string -> string)
    ensures var r, p := NonEmptyImages(parts, f), KeptPositions(parts, f);
      |p| == |r| && forall j :: 0 <= j < |p| ==> p[j] < |parts| && r[j] == f(parts[p[j]])
  {
    if parts != [] {
      var tail := parts[1..];
      KeptItems(tail, f);
      var r0, p0 := NonEmptyImages(tail, f), KeptPositions(tail, f);
      var shifted := seq(|p0|, j requires 0 <= j < |p0| => p0[j] + 1);
      var r, p := NonEmptyImages(parts, f), KeptPositions(parts, f);
      forall j | 0 <= j < |p0| ensures shifted[j] < |parts| && r0[j] == f(parts[shifted[j]]) {
        assert tail[p0[j]] == parts[p0[j] + 1];
      }
      if f(parts[0]) != "" {
        assert r == [f(parts[0])] + r0 && p == [0] + shifted;
      } else {
        assert r == r0 && p == shifted;
      }
    }
  }

  lemma {:induction false} KeptAscending(parts: seq<string>, f: string -> string)
    ensures Ascending(KeptPositions(parts, f))
  {
    if parts != [] {
      KeptAscending(parts[1..], f);
      var p0 := KeptPositions(parts[1..], f);
      var shifted := seq(|p0|, j requires 0 <= j < |p0| => p0[j] + 1);
      ShiftedAscending(p0);
      if f(parts[0]) != "" {
        assert KeptPositions(parts, f) == [0] + shifted;
        FrontAscending(shifted);
      } else {
        assert KeptPositions(parts, f) == shifted;
      }
    }
  }

  lemma ShiftedAscending(p0: seq<nat>)
    requires Ascending(p0)
    ensures Ascending(seq(|p0|, j requires 0 <= j < |p0| => p0[j] + 1))
  {
  }

  lemma FrontAscending(q: seq<int>)
    requires Ascending(q) && forall j :: 0 <= j < |q| ==> q[j] > 0
    ensures Ascending([0] + q)
  {
    var p := [0] + q;
    forall j, k | 0 <= j < k < |p| ensures p[j] < p[k] {
      assert p[k] == q[k - 1];
      if j > 0 {
        assert p[j] == q[j - 1];
      }
    }
  }

  lemma {:induction false} KeptMembers(parts: seq<string>, f: string -> string)
    ensures forall i :: 0 <= i < |parts| ==> (i in KeptPositions(parts, f) <==> f(parts[i]) != "")
  {
    if parts != [] {
      var tail := parts[1..];
      KeptMembers(tail, f);
      var p0 := KeptPositions(tail, f);
      var shifted := seq(|p0|, j requires 0 <= j < |p0| => p0[j] + 1);
      var p := KeptPositions(parts, f);
      assert p == (if f(parts[0]) != "" then [0] else []) + shifted;
      forall i | 0 <= i < |parts| ensures i in p <==> f(parts[i]) != "" {
        ShiftedMember(p0, i);
        if i > 0 {
          assert tail[i - 1] == parts[i];
        }
      }
    }
  }

  /** A position is among the shifted positions exactly when the one before it was among the originals. */
  lemma ShiftedMember(p0: seq<nat>, i: nat)
    ensures i in seq(|p0|, j requires 0 <= j < |p0| => p0[j] + 1) <==> i > 0 && i - 1 in p0
  {
    var shifted := seq(|p0|, j requires 0 <= j < |p0| => p0[j] + 1);
    if i in shifted {
      var k :| 0 <= k < |shifted| && shifted[k] == i;
      assert p0[k] == i - 1;
    }
    if i > 0 && i - 1 in p0 {
      var k :| 0 <= k < |p0| && p0[k] == i - 1;
      assert shifted[k] == i;
    }
  }

  /** Every item of the comprehension is the image of some part. */
  lemma ImagesOfParts(parts: seq<string>, f: string -> string)
    ensures forall x :: x in NonEmptyImages(parts, f) ==> x != "" && exists i :: 0 <= i < |parts| && x == f(parts[i])
  {
    NonEmptyImagesSpec(parts, f);
    var r, pos := NonEmptyImages(parts, f), KeptPositions(parts, f);
    forall x | x in r ensures x != "" && exists i :: 0 <= i < |parts| && x == f(parts[i]) {
      var j :| 0 <= j < |r| && r[j] == x;
      assert pos[j] in pos;
    }
  }

  /** `[p.strip() for p in parts if p.strip()]`. */
  function StrippedNonEmpty(parts: seq<string>): (r: seq<string>)
    ensures |r| <= |parts|
    ensures forall x :: x in r ==> x != "" && IsStripped(x)
  {
    ImagesOfParts(parts, Strip);
    AllStrippedEnds(parts);
    NonEmptyImages(parts, Strip)
  }

  lemma AllStrippedEnds(parts: seq<string>)
    ensures forall i :: 0 <= i < |parts| ==> IsStripped(Strip(parts[i]))
  {
    forall i | 0 <= i < |parts| ensures IsStripped(Strip(parts[i])) {
      StrippedEnds(parts[i]);
    }
  }

  /** `Strip` keeps a slice of its input, so a character the input lacks stays out. */
  lemma StripAvoidsChar(s: string, c: char)
    requires c !in s
    ensures c !in Strip(s)
  {
    var b := SkipSpaces(s, 0);
    var e := TrimEnd(s, b, |s|);
    forall k | 0 <= k < |Strip(s)| ensures Strip(s)[k] != c {
      assert Strip(s)[k] == s[b + k] && s[b + k] in s;
    }
  }

  /** A character absent from every part is absent from every item `StrippedNonEmpty` keeps. */
  lemma StrippedAvoidsChar(parts: seq<string>, c: char)
    requires forall p :: p in parts ==> c !in p
    ensures forall x :: x in StrippedNonEmpty(parts) ==> c !in x
  {
    ImagesOfParts(parts, Strip);
    forall x | x in StrippedNonEmpty(parts) ensures c !in x {
      var i :| 0 <= i < |parts| && x == Strip(parts[i]);
      StripAvoidsChar(parts[i], c);
    }
  }

  /** The pieces one after the other: what a loop that appends piece by piece builds. */
  function Concat<T>(parts: seq<seq<T>>): seq<T> {
    if parts == [] then [] else parts[0] + Concat(parts[1..])
  }

  /** One round of such a loop: appending piece `k` leaves the pieces after it to come. */
  lemma ConcatStep<T>(acc: seq<T>, parts: seq<seq<T>>, k: nat)
    requires k < |parts|
    ensures acc + Concat(parts[k..]) == (acc + parts[k]) + Concat(parts[k + 1..])
  {
    assert parts[k..][1..] == parts[k + 1..];
  }

  /** The first `n` items, Python's `xs[:n]`. */
  function Take<T>(xs: seq<T>, n: nat): (r: seq<T>)
    ensures |r| == if |xs| < n then |xs| else n
    ensures forall i :: 0 <= i < |r| ==> r[i] == xs[i]
  {
    if |xs| <= n then xs else xs[..n]
  }

  predicate IsTerminator(c: char) {
    c == '.' || c == '!' || c == '?'
  }

  /** A place where `(?<=[.!?])\s+` starts a match: whitespace right after a terminator. */
  predicate BreakAt(s: string, p: int) {
    0 < p < |s| && IsTerminator(s[p - 1]) && IsSpace(s[p])
  }

  /** The leftmost break at or after `from`. */
  function FirstBreak(s: string, from: nat): (r: Option<nat>)
    ensures r.Some? ==> from <= r.value && BreakAt(s, r.value)
    ensures r.Some? ==> forall k :: from <= k < r.value ==> !BreakAt(s, k)
    ensures r.None? ==> forall k :: from <= k ==> !BreakAt(s, k)
    decreases |s| - from
  {
    if from >= |s| then None
    else if BreakAt(s, from) then Some(from)
    else FirstBreak(s, from + 1)
  }

  /**
    `re.split(r'(?<=[.!?])\s+', s)`: cut at every run of whitespace that
    follows a terminator; the run itself is dropped, the terminator stays.
   */
  function SplitSentences(s: string): (r: seq<string>)
    ensures |r| >= 1
    decreases |s|
  {
    match FirstBreak(s, 0)
    case None => [s]
    case Some(p) =>
      var q := SkipSpaces(s, p);
      [s[..p]] + SplitSentences(s[q..])
  }

  /** No sentence that `SplitSentences` returns contains a further break. */
  lemma {:induction false} SentencesHaveNoBreak(s: string)
    ensures forall x, k :: x in SplitSentences(s) ==> !BreakAt(x, k)
    decreases |s|
  {
    match FirstBreak(s, 0)
    case None =>
    case Some(p) =>
      var q := SkipSpaces(s, p);
      SentencesHaveNoBreak(s[q..]);
      forall k | BreakAt(s[..p], k) ensures false {
        assert BreakAt(s, k);
      }
  }

  /** A text without newlines splits into sentences without newlines. */
  lemma {:induction false} SentencesKeepChar(s: string, c: char)
    requires c !in s
    ensures forall x :: x in SplitSentences(s) ==> c !in x
    decreases |s|
  {
    match FirstBreak(s, 0)
    case None =>
    case Some(p) =>
      var q := SkipSpaces(s, p);
      assert forall k :: 0 <= k < |s[q..]| ==> s[q..][k] == s[q + k];
      SentencesKeepChar(s[q..], c);
      assert forall k :: 0 <= k < p ==> s[..p][k] == s[k];
  }
}
