/**
  The parts of the Gemini agent (gemini_agent.py) that do not talk to the
  model: the API-key check and its `.env` fallback, the splitting of the
  model's text into insights and questions, and the fallback insights and
  questions used when there is no model or the call fails. Each reply of
  the model is a parameter: the text it returned, or None when the call
  raised.
 */
module Agent {
  import opened Wrappers
  import opened Text
  import opened Tables
  import opened Profiling

  const Placeholder: string := "your_gemini_api_key_here"
  const KeyMarker: string := "GOOGLE_API_KEY="
  const NotInitialized: string := "Model not initialized. Please check your API key."
  const SummaryFailed: string := "Could not generate summary. Please check the data format."

  // ---- the API key

  /** A key is usable when it is set, not empty, and not the placeholder of the sample `.env`. */
  predicate IsValidKey(key: Option<string>) {
    key.Some? && key.value != "" && key.value != Placeholder
  }

  /** `Split(s, sep)` cut at a known first occurrence. */
  lemma {:induction false} SplitAt(s: string, sep: string, i: nat)
    requires |sep| > 0 && IndexOf(s, sep) == Some(i)
    ensures |Split(s, sep)| >= 2
    ensures Split(s, sep)[0] == s[..i] && Split(s, sep)[1] == Split(s[i + |sep|..], sep)[0]
  {
    var rest := Split(s[i + |sep|..], sep);
    var r := Split(s, sep);
    assert r == [s[..i]] + rest;
    assert r[0] == s[..i] && r[1] == rest[0];
  }

  /** The text after the first `GOOGLE_API_KEY=` up to the next newline, stripped. */
  function KeyFromDotenv(contents: string): (r: string)
    requires Contains(contents, KeyMarker)
    ensures '\n' !in r && IsStripped(r)
  {
    var i := IndexOf(contents, KeyMarker).value;
    SplitAt(contents, KeyMarker, i);
    var line := Split(Split(contents, KeyMarker)[1], "\n")[0];
    SplitPiecesAreFree(Split(contents, KeyMarker)[1], "\n");
    assert line in Split(Split(contents, KeyMarker)[1], "\n");
    NewlineIff(line);
    StrippedEnds(line);
    StripAvoidsChar(line, '\n');
    Strip(line)
  }

  /**
    The module-level key: the environment's value when it is valid;
    otherwise the `.env` file's line when the file (None when absent or
    unreadable) holds the marker; otherwise the environment's value.
   */
  function ResolveKey(env: Option<string>, dotenv: Option<string>): (r: Option<string>)
    ensures IsValidKey(env) ==> r == env
    ensures r != env ==> r.Some? && '\n' !in r.value && IsStripped(r.value)
  {
    if IsValidKey(env) then env
    else if dotenv.Some? && Contains(dotenv.value, KeyMarker) then Some(KeyFromDotenv(dotenv.value))
    else env
  }

  /** The first piece of a split runs at least up to `n` when `sep` does not start before `n`. */
  lemma {:induction false} FirstPieceReaches(s: string, sep: string, n: nat)
    requires |sep| > 0 && n <= |s|
    requires forall k :: 0 <= k < n ==> !OccursAt(s, sep, k)
    ensures n <= |Split(s, sep)[0]| && Split(s, sep)[0][..n] == s[..n]
  {
    match IndexOf(s, sep)
    case None =>
    case Some(i) =>
      assert OccursAt(s, sep, i);
  }

  lemma NewlineAt(s: string, k: int)
    requires OccursAt(s, "\n", k)
    ensures s[k] == '\n'
  {
    assert s[k..k + 1][0] == s[k];
  }

  lemma NewlineOccurs(s: string, k: int)
    requires 0 <= k < |s| && s[k] == '\n'
    ensures OccursAt(s, "\n", k)
  {
    assert s[k..k + 1] == [s[k]];
  }

  /** A string holds a newline character exactly when it holds the one-character string "\n". */
  lemma NewlineIff(s: string)
    ensures '\n' in s <==> Contains(s, "\n")
  {
    ContainsIff(s, "\n");
    forall k | 0 <= k < |s| ensures s[k] == '\n' ==> OccursAt(s, "\n", k) {
      if s[k] == '\n' {
        NewlineOccurs(s, k);
      }
    }
    if Contains(s, "\n") {
      var k :| OccursAt(s, "\n", k);
      NewlineAt(s, k);
    }
  }

  /** A line without newline, then a newline: the first newline-split piece is that line. */
  lemma FirstLine(line: string, more: string)
    requires '\n' !in line
    ensures Split(line + "\n" + more, "\n")[0] == line
  {
    var s := line + "\n" + more;
    NewlineOccurs(s, |line|);
    ContainsIff(s, "\n");
    var i := IndexOf(s, "\n").value;
    forall k | 0 <= k < |line| ensures !OccursAt(s, "\n", k) {
      if OccursAt(s, "\n", k) {
        NewlineAt(s, k);
      }
    }
    SplitAt(s, "\n", i);
    assert s[..|line|] == line;
  }

  /** A marker starting inside a line would have to lie within the line, or cover its newline. */
  lemma NoMarkerAt(value: string, more: string, k: nat)
    requires k <= |value| && !OccursAt(value, KeyMarker, k)
    ensures !OccursAt(value + "\n" + more, KeyMarker, k)
  {
    var after := value + "\n" + more;
    if k + |KeyMarker| <= |value| {
      assert after[k..k + |KeyMarker|] == value[k..k + |KeyMarker|];
    } else if k + |KeyMarker| <= |after| {
      assert after[k..k + |KeyMarker|][|value| - k] == '\n';
    }
  }

  /** After the marker, no further marker starts inside a value free of it, nor at the newline that ends it. */
  lemma NoMarkerInLine(value: string, more: string)
    requires !Contains(value, KeyMarker)
    ensures forall k :: 0 <= k <= |value| ==> !OccursAt(value + "\n" + more, KeyMarker, k)
  {
    ContainsIff(value, KeyMarker);
    forall k | 0 <= k <= |value| ensures !OccursAt(value + "\n" + more, KeyMarker, k) {
      NoMarkerAt(value, more, k);
    }
  }

  /**
    The `.env` round trip: for a file holding `GOOGLE_API_KEY=` first right
    after `prefix`, then a value free of newlines and of the marker, then a
    newline, the key read back is the value, stripped.
   */
  lemma DotenvRoundTrip(prefix: string, value: string, rest: string)
    requires IndexOf(prefix + KeyMarker + value + "\n" + rest, KeyMarker) == Some(|prefix|)
    requires '\n' !in value && !Contains(value, KeyMarker)
    ensures KeyFromDotenv(prefix + KeyMarker + value + "\n" + rest) == Strip(value)
  {
    var s := prefix + KeyMarker + value + "\n" + rest;
    var front, after := prefix + KeyMarker, value + "\n" + rest;
    assert s == front + after;
    assert s[|front|..] == after;
    SplitAt(s, KeyMarker, |prefix|);
    LineAfterMarker(value, rest);
  }

  /** Past the marker, the first piece's first line is the value, when the value holds neither a newline nor the marker. */
  lemma LineAfterMarker(value: string, rest: string)
    requires '\n' !in value && !Contains(value, KeyMarker)
    ensures Split(Split(value + "\n" + rest, KeyMarker)[0], "\n")[0] == value
  {
    var after := value + "\n" + rest;
    NoMarkerInLine(value, rest);
    FirstPieceReaches(after, KeyMarker, |value| + 1);
    var piece := Split(after, KeyMarker)[0];
    assert piece[..|value| + 1] == value + "\n";
    assert piece == value + "\n" + piece[|value| + 1..];
    FirstLine(value, piece[|value| + 1..]);
  }


  /**
    A valid environment key wins; otherwise the `.env` line replaces it
    when the file holds the marker, and the environment's value stays when
    it does not.
   */
  lemma ResolveKeySpec(env: Option<string>, dotenv: Option<string>)
    ensures IsValidKey(env) ==> ResolveKey(env, dotenv) == env
    ensures !IsValidKey(env) && dotenv.Some? && Contains(dotenv.value, KeyMarker) ==>
      ResolveKey(env, dotenv) == Some(KeyFromDotenv(dotenv.value))
    ensures !IsValidKey(env) && !(dotenv.Some? && Contains(dotenv.value, KeyMarker)) ==> ResolveKey(env, dotenv) == env
    ensures ResolveKey(env, dotenv) != env ==>
      dotenv.Some? && Contains(dotenv.value, KeyMarker)
      && ResolveKey(env, dotenv).Some? && '\n' !in ResolveKey(env, dotenv).value && IsStripped(ResolveKey(env, dotenv).value)
  {
  }

  /**
    Without a valid environment key, a `.env` file holding
    `GOOGLE_API_KEY=value` on a line of its own makes the module's key
    that value, stripped.
   */
  lemma ResolveKeyFromDotenv(env: Option<string>, prefix: string, value: string, rest: string)
    requires !IsValidKey(env)
    requires IndexOf(prefix + KeyMarker + value + "\n" + rest, KeyMarker) == Some(|prefix|)
    requires '\n' !in value && !Contains(value, KeyMarker)
    ensures ResolveKey(env, Some(prefix + KeyMarker + value + "\n" + rest)) == Some(Strip(value))
  {
    var contents := prefix + KeyMarker + value + "\n" + rest;
    assert Contains(contents, KeyMarker);
    DotenvRoundTrip(prefix, value, rest);
  }

  // ---- splitting the model's text

  /**
    `generate_insights` on a reply: the stripped non-blank lines when the
    text has a newline, otherwise its first five stripped non-blank
    sentences.
   */
  function SplitInsightText(text: string): (r: seq<string>)
    ensures forall x :: x in r ==> x != "" && IsStripped(x)
  {
    if '\n' in text then StrippedNonEmpty(Split(text, "\n"))
    else
      var all := StrippedNonEmpty(SplitSentences(text));
      assert forall i :: 0 <= i < |Take(all, 5)| ==> Take(all, 5)[i] in all;
      Take(all, 5)
  }

  /** `get_suggested_questions` on a reply: the first five stripped non-blank lines. */
  function SplitQuestionText(text: string): (r: seq<string>)
    ensures |r| <= 5
    ensures forall x :: x in r ==> x != "" && IsStripped(x)
  {
    var all := StrippedNonEmpty(Split(text, "\n"));
    assert forall i :: 0 <= i < |Take(all, 5)| ==> Take(all, 5)[i] in all;
    Take(all, 5)
  }

  /** No piece of a newline split holds a newline. */
  lemma LinesHaveNoNewline(text: string)
    ensures forall p :: p in Split(text, "\n") ==> '\n' !in p
  {
    SplitPiecesAreFree(text, "\n");
    forall p | p in Split(text, "\n") ensures '\n' !in p {
      NewlineIff(p);
    }
  }

  /**
    Every insight taken from a reply is non-empty, stripped and on one
    line. A reply with newlines gives every non-blank line, stripped, in
    order, and nothing else, so the lines joined back give the reply; a
    reply without newlines gives its first five non-blank sentences,
    stripped, in order.
   */
  lemma SplitInsightTextSpec(text: string)
    ensures forall x :: x in SplitInsightText(text) ==> x != "" && IsStripped(x) && '\n' !in x
    ensures '\n' in text ==> var lines := Split(text, "\n");
      KeptAt(SplitInsightText(text), lines, KeptPositions(lines, Strip), Strip) && Join(lines, "\n") == text
    ensures '\n' !in text ==> var ss := SplitSentences(text); var all := StrippedNonEmpty(ss);
      && KeptAt(all, ss, KeptPositions(ss, Strip), Strip)
      && |SplitInsightText(text)| == (if |all| < 5 then |all| else 5)
      && SplitInsightText(text) == all[..|SplitInsightText(text)|]
  {
    if '\n' in text {
      var lines := Split(text, "\n");
      LinesHaveNoNewline(text);
      StrippedAvoidsChar(lines, '\n');
      JoinSplit(text, "\n");
      NonEmptyImagesSpec(lines, Strip);
    } else {
      var ss := SplitSentences(text);
      SentencesKeepChar(text, '\n');
      StrippedAvoidsChar(ss, '\n');
      TakeKeepsMembers(StrippedNonEmpty(ss), 5);
      NonEmptyImagesSpec(ss, Strip);
    }
  }

  /**
    At most five questions, each non-empty, stripped and on one line: the
    first five non-blank lines of the reply, stripped, in order.
   */
  lemma SplitQuestionTextSpec(text: string)
    ensures var qs, lines := SplitQuestionText(text), Split(text, "\n");
      var all := StrippedNonEmpty(lines);
      && |qs| == (if |all| < 5 then |all| else 5)
      && (forall x :: x in qs ==> x != "" && IsStripped(x) && '\n' !in x)
      && KeptAt(all, lines, KeptPositions(lines, Strip), Strip)
      && qs == all[..|qs|]
  {
    var lines := Split(text, "\n");
    LinesHaveNoNewline(text);
    StrippedAvoidsChar(lines, '\n');
    TakeKeepsMembers(StrippedNonEmpty(lines), 5);
    NonEmptyImagesSpec(lines, Strip);
  }

  lemma TakeKeepsMembers<T>(xs: seq<T>, n: nat)
    ensures forall x :: x in Take(xs, n) ==> x in xs
  {
    forall x | x in Take(xs, n) ensures x in xs {
      var i :| 0 <= i < |Take(xs, n)| && Take(xs, n)[i] == x;
      assert xs[i] == x;
    }
  }

  // ---- fallback questions

  const FirstQuestion: string := "What insights can you find in this data?"
  const PatternsQuestion: string := "What are the key patterns in this dataset?"
  const RelationshipOpening: string := "Is there a relationship between "

  function AverageQuestion(col: string): string {
    "What is the average " + col + "?"
  }

  function RelationshipQuestion(a: string, b: string): string {
    RelationshipOpening + a + " and " + b + "?"
  }

  function CommonQuestion(col: string): string {
    "What are the most common " + col + " values?"
  }

  function AverageQuestions(nums: seq<string>): (r: seq<string>)
    ensures |r| == |nums| && forall i :: 0 <= i < |nums| ==> r[i] == AverageQuestion(nums[i])
  {
    seq(|nums|, i requires 0 <= i < |nums| => AverageQuestion(nums[i]))
  }

  /** The list the fallback branch builds before it keeps the first five. */
  function BuiltQuestions(numerical: seq<string>, categorical: seq<string>): seq<string> {
    var nums := Take(numerical, 2);
    [FirstQuestion]
    + AverageQuestions(nums)
    + (if |nums| >= 2 then [RelationshipQuestion(nums[0], nums[1])] else [])
    + (if categorical != [] then [CommonQuestion(categorical[0])] else [])
    + [PatternsQuestion]
  }

  /** The first five of the built list: never fewer than two questions, the general one first. */
  function FallbackQuestionList(numerical: seq<string>, categorical: seq<string>): (r: seq<string>)
    ensures 2 <= |r| <= 5 && r[0] == FirstQuestion
  {
    Take(BuiltQuestions(numerical, categorical), 5)
  }

  /** The fallback branch of `get_suggested_questions`, appending question by question. */
  method FallbackQuestions(numerical: seq<string>, categorical: seq<string>) returns (qs: seq<string>)
    ensures qs == FallbackQuestionList(numerical, categorical)
  {
    var built := [FirstQuestion];
    var nums := Take(numerical, 2);
    var k := 0;
    while k < |nums|
      invariant 0 <= k <= |nums|
      invariant built == [FirstQuestion] + AverageQuestions(nums[..k])
    {
      assert nums[..k + 1] == nums[..k] + [nums[k]];
      built := built + [AverageQuestion(nums[k])];
      k := k + 1;
    }
    assert nums[..k] == nums;
    if |nums| >= 2 {
      built := built + [RelationshipQuestion(nums[0], nums[1])];
    }
    var cats := Take(categorical, 1);
    ghost var before := built;
    k := 0;
    while k < |cats|
      invariant 0 <= k <= |cats|
      invariant built == before + seq(k, i requires 0 <= i < k => CommonQuestion(cats[i]))
    {
      built := built + [CommonQuestion(cats[k])];
      k := k + 1;
    }
    assert seq(k, i requires 0 <= i < k => CommonQuestion(cats[i])) == if categorical != [] then [CommonQuestion(categorical[0])] else [];
    built := built + [PatternsQuestion];
    qs := Take(built, 5);
  }

  predicate IsRelationshipQuestion(q: string) {
    IsPrefix(RelationshipOpening, q)
  }

  lemma NotRelationship(q: string)
    requires |q| > 0 && q[0] != 'I'
    ensures !IsRelationshipQuestion(q)
  {
    if |RelationshipOpening| <= |q| {
      assert q[..|RelationshipOpening|][0] == q[0];
    }
  }

  /** Only the relationship questions open with "Is there a relationship"; the patterns question is none of the others. */
  lemma QuestionsDiffer()
    ensures !IsRelationshipQuestion(FirstQuestion) && !IsRelationshipQuestion(PatternsQuestion)
    ensures forall c :: !IsRelationshipQuestion(AverageQuestion(c)) && AverageQuestion(c) != PatternsQuestion
    ensures forall c :: !IsRelationshipQuestion(CommonQuestion(c)) && CommonQuestion(c) != PatternsQuestion
    ensures forall a, b :: IsRelationshipQuestion(RelationshipQuestion(a, b)) && RelationshipQuestion(a, b) != PatternsQuestion
    ensures FirstQuestion != PatternsQuestion
  {
    assert FirstQuestion[0] == 'W' && FirstQuestion[5] == 'i';
    assert PatternsQuestion[0] == 'W';
    assert PatternsQuestion[5] == 'a';
    assert PatternsQuestion[13] == 'k';
    NotRelationship(FirstQuestion);
    NotRelationship(PatternsQuestion);
    forall c ensures !IsRelationshipQuestion(AverageQuestion(c)) && AverageQuestion(c) != PatternsQuestion {
      assert AverageQuestion(c)[0] == 'W' && AverageQuestion(c)[5] == 'i';
      NotRelationship(AverageQuestion(c));
    }
    forall c ensures !IsRelationshipQuestion(CommonQuestion(c)) && CommonQuestion(c) != PatternsQuestion {
      assert CommonQuestion(c)[0] == 'W' && CommonQuestion(c)[13] == 'm';
      NotRelationship(CommonQuestion(c));
    }
    forall a, b ensures IsRelationshipQuestion(RelationshipQuestion(a, b)) && RelationshipQuestion(a, b) != PatternsQuestion {
      assert RelationshipQuestion(a, b)[..|RelationshipOpening|] == RelationshipOpening;
      assert RelationshipQuestion(a, b)[0] == 'I';
    }
  }

  /**
    The fallback questions: the general question first, then an average
    question for each of the first two numeric columns, a relationship
    question exactly when there are two numeric columns, the common-values
    question of the first categorical column when there is one, and the patterns
    question, which the cut to five drops exactly when there are two
    numeric columns and a categorical one.
   */
  lemma FallbackQuestionsSpec(numerical: seq<string>, categorical: seq<string>)
    ensures var qs := FallbackQuestionList(numerical, categorical);
      && 2 <= |qs| <= 5
      && qs[0] == FirstQuestion
      && (forall i :: 0 <= i < |numerical| && i < 2 ==> qs[1 + i] == AverageQuestion(numerical[i]))
      && ((exists i :: 0 <= i < |qs| && IsRelationshipQuestion(qs[i])) <==> |numerical| >= 2)
      && (|numerical| >= 2 ==> qs[3] == RelationshipQuestion(numerical[0], numerical[1]))
      && (categorical != [] ==> qs[|Take(numerical, 2)| + (if |numerical| >= 2 then 2 else 1)] == CommonQuestion(categorical[0]))
      && (PatternsQuestion in qs <==> !(|numerical| >= 2 && categorical != []))
  {
    var built := BuiltQuestions(numerical, categorical);
    var qs := FallbackQuestionList(numerical, categorical);
    BuiltQuestionsLayout(numerical, categorical);
    assert |qs| == if |built| < 5 then |built| else 5;
    assert forall i :: 0 <= i < |qs| ==> qs[i] == built[i];
    if |numerical| >= 2 {
      assert IsRelationshipQuestion(qs[3]);
    }
    if !(|numerical| >= 2 && categorical != []) {
      assert qs[|qs| - 1] == PatternsQuestion;
    } else {
      assert |built| == 6 && |qs| == 5;
      forall i | 0 <= i < |qs| ensures qs[i] != PatternsQuestion {
        assert qs[i] == built[i];
      }
    }
  }

  /**
    Where each question sits in the list before the cut: the general one
    first, the averages next, then the relationship question if any, the
    common-values question if any, and the patterns question last; only
    the relationship question opens with "Is there a relationship".
   */
  lemma BuiltQuestionsLayout(numerical: seq<string>, categorical: seq<string>)
    ensures var b, n := BuiltQuestions(numerical, categorical), |Take(numerical, 2)|;
      && |b| == 2 + n + (if n >= 2 then 1 else 0) + (if categorical != [] then 1 else 0)
      && b[0] == FirstQuestion
      && (forall i :: 0 <= i < n ==> b[1 + i] == AverageQuestion(numerical[i]))
      && (n >= 2 ==> b[3] == RelationshipQuestion(numerical[0], numerical[1]))
      && (categorical != [] ==> b[|b| - 2] == CommonQuestion(categorical[0]))
      && (forall i :: 0 <= i < |b| ==> (IsRelationshipQuestion(b[i]) <==> n >= 2 && i == 3))
      && (forall i :: 0 <= i < |b| ==> (b[i] == PatternsQuestion <==> i == |b| - 1))
  {
    var nums := Take(numerical, 2);
    var avg := AverageQuestions(nums);
    var rel: seq<string> := if |nums| >= 2 then [RelationshipQuestion(nums[0], nums[1])] else [];
    var com: seq<string> := if categorical != [] then [CommonQuestion(categorical[0])] else [];
    var b := [FirstQuestion] + avg + rel + com + [PatternsQuestion];
    assert BuiltQuestions(numerical, categorical) == b;
    PartsLayout(FirstQuestion, avg, rel, com, PatternsQuestion);
    QuestionsDiffer();
    PartsKinds(FirstQuestion, avg, rel, com, PatternsQuestion, IsRelationshipQuestion);
  }

  /** Where each piece of a list built from a head, three runs and a last element lands. */
  lemma PartsLayout<T>(head: T, xs: seq<T>, ys: seq<T>, zs: seq<T>, last: T)
    ensures var b := [head] + xs + ys + zs + [last];
      && |b| == 2 + |xs| + |ys| + |zs|
      && b[0] == head && b[|b| - 1] == last
      && (forall i :: 0 <= i < |xs| ==> b[1 + i] == xs[i])
      && (forall i :: 0 <= i < |ys| ==> b[1 + |xs| + i] == ys[i])
      && (forall i :: 0 <= i < |zs| ==> b[1 + |xs| + |ys| + i] == zs[i])
  {
  }

  /** In such a list, only the middle run is marked by `kind`, and only the last element equals it. */
  lemma PartsKinds<T>(head: T, xs: seq<T>, ys: seq<T>, zs: seq<T>, last: T, kind: T -> bool)
    requires !kind(head) && !kind(last) && head != last
    requires forall i :: 0 <= i < |xs| ==> !kind(xs[i]) && xs[i] != last
    requires forall i :: 0 <= i < |ys| ==> kind(ys[i]) && ys[i] != last
    requires forall i :: 0 <= i < |zs| ==> !kind(zs[i]) && zs[i] != last
    ensures var b := [head] + xs + ys + zs + [last];
      forall i :: 0 <= i < |b| ==> (kind(b[i]) <==> 1 + |xs| <= i < 1 + |xs| + |ys|) && (b[i] == last <==> i == |b| - 1)
  {
    var b := [head] + xs + ys + zs + [last];
    forall i | 0 <= i < |b|
      ensures kind(b[i]) <==> 1 + |xs| <= i < 1 + |xs| + |ys|
      ensures b[i] == last <==> i == |b| - 1
    {
      if i == 0 {
      } else if i < 1 + |xs| {
        assert b[i] == xs[i - 1];
      } else if i < 1 + |xs| + |ys| {
        assert b[i] == ys[i - 1 - |xs|];
      } else if i < |b| - 1 {
        assert b[i] == zs[i - 1 - |xs| - |ys|];
      }
    }
  }

  // ---- fallback insights

  /** What the fallback insights say, their wording and number formatting aside. */
  datatype Fallback =
    | Shape(rows: nat, columns: nat)
    | MissingPercent(percent: real)
    | NoMissing
    | Range(column: string, min: Option<real>, max: Option<real>, mean: Option<real>)
    | TopCategory(column: string, value: Value, percent: real)
    | Generated(text: string)

  function Stage(f: Fallback): nat {
    match f
    case Shape(_, _) => 0
    case MissingPercent(_) => 1
    case NoMissing => 1
    case Range(_, _, _, _) => 2
    case TopCategory(_, _, _) => 3
    case Generated(_) => 4
  }

  /** `missing_values_pct > 0`; a NaN share compares false. */
  function MissingFallback(profile: Profile): Fallback {
    if profile.missingPct.Some? && profile.missingPct.value > 0.0 then MissingPercent(profile.missingPct.value) else NoMissing
  }

  /**
    One numeric column: its range and mean. The lookup of a column the
    table lacks raises KeyError, and the statistics of a non-numeric one
    are taken to raise; both are swallowed.
   */
  function RangeFact(t: Table, name: string, stats: Numerics): seq<Fallback> {
    match FindColumn(t.cols, name)
    case None => []
    case Some(i) =>
      var c := t.cols[i];
      if c.kind == Numeric then [Range(name, stats.min(c.cells), stats.max(c.cells), stats.mean(c.cells))] else []
  }

  /**
    The most frequent value of a column and its share of the present cells,
    in percent; None when the column holds no value, where indexing the
    empty `value_counts()` raises IndexError.
   */
  function TopValue(cells: Cells): (r: Option<(Value, real)>)
    ensures r.None? <==> !HoldsValue(cells)
    ensures r.Some? ==> r.value.0 == ValueCounts(cells)[0].0
    ensures r.Some? ==> Present(cells) > 0 && r.value.1 == Count(cells, r.value.0) as real / Present(cells) as real * 100.0
  {
    var vc := ValueCounts(cells);
    ValueCountsSpec(cells);
    if vc == [] then
      assert !HoldsValue(cells) by {
        forall k | 0 <= k < |cells| ensures cells[k].None? {
          assert cells[k] in cells;
        }
      }
      None
    else
      assert vc[0] in vc;
      assert Some(vc[0].0) in cells;
      CountsWithinLength(cells, vc[0].0);
      Some((vc[0].0, vc[0].1 as real / Present(cells) as real * 100.0))
  }

  /** Some cell of the column holds a value. */
  predicate HoldsValue(cells: Cells) {
    exists k :: 0 <= k < |cells| && cells[k].Some?
  }

  /** One categorical column: its most frequent value and that value's share; a missing column or one with no value raises, swallowed. */
  function TopFact(t: Table, name: string): seq<Fallback> {
    match FindColumn(t.cols, name)
    case None => []
    case Some(i) =>
      match TopValue(t.cols[i].cells)
      case None => []
      case Some(top) => [TopCategory(name, top.0, top.1)]
  }

  /** What `fact` says of each name in turn, one after the other: the shape of both fallback loops. */
  function Gathered(names: seq<string>, fact: string -> seq<Fallback>): seq<Fallback> {
    if names == [] then [] else fact(names[0]) + Gathered(names[1..], fact)
  }

  function RangeFactOf(t: Table, stats: Numerics): string -> seq<Fallback> {
    name => RangeFact(t, name, stats)
  }

  function TopFactOf(t: Table): string -> seq<Fallback> {
    name => TopFact(t, name)
  }

  function RangeFacts(t: Table, names: seq<string>, stats: Numerics): seq<Fallback> {
    Gathered(names, RangeFactOf(t, stats))
  }

  function TopFacts(t: Table, names: seq<string>): seq<Fallback> {
    Gathered(names, TopFactOf(t))
  }

  /** `get_fallback_insights(df, data_profile)`. */
  function FallbackInsightList(t: Table, profile: Profile, stats: Numerics): (r: seq<Fallback>)
    ensures |r| >= 2 && r[0] == Shape(profile.rows, profile.columns)
    ensures r[1].MissingPercent? <==> profile.missingPct.Some? && profile.missingPct.value > 0.0
  {
    [Shape(profile.rows, profile.columns), MissingFallback(profile)]
    + RangeFacts(t, Take(profile.numerical, 3), stats)
    + TopFacts(t, Take(profile.categorical, 3))
  }

  /** The fallback insights, appended column by column. */
  method FallbackInsights(t: Table, profile: Profile, stats: Numerics) returns (r: seq<Fallback>)
    ensures r == FallbackInsightList(t, profile, stats)
  {
    r := [Shape(profile.rows, profile.columns), MissingFallback(profile)];
    var ranges := CollectFacts(Take(profile.numerical, 3), RangeFactOf(t, stats));
    var tops := CollectFacts(Take(profile.categorical, 3), TopFactOf(t));
    r := r + ranges + tops;
  }

  /**
    The loop over the first numeric, or the first categorical, columns:
    each column's fact appended in turn, a column whose lookup raises
    contributing none.
   */
  method CollectFacts(names: seq<string>, fact: string -> seq<Fallback>) returns (facts: seq<Fallback>)
    ensures facts == Gathered(names, fact)
  {
    facts := [];
    var k := 0;
    while k < |names|
      invariant 0 <= k <= |names|
      invariant facts + Gathered(names[k..], fact) == Gathered(names, fact)
    {
      assert names[k..][0] == names[k] && names[k..][1..] == names[k + 1..];
      var head, rest := fact(names[k]), Gathered(names[k + 1..], fact);
      assert (facts + head) + rest == facts + (head + rest);
      facts := facts + head;
      k := k + 1;
    }
    assert names[k..] == [];
  }

  /** The fact is about the named column. */
  predicate About(f: Fallback, name: string) {
    (f.Range? || f.TopCategory?) && f.column == name
  }

  /**
    When each name yields at most one fact, about that name and meeting
    `ok`, the run over all the names yields at most one fact per name, each
    about one of them and meeting `ok`.
   */
  lemma {:induction false} GatheredFacts(names: seq<string>, fact: string -> seq<Fallback>, ok: Fallback -> bool)
    requires forall i :: 0 <= i < |names| ==> |fact(names[i])| <= 1
    requires forall i :: 0 <= i < |names| ==> forall f :: f in fact(names[i]) ==> ok(f) && About(f, names[i])
    ensures |Gathered(names, fact)| <= |names|
    ensures forall f :: f in Gathered(names, fact) ==> ok(f) && exists i :: 0 <= i < |names| && About(f, names[i])
  {
    if names != [] {
      var rest := names[1..];
      assert forall i :: 0 <= i < |rest| ==> rest[i] == names[i + 1];
      GatheredFacts(rest, fact, ok);
      var head, tail := fact(names[0]), Gathered(rest, fact);
      assert Gathered(names, fact) == head + tail;
      forall f | f in head + tail ensures ok(f) && exists i :: 0 <= i < |names| && About(f, names[i]) {
        if f in head {
          assert f in fact(names[0]);
        } else {
          var i :| 0 <= i < |rest| && About(f, rest[i]);
          assert About(f, names[i + 1]);
        }
      }
    }
  }

  /** Every fact a name yields lands in the run over all the names. */
  lemma {:induction false} GatheredHas(names: seq<string>, fact: string -> seq<Fallback>)
    ensures forall i, f :: 0 <= i < |names| && f in fact(names[i]) ==> f in Gathered(names, fact)
  {
    if names != [] {
      GatheredHas(names[1..], fact);
      forall i, f | 0 <= i < |names| && f in fact(names[i]) ensures f in Gathered(names, fact) {
        if i > 0 {
          assert names[1..][i - 1] == names[i];
        }
      }
    }
  }

  /** The numeric column of `t` labelled `name`, when there is one. */
  predicate IsNumericColumn(t: Table, name: string) {
    FindColumn(t.cols, name).Some? && t.cols[FindColumn(t.cols, name).value].kind == Numeric
  }

  /** `f` is the range sentence of its column: that column's min, max and mean. */
  predicate RangeOf(t: Table, stats: Numerics, f: Fallback) {
    && f.Range? && IsNumericColumn(t, f.column)
    && var cells := t.cols[FindColumn(t.cols, f.column).value].cells;
      f == Range(f.column, stats.min(cells), stats.max(cells), stats.mean(cells))
  }

  /**
    The ranges: at most one per name, each the range of a listed numeric
    column, and every listed numeric column gets its range.
   */
  lemma RangeFactsSpec(t: Table, names: seq<string>, stats: Numerics)
    ensures |RangeFacts(t, names, stats)| <= |names|
    ensures forall f :: f in RangeFacts(t, names, stats) ==> RangeOf(t, stats, f) && f.column in names
    ensures forall i :: 0 <= i < |names| && IsNumericColumn(t, names[i]) ==>
      exists f :: f in RangeFacts(t, names, stats) && About(f, names[i]) && RangeOf(t, stats, f)
  {
    GatheredFacts(names, RangeFactOf(t, stats), (f: Fallback) => RangeOf(t, stats, f));
    GatheredHas(names, RangeFactOf(t, stats));
    forall i | 0 <= i < |names| && IsNumericColumn(t, names[i])
      ensures exists f :: f in RangeFacts(t, names, stats) && About(f, names[i]) && RangeOf(t, stats, f)
    {
      var f := RangeFact(t, names[i], stats)[0];
      assert f in RangeFactOf(t, stats)(names[i]);
    }
  }

  /**
    `f` is the top-value sentence of its column: a value of that column
    that no other value outnumbers, with its share of the present cells in
    percent.
   */
  ghost predicate TopOf(t: Table, f: Fallback) {
    && f.TopCategory? && FindColumn(t.cols, f.column).Some?
    && var cells := t.cols[FindColumn(t.cols, f.column).value].cells;
      && Some(f.value) in cells
      && (forall v :: Count(cells, v) <= Count(cells, f.value))
      && Present(cells) > 0
      && f.percent == Count(cells, f.value) as real / Present(cells) as real * 100.0
  }

  /** A column of `t` labelled `name` that holds some value. */
  predicate HasValues(t: Table, name: string) {
    FindColumn(t.cols, name).Some? && HoldsValue(t.cols[FindColumn(t.cols, name).value].cells)
  }

  /** One categorical column yields its top value exactly when it holds a value, and nothing else. */
  lemma TopFactSpec(t: Table, name: string)
    ensures |TopFact(t, name)| <= 1
    ensures TopFact(t, name) != [] <==> HasValues(t, name)
    ensures forall f :: f in TopFact(t, name) ==> About(f, name) && TopOf(t, f)
  {
    match FindColumn(t.cols, name) {
      case None =>
      case Some(i) =>
        var cells := t.cols[i].cells;
        if ValueCounts(cells) != [] {
          var top := ValueCounts(cells)[0].0;
          ValueCountsSpec(cells);
          assert ValueCounts(cells)[0] in ValueCounts(cells);
          forall v ensures Count(cells, v) <= Count(cells, top) {
            TopCountIsMaximal(cells, v);
          }
          assert TopFact(t, name)[0].value == top;
        }
    }
  }

  /**
    The top values: at most one per name, each the top value of a listed
    column, and every listed column that holds a value gets one.
   */
  lemma TopFactsSpec(t: Table, names: seq<string>)
    ensures |TopFacts(t, names)| <= |names|
    ensures forall f :: f in TopFacts(t, names) ==> TopOf(t, f) && f.column in names
    ensures forall i :: 0 <= i < |names| && HasValues(t, names[i]) ==>
      exists f :: f in TopFacts(t, names) && About(f, names[i]) && TopOf(t, f)
  {
    forall i | 0 <= i < |names| ensures |TopFact(t, names[i])| <= 1 && forall f :: f in TopFact(t, names[i]) ==> About(f, names[i]) && TopOf(t, f) {
      TopFactSpec(t, names[i]);
    }
    GatheredFacts(names, TopFactOf(t), (f: Fallback) => TopOf(t, f));
    GatheredHas(names, TopFactOf(t));
    forall i | 0 <= i < |names| && HasValues(t, names[i])
      ensures exists f :: f in TopFacts(t, names) && About(f, names[i]) && TopOf(t, f)
    {
      TopFactSpec(t, names[i]);
      var f := TopFact(t, names[i])[0];
      assert f in TopFactOf(t)(names[i]);
    }
  }

  /**
    The fallback insights: the shape sentence, then the missing-values
    sentence (a share exactly when it is positive), then the ranges of at
    most the first three numeric columns, then the top values of at most
    the first three categorical columns; two to eight in all.
   */
  lemma FallbackInsightsSpec(t: Table, profile: Profile, stats: Numerics)
    ensures var r := FallbackInsightList(t, profile, stats);
      && 2 <= |r| <= 8
      && r[0] == Shape(profile.rows, profile.columns)
      && (r[1].MissingPercent? <==> profile.missingPct.Some? && profile.missingPct.value > 0.0)
      && (r[1].NoMissing? <==> !r[1].MissingPercent?)
      && (forall i, j :: 0 <= i < j < |r| ==> Stage(r[i]) <= Stage(r[j]))
      && (forall i :: 0 <= i < |r| && r[i].Range? ==> r[i].column in Take(profile.numerical, 3))
      && (forall i :: 0 <= i < |r| && r[i].TopCategory? ==> r[i].column in Take(profile.categorical, 3))
  {
    var nums, cats := Take(profile.numerical, 3), Take(profile.categorical, 3);
    RangeFactsSpec(t, nums, stats);
    TopFactsSpec(t, cats);
    var b := RangeFacts(t, nums, stats);
    var c := TopFacts(t, cats);
    assert FallbackInsightList(t, profile, stats) == [Shape(profile.rows, profile.columns), MissingFallback(profile)] + b + c;
    FallbackPartsInOrder(Shape(profile.rows, profile.columns), MissingFallback(profile), b, c, nums, cats);
  }

  /**
    What the fallback insights say about columns: each range is the min,
    max and mean of its column and each top value a most frequent value of
    its column with its share; each of the first three numerical columns
    that the table holds as numbers gets its range, and each of the first
    three categorical columns that holds a value gets its top value.
   */
  lemma FallbackFactsSpec(t: Table, profile: Profile, stats: Numerics)
    ensures var r := FallbackInsightList(t, profile, stats);
      && (forall f :: f in r && f.Range? ==> RangeOf(t, stats, f))
      && (forall f :: f in r && f.TopCategory? ==> TopOf(t, f))
      && (forall i :: 0 <= i < |profile.numerical| && i < 3 && IsNumericColumn(t, profile.numerical[i]) ==>
            exists f :: f in r && About(f, profile.numerical[i]) && RangeOf(t, stats, f))
      && (forall i :: 0 <= i < |profile.categorical| && i < 3 && HasValues(t, profile.categorical[i]) ==>
            exists f :: f in r && About(f, profile.categorical[i]) && TopOf(t, f))
  {
    var nums, cats := Take(profile.numerical, 3), Take(profile.categorical, 3);
    RangeFactsSpec(t, nums, stats);
    TopFactsSpec(t, cats);
    var b := RangeFacts(t, nums, stats);
    var c := TopFacts(t, cats);
    var shape, missing := Shape(profile.rows, profile.columns), MissingFallback(profile);
    assert FallbackInsightList(t, profile, stats) == [shape, missing] + b + c;
    FactsOfParts(shape, missing, b, c, (f: Fallback) => RangeOf(t, stats, f), (f: Fallback) => TopOf(t, f),
      profile.numerical, profile.categorical, nums, cats, (name: string) => IsNumericColumn(t, name), (name: string) => HasValues(t, name));
  }

  /**
    The list made of the shape, the missing-values sentence, the ranges and
    the top values: its ranges meet `okB`, its top values `okC`, and a run's
    promise for each of the first three names carries over to the list.
   */
  lemma FactsOfParts(shape: Fallback, missing: Fallback, b: seq<Fallback>, c: seq<Fallback>,
                     okB: Fallback -> bool, okC: Fallback -> bool,
                     numerical: seq<string>, categorical: seq<string>, nums: seq<string>, cats: seq<string>,
                     wantB: string -> bool, wantC: string -> bool)
    requires !shape.Range? && !shape.TopCategory? && !missing.Range? && !missing.TopCategory?
    requires forall f :: f in b ==> okB(f) && f.Range?
    requires forall f :: f in c ==> okC(f) && f.TopCategory?
    requires nums == Take(numerical, 3) && cats == Take(categorical, 3)
    requires forall i :: 0 <= i < |nums| && wantB(nums[i]) ==> exists f :: f in b && About(f, nums[i]) && okB(f)
    requires forall i :: 0 <= i < |cats| && wantC(cats[i]) ==> exists f :: f in c && About(f, cats[i]) && okC(f)
    ensures var r := [shape, missing] + b + c;
      && (forall f :: f in r && f.Range? ==> okB(f))
      && (forall f :: f in r && f.TopCategory? ==> okC(f))
      && (forall i :: 0 <= i < |numerical| && i < 3 && wantB(numerical[i]) ==> exists f :: f in r && About(f, numerical[i]) && okB(f))
      && (forall i :: 0 <= i < |categorical| && i < 3 && wantC(categorical[i]) ==> exists f :: f in r && About(f, categorical[i]) && okC(f))
  {
    var r := [shape, missing] + b + c;
    forall i | 0 <= i < |numerical| && i < 3 && wantB(numerical[i])
      ensures exists f :: f in r && About(f, numerical[i]) && okB(f)
    {
      assert nums[i] == numerical[i];
      var f :| f in b && About(f, nums[i]) && okB(f);
      assert f in r;
    }
    forall i | 0 <= i < |categorical| && i < 3 && wantC(categorical[i])
      ensures exists f :: f in r && About(f, categorical[i]) && okC(f)
    {
      assert cats[i] == categorical[i];
      var f :| f in c && About(f, cats[i]) && okC(f);
      assert f in r;
    }
  }

  /** The stage order and the column membership of a list made of its four parts. */
  lemma FallbackPartsInOrder(shape: Fallback, missing: Fallback, b: seq<Fallback>, c: seq<Fallback>, nums: seq<string>, cats: seq<string>)
    requires Stage(shape) == 0 && Stage(missing) == 1 && !missing.Range? && !missing.TopCategory? && !shape.Range? && !shape.TopCategory?
    requires forall f :: f in b ==> f.Range? && f.column in nums
    requires forall f :: f in c ==> f.TopCategory? && f.column in cats
    ensures var r := [shape, missing] + b + c;
      && (forall i, j :: 0 <= i < j < |r| ==> Stage(r[i]) <= Stage(r[j]))
      && (forall i :: 0 <= i < |r| && r[i].Range? ==> r[i].column in nums)
      && (forall i :: 0 <= i < |r| && r[i].TopCategory? ==> r[i].column in cats)
  {
    var r := [shape, missing] + b + c;
    assert forall i :: 2 <= i < 2 + |b| ==> r[i] == b[i - 2] && b[i - 2] in b;
    assert forall i :: 2 + |b| <= i < |r| ==> r[i] == c[i - 2 - |b|] && c[i - 2 - |b|] in c;
    assert forall i :: 0 <= i < |r| ==> Stage(r[i]) == if i == 0 then 0 else if i == 1 then 1 else if i < 2 + |b| then 2 else 3;
  }

  // ---- the agent object

  /** The agent: whether it holds a usable model, and whether its start-up finished. */
  class GeminiAgent {
    var hasModel: bool
    var initialized: bool

    /**
      `GeminiAgent(model_name)`: with no valid key there is no model; with
      one, the model is kept only when `connects`, which stands for
      configuring the client, creating the model and its test reply all
      succeeding.
     */
    constructor(key: Option<string>, connects: bool)
      ensures hasModel == (IsValidKey(key) && connects)
      ensures initialized == hasModel
    {
      initialized := false;
      if !IsValidKey(key) {
        hasModel := false;
      } else if connects {
        hasModel := true;
        initialized := true;
      } else {
        hasModel := false;
      }
    }

    /** `generate_data_summary`: the fixed message without a model, else the reply or the failure message. */
    method GenerateDataSummary(reply: Option<string>) returns (s: string)
      ensures !hasModel ==> s == NotInitialized
      ensures hasModel ==> s == if reply.Some? then reply.value else SummaryFailed
    {
      if !hasModel {
        return NotInitialized;
      }
      s := if reply.Some? then reply.value else SummaryFailed;
    }

    /** `generate_insights`: the fallback insights without a model or when the call fails, else the split reply. */
    method GenerateInsights(t: Table, profile: Profile, stats: Numerics, reply: Option<string>) returns (r: seq<Fallback>)
      ensures !hasModel || reply.None? ==> r == FallbackInsightList(t, profile, stats)
      ensures hasModel && reply.Some? ==>
        |r| == |SplitInsightText(reply.value)| && forall i :: 0 <= i < |r| ==> r[i] == Generated(SplitInsightText(reply.value)[i])
    {
      if !hasModel || reply.None? {
        r := FallbackInsights(t, profile, stats);
        return;
      }
      var lines := SplitInsightText(reply.value);
      r := seq(|lines|, i requires 0 <= i < |lines| => Generated(lines[i]));
    }

    /** `get_suggested_questions`: one general question without a model, the fallback list when the call fails, else the split reply. */
    method SuggestedQuestions(profile: Profile, reply: Option<string>) returns (qs: seq<string>)
      ensures !hasModel ==> qs == [FirstQuestion]
      ensures hasModel && reply.None? ==> qs == FallbackQuestionList(profile.numerical, profile.categorical)
      ensures hasModel && reply.Some? ==> qs == SplitQuestionText(reply.value)
    {
      if !hasModel {
        return [FirstQuestion];
      }
      if reply.None? {
        qs := FallbackQuestions(profile.numerical, profile.categorical);
      } else {
        qs := SplitQuestionText(reply.value);
      }
    }
  }
}
