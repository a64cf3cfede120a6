/** The accepted answers of a learning item and the judgement of a typed answer against them. */
module AnswerJudging {
  import opened Basics
  import opened Whitespace
  import opened AnswerText

  datatype Kind = Word | Phrase

  datatype Item = Item(
    kind: Kind, prompt: string, answer: string, cloze: Option<string>, clozeAnswer: Option<string>, acceptedAnswers: seq<string>)

  datatype Reason = AcceptedExact | AcceptedNormalized | RejectedNoAnswer | RejectedNoMatch

  datatype Judgement = Judgement(correct: bool, reason: Reason, matchedAnswer: string)

  // ---------- the expected answer ----------

  function IndexOf(s: string, c: char): (k: nat)
    ensures k <= |s| && (k < |s| ==> s[k] == c) && c !in s[..k]
  {
    if s == "" || s[0] == c then 0 else 1 + IndexOf(s[1..], c)
  }

  function LastIndexOf(s: string, c: char): (k: int)
    ensures -1 <= k < |s| && (k >= 0 ==> s[k] == c) && c !in s[k + 1..]
  {
    if s == "" then -1 else if s[|s| - 1] == c then |s| - 1 else LastIndexOf(s[..|s| - 1], c)
  }

  predicate EndsWith(s: string, suffix: string) { |suffix| <= |s| && s[|s| - |suffix|..] == suffix }

  function InferClozeAnswer(prompt: string, cloze: string): string {
    if '_' !in cloze then ""
    else
      var prefix, suffix := cloze[..IndexOf(cloze, '_')], cloze[LastIndexOf(cloze, '_') + 1..];
      if !(prefix <= prompt) || !EndsWith(prompt, suffix) || |prefix| + |suffix| > |prompt| then ""
      else Trim(prompt[|prefix|..|prompt| - |suffix|])
  }

  function ExerciseAnswer(item: Item): string {
    if item.kind == Phrase && item.cloze.Some? && item.cloze.value != "" then
      var given := if item.clozeAnswer.Some? then Trim(item.clozeAnswer.value) else "";
      var inferred := InferClozeAnswer(item.prompt, item.cloze.value);
      if given != "" then given else if inferred != "" then inferred else Trim(item.answer)
    else Trim(item.answer)
  }

  lemma {:induction false} IndexAfter(a: string, rest: string, c: char)
    requires c !in a && rest != "" && rest[0] == c
    ensures IndexOf(a + rest, c) == |a|
  {
    if a == "" {
      assert a + rest == rest;
    } else {
      assert (a + rest)[1..] == a[1..] + rest;
      IndexAfter(a[1..], rest, c);
    }
  }

  lemma {:induction false} LastIndexBefore(front: string, a: string, c: char)
    requires c !in a && front != "" && front[|front| - 1] == c
    ensures LastIndexOf(front + a, c) == |front| - 1
  {
    if a == "" {
      assert front + a == front;
    } else {
      assert (front + a)[..|front + a| - 1] == front + a[..|a| - 1];
      LastIndexBefore(front, a[..|a| - 1], c);
    }
  }

  lemma Cut(before: string, middle: string, after: string)
    ensures var all := before + middle + after;
            && all[..|before|] == before && all[|before + middle|..] == after && all[|before|..|all| - |after|] == middle
            && before <= all && EndsWith(all, after)
  {
    assert (before + middle + after)[|before + middle + after| - |after|..] == after;
  }

  /** The cloze falls into what stands before its first and after its last underscore. */
  lemma ClozeParts(before: string, blank: string, after: string)
    requires '_' !in before && '_' !in after && blank != "" && blank[0] == '_' && blank[|blank| - 1] == '_'
    ensures var cloze := before + blank + after;
            && '_' in cloze && IndexOf(cloze, '_') == |before| && LastIndexOf(cloze, '_') == |before + blank| - 1
            && cloze[..|before|] == before && cloze[|before + blank|..] == after
  {
    var cloze := before + blank + after;
    IndexAfter(before, blank + after, '_');
    assert cloze == before + (blank + after);
    LastIndexBefore(before + blank, after, '_');
    assert cloze[|before|] == '_';
    Cut(before, blank, after);
  }

  /** A sentence with a gap: whatever fills the one gap of the cloze is the inferred answer. */
  lemma ClozeInfersTheGap(before: string, blank: string, after: string, filled: string)
    requires '_' !in before && '_' !in after && blank != "" && blank[0] == '_' && blank[|blank| - 1] == '_'
    ensures InferClozeAnswer(before + filled + after, before + blank + after) == Trim(filled)
  {
    ClozeParts(before, blank, after);
    Cut(before, filled, after);
  }

  // ---------- candidates ----------

  predicate IsDelimiter(c: char) { c == ',' || c == ';' || c == '/' }

  function SplitAtDelimiters(s: string): (parts: seq<string>)
    ensures |parts| >= 1
  {
    if s == "" then [""]
    else
      var rest := SplitAtDelimiters(s[1..]);
      if IsDelimiter(s[0]) then [""] + rest else [[s[0]] + rest[0]] + rest[1..]
  }

  function TrimmedNonEmpty(parts: seq<string>): seq<string> {
    if parts == [] then []
    else if Trim(parts[0]) == "" then TrimmedNonEmpty(parts[1..])
    else [Trim(parts[0])] + TrimmedNonEmpty(parts[1..])
  }

  function CanonicalCandidates(value: string): seq<string> {
    var trimmed := Trim(value);
    if trimmed == "" then []
    else
      var alternatives := TrimmedNonEmpty(SplitAtDelimiters(trimmed));
      if |alternatives| > 1 then [trimmed] + alternatives else [trimmed]
  }

  /** Every candidate answer in order, before empty and repeated ones are dropped. */
  function Candidates(item: Item): seq<string> {
    (if item.kind == Word then CanonicalCandidates(ExerciseAnswer(item)) else [ExerciseAnswer(item)]) + item.acceptedAnswers
  }

  // ---------- what an item accepts ----------

  /** A piece of a text between two commas, semicolons or slashes, or the ends of the text. */
  predicate PieceAt(s: string, i: int, j: int) {
    && 0 <= i <= j <= |s|
    && (i == 0 || s[i - 1] in {',', ';', '/'}) && (j == |s| || s[j] in {',', ';', '/'})
    && forall k :: i <= k < j ==> s[k] !in {',', ';', '/'}
  }

  ghost predicate IsPart(s: string, part: string) {
    part != "" && exists i, j :: PieceAt(s, i, j) && part == Trim(s[i..j])
  }

  /** An answer of an item: the expected one, for a word also each part of it, and every accepted one. */
  ghost predicate AnswersItem(item: Item, c: string) {
    || c == ExerciseAnswer(item)
    || (item.kind == Word && IsPart(Trim(item.answer), c))
    || c in item.acceptedAnswers
  }

  /** What the model takes from the locale besides: commas, semicolons and slashes are their own lower-case form
      and neither letters nor digits. */
  predicate Delimits(locale: Locale) {
    && locale.lower(',') == [','] && locale.lower(';') == [';'] && locale.lower('/') == ['/']
    && !locale.letter(',') && !locale.letter(';') && !locale.letter('/')
  }

  function NormalForms(locale: Locale, candidates: seq<string>): set<string> {
    set c | c in candidates :: Normalize(locale, c)
  }

  /** The normal forms met so far, the empty one aside. */
  function Seen(locale: Locale, candidates: seq<string>): set<string> {
    if candidates == [] then {}
    else
      var before, normalized := Seen(locale, candidates[..|candidates| - 1]), Normalize(locale, candidates[|candidates| - 1]);
      if normalized == "" then before else before + {normalized}
  }

  /** The candidates whose normal form is not empty and not that of an earlier candidate. */
  function Deduplicated(locale: Locale, candidates: seq<string>): seq<string> {
    if candidates == [] then []
    else
      var before, last := candidates[..|candidates| - 1], candidates[|candidates| - 1];
      var normalized := Normalize(locale, last);
      Deduplicated(locale, before)
      + (if normalized == "" || normalized in NormalForms(locale, before) then [] else [last])
  }

  method AcceptedAnswersForItem(locale: Locale, item: Item) returns (accepted: seq<string>)
    ensures accepted == Deduplicated(locale, Candidates(item))
    ensures forall c :: c in accepted ==> AnswersItem(item, c) && Normalize(locale, c) != ""
    ensures forall i, j :: 0 <= i < j < |accepted| ==> Normalize(locale, accepted[i]) != Normalize(locale, accepted[j])
    ensures Proper(locale) && Delimits(locale) ==>
              forall c :: AnswersItem(item, c) && Normalize(locale, c) != "" ==> Normalize(locale, c) in NormalForms(locale, accepted)
  {
    var candidates := Candidates(item);
    var seen: set<string> := {};
    accepted := [];
    for i := 0 to |candidates|
      invariant accepted == Deduplicated(locale, candidates[..i])
      invariant seen == Seen(locale, candidates[..i])
    {
      var candidate := candidates[i];
      OneMoreCandidate(locale, candidates, i);
      var normalized := NormalizeAnswer(locale, candidate);
      if normalized == "" || normalized in seen { continue; }
      seen := seen + {normalized};
      accepted := accepted + [candidate];
    }
    assert candidates[..|candidates|] == candidates;
    AcceptedAreAnswers(locale, item);
  }

  /** The accepted answers: answers of the item with different normal forms, one for each form an answer has. */
  lemma AcceptedAreAnswers(locale: Locale, item: Item)
    ensures var accepted := Deduplicated(locale, Candidates(item));
            && (forall c :: c in accepted ==> AnswersItem(item, c) && Normalize(locale, c) != "")
            && (forall i, j :: 0 <= i < j < |accepted| ==> Normalize(locale, accepted[i]) != Normalize(locale, accepted[j]))
            && (Proper(locale) && Delimits(locale) ==>
                  forall c :: AnswersItem(item, c) && Normalize(locale, c) != "" ==> Normalize(locale, c) in NormalForms(locale, accepted))
  {
    var accepted := Deduplicated(locale, Candidates(item));
    DeduplicatedForms(locale, Candidates(item));
    forall c | c in accepted ensures AnswersItem(item, c) { CandidatesAnswer(item, c); }
    if Proper(locale) && Delimits(locale) {
      forall c | AnswersItem(item, c) && Normalize(locale, c) != "" ensures Normalize(locale, c) in NormalForms(locale, accepted) {
        AnswerHasCandidate(locale, item, c);
      }
    }
  }

  // ---------- pieces ----------

  lemma {:induction false} SplitOfWhole(s: string)
    requires forall k :: 0 <= k < |s| ==> !IsDelimiter(s[k])
    ensures SplitAtDelimiters(s) == [s]
  {
    if s != "" {
      SplitOfWhole(s[1..]);
      assert [s[0]] + s[1..] == s;
    }
  }

  lemma {:induction false} SplitAtOne(a: string, d: char, b: string)
    requires IsDelimiter(d)
    ensures SplitAtDelimiters(a + [d] + b) == SplitAtDelimiters(a) + SplitAtDelimiters(b)
  {
    var all := a + [d] + b;
    if a == "" {
      assert all[1..] == b;
    } else {
      assert all[1..] == a[1..] + [d] + b;
      SplitAtOne(a[1..], d, b);
    }
  }

  /** The pieces of a text are exactly what the splitting gives. */
  lemma PieceIsSplit(s: string, i: int, j: int)
    requires PieceAt(s, i, j)
    ensures s[i..j] in SplitAtDelimiters(s)
  {
    LastPieceIsSplit(s[..j], i);
    assert s[..j][i..] == s[i..j];
    if j < |s| {
      assert s == s[..j] + [s[j]] + s[j + 1..];
      SplitAtOne(s[..j], s[j], s[j + 1..]);
    } else {
      assert s == s[..j];
    }
  }

  lemma LastPieceIsSplit(s: string, i: int)
    requires PieceAt(s, i, |s|)
    ensures s[i..] in SplitAtDelimiters(s)
  {
    SplitOfWhole(s[i..]);
    assert SplitAtDelimiters(s[i..])[0] == s[i..];
    if i > 0 {
      assert s == s[..i - 1] + [s[i - 1]] + s[i..];
      SplitAtOne(s[..i - 1], s[i - 1], s[i..]);
    } else {
      assert s[i..] == s;
    }
  }

  /** The splitting goes on behind the first delimiter. */
  lemma {:induction false} SplitBehind(s: string, n: nat)
    requires n < |s| && IsDelimiter(s[n]) && forall k :: 0 <= k < n ==> !IsDelimiter(s[k])
    ensures SplitAtDelimiters(s) == [s[..n]] + SplitAtDelimiters(s[n + 1..])
    decreases n
  {
    if n > 0 {
      SplitBehind(s[1..], n - 1);
      assert s[1..][n..] == s[n + 1..] && [s[0]] + s[1..][..n - 1] == s[..n];
    }
  }

  lemma {:induction false} SplitIsPiece(s: string, part: string) returns (i: nat, j: nat)
    requires part in SplitAtDelimiters(s)
    ensures PieceAt(s, i, j) && part == s[i..j]
    decreases |s|
  {
    var n := FirstDelimiter(s);
    if n < |s| { SplitBehind(s, n); } else { SplitOfWhole(s); }
    if n == |s| || part == s[..n] {
      i, j := 0, n;
      assert s[0..n] == s[..n];
    } else {
      i, j := SplitIsPiece(s[n + 1..], part);
      ShiftedPiece(s, n + 1, i, j);
      i, j := n + 1 + i, n + 1 + j;
    }
  }

  lemma ShiftedPiece(s: string, n: nat, i: nat, j: nat)
    requires 0 < n <= |s| && IsDelimiter(s[n - 1]) && PieceAt(s[n..], i, j)
    ensures PieceAt(s, n + i, n + j) && s[n + i..n + j] == s[n..][i..j]
  {
    var rest := s[n..];
    assert forall k :: 0 <= k < |rest| ==> s[n + k] == rest[k];
    forall k | n + i <= k < n + j ensures s[k] !in {',', ';', '/'} { assert s[k] == rest[k - n]; }
  }

  function FirstDelimiter(s: string): (n: nat)
    ensures n <= |s| && (n < |s| ==> IsDelimiter(s[n])) && forall k :: 0 <= k < n ==> !IsDelimiter(s[k])
  {
    if s == "" || IsDelimiter(s[0]) then 0 else 1 + FirstDelimiter(s[1..])
  }

  lemma {:induction false} TrimmedMembers(parts: seq<string>, part: string)
    ensures part in TrimmedNonEmpty(parts) <==> part != "" && exists k :: 0 <= k < |parts| && part == Trim(parts[k])
  {
    if parts != [] {
      TrimmedMembers(parts[1..], part);
      if part != "" && exists k :: 0 <= k < |parts| && part == Trim(parts[k]) {
        var k :| 0 <= k < |parts| && part == Trim(parts[k]);
        assert k > 0 ==> parts[1..][k - 1] == parts[k];
      }
    }
  }

  lemma PartsAreAlternatives(s: string, part: string)
    ensures IsPart(s, part) <==> part in TrimmedNonEmpty(SplitAtDelimiters(s))
  {
    var parts := SplitAtDelimiters(s);
    TrimmedMembers(parts, part);
    if IsPart(s, part) {
      var i, j :| PieceAt(s, i, j) && part == Trim(s[i..j]);
      PieceIsSplit(s, i, j);
    }
    if part in TrimmedNonEmpty(parts) {
      var k :| 0 <= k < |parts| && part == Trim(parts[k]);
      var i, j := SplitIsPiece(s, parts[k]);
    }
  }

  // ---------- words of the pieces ----------

  lemma {:induction false} WordsAroundOneGap(a: seq<Mark>, b: seq<Mark>)
    ensures Words(a + [Gap] + b) == Words(a) + Words(b)
    decreases |a|
  {
    var all := a + [Gap] + b;
    if a == [] {
      assert all[1..] == b;
    } else if a[0].Gap? {
      assert all[1..] == a[1..] + [Gap] + b;
      WordsAroundOneGap(a[1..], b);
    } else {
      var n := RunLength(a);
      assert all == a + ([Gap] + b);
      RunBeforeGap(a, [Gap] + b);
      assert all[..n] == a[..n] && all[n..] == a[n..] + [Gap] + b;
      WordsAroundOneGap(a[n..], b);
    }
  }

  /** A character that is no letter, no digit and no apostrophe separates words. */
  lemma OtherCharSeparates(locale: Locale, a: string, c: char, b: string)
    requires locale.lower(c) == [c] && !locale.letter(c) && c !in {'\'', '’', 'ʼ', 'ё'}
    ensures Tokens(locale, a + [c] + b) == Tokens(locale, a) + Tokens(locale, b)
  {
    MarksOfConcat(locale, a + [c], b);
    MarksOfConcat(locale, a, [c]);
    assert [c][1..] == "" && FoldChar(locale, c) == [c];
    assert Marks(locale, [c]) == [Gap];
    WordsAroundOneGap(Marks(locale, a), Marks(locale, b));
  }

  function AllTokens(locale: Locale, parts: seq<string>): seq<string> {
    if parts == [] then [] else Tokens(locale, parts[0]) + AllTokens(locale, parts[1..])
  }

  /** Splitting at delimiters cuts no word. */
  lemma {:induction false} TokensOfPieces(locale: Locale, s: string)
    requires Delimits(locale)
    ensures Tokens(locale, s) == AllTokens(locale, SplitAtDelimiters(s))
    decreases |s|
  {
    var n := FirstDelimiter(s);
    if n == |s| {
      SplitOfWhole(s);
      assert [s][1..] == [] && Tokens(locale, s) + [] == Tokens(locale, s);
    } else {
      SplitBehind(s, n);
      assert s == s[..n] + [s[n]] + s[n + 1..];
      OtherCharSeparates(locale, s[..n], s[n], s[n + 1..]);
      TokensOfPieces(locale, s[n + 1..]);
      assert ([s[..n]] + SplitAtDelimiters(s[n + 1..]))[1..] == SplitAtDelimiters(s[n + 1..]);
    }
  }

  lemma NoTokensOfSpaces(locale: Locale, s: string)
    requires Proper(locale) && Trim(s) == ""
    ensures Tokens(locale, s) == []
  {
    TokensOfTrimmed(locale, s);
  }

  lemma {:induction false} TokensOfAlternatives(locale: Locale, parts: seq<string>)
    requires Proper(locale)
    ensures AllTokens(locale, parts) == AllTokens(locale, TrimmedNonEmpty(parts))
  {
    if parts != [] {
      TokensOfAlternatives(locale, parts[1..]);
      TokensOfTrimmed(locale, parts[0]);
      if Trim(parts[0]) == "" {
        NoTokensOfSpaces(locale, parts[0]);
      } else {
        var rest := TrimmedNonEmpty(parts[1..]);
        assert ([Trim(parts[0])] + rest)[1..] == rest;
      }
    }
  }

  /** A text with a single part has the words of that part. */
  lemma SinglePart(locale: Locale, s: string, part: string)
    requires Proper(locale) && Delimits(locale) && IsPart(s, part) && |TrimmedNonEmpty(SplitAtDelimiters(s))| <= 1
    ensures Normalize(locale, part) == Normalize(locale, s)
  {
    var alternatives := TrimmedNonEmpty(SplitAtDelimiters(s));
    PartsAreAlternatives(s, part);
    assert alternatives == [part];
    TokensOfPieces(locale, s);
    TokensOfAlternatives(locale, SplitAtDelimiters(s));
    assert [part][1..] == [] && Tokens(locale, part) + [] == Tokens(locale, part);
    NormalizeSeparatesTokens(locale, part, s);
  }

  // ---------- candidates are the answers ----------

  lemma CandidatesAnswer(item: Item, c: string)
    requires c in Candidates(item)
    ensures AnswersItem(item, c)
  {
    if c !in item.acceptedAnswers && item.kind == Word {
      TrimIsIdempotent(item.answer);
      PartsAreAlternatives(Trim(item.answer), c);
    }
  }

  /** Every answer of an item with a normal form has a candidate of that form. */
  lemma AnswerHasCandidate(locale: Locale, item: Item, c: string)
    requires Proper(locale) && Delimits(locale) && AnswersItem(item, c) && Normalize(locale, c) != ""
    ensures Normalize(locale, c) in NormalForms(locale, Candidates(item))
  {
    var candidates := Candidates(item);
    if c !in candidates {
      NormalizeOfEmpty(locale);
      TrimIsIdempotent(item.answer);
      var whole := Trim(item.answer);
      assert item.kind == Word && IsPart(whole, c);
      PartsAreAlternatives(whole, c);
      assert whole != "" by { if whole == "" { PartOfEmpty(c); } }
      assert candidates[0] == whole;
      SinglePart(locale, whole, c);
    }
  }

  lemma NormalizeOfEmpty(locale: Locale)
    ensures Normalize(locale, "") == ""
  {
  }

  lemma PartOfEmpty(part: string)
    requires part != ""
    ensures !IsPart("", part)
  {
  }

  lemma {:induction false} DeduplicatedForms(locale: Locale, candidates: seq<string>)
    ensures forall c :: c in Deduplicated(locale, candidates) ==> c in candidates && Normalize(locale, c) != ""
    ensures forall n :: n in NormalForms(locale, candidates) && n != "" ==> n in NormalForms(locale, Deduplicated(locale, candidates))
    ensures var r := Deduplicated(locale, candidates);
            forall i, j :: 0 <= i < j < |r| ==> Normalize(locale, r[i]) != Normalize(locale, r[j])
  {
    if candidates != [] {
      var before, last := candidates[..|candidates| - 1], candidates[|candidates| - 1];
      assert candidates == before + [last];
      DeduplicatedForms(locale, before);
      DeduplicatedSnoc(locale, before, last);
      NormalFormsSnoc(locale, before, last);
      NormalFormsSnoc(locale, Deduplicated(locale, before), last);
    }
  }

  lemma {:induction false} SeenAre(locale: Locale, candidates: seq<string>, n: string)
    ensures n in Seen(locale, candidates) <==> n != "" && n in NormalForms(locale, candidates)
  {
    if candidates != [] {
      var before, last := candidates[..|candidates| - 1], candidates[|candidates| - 1];
      assert candidates == before + [last];
      SeenAre(locale, before, n);
      NormalFormsSnoc(locale, before, last);
    }
  }

  lemma OneMoreCandidate(locale: Locale, candidates: seq<string>, i: nat)
    requires i < |candidates|
    ensures var normalized, before := Normalize(locale, candidates[i]), candidates[..i];
            if normalized == "" || normalized in Seen(locale, before)
            then Deduplicated(locale, candidates[..i + 1]) == Deduplicated(locale, before)
                 && Seen(locale, candidates[..i + 1]) == Seen(locale, before)
            else Deduplicated(locale, candidates[..i + 1]) == Deduplicated(locale, before) + [candidates[i]]
                 && Seen(locale, candidates[..i + 1]) == Seen(locale, before) + {normalized}
  {
    assert candidates[..i + 1] == candidates[..i] + [candidates[i]];
    DeduplicatedSnoc(locale, candidates[..i], candidates[i]);
    SeenAre(locale, candidates[..i], Normalize(locale, candidates[i]));
    assert (candidates[..i] + [candidates[i]])[..i] == candidates[..i];
  }

  lemma DeduplicatedSnoc(locale: Locale, before: seq<string>, last: string)
    ensures var normalized := Normalize(locale, last);
            Deduplicated(locale, before + [last])
            == if normalized == "" || normalized in NormalForms(locale, before) then Deduplicated(locale, before)
               else Deduplicated(locale, before) + [last]
  {
    assert (before + [last])[..|before|] == before;
    assert Deduplicated(locale, before) + [] == Deduplicated(locale, before);
  }

  lemma NormalFormsSnoc(locale: Locale, candidates: seq<string>, last: string)
    ensures NormalForms(locale, candidates + [last]) == NormalForms(locale, candidates) + {Normalize(locale, last)}
  {
    var all := candidates + [last];
    assert all[|candidates|] == last;
    forall c | c in candidates ensures Normalize(locale, c) in NormalForms(locale, all) {
      assert c in all;
    }
    assert last in all;
  }

  // ---------- judging ----------

  function LowerAll(locale: Locale, s: string): string {
    if s == "" then "" else locale.lower(s[0]) + LowerAll(locale, s[1..])
  }

  predicate MatchesExactly(locale: Locale, submitted: string, candidate: string) {
    LowerAll(locale, Trim(submitted)) == LowerAll(locale, Trim(candidate))
  }

  predicate MatchesNormalized(locale: Locale, submitted: string, candidate: string) {
    Normalize(locale, Trim(submitted)) == Normalize(locale, candidate)
  }

  /** The first candidate that matches decides, an exact match being reported as such. */
  function FirstMatch(locale: Locale, candidates: seq<string>, submitted: string): Judgement {
    if candidates == [] then Judgement(false, RejectedNoMatch, "")
    else if MatchesExactly(locale, submitted, candidates[0]) then Judgement(true, AcceptedExact, candidates[0])
    else if MatchesNormalized(locale, submitted, candidates[0]) then Judgement(true, AcceptedNormalized, candidates[0])
    else FirstMatch(locale, candidates[1..], submitted)
  }

  function JudgeAgainst(locale: Locale, candidates: seq<string>, submitted: string): Judgement {
    if Normalize(locale, Trim(submitted)) == "" then Judgement(false, RejectedNoAnswer, "")
    else FirstMatch(locale, candidates, submitted)
  }

  function Judge(locale: Locale, item: Item, submitted: string): Judgement {
    JudgeAgainst(locale, Deduplicated(locale, Candidates(item)), submitted)
  }

  lemma JudgedByAnswers(locale: Locale, item: Item, submitted: string)
    ensures var judgement := Judge(locale, item, submitted);
            && (judgement.correct ==> AnswersItem(item, judgement.matchedAnswer) && Normalize(locale, submitted) != "")
            && (Proper(locale) && Delimits(locale) && Normalize(locale, submitted) != "" ==>
                  forall c :: AnswersItem(item, c) && Normalize(locale, c) == Normalize(locale, submitted) ==> judgement.correct)
  {
    JudgementIsExplained(locale, item, submitted);
    if Proper(locale) && Delimits(locale) && Normalize(locale, submitted) != "" {
      forall c | AnswersItem(item, c) && Normalize(locale, c) == Normalize(locale, submitted) ensures Judge(locale, item, submitted).correct {
        AnswerIsCorrect(locale, item, c, submitted);
      }
    }
  }

  method JudgeLearningAnswer(locale: Locale, item: Item, submittedAnswer: string) returns (judgement: Judgement)
    ensures judgement == Judge(locale, item, submittedAnswer)
    ensures judgement.correct ==> AnswersItem(item, judgement.matchedAnswer) && Normalize(locale, submittedAnswer) != ""
    ensures Proper(locale) && Delimits(locale) && Normalize(locale, submittedAnswer) != "" ==>
              forall c :: AnswersItem(item, c) && Normalize(locale, c) == Normalize(locale, submittedAnswer) ==> judgement.correct
  {
    JudgedByAnswers(locale, item, submittedAnswer);
    var trimmed := Trim(submittedAnswer);
    var normalized := NormalizeAnswer(locale, trimmed);
    if normalized == "" { return Judgement(false, RejectedNoAnswer, ""); }
    var accepted := AcceptedAnswersForItem(locale, item);
    for i := 0 to |accepted|
      invariant FirstMatch(locale, accepted[i..], submittedAnswer) == FirstMatch(locale, accepted, submittedAnswer)
    {
      var candidate := accepted[i];
      assert accepted[i..][1..] == accepted[i + 1..];
      if LowerAll(locale, trimmed) == LowerAll(locale, Trim(candidate)) {
        return Judgement(true, AcceptedExact, candidate);
      }
      var candidateNormalized := NormalizeAnswer(locale, candidate);
      if normalized == candidateNormalized {
        return Judgement(true, AcceptedNormalized, candidate);
      }
    }
    judgement := Judgement(false, RejectedNoMatch, "");
  }

  // ---------- deduplication is invisible ----------

  /** Lower-casing the character on its own or inside a longer lower-cased text has the same effect
      on the pass: it gives one character, or nothing but gaps. */
  ghost predicate SafeChar(locale: Locale, c: char) {
    |locale.lower(c)| == 1 || (Marks(locale, locale.lower(c)) != [] && AllGaps(Marks(locale, locale.lower(c))))
  }

  ghost predicate SafeText(locale: Locale, s: string) { forall i :: 0 <= i < |s| ==> SafeChar(locale, s[i]) }

  lemma {:induction false} PassOverGaps(normalized: string, spacePending: bool, gaps: seq<Mark>, rest: seq<Mark>)
    requires gaps != [] && AllGaps(gaps)
    ensures Pass(normalized, spacePending, gaps + rest) == Pass(normalized, normalized != "", rest)
    decreases |gaps|
  {
    assert gaps[0] == Gap;
    assert (gaps + rest)[1..] == gaps[1..] + rest;
    if gaps[1..] == [] {
      assert gaps[1..] + rest == rest;
    } else {
      PassOverGaps(normalized, normalized != "", gaps[1..], rest);
    }
  }

  lemma {:induction false} PassSeesLowerCase(locale: Locale, normalized: string, spacePending: bool, s: string)
    requires Proper(locale) && SafeText(locale, s)
    ensures Pass(normalized, spacePending, Marks(locale, s)) == Pass(normalized, spacePending, Marks(locale, LowerAll(locale, s)))
    decreases |s|
  {
    if s != "" {
      var first, rest := locale.lower(s[0]), LowerAll(locale, s[1..]);
      var firstMarks := MarksOf(locale, s[0]);
      assert SafeChar(locale, s[0]);
      MarksOfConcat(locale, first, rest);
      PassStep(normalized, spacePending, firstMarks, Marks(locale, s[1..]));
      if |first| == 1 {
        SingleLowered(locale, s[0]);
        PassStep(normalized, spacePending, firstMarks, Marks(locale, rest));
        var (soFar, pending) := After(normalized, spacePending, firstMarks);
        PassSeesLowerCase(locale, soFar, pending, s[1..]);
      } else {
        PassOverGaps(normalized, spacePending, Marks(locale, first), Marks(locale, rest));
        PassSeesLowerCase(locale, normalized, normalized != "", s[1..]);
      }
    }
  }

  lemma SingleLowered(locale: Locale, c: char)
    requires Proper(locale) && |locale.lower(c)| == 1
    ensures Marks(locale, locale.lower(c)) == MarksOf(locale, c)
  {
    var first := locale.lower(c);
    assert locale.lower(first[0]) == [first[0]];
    assert first == [first[0]] && first[1..] == "";
  }

  /** Texts that agree up to letter case have the same normal form. */
  lemma ExactImpliesNormalized(locale: Locale, submitted: string, candidate: string)
    requires Proper(locale) && SafeText(locale, Trim(submitted)) && SafeText(locale, Trim(candidate))
    requires MatchesExactly(locale, submitted, candidate)
    ensures MatchesNormalized(locale, submitted, candidate)
  {
    PassSeesLowerCase(locale, "", false, Trim(submitted));
    PassSeesLowerCase(locale, "", false, Trim(candidate));
    TrimIsIdempotent(submitted);
  }

  lemma {:induction false} FirstMatchOfConcat(locale: Locale, a: seq<string>, b: seq<string>, submitted: string)
    ensures FirstMatch(locale, a + b, submitted)
            == if FirstMatch(locale, a, submitted).correct then FirstMatch(locale, a, submitted) else FirstMatch(locale, b, submitted)
  {
    if a == [] {
      assert a + b == b;
    } else {
      assert (a + b)[1..] == a[1..] + b;
      FirstMatchOfConcat(locale, a[1..], b, submitted);
    }
  }

  lemma NormalFormOfRest(locale: Locale, candidates: seq<string>, n: string)
    requires candidates != [] && n in NormalForms(locale, candidates) && Normalize(locale, candidates[0]) != n
    ensures n in NormalForms(locale, candidates[1..])
  {
    var c :| c in candidates && Normalize(locale, c) == n;
    assert c in candidates[1..];
  }

  lemma {:induction false} NormalizedMatchIsFound(locale: Locale, candidates: seq<string>, submitted: string)
    ensures Normalize(locale, Trim(submitted)) in NormalForms(locale, candidates) ==> FirstMatch(locale, candidates, submitted).correct
    ensures !FirstMatch(locale, candidates, submitted).correct ==> FirstMatch(locale, candidates, submitted) == Judgement(false, RejectedNoMatch, "")
  {
    if candidates != [] {
      var n := Normalize(locale, Trim(submitted));
      NormalizedMatchIsFound(locale, candidates[1..], submitted);
      if n in NormalForms(locale, candidates) && n != Normalize(locale, candidates[0]) { NormalFormOfRest(locale, candidates, n); }
    }
  }

  /** Dropping empty and repeated candidates changes nothing for a submission, as long as an exact
      match of a candidate is also a normalised match. */
  lemma {:induction false} DeduplicationInvisible(locale: Locale, candidates: seq<string>, submitted: string)
    requires Normalize(locale, Trim(submitted)) != ""
    requires forall c :: c in candidates && MatchesExactly(locale, submitted, c) ==> MatchesNormalized(locale, submitted, c)
    ensures FirstMatch(locale, Deduplicated(locale, candidates), submitted) == FirstMatch(locale, candidates, submitted)
  {
    if candidates != [] {
      var before, last := candidates[..|candidates| - 1], candidates[|candidates| - 1];
      assert candidates == before + [last];
      assert last in candidates && forall c :: c in before ==> c in candidates;
      DeduplicationInvisible(locale, before, submitted);
      DeduplicatedSnoc(locale, before, last);
      FirstMatchOfConcat(locale, before, [last], submitted);
      FirstMatchOfConcat(locale, Deduplicated(locale, before), [last], submitted);
      var normalized := Normalize(locale, last);
      if normalized == "" || normalized in NormalForms(locale, before) {
        DroppedNeverDecides(locale, before, last, submitted);
      }
    }
  }

  lemma DroppedNeverDecides(locale: Locale, before: seq<string>, last: string, submitted: string)
    requires Normalize(locale, Trim(submitted)) != ""
    requires MatchesExactly(locale, submitted, last) ==> MatchesNormalized(locale, submitted, last)
    requires Normalize(locale, last) == "" || Normalize(locale, last) in NormalForms(locale, before)
    ensures !FirstMatch(locale, before, submitted).correct ==> FirstMatch(locale, [last], submitted) == FirstMatch(locale, before, submitted)
  {
    NormalizedMatchIsFound(locale, before, submitted);
    assert [last][1..] == [];
  }

  /** Judging over the raw candidates and over the accepted answers agree for safe texts. */
  lemma JudgementIgnoresDeduplication(locale: Locale, item: Item, submitted: string)
    requires Proper(locale) && SafeText(locale, Trim(submitted))
    requires forall c :: c in Candidates(item) ==> SafeText(locale, Trim(c))
    ensures Judge(locale, item, submitted) == JudgeAgainst(locale, Candidates(item), submitted)
  {
    if Normalize(locale, Trim(submitted)) != "" {
      forall c | c in Candidates(item) && MatchesExactly(locale, submitted, c) ensures MatchesNormalized(locale, submitted, c) {
        ExactImpliesNormalized(locale, submitted, c);
      }
      DeduplicationInvisible(locale, Candidates(item), submitted);
    }
  }

  // ---------- and only then ----------

  /** Number of letters and digits in a list of words. */
  function Letters(words: seq<string>): nat {
    if words == [] then 0 else |words[0]| + Letters(words[1..])
  }

  lemma {:induction false} TextOfConcat(a: seq<Mark>, b: seq<Mark>)
    ensures Text(a + b) == Text(a) + Text(b)
  {
    if a == [] {
      assert a + b == b;
    } else {
      assert (a + b)[1..] == a[1..] + b;
      TextOfConcat(a[1..], b);
      var first := if a[0].Kept? then [a[0].c] else "";
      assert first + (Text(a[1..]) + Text(b)) == (first + Text(a[1..])) + Text(b);
    }
  }

  lemma {:induction false} WordsKeepLetters(marks: seq<Mark>)
    ensures Letters(Words(marks)) == |Text(marks)|
    decreases |marks|
  {
    if marks != [] {
      if marks[0].Gap? {
        WordsKeepLetters(marks[1..]);
      } else {
        var n := RunLength(marks);
        WordsKeepLetters(marks[n..]);
        assert marks[..n] + marks[n..] == marks;
        TextOfConcat(marks[..n], marks[n..]);
        assert ([Text(marks[..n])] + Words(marks[n..]))[1..] == Words(marks[n..]);
      }
    }
  }

  /** A text between two letters. */
  function Between(s: string): string { [YE] + s + [YE] }

  lemma MarksBetween(locale: Locale, s: string)
    requires Proper(locale)
    ensures Marks(locale, Between(s)) == [Kept(YE)] + Marks(locale, s) + [Kept(YE)]
    ensures Trim(Between(s)) == Between(s)
    ensures LowerAll(locale, Between(s)) == Between(LowerAll(locale, s))
  {
    MarksOfConcat(locale, [YE], s);
    MarksOfConcat(locale, [YE] + s, [YE]);
    assert [YE][1..] == "";
    assert Marks(locale, [YE]) == [Kept(YE)];
    LowerOfConcat(locale, [YE], s);
    LowerOfConcat(locale, [YE] + s, [YE]);
    assert LowerAll(locale, [YE]) == [YE];
    assert !IsSpace(YE);
  }

  lemma {:induction false} LowerOfConcat(locale: Locale, a: string, b: string)
    ensures LowerAll(locale, a + b) == LowerAll(locale, a) + LowerAll(locale, b)
  {
    if a == "" {
      assert a + b == b;
    } else {
      assert (a + b)[1..] == a[1..] + b;
      LowerOfConcat(locale, a[1..], b);
    }
  }

  lemma {:induction false} LowerOfLowered(locale: Locale, s: string)
    requires forall i :: 0 <= i < |s| ==> locale.lower(s[i]) == [s[i]]
    ensures LowerAll(locale, s) == s
  {
    if s != "" {
      LowerOfLowered(locale, s[1..]);
    }
  }

  lemma OneLetterWord(c: char, rest: seq<Mark>)
    requires rest == [] || rest[0].Gap?
    ensures Words([Kept(c)] + rest) == [[c]] + Words(rest)
  {
    var marks := [Kept(c)] + rest;
    assert marks[1..] == rest && rest[..0] == [];
    FirstWord(marks);
    assert Text(marks[..1]) == [c];
  }

  /** Words of the two-letter text with a gap in the middle. */
  lemma WordsAroundGap()
    ensures Words([Kept(YE), Gap, Kept(YE)]) == [[YE], [YE]]
  {
    var last := [Kept(YE)];
    OneLetterWord(YE, []);
    assert last + [] == last;
    OneLetterWord(YE, [Gap] + last);
    assert ([Gap] + last)[1..] == last;
    assert [Kept(YE)] + ([Gap] + last) == [Kept(YE), Gap, Kept(YE)];
  }

  lemma OneWordWithoutGap()
    ensures |Words([Kept(YE), Kept(YE)])| == 1
  {
    var marks := [Kept(YE), Kept(YE)];
    FirstWord(marks);
    var n := RunLength(marks[1..]);
    assert marks[1..][1..] == [] && n == 1;
    assert marks[n + 1..] == [];
  }

  /** Between two letters, an unsafe character is a gap while its lower-case form is not. */
  lemma UnsafeCharSplitsDifferently(locale: Locale, c: char)
    requires Proper(locale) && !SafeChar(locale, c)
    ensures Tokens(locale, Between([c])) == [[YE], [YE]]
    ensures Tokens(locale, Between(locale.lower(c))) != [[YE], [YE]]
  {
    MarksBetween(locale, [c]);
    assert [c][1..] == "" && Marks(locale, [c]) == [Gap];
    assert [Kept(YE)] + [Gap] + [Kept(YE)] == [Kept(YE), Gap, Kept(YE)];
    WordsAroundGap();
    MarksBetween(locale, locale.lower(c));
    WordsAroundOther(Marks(locale, locale.lower(c)));
  }

  lemma WordsAroundOther(marks: seq<Mark>)
    requires marks == [] || !AllGaps(marks)
    ensures Words([Kept(YE)] + marks + [Kept(YE)]) != [[YE], [YE]]
  {
    var all := [Kept(YE)] + marks + [Kept(YE)];
    if marks == [] {
      assert all == [Kept(YE), Kept(YE)];
      OneWordWithoutGap();
    } else {
      WordsKeepLetters(all);
      TextOfConcat([Kept(YE)] + marks, [Kept(YE)]);
      TextOfConcat([Kept(YE)], marks);
      SomeTextUnlessGaps(marks);
      LettersOfPair();
    }
  }

  lemma LettersOfPair()
    ensures Letters([[YE], [YE]]) == 2
    ensures |Text([Kept(YE)])| == 1
  {
    var one := [[YE]];
    assert one[1..] == [] && Letters(one) == 1;
    assert [[YE], [YE]][1..] == one;
    assert [Kept(YE)][1..] == [];
  }

  lemma {:induction false} SomeTextUnlessGaps(marks: seq<Mark>)
    ensures Text(marks) == "" ==> AllGaps(marks)
  {
    if marks != [] {
      SomeTextUnlessGaps(marks[1..]);
    }
  }

  /** A phrase whose second accepted answer repeats the first one but for an unsafe character. */
  function WitnessItem(c: char): Item {
    Item(Phrase, "", Between(" "), None, None, [Between([c])])
  }

  lemma NormalizedBetween(locale: Locale, s: string)
    requires Proper(locale)
    ensures Normalize(locale, Between(s)) != ""
  {
    MarksBetween(locale, s);
    NormalizeJoinsTokens(locale, Between(s));
    TokensAreSettled(locale, Between(s));
    JoinedEnds(locale, Tokens(locale, Between(s)));
  }

  lemma LowerBetween(locale: Locale, c: char)
    requires Proper(locale)
    ensures LowerAll(locale, Trim(Between([c]))) == Between(locale.lower(c))
    ensures LowerAll(locale, Trim(Between(locale.lower(c)))) == Between(locale.lower(c))
  {
    MarksBetween(locale, [c]);
    MarksBetween(locale, locale.lower(c));
    assert [c][1..] == "";
    assert LowerAll(locale, [c]) == locale.lower(c);
    LowerOfLowered(locale, locale.lower(c));
  }

  lemma SpaceBetween(locale: Locale)
    requires Proper(locale)
    ensures Tokens(locale, Between(" ")) == [[YE], [YE]] && LowerAll(locale, Trim(Between(" "))) == Between(" ")
  {
    LowerBetween(locale, ' ');
    MarksBetween(locale, " ");
    assert IsSpace(' ') && " "[1..] == "" && Marks(locale, " ") == [Gap];
    assert [Kept(YE)] + [Gap] + [Kept(YE)] == [Kept(YE), Gap, Kept(YE)];
    WordsAroundGap();
    assert " " == [' '];
  }

  lemma UnsafeCharIsVisible(locale: Locale, c: char)
    requires Proper(locale) && !SafeChar(locale, c)
    ensures var item, submitted := WitnessItem(c), Between(locale.lower(c));
            Judge(locale, item, submitted) != JudgeAgainst(locale, Candidates(item), submitted)
  {
    var first, second, submitted := Between(" "), Between([c]), Between(locale.lower(c));
    UnsafeCharSplitsDifferently(locale, c);
    SpaceBetween(locale);
    LowerBetween(locale, c);
    NormalizedBetween(locale, " ");
    NormalizedBetween(locale, locale.lower(c));
    NormalizeSeparatesTokens(locale, first, second);
    NormalizeSeparatesTokens(locale, submitted, first);
    MarksBetween(locale, " ");
    MarksBetween(locale, locale.lower(c));
    assert |submitted| != |first|;
    WitnessJudged(locale, first, second, submitted);
    WitnessCandidates(c);
  }

  lemma WitnessCandidates(c: char)
    ensures Candidates(WitnessItem(c)) == [Between(" ")] + [Between([c])]
  {
    var first := Between(" ");
    assert !IsSpace(YE) && first[0] == YE && first[|first| - 1] == YE;
    assert Trim(first) == first;
  }

  lemma WitnessJudged(locale: Locale, first: string, second: string, submitted: string)
    requires Normalize(locale, first) == Normalize(locale, second) != "" && Normalize(locale, Trim(submitted)) != ""
    requires !MatchesExactly(locale, submitted, first) && !MatchesNormalized(locale, submitted, first)
    requires MatchesExactly(locale, submitted, second)
    ensures JudgeAgainst(locale, [first] + [second], submitted) == Judgement(true, AcceptedExact, second)
    ensures JudgeAgainst(locale, Deduplicated(locale, [first] + [second]), submitted) == Judgement(false, RejectedNoMatch, "")
  {
    var one := [first];
    FirstMatchOfOne(locale, first, submitted);
    FirstMatchOfOne(locale, second, submitted);
    FirstMatchOfConcat(locale, one, [second], submitted);
    DeduplicatedSnoc(locale, one, second);
    DeduplicatedSnoc(locale, [], first);
    assert [] + one == one && first in one;
    assert Normalize(locale, second) in NormalForms(locale, one);
    assert NormalForms(locale, []) == {};
  }

  lemma FirstMatchOfOne(locale: Locale, candidate: string, submitted: string)
    ensures FirstMatch(locale, [candidate], submitted)
            == if MatchesExactly(locale, submitted, candidate) then Judgement(true, AcceptedExact, candidate)
               else if MatchesNormalized(locale, submitted, candidate) then Judgement(true, AcceptedNormalized, candidate)
               else Judgement(false, RejectedNoMatch, "")
  {
    assert [candidate][1..] == [];
  }

  // ---------- an alphabet ----------

  ghost predicate Over(alphabet: set<char>, s: string) { forall i :: 0 <= i < |s| ==> s[i] in alphabet }

  ghost predicate ItemOver(alphabet: set<char>, item: Item) { forall c :: c in Candidates(item) ==> Over(alphabet, c) }

  /** Deduplication shows for no item and no submission over the alphabet. */
  ghost predicate InvisibleOver(locale: Locale, alphabet: set<char>) {
    forall item, submitted :: ItemOver(alphabet, item) && Over(alphabet, submitted) ==>
      Judge(locale, item, submitted) == JudgeAgainst(locale, Candidates(item), submitted)
  }

  lemma TrimmedIsSafe(locale: Locale, alphabet: set<char>, s: string)
    requires Over(alphabet, s) && forall c :: c in alphabet ==> SafeChar(locale, c)
    ensures SafeText(locale, Trim(s))
  {
    var leading, trailing := TrimSplits(s);
    forall i | 0 <= i < |Trim(s)| ensures SafeChar(locale, Trim(s)[i]) {
      assert Trim(s)[i] == s[|leading| + i];
    }
  }

  lemma SafeIsInvisible(locale: Locale, alphabet: set<char>, item: Item, submitted: string)
    requires Proper(locale) && ItemOver(alphabet, item) && Over(alphabet, submitted)
    requires forall c :: c in alphabet ==> SafeChar(locale, c)
    ensures Judge(locale, item, submitted) == JudgeAgainst(locale, Candidates(item), submitted)
  {
    TrimmedIsSafe(locale, alphabet, submitted);
    forall c | c in Candidates(item) ensures SafeText(locale, Trim(c)) { TrimmedIsSafe(locale, alphabet, c); }
    JudgementIgnoresDeduplication(locale, item, submitted);
  }

  ghost predicate AllSafe(locale: Locale, alphabet: set<char>) { forall c :: c in alphabet ==> SafeChar(locale, c) }

  lemma AllSafeIsInvisible(locale: Locale, alphabet: set<char>)
    requires Proper(locale) && AllSafe(locale, alphabet)
    ensures InvisibleOver(locale, alphabet)
  {
    forall item, submitted | ItemOver(alphabet, item) && Over(alphabet, submitted)
      ensures Judge(locale, item, submitted) == JudgeAgainst(locale, Candidates(item), submitted)
    {
      SafeIsInvisible(locale, alphabet, item, submitted);
    }
  }

  lemma BetweenOver(alphabet: set<char>, s: string)
    requires YE in alphabet && Over(alphabet, s)
    ensures Over(alphabet, Between(s))
  {
  }

  lemma WitnessOver(alphabet: set<char>, c: char)
    requires ' ' in alphabet && YE in alphabet && c in alphabet
    ensures ItemOver(alphabet, WitnessItem(c))
  {
    WitnessCandidates(c);
    BetweenOver(alphabet, " ");
    BetweenOver(alphabet, [c]);
  }

  lemma UnsafeIsVisible(locale: Locale, alphabet: set<char>, c: char)
    requires Proper(locale) && ' ' in alphabet && YE in alphabet && c in alphabet && Over(alphabet, locale.lower(c)) && !SafeChar(locale, c)
    ensures !InvisibleOver(locale, alphabet)
  {
    var item, submitted := WitnessItem(c), Between(locale.lower(c));
    UnsafeCharIsVisible(locale, c);
    WitnessOver(alphabet, c);
    BetweenOver(alphabet, locale.lower(c));
    assert Judge(locale, item, submitted) != JudgeAgainst(locale, Candidates(item), submitted);
  }

  /** For texts over an alphabet that holds a space, the letter of the witness and its own lower-case
      characters, deduplication is invisible to judging if and only if every character is safe. */
  lemma InvisibleIffSafe(locale: Locale, alphabet: set<char>)
    requires Proper(locale) && ' ' in alphabet && YE in alphabet
    requires forall c :: c in alphabet ==> Over(alphabet, locale.lower(c))
    ensures InvisibleOver(locale, alphabet) <==> AllSafe(locale, alphabet)
  {
    if AllSafe(locale, alphabet) {
      AllSafeIsInvisible(locale, alphabet);
    } else {
      var c :| c in alphabet && !SafeChar(locale, c);
      UnsafeIsVisible(locale, alphabet, c);
    }
  }

  // ---------- which submissions are correct ----------

  lemma NormalizeTrims(locale: Locale, s: string)
    ensures Normalize(locale, Trim(s)) == Normalize(locale, s)
  {
    TrimIsIdempotent(s);
  }

  /** A submission with the normal form of any answer of the item is correct. */
  lemma AnswerIsCorrect(locale: Locale, item: Item, c: string, submitted: string)
    requires Proper(locale) && Delimits(locale) && AnswersItem(item, c)
    requires Normalize(locale, submitted) == Normalize(locale, c) != ""
    ensures Judge(locale, item, submitted).correct
  {
    NormalizeTrims(locale, submitted);
    AnswerHasCandidate(locale, item, c);
    DeduplicatedForms(locale, Candidates(item));
    NormalizedMatchIsFound(locale, Deduplicated(locale, Candidates(item)), submitted);
  }

  /** Typing the expected answer, any part of it between commas, semicolons and slashes, or any accepted answer
      is correct, if it has a letter or digit at all. */
  lemma TypedAnswerIsCorrect(locale: Locale, item: Item, c: string)
    requires Proper(locale) && Delimits(locale) && Normalize(locale, c) != ""
    requires c == ExerciseAnswer(item) || c in item.acceptedAnswers || (item.kind == Word && IsPart(Trim(item.answer), c))
    ensures Judge(locale, item, c).correct
  {
    AnswerIsCorrect(locale, item, c, c);
  }

  lemma {:induction false} FirstMatchIs(locale: Locale, candidates: seq<string>, submitted: string)
    ensures var judgement := FirstMatch(locale, candidates, submitted);
            if judgement.correct then
              && judgement.matchedAnswer in candidates
              && judgement.reason == (if MatchesExactly(locale, submitted, judgement.matchedAnswer) then AcceptedExact else AcceptedNormalized)
              && (MatchesExactly(locale, submitted, judgement.matchedAnswer) || MatchesNormalized(locale, submitted, judgement.matchedAnswer))
            else judgement == Judgement(false, RejectedNoMatch, "")
  {
    if candidates != [] { FirstMatchIs(locale, candidates[1..], submitted); }
  }

  /** A correct judgement names an answer of the item that the submission matches, as the same text but for
      letter case and outer white space, or else by its normal form; the others say whether there was anything
      to judge. */
  lemma JudgementIsExplained(locale: Locale, item: Item, submitted: string)
    ensures var judgement := Judge(locale, item, submitted);
            && (judgement.correct ==>
                  && AnswersItem(item, judgement.matchedAnswer) && Normalize(locale, judgement.matchedAnswer) != ""
                  && if LowerAll(locale, Trim(submitted)) == LowerAll(locale, Trim(judgement.matchedAnswer))
                     then judgement.reason == AcceptedExact
                     else judgement.reason == AcceptedNormalized
                          && Normalize(locale, submitted) == Normalize(locale, judgement.matchedAnswer))
            && (!judgement.correct ==>
                  judgement.matchedAnswer == ""
                  && judgement.reason == if Normalize(locale, submitted) == "" then RejectedNoAnswer else RejectedNoMatch)
            && (Normalize(locale, submitted) == "" ==> !judgement.correct)
  {
    NormalizeTrims(locale, submitted);
    FirstMatchIs(locale, Deduplicated(locale, Candidates(item)), submitted);
    DeduplicatedForms(locale, Candidates(item));
    var judgement := Judge(locale, item, submitted);
    if judgement.correct { CandidatesAnswer(item, judgement.matchedAnswer); }
  }

  lemma CandidatesStartWith(item: Item)
    requires ExerciseAnswer(item) != ""
    ensures Candidates(item) != [] && Candidates(item)[0] == ExerciseAnswer(item)
  {
    TrimIsIdempotent(item.answer);
  }

  lemma {:induction false} DeduplicatedStartsWith(locale: Locale, candidates: seq<string>)
    requires candidates != [] && Normalize(locale, candidates[0]) != ""
    ensures Deduplicated(locale, candidates) != [] && Deduplicated(locale, candidates)[0] == candidates[0]
  {
    if |candidates| == 1 {
      assert candidates[..0] == [] && Deduplicated(locale, []) == [] && NormalForms(locale, []) == {};
    } else {
      DeduplicatedStartsWith(locale, candidates[..|candidates| - 1]);
    }
  }

  /** The expected answer comes before all others. */
  lemma ExpectedComesFirst(locale: Locale, item: Item, submitted: string)
    requires Normalize(locale, submitted) == Normalize(locale, ExerciseAnswer(item)) != ""
    ensures var judgement := Judge(locale, item, submitted);
            judgement.correct && judgement.matchedAnswer == ExerciseAnswer(item)
  {
    NormalizeTrims(locale, submitted);
    NormalizeOfEmpty(locale);
    CandidatesStartWith(item);
    DeduplicatedStartsWith(locale, Candidates(item));
  }

  /** Over safe texts a submission is correct if and only if it has the normal form, and one that is not empty,
      of some answer of the item. */
  lemma CorrectIffAnswers(locale: Locale, item: Item, submitted: string)
    requires Proper(locale) && Delimits(locale) && SafeText(locale, Trim(submitted))
    requires forall c :: AnswersItem(item, c) ==> SafeText(locale, Trim(c))
    ensures Judge(locale, item, submitted).correct
            <==> Normalize(locale, submitted) != "" && exists c :: AnswersItem(item, c) && Normalize(locale, c) == Normalize(locale, submitted)
  {
    var judgement := Judge(locale, item, submitted);
    JudgementIsExplained(locale, item, submitted);
    NormalizeTrims(locale, submitted);
    if judgement.correct {
      var c := judgement.matchedAnswer;
      if MatchesExactly(locale, submitted, c) { ExactImpliesNormalized(locale, submitted, c); }
      assert AnswersItem(item, c) && Normalize(locale, c) == Normalize(locale, submitted);
    }
    if Normalize(locale, submitted) != "" {
      forall c | AnswersItem(item, c) && Normalize(locale, c) == Normalize(locale, submitted) ensures judgement.correct {
        AnswerIsCorrect(locale, item, c, submitted);
      }
    }
  }

  // ---------- the expected answer by cases ----------

  /** A word is answered by its answer, and so is a phrase without a gap. */
  lemma PlainAnswer(item: Item)
    requires item.kind == Word || item.cloze == None || item.cloze == Some("")
    ensures ExerciseAnswer(item) == Trim(item.answer)
  {
  }

  /** A phrase with a gap is answered by the given filling if there is one, else by what fills the gap in the
      prompt, and by its whole answer if nothing does. */
  lemma GapAnswer(item: Item, before: string, blank: string, after: string)
    requires item.kind == Phrase && item.cloze == Some(before + blank + after)
    requires '_' !in before && '_' !in after && blank != "" && blank[0] == '_' && blank[|blank| - 1] == '_'
    ensures item.clozeAnswer.Some? && Trim(item.clozeAnswer.value) != "" ==> ExerciseAnswer(item) == Trim(item.clozeAnswer.value)
    ensures item.clozeAnswer.None? || Trim(item.clozeAnswer.value) == "" ==>
              && (forall filled :: item.prompt == before + filled + after && Trim(filled) != "" ==> ExerciseAnswer(item) == Trim(filled))
              && ((forall filled :: item.prompt == before + filled + after ==> Trim(filled) == "") ==> ExerciseAnswer(item) == Trim(item.answer))
  {
    ClozeParts(before, blank, after);
    if item.clozeAnswer.None? || Trim(item.clozeAnswer.value) == "" {
      forall filled | item.prompt == before + filled + after && Trim(filled) != "" ensures ExerciseAnswer(item) == Trim(filled) {
        ClozeInfersTheGap(before, blank, after, filled);
      }
      var inferred := InferClozeAnswer(item.prompt, item.cloze.value);
      if inferred != "" {
        var filled := item.prompt[|before|..|item.prompt| - |after|];
        assert item.prompt == before + filled + after;
      }
    }
  }

  /** A phrase whose cloze has no gap at all is answered by the given filling or its whole answer. */
  lemma NoGapAnswer(item: Item)
    requires item.kind == Phrase && item.cloze.Some? && '_' !in item.cloze.value
    requires item.clozeAnswer.None? || Trim(item.clozeAnswer.value) == ""
    ensures ExerciseAnswer(item) == Trim(item.answer)
  {
  }
}
