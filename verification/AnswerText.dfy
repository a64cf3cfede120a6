/** Normalisation of typed answers: one pass that lower-cases, drops apostrophes unless they count as
    letters, reads ё as е and keeps runs of letters and digits separated by single spaces.
 */
module AnswerText {
  import opened Whitespace

  /** The runtime's lower-casing of one character, which may give none or several characters, and
      its letter-or-digit test. */
  datatype Locale = Locale(lower: char -> string, letter: char -> bool)

  const YO := 'ё'
  const YE := 'е'

  predicate IsApostrophe(c: char) { c == '\'' || c == '’' || c == 'ʼ' }

  /** What the model takes from the locale: lower-casing twice is lower-casing once, and white space is
      left alone and is neither letter nor digit. An apostrophe may well be a letter: U+02BC is one. */
  ghost predicate Proper(locale: Locale) {
    && (forall c, i :: 0 <= i < |locale.lower(c)| ==> locale.lower(locale.lower(c)[i]) == [locale.lower(c)[i]])
    && (forall c :: IsSpace(c) ==> locale.lower(c) == [c] && !locale.letter(c))
    && locale.letter(YE) && locale.lower(YE) == [YE]
  }

  // ---------- one pass over marked characters ----------

  /** What one input character means to the pass: a kept letter or digit, or a gap. */
  datatype Mark = Kept(c: char) | Gap

  function FoldChar(locale: Locale, c: char): string {
    if locale.lower(c) == [YO] then [YE] else locale.lower(c)
  }

  function MarksOf(locale: Locale, c: char): seq<Mark> {
    var folded := FoldChar(locale, c);
    if |folded| == 1 && locale.letter(folded[0]) then [Kept(folded[0])]
    else if |folded| == 1 && IsApostrophe(folded[0]) then []
    else [Gap]
  }

  function Marks(locale: Locale, s: string): seq<Mark> {
    if s == "" then [] else MarksOf(locale, s[0]) + Marks(locale, s[1..])
  }

  /** The state of the pass: the text so far and whether a space is due before the next letter. */
  function Pass(normalized: string, spacePending: bool, marks: seq<Mark>): string
    decreases |marks|
  {
    if marks == [] then normalized
    else match marks[0]
      case Kept(c) => Pass(normalized + (if spacePending && normalized != "" then " " else "") + [c], false, marks[1..])
      case Gap => Pass(normalized, normalized != "", marks[1..])
  }

  /** The normalised form, trims included. */
  function Normalize(locale: Locale, value: string): string {
    Trim(Pass("", false, Marks(locale, Trim(value))))
  }

  method NormalizeAnswer(locale: Locale, value: string) returns (result: string)
    ensures result == Normalize(locale, value)
  {
    var normalized := "";
    var spacePending := false;
    var input := Trim(value);
    for i := 0 to |input|
      invariant Pass(normalized, spacePending, Marks(locale, input[i..])) == Pass("", false, Marks(locale, input))
    {
      var lowered := locale.lower(input[i]);
      var character := if lowered == [YO] then [YE] else lowered;
      assert input[i..][1..] == input[i + 1..];
      PassStep(normalized, spacePending, MarksOf(locale, input[i]), Marks(locale, input[i + 1..]));
      if |character| == 1 && locale.letter(character[0]) {
        assert character == [character[0]];
        assert normalized + "" == normalized;
        if spacePending && normalized != "" { normalized := normalized + " "; }
        normalized := normalized + character;
        spacePending := false;
      } else if |character| == 1 && IsApostrophe(character[0]) {
      } else {
        spacePending := normalized != "";
      }
    }
    result := Trim(normalized);
  }

  /** The state of the pass after the marks of one input character. */
  function After(normalized: string, spacePending: bool, first: seq<Mark>): (string, bool)
    requires |first| <= 1
  {
    if first == [] then (normalized, spacePending)
    else match first[0]
      case Kept(c) => (normalized + (if spacePending && normalized != "" then " " else "") + [c], false)
      case Gap => (normalized, normalized != "")
  }

  lemma PassStep(normalized: string, spacePending: bool, first: seq<Mark>, rest: seq<Mark>)
    requires |first| <= 1
    ensures var (soFar, pending) := After(normalized, spacePending, first);
            Pass(normalized, spacePending, first + rest) == Pass(soFar, pending, rest)
  {
    if first == [] {
      assert first + rest == rest;
    } else {
      assert (first + rest)[1..] == rest;
    }
  }

  // ---------- words: the maximal runs of kept characters ----------

  function RunLength(marks: seq<Mark>): (n: nat)
    ensures n <= |marks|
    ensures n > 0 <==> marks != [] && marks[0].Kept?
  {
    if marks == [] || marks[0].Gap? then 0 else 1 + RunLength(marks[1..])
  }

  /** The kept characters among the marks. */
  function Text(marks: seq<Mark>): string {
    if marks == [] then "" else (if marks[0].Kept? then [marks[0].c] else "") + Text(marks[1..])
  }

  function Words(marks: seq<Mark>): seq<string>
    decreases |marks|
  {
    if marks == [] then []
    else if marks[0].Gap? then Words(marks[1..])
    else [Text(marks[..RunLength(marks)])] + Words(marks[RunLength(marks)..])
  }

  /** The words of a text: characters folded, apostrophes that are no letters deleted, cut at everything
      else that is not a letter or digit. */
  function Tokens(locale: Locale, s: string): seq<string> { Words(Marks(locale, s)) }

  function JoinWords(words: seq<string>): string {
    if words == [] then "" else if |words| == 1 then words[0] else words[0] + " " + JoinWords(words[1..])
  }

  /** The words that follow, set off by a space if there are any. */
  function Tail(words: seq<string>): string {
    if words == [] then "" else " " + JoinWords(words)
  }

  lemma {:induction false} PassJoinsWords(normalized: string, spacePending: bool, marks: seq<Mark>)
    ensures normalized == "" ==> Pass(normalized, spacePending, marks) == JoinWords(Words(marks))
    ensures normalized != "" && spacePending ==> Pass(normalized, spacePending, marks) == normalized + Tail(Words(marks))
    ensures normalized != "" && !spacePending ==>
      Pass(normalized, spacePending, marks)
      == normalized + Text(marks[..RunLength(marks)]) + Tail(Words(marks[RunLength(marks)..]))
    decreases |marks|
  {
    if marks != [] {
      if marks[0].Gap? {
        PassJoinsWords(normalized, normalized != "", marks[1..]);
        assert marks[0..] == marks;
      } else {
        PassJoinsFromWord(normalized, spacePending, marks);
      }
    }
  }

  lemma {:induction false} PassJoinsFromWord(normalized: string, spacePending: bool, marks: seq<Mark>)
    requires marks != [] && marks[0].Kept?
    ensures normalized == "" ==> Pass(normalized, spacePending, marks) == JoinWords(Words(marks))
    ensures normalized != "" && spacePending ==> Pass(normalized, spacePending, marks) == normalized + Tail(Words(marks))
    ensures normalized != "" && !spacePending ==>
      Pass(normalized, spacePending, marks)
      == normalized + Text(marks[..RunLength(marks)]) + Tail(Words(marks[RunLength(marks)..]))
    decreases |marks|, 0
  {
    var c, rest := marks[0].c, marks[1..];
    var space := if spacePending && normalized != "" then " " else "";
    var n := RunLength(rest);
    var others, tail := Text(rest[..n]), Tail(Words(rest[n..]));
    PassJoinsWords(normalized + space + [c], false, rest);
    FirstWord(marks);
    assert Pass(normalized, spacePending, marks) == normalized + space + [c] + others + tail;
    Reassociate(normalized, space, [c], others, tail);
  }

  lemma Reassociate(normalized: string, space: string, first: string, others: string, tail: string)
    ensures normalized + space + first + others + tail == normalized + (space + (first + others + tail))
    ensures normalized + space + first + others + tail == normalized + space + (first + others) + tail
    ensures "" + (first + others + tail) == first + others + tail && normalized + "" == normalized
  {
    assert normalized + space + first + others == normalized + space + (first + others);
  }

  lemma FirstWord(marks: seq<Mark>)
    requires marks != [] && marks[0].Kept?
    ensures var n := RunLength(marks[1..]);
            && RunLength(marks) == n + 1
            && Text(marks[..n + 1]) == [marks[0].c] + Text(marks[1..][..n])
            && marks[n + 1..] == marks[1..][n..]
            && Words(marks) == [Text(marks[..n + 1])] + Words(marks[n + 1..])
            && JoinWords(Words(marks)) == Text(marks[..n + 1]) + Tail(Words(marks[n + 1..]))
  {
    var n := RunLength(marks[1..]);
    assert marks[..n + 1][1..] == marks[1..][..n];
    JoinOfCons(Text(marks[..n + 1]), Words(marks[n + 1..]));
  }

  lemma JoinOfCons(first: string, rest: seq<string>)
    ensures JoinWords([first] + rest) == first + Tail(rest)
  {
    assert ([first] + rest)[1..] == rest;
  }

  // ---------- trims, idempotence, equality ----------

  lemma MarksOfCons(locale: Locale, c: char, rest: string)
    ensures Marks(locale, [c] + rest) == MarksOf(locale, c) + Marks(locale, rest)
  {
    assert ([c] + rest)[1..] == rest;
  }

  lemma Regrouped(a: seq<Mark>, b: seq<Mark>, c: seq<Mark>)
    ensures (a + b) + c == a + (b + c)
  {
  }

  lemma {:induction false} MarksOfConcat(locale: Locale, a: string, b: string)
    ensures Marks(locale, a + b) == Marks(locale, a) + Marks(locale, b)
  {
    if a == "" {
      assert a + b == b;
    } else {
      var c, rest := a[0], a[1..];
      MarksOfConcat(locale, rest, b);
      assert a == [c] + rest && a + b == [c] + (rest + b);
      MarksOfCons(locale, c, rest);
      MarksOfCons(locale, c, rest + b);
      Regrouped(MarksOf(locale, c), Marks(locale, rest), Marks(locale, b));
    }
  }

  ghost predicate AllGaps(marks: seq<Mark>) { forall i :: 0 <= i < |marks| ==> marks[i] == Gap }

  lemma {:induction false} MarksOfSpaces(locale: Locale, spaces: string)
    requires Proper(locale) && forall i :: 0 <= i < |spaces| ==> IsSpace(spaces[i])
    ensures AllGaps(Marks(locale, spaces))
  {
    if spaces != "" {
      assert IsSpace(spaces[0]);
      assert FoldChar(locale, spaces[0]) == [spaces[0]];
      MarksOfSpaces(locale, spaces[1..]);
    }
  }

  lemma {:induction false} LeadingGapsDoNotMatter(gaps: seq<Mark>, marks: seq<Mark>)
    requires AllGaps(gaps)
    ensures Words(gaps + marks) == Words(marks)
  {
    if gaps == [] {
      assert gaps + marks == marks;
    } else {
      assert gaps[0] == Gap;
      LeadingGapsDoNotMatter(gaps[1..], marks);
      assert (gaps + marks)[1..] == gaps[1..] + marks;
    }
  }

  lemma {:induction false} RunBeforeGap(marks: seq<Mark>, rest: seq<Mark>)
    requires rest == [] || rest[0] == Gap
    ensures RunLength(marks + rest) == RunLength(marks)
  {
    if marks == [] {
      assert marks + rest == rest;
    } else {
      assert (marks + rest)[1..] == marks[1..] + rest;
      RunBeforeGap(marks[1..], rest);
    }
  }

  lemma {:induction false} TrailingGapsDoNotMatter(marks: seq<Mark>, gaps: seq<Mark>)
    requires AllGaps(gaps)
    ensures Words(marks + gaps) == Words(marks)
    decreases |marks|
  {
    var all := marks + gaps;
    if marks == [] {
      LeadingGapsDoNotMatter(gaps, []);
      assert gaps + [] == gaps == all;
    } else if marks[0].Gap? {
      assert all[1..] == marks[1..] + gaps;
      TrailingGapsDoNotMatter(marks[1..], gaps);
    } else {
      var n := RunLength(marks);
      RunBeforeGap(marks, gaps);
      assert all[..n] == marks[..n] && all[n..] == marks[n..] + gaps;
      TrailingGapsDoNotMatter(marks[n..], gaps);
    }
  }

  /** Trimming first makes no difference to the words. */
  lemma TokensOfTrimmed(locale: Locale, s: string)
    requires Proper(locale)
    ensures Tokens(locale, Trim(s)) == Tokens(locale, s)
  {
    var leading, trailing := TrimSplits(s);
    MarksOfConcat(locale, leading, Trim(s));
    MarksOfConcat(locale, leading + Trim(s), trailing);
    MarksOfSpaces(locale, leading);
    MarksOfSpaces(locale, trailing);
    TrailingGapsDoNotMatter(Marks(locale, leading) + Marks(locale, Trim(s)), Marks(locale, trailing));
    LeadingGapsDoNotMatter(Marks(locale, leading), Marks(locale, Trim(s)));
  }

  /** A letter or digit the pass leaves as it is. */
  predicate Settled(locale: Locale, c: char) { locale.letter(c) && FoldChar(locale, c) == [c] }

  ghost predicate SettledWord(locale: Locale, word: string) {
    word != "" && forall i :: 0 <= i < |word| ==> Settled(locale, word[i])
  }

  ghost predicate SettledMarks(locale: Locale, marks: seq<Mark>) {
    forall i :: 0 <= i < |marks| && marks[i].Kept? ==> Settled(locale, marks[i].c)
  }

  lemma {:induction false} MarksAreSettled(locale: Locale, s: string)
    requires Proper(locale)
    ensures SettledMarks(locale, Marks(locale, s))
  {
    if s != "" {
      MarksAreSettled(locale, s[1..]);
      var folded := FoldChar(locale, s[0]);
      assert |folded| == 1 && folded != [YE] ==> locale.lower(folded[0]) == [folded[0]];
    }
  }

  lemma {:induction false} TextOfRun(locale: Locale, marks: seq<Mark>)
    requires SettledMarks(locale, marks)
    ensures var text := Text(marks[..RunLength(marks)]);
            |text| == RunLength(marks) && forall i :: 0 <= i < |text| ==> Settled(locale, text[i])
  {
    if marks != [] && marks[0].Kept? {
      FirstWord(marks);
      TextOfRun(locale, marks[1..]);
    }
  }

  lemma {:induction false} WordsAreSettled(locale: Locale, marks: seq<Mark>)
    requires SettledMarks(locale, marks)
    ensures forall k :: 0 <= k < |Words(marks)| ==> SettledWord(locale, Words(marks)[k])
    decreases |marks|
  {
    if marks != [] {
      if marks[0].Gap? {
        WordsAreSettled(locale, marks[1..]);
      } else {
        TextOfRun(locale, marks);
        WordsAreSettled(locale, marks[RunLength(marks)..]);
      }
    }
  }

  lemma TokensAreSettled(locale: Locale, s: string)
    requires Proper(locale)
    ensures forall k :: 0 <= k < |Tokens(locale, s)| ==> SettledWord(locale, Tokens(locale, s)[k])
  {
    MarksAreSettled(locale, s);
    WordsAreSettled(locale, Marks(locale, s));
  }

  lemma {:induction false} JoinedEnds(locale: Locale, words: seq<string>)
    requires words != [] && forall k :: 0 <= k < |words| ==> SettledWord(locale, words[k])
    ensures var joined := JoinWords(words);
            joined != "" && Settled(locale, joined[0]) && Settled(locale, joined[|joined| - 1])
  {
    assert SettledWord(locale, words[0]);
    if |words| > 1 {
      JoinedEnds(locale, words[1..]);
    }
  }

  /** Normalising is listing the words with single spaces between them: both trims change nothing. */
  lemma NormalizeJoinsTokens(locale: Locale, value: string)
    requires Proper(locale)
    ensures Normalize(locale, value) == JoinWords(Tokens(locale, value))
    ensures Normalize(locale, value) == Pass("", false, Marks(locale, value))
  {
    var words := Tokens(locale, value);
    TokensOfTrimmed(locale, value);
    PassJoinsWords("", false, Marks(locale, Trim(value)));
    PassJoinsWords("", false, Marks(locale, value));
    TokensAreSettled(locale, value);
    if words != [] {
      JoinedEnds(locale, words);
    }
  }

  lemma {:induction false} MarksOfSettledWord(locale: Locale, word: string)
    requires forall i :: 0 <= i < |word| ==> Settled(locale, word[i])
    ensures |Marks(locale, word)| == |word| && Text(Marks(locale, word)) == word
    ensures RunLength(Marks(locale, word)) == |word|
  {
    if word != "" {
      assert Settled(locale, word[0]);
      MarksOfSettledWord(locale, word[1..]);
      assert Marks(locale, word)[1..] == Marks(locale, word[1..]);
    }
  }

  /** The words of a joined list are the list. */
  lemma {:induction false} TokensOfJoined(locale: Locale, words: seq<string>)
    requires Proper(locale) && forall k :: 0 <= k < |words| ==> SettledWord(locale, words[k])
    ensures Tokens(locale, JoinWords(words)) == words
  {
    if words != [] {
      var first, rest := words[0], words[1..];
      assert SettledWord(locale, first);
      TokensOfJoined(locale, rest);
      JoinOfCons(first, rest);
      assert [first] + rest == words;
      var front := Marks(locale, first);
      var back := Marks(locale, Tail(rest));
      MarksOfSettledWord(locale, first);
      MarksOfConcat(locale, first, Tail(rest));
      MarksOfTail(locale, rest);
      RunBeforeGap(front, back);
      assert (front + back)[..|front|] == front && (front + back)[|front|..] == back;
    }
  }

  lemma MarksOfTail(locale: Locale, words: seq<string>)
    requires Proper(locale)
    ensures var marks := Marks(locale, Tail(words));
            (marks == [] || marks[0] == Gap) && Words(marks) == if words == [] then [] else Tokens(locale, JoinWords(words))
  {
    if words != [] {
      MarksOfConcat(locale, " ", JoinWords(words));
      MarksOfSpaces(locale, " ");
      assert " "[1..] == "";
      assert FoldChar(locale, ' ') == [' '];
      LeadingGapsDoNotMatter(Marks(locale, " "), Marks(locale, JoinWords(words)));
    }
  }

  lemma NormalizeIsIdempotent(locale: Locale, value: string)
    requires Proper(locale)
    ensures Normalize(locale, Normalize(locale, value)) == Normalize(locale, value)
  {
    NormalizeJoinsTokens(locale, value);
    NormalizeJoinsTokens(locale, Normalize(locale, value));
    TokensAreSettled(locale, value);
    TokensOfJoined(locale, Tokens(locale, value));
  }

  /** Two texts normalise alike exactly when they have the same words. */
  lemma NormalizeSeparatesTokens(locale: Locale, a: string, b: string)
    requires Proper(locale)
    ensures Normalize(locale, a) == Normalize(locale, b) <==> Tokens(locale, a) == Tokens(locale, b)
  {
    NormalizeJoinsTokens(locale, a);
    NormalizeJoinsTokens(locale, b);
    TokensAreSettled(locale, a);
    TokensAreSettled(locale, b);
    TokensOfJoined(locale, Tokens(locale, a));
    TokensOfJoined(locale, Tokens(locale, b));
  }

  // ---------- letter case and ё ----------

  lemma MarksAt(locale: Locale, a: string, c: char, b: string)
    ensures Marks(locale, a + [c] + b) == Marks(locale, a) + MarksOf(locale, c) + Marks(locale, b)
  {
    MarksOfConcat(locale, a + [c], b);
    MarksOfConcat(locale, a, [c]);
    assert [c][1..] == "";
    assert Marks(locale, [c]) == MarksOf(locale, c);
  }

  /** Letter case makes no difference, and neither does ё for е. */
  lemma CaseAndYoIgnored(locale: Locale, a: string, c: char, d: char, b: string)
    requires Proper(locale)
    requires locale.lower(c) == locale.lower(d) || (locale.lower(c) == "ё" && locale.lower(d) == "е")
    ensures Normalize(locale, a + [c] + b) == Normalize(locale, a + [d] + b)
  {
    MarksAt(locale, a, c, b);
    MarksAt(locale, a, d, b);
    assert FoldChar(locale, c) == FoldChar(locale, d);
    NormalizeSeparatesTokens(locale, a + [c] + b, a + [d] + b);
  }
}
