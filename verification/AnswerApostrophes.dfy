/** Apostrophes in typed answers: a variant is ignored exactly when it does not count as a letter. The
    third variant the code names, U+02BC, is a modifier letter and does.
 */
module AnswerApostrophes {
  import opened Basics
  import opened Whitespace
  import opened AnswerText
  import opened AnswerJudging

  lemma KeptLengthens(a: seq<Mark>, c: char, b: seq<Mark>)
    ensures Words(a + [Kept(c)] + b) != Words(a + b)
  {
    WordsKeepLetters(a + [Kept(c)] + b);
    WordsKeepLetters(a + b);
    TextOfConcat(a + [Kept(c)], b);
    TextOfConcat(a, [Kept(c)]);
    TextOfConcat(a, b);
    assert [Kept(c)][1..] == [];
  }

  lemma MarksOfApostrophe(locale: Locale, c: char)
    requires IsApostrophe(c) && locale.lower(c) == [c]
    ensures MarksOf(locale, c) == if locale.letter(c) then [Kept(c)] else []
  {
    assert FoldChar(locale, c) == [c];
  }

  lemma TokensAround(locale: Locale, a: string, c: char, b: string)
    requires IsApostrophe(c) && locale.lower(c) == [c]
    ensures Tokens(locale, a + [c] + b) == Tokens(locale, a + b) <==> !locale.letter(c)
  {
    var before, after := Marks(locale, a), Marks(locale, b);
    MarksAt(locale, a, c, b);
    MarksOfConcat(locale, a, b);
    MarksOfApostrophe(locale, c);
    if locale.letter(c) {
      KeptLengthens(before, c, after);
    } else {
      assert before + [] + after == before + after;
    }
  }

  /** An apostrophe anywhere in a text makes no difference if and only if it is not a letter. */
  lemma ApostropheIgnoredIff(locale: Locale, a: string, c: char, b: string)
    requires Proper(locale) && c in {'\'', '’', 'ʼ'} && locale.lower(c) == [c]
    ensures Normalize(locale, a + [c] + b) == Normalize(locale, a + b) <==> !locale.letter(c)
  {
    NormalizeSeparatesTokens(locale, a + [c] + b, a + b);
    TokensAround(locale, a, c, b);
  }

  // ---------- and what that means for judging ----------

  lemma {:induction false} TrimStartBefore(a: string, c: char, b: string)
    requires !IsSpace(c)
    ensures TrimStart(a + [c] + b) == TrimStart(a) + [c] + b
  {
    if a == "" {
      assert a + [c] + b == [c] + b;
      assert TrimStart(a) + [c] + b == [c] + b;
    } else if IsSpace(a[0]) {
      assert (a + [c] + b)[1..] == a[1..] + [c] + b;
      TrimStartBefore(a[1..], c, b);
    }
  }

  lemma {:induction false} TrimEndAfter(a: string, c: char, b: string)
    requires !IsSpace(c)
    ensures TrimEnd(a + [c] + b) == a + [c] + TrimEnd(b)
  {
    var all := a + [c] + b;
    if b == "" {
      assert all == a + [c] && all[|all| - 1] == c;
    } else if IsSpace(b[|b| - 1]) {
      assert all[..|all| - 1] == a + [c] + b[..|b| - 1];
      TrimEndAfter(a, c, b[..|b| - 1]);
    }
  }

  lemma LowerAround(locale: Locale, a: string, c: char, b: string)
    requires !IsSpace(c) && locale.lower(c) == [c]
    ensures LowerAll(locale, Trim(a + [c] + b)) == LowerAll(locale, TrimStart(a)) + [c] + LowerAll(locale, TrimEnd(b))
  {
    TrimStartBefore(a, c, b);
    TrimEndAfter(TrimStart(a), c, b);
    LowerOfConcat(locale, TrimStart(a) + [c], TrimEnd(b));
    LowerOfConcat(locale, TrimStart(a), [c]);
    assert [c][1..] == "";
    assert LowerAll(locale, [c]) == [c];
  }

  lemma OtherApostropheIsNotExact(locale: Locale, a: string, c: char, d: char, b: string)
    requires IsApostrophe(c) && IsApostrophe(d) && c != d && locale.lower(c) == [c] && locale.lower(d) == [d]
    ensures !MatchesExactly(locale, a + [c] + b, a + [d] + b)
  {
    LowerAround(locale, a, c, b);
    LowerAround(locale, a, d, b);
    var before, after := LowerAll(locale, TrimStart(a)), LowerAll(locale, TrimEnd(b));
    assert (before + [c] + after)[|before|] == c && (before + [d] + after)[|before|] == d;
  }

  /** An item whose only answer is the given text. */
  function OnlyAnswer(answer: string): Item { Item(Phrase, "", answer, None, None, []) }

  lemma JudgedAgainstOnlyAnswer(locale: Locale, answer: string, submitted: string)
    requires Normalize(locale, Trim(answer)) != ""
    ensures Judge(locale, OnlyAnswer(answer), submitted)
            == JudgeAgainst(locale, [Trim(answer)], submitted)
  {
    var one := [Trim(answer)];
    assert Candidates(OnlyAnswer(answer)) == one;
    assert one[..0] == [] && NormalForms(locale, []) == {};
    assert Deduplicated(locale, one) == one;
  }

  lemma TrimmedNormalizes(locale: Locale, s: string)
    requires Proper(locale)
    ensures Normalize(locale, Trim(s)) == Normalize(locale, s)
  {
    TokensOfTrimmed(locale, s);
    NormalizeSeparatesTokens(locale, Trim(s), s);
  }

  /** Typed with another apostrophe than the stored answer has, an answer is accepted if and only if that
      apostrophe is not a letter. */
  lemma VariantAcceptedIff(locale: Locale, a: string, c: char, d: char, b: string)
    requires Proper(locale) && c in {'\'', '’', 'ʼ'} && d in {'\'', '’', 'ʼ'} && locale.lower(c) == [c] && locale.lower(d) == [d]
    requires !locale.letter(d) && Normalize(locale, a + b) != ""
    ensures Judge(locale, OnlyAnswer(a + [d] + b), a + [c] + b).correct <==> !locale.letter(c)
  {
    var answer, submitted := a + [d] + b, a + [c] + b;
    ApostropheIgnoredIff(locale, a, c, b);
    ApostropheIgnoredIff(locale, a, d, b);
    TrimmedNormalizes(locale, answer);
    TrimmedNormalizes(locale, submitted);
    TrimIsIdempotent(answer);
    JudgedAgainstOnlyAnswer(locale, answer, submitted);
    FirstMatchOfOne(locale, Trim(answer), submitted);
    if locale.letter(c) { OtherApostropheIsNotExact(locale, a, c, d, b); }
  }

  /** With U+02BC a letter, as Unicode has it, that spelling of "don't" is rejected. */
  lemma ModifierApostropheRejected(locale: Locale)
    requires Proper(locale) && locale.letter('ʼ') && locale.lower('ʼ') == ['ʼ']
    requires !locale.letter('\'') && locale.lower('\'') == ['\''] && locale.letter('d') && locale.lower('d') == ['d']
    ensures !Judge(locale, OnlyAnswer("don" + ['\''] + "t"), "don" + ['ʼ'] + "t").correct
  {
    NotEmpty(locale, 'd', "ont");
    assert "don" + "t" == ['d'] + "ont";
    VariantAcceptedIff(locale, "don", 'ʼ', '\'', "t");
  }

  lemma NotEmpty(locale: Locale, c: char, rest: string)
    requires Proper(locale) && locale.letter(c) && locale.lower(c) == [c]
    ensures Normalize(locale, [c] + rest) != ""
  {
    assert ([c] + rest)[1..] == rest;
    assert c != YO ==> FoldChar(locale, c) == [c];
    var marks := Marks(locale, [c] + rest);
    assert marks != [] && marks[0].Kept?;
    NormalizeJoinsTokens(locale, [c] + rest);
    TokensAreSettled(locale, [c] + rest);
    JoinedEnds(locale, Words(marks));
  }
}
