/** The round-robin interleaving of groups and the word lists of a lesson built with it. */
module WordMixing {
  import opened Basics

  function Max(a: int, b: int): int { if a >= b then a else b }

  // ---------- rows ----------

  /** The elements at index `k` of the groups that have one, in group order. */
  function Row<T>(groups: seq<seq<T>>, k: nat): seq<T> {
    if groups == [] then []
    else if k < |groups[0]| then [groups[0][k]] + Row(groups[1..], k)
    else Row(groups[1..], k)
  }

  function Longest<T>(groups: seq<seq<T>>): nat {
    if groups == [] then 0 else Max(|groups[0]|, Longest(groups[1..]))
  }

  /** All rows from index `k` on, one after the other. */
  function RowsFrom<T>(groups: seq<seq<T>>, k: nat): seq<T>
    decreases Longest(groups) - k
  {
    if k >= Longest(groups) then [] else Row(groups, k) + RowsFrom(groups, k + 1)
  }

  function Interleaved<T>(groups: seq<seq<T>>): seq<T> { RowsFrom(groups, 0) }

  lemma RowStep<T>(groups: seq<seq<T>>, g: nat, k: nat, row: seq<T>)
    requires g < |groups|
    ensures row + Row(groups[g..], k)
            == (if k < |groups[g]| then row + [groups[g][k]] else row) + Row(groups[g + 1..], k)
  {
    assert groups[g..][1..] == groups[g + 1..];
    if k < |groups[g]| {
      assert row + [groups[g][k]] + Row(groups[g + 1..], k) == row + ([groups[g][k]] + Row(groups[g + 1..], k));
    }
  }

  /** One turn: every group that has an element left gives its next one. */
  method TakeTurn<T>(groups: seq<seq<T>>, indexes: array<nat>, ghost k: nat) returns (row: seq<T>)
    requires indexes.Length == |groups|
    requires forall g :: 0 <= g < |groups| ==> indexes[g] == Min(|groups[g]|, k)
    modifies indexes
    ensures row == Row(groups, k)
    ensures forall g :: 0 <= g < |groups| ==> indexes[g] == Min(|groups[g]|, k + 1)
  {
    row := [];
    for groupIndex := 0 to |groups|
      invariant forall g :: 0 <= g < |groups| ==> indexes[g] == Min(|groups[g]|, if g < groupIndex then k + 1 else k)
      invariant row + Row(groups[groupIndex..], k) == Row(groups, k)
    {
      var group := groups[groupIndex];
      RowStep(groups, groupIndex, k, row);
      if indexes[groupIndex] < |group| {
        row := row + [group[indexes[groupIndex]]];
        indexes[groupIndex] := indexes[groupIndex] + 1;
      }
    }
  }

  /** One turn adds one row, and none exactly when no row is left. */
  lemma TurnAdvances<T>(groups: seq<seq<T>>, k: nat, result: seq<T>)
    requires k <= Longest(groups)
    ensures result + Row(groups, k) + RowsFrom(groups, k + 1) == result + RowsFrom(groups, k)
    ensures Row(groups, k) == [] ==> RowsFrom(groups, k + 1) == []
    ensures Row(groups, k) != [] ==> k < Longest(groups)
  {
    EmptyRowIsLast(groups, k);
    if k < Longest(groups) {
      assert result + Row(groups, k) + RowsFrom(groups, k + 1) == result + (Row(groups, k) + RowsFrom(groups, k + 1));
    }
  }

  /** Takes one element from every group in turn until a whole turn adds nothing. */
  method RoundRobin<T>(groups: seq<seq<T>>) returns (result: seq<T>)
    ensures result == Interleaved(groups)
  {
    result := [];
    var indexes := new nat[|groups|](_ => 0);
    var added := true;
    ghost var k: nat := 0;
    while added
      invariant forall g :: 0 <= g < |groups| ==> indexes[g] == Min(|groups[g]|, k)
      invariant result + RowsFrom(groups, k) == Interleaved(groups)
      invariant !added ==> RowsFrom(groups, k) == []
      invariant added ==> k <= Longest(groups)
      decreases Longest(groups) - k, added
    {
      var row := TakeTurn(groups, indexes, k);
      TurnAdvances(groups, k, result);
      result := result + row;
      added := row != [];
      k := k + 1;
    }
  }

  lemma {:induction false} EmptyRowIsLast<T>(groups: seq<seq<T>>, k: nat)
    ensures Row(groups, k) == [] <==> k >= Longest(groups)
  {
    if groups != [] {
      EmptyRowIsLast(groups[1..], k);
    }
  }

  // ---------- where every element goes ----------

  /** Elements placed before index `k` of group `g`: every earlier group has given one more round. */
  function Position<T>(groups: seq<seq<T>>, g: int, k: nat): nat {
    if groups == [] then 0 else Min(|groups[0]|, k + if g > 0 then 1 else 0) + Position(groups[1..], g - 1, k)
  }

  lemma {:induction false} RowLength<T>(groups: seq<seq<T>>, k: nat, g: int)
    requires g <= 0
    ensures |Row(groups, k)| == Position(groups, g, k + 1) - Position(groups, g, k)
  {
    if groups != [] {
      RowLength(groups[1..], k, g - 1);
    }
  }

  lemma {:induction false} PositionAtFront<T>(groups: seq<seq<T>>, g: int, k: nat)
    requires g <= 0
    ensures Position(groups, g, k) == Position(groups, 0, k)
  {
    if groups != [] {
      PositionAtFront(groups[1..], g - 1, k);
      PositionAtFront(groups[1..], -1, k);
    }
  }

  lemma {:induction false} RowAt<T>(groups: seq<seq<T>>, g: nat, k: nat)
    requires g < |groups| && k < |groups[g]|
    ensures 0 <= Position(groups, g, k) - Position(groups, 0, k) < |Row(groups, k)|
    ensures Row(groups, k)[Position(groups, g, k) - Position(groups, 0, k)] == groups[g][k]
  {
    PositionAtFront(groups[1..], -1, k);
    if g > 0 {
      RowAt(groups[1..], g - 1, k);
    } else {
      PositionAtFront(groups, 0, k);
    }
  }

  lemma {:induction false} LongestBounds<T>(groups: seq<seq<T>>, g: nat)
    requires g < |groups|
    ensures |groups[g]| <= Longest(groups)
  {
    if g > 0 {
      LongestBounds(groups[1..], g - 1);
    }
  }

  lemma {:induction false} RowsFromAt<T>(groups: seq<seq<T>>, start: nat, g: nat, k: nat, i: int)
    requires g < |groups| && start <= k < |groups[g]| && i == Position(groups, g, k) - Position(groups, 0, start)
    ensures 0 <= i < |RowsFrom(groups, start)| && RowsFrom(groups, start)[i] == groups[g][k]
    decreases k - start
  {
    LongestBounds(groups, g);
    var row := Row(groups, start);
    if start < k {
      RowLength(groups, start, 0);
      RowsFromAt(groups, start + 1, g, k, i - |row|);
      IndexPastFront(row, RowsFrom(groups, start + 1), i);
    } else {
      RowAt(groups, g, k);
    }
  }

  lemma IndexPastFront<T>(front: seq<T>, back: seq<T>, i: int)
    requires |front| <= i < |front| + |back|
    ensures (front + back)[i] == back[i - |front|]
  {
  }

  lemma {:induction false} PositionZero<T>(groups: seq<seq<T>>, g: int)
    requires g <= 0
    ensures Position(groups, g, 0) == 0
  {
    if groups != [] {
      PositionZero(groups[1..], g - 1);
    }
  }

  /** The exact index of every element of every group in the interleaved list. */
  lemma PositionLaw<T>(groups: seq<seq<T>>, g: nat, k: nat)
    requires g < |groups| && k < |groups[g]|
    ensures Position(groups, g, k) < |Interleaved(groups)|
    ensures Interleaved(groups)[Position(groups, g, k)] == groups[g][k]
  {
    PositionZero(groups, 0);
    RowsFromAt(groups, 0, g, k, Position(groups, g, k));
  }

  /** The elements of one group keep their order. */
  lemma {:induction false} GroupOrderKept<T>(groups: seq<seq<T>>, g: nat, k: nat, k': nat)
    requires g < |groups| && k < k' < |groups[g]|
    ensures Position(groups, g, k) < Position(groups, g, k')
  {
    if g > 0 {
      GroupOrderKept(groups[1..], g - 1, k, k');
    } else {
      PositionMonotone(groups[1..], -1, k, k');
    }
  }

  lemma {:induction false} PositionMonotone<T>(groups: seq<seq<T>>, g: int, k: nat, k': nat)
    requires k <= k'
    ensures Position(groups, g, k) <= Position(groups, g, k')
  {
    if groups != [] {
      PositionMonotone(groups[1..], g - 1, k, k');
    }
  }

  // ---------- nothing lost, nothing added ----------

  function ElementsFrom<T>(groups: seq<seq<T>>, k: nat): multiset<T> {
    if groups == [] then multiset{}
    else (if k <= |groups[0]| then multiset(groups[0][k..]) else multiset{}) + ElementsFrom(groups[1..], k)
  }

  lemma {:induction false} RowElements<T>(groups: seq<seq<T>>, k: nat)
    ensures ElementsFrom(groups, k) == multiset(Row(groups, k)) + ElementsFrom(groups, k + 1)
  {
    if groups != [] {
      RowElements(groups[1..], k);
      if k < |groups[0]| {
        assert groups[0][k..] == [groups[0][k]] + groups[0][k + 1..];
      }
    }
  }

  lemma {:induction false} NoElementsLeft<T>(groups: seq<seq<T>>, k: nat)
    requires k >= Longest(groups)
    ensures ElementsFrom(groups, k) == multiset{}
  {
    if groups != [] {
      NoElementsLeft(groups[1..], k);
      assert k <= |groups[0]| ==> groups[0][k..] == [];
    }
  }

  lemma {:induction false} RowsElements<T>(groups: seq<seq<T>>, k: nat)
    ensures multiset(RowsFrom(groups, k)) == ElementsFrom(groups, k)
    decreases Longest(groups) - k
  {
    if k >= Longest(groups) {
      NoElementsLeft(groups, k);
    } else {
      RowsElements(groups, k + 1);
      RowElements(groups, k);
    }
  }

  /** Interleaving is a permutation of all elements of all groups. */
  lemma InterleavedIsPermutation<T>(groups: seq<seq<T>>)
    ensures multiset(Interleaved(groups)) == ElementsFrom(groups, 0)
  {
    RowsElements(groups, 0);
  }

  // ---------- lesson word lists ----------

  datatype Kind = Word | Phrase

  datatype Section = Noun | Verb | Adjective | Other | PhraseSection

  datatype Item = Item(id: string, kind: Kind, section: Section, topic: string)

  function InSection(items: seq<Item>, section: Section): seq<Item> {
    if items == [] then []
    else if items[0].kind == Word && items[0].section == section then [items[0]] + InSection(items[1..], section)
    else InSection(items[1..], section)
  }

  /** The words that belong to one of the four parts of speech. */
  function PartOfSpeechWords(items: seq<Item>): seq<Item> {
    if items == [] then []
    else (if items[0].kind == Word && items[0].section != PhraseSection then [items[0]] else []) + PartOfSpeechWords(items[1..])
  }

  /** The mixed list: nouns, verbs, adjectives and other words in turn. */
  method PrepareMixed(items: seq<Item>) returns (mixed: seq<Item>)
    ensures mixed == Interleaved(FourSections(items))
  {
    mixed := RoundRobin([InSection(items, Noun), InSection(items, Verb), InSection(items, Adjective), InSection(items, Other)]);
  }

  function FourSections(items: seq<Item>): seq<seq<Item>> {
    [InSection(items, Noun), InSection(items, Verb), InSection(items, Adjective), InSection(items, Other)]
  }

  lemma {:induction false} SectionsPartition(items: seq<Item>)
    ensures multiset(InSection(items, Noun)) + multiset(InSection(items, Verb)) + multiset(InSection(items, Adjective))
            + multiset(InSection(items, Other))
            == multiset(PartOfSpeechWords(items))
  {
    if items != [] {
      SectionsPartition(items[1..]);
      SectionElements(items, Noun);
      SectionElements(items, Verb);
      SectionElements(items, Adjective);
      SectionElements(items, Other);
    }
  }

  lemma SectionElements(items: seq<Item>, section: Section)
    requires items != []
    ensures multiset(InSection(items, section))
            == (if items[0].kind == Word && items[0].section == section then multiset{items[0]} else multiset{})
               + multiset(InSection(items[1..], section))
  {
  }

  lemma ElementsOfCons<T>(first: seq<T>, rest: seq<seq<T>>)
    ensures ElementsFrom([first] + rest, 0) == multiset(first) + ElementsFrom(rest, 0)
  {
    assert first[0..] == first && ([first] + rest)[1..] == rest;
  }

  lemma FourElements<T>(a: seq<T>, b: seq<T>, c: seq<T>, d: seq<T>)
    ensures ElementsFrom([a, b, c, d], 0) == multiset(a) + multiset(b) + multiset(c) + multiset(d)
  {
    ElementsOfCons(a, [b, c, d]);
    ElementsOfCons(b, [c, d]);
    ElementsOfCons(c, [d]);
    ElementsOfCons(d, []);
    assert [a] + [b, c, d] == [a, b, c, d] && [b] + [c, d] == [b, c, d] && [c] + [d] == [c, d] && [d] + [] == [d];
  }

  /** The mixed list holds exactly the words that belong to one of the four parts of speech. */
  lemma MixedIsPermutation(items: seq<Item>)
    ensures multiset(Interleaved(FourSections(items))) == multiset(PartOfSpeechWords(items))
  {
    InterleavedIsPermutation(FourSections(items));
    FourElements(InSection(items, Noun), InSection(items, Verb), InSection(items, Adjective), InSection(items, Other));
    SectionsPartition(items);
  }

  lemma {:induction false} SectionMembers(items: seq<Item>, section: Section)
    ensures forall x :: x in InSection(items, section) <==> x in items && x.kind == Word && x.section == section
  {
    if items != [] {
      SectionMembers(items[1..], section);
      assert items == [items[0]] + items[1..];
    }
  }

  /** The words of a section keep the order of the list. */
  lemma {:induction false} SectionKeepsOrder(a: seq<Item>, b: seq<Item>, section: Section)
    ensures InSection(a + b, section) == InSection(a, section) + InSection(b, section)
  {
    if a == [] {
      assert a + b == b;
    } else {
      assert (a + b)[1..] == a[1..] + b;
      SectionKeepsOrder(a[1..], b, section);
    }
  }

  /** The turn is nouns, verbs, adjectives, other words. */
  lemma SectionsTakeTurns(items: seq<Item>, x: Item)
    ensures var groups := FourSections(items);
            && |groups| == 4
            && (x in groups[0] <==> x in items && x.kind == Word && x.section == Noun)
            && (x in groups[1] <==> x in items && x.kind == Word && x.section == Verb)
            && (x in groups[2] <==> x in items && x.kind == Word && x.section == Adjective)
            && (x in groups[3] <==> x in items && x.kind == Word && x.section == Other)
  {
    SectionMembers(items, Noun);
    SectionMembers(items, Verb);
    SectionMembers(items, Adjective);
    SectionMembers(items, Other);
  }

  lemma {:induction false} WordsCounted(items: seq<Item>, x: Item)
    ensures multiset(PartOfSpeechWords(items))[x]
            == if x.kind == Word && x.section in {Noun, Verb, Adjective, Other} then multiset(items)[x] else 0
  {
    if items != [] {
      WordsCounted(items[1..], x);
      assert items == [items[0]] + items[1..];
      var first := if items[0].kind == Word && items[0].section != PhraseSection then [items[0]] else [];
      assert multiset(PartOfSpeechWords(items)) == multiset(first) + multiset(PartOfSpeechWords(items[1..]));
    }
  }

  /** Every noun, verb, adjective and other word of the list is in the mixed list as often as in it, and nothing
      else is. */
  lemma MixedCounts(items: seq<Item>, x: Item)
    ensures multiset(Interleaved(FourSections(items)))[x]
            == if x.kind == Word && x.section in {Noun, Verb, Adjective, Other} then multiset(items)[x] else 0
  {
    MixedIsPermutation(items);
    WordsCounted(items, x);
  }
}
