/** Selecting memory cards for a prompt (src/memory/retrieval.ts). */
module Retrieval {
  import opened Text
  import opened Budget

  datatype Kind = Rule | Other

  datatype Card = Card(
    kind: Kind, ruleId: string, repoId: string, title: string, tokensEstimate: nat, sourceCount: nat, pinned: bool)

  datatype Request = Request(repoId: Option<string>, ruleIds: set<string>, budgetTokens: nat)

  datatype Entry = Entry(card: Card, score: nat, reason: string)

  datatype RetrievedCard = RetrievedCard(card: Card, reason: string)

  const EVIDENCE_CAP: nat := 20

  predicate RepoMatch(c: Card, r: Request) { c.repoId != "" && r.repoId == Some(c.repoId) }

  predicate RuleMatch(c: Card, r: Request) { c.kind == Rule && c.ruleId in r.ruleIds }

  /** A card of another repository, or about a rule this review does not have, is left out. */
  predicate Eligible(c: Card, r: Request) {
    (RepoMatch(c, r) || c.repoId == "") && (c.kind == Rule ==> r.ruleIds != {} && RuleMatch(c, r))
  }

  function Evidence(c: Card): nat { if c.sourceCount < EVIDENCE_CAP then c.sourceCount else EVIDENCE_CAP }

  function Score(c: Card, r: Request): nat {
    (if c.pinned then 100 else 0) + (if RuleMatch(c, r) then 50 else 0) + (if RepoMatch(c, r) then 25 else 0)
    + Evidence(c)
  }

  /** Why a card was retrieved, in words. */
  function Reason(c: Card, r: Request): string {
    (if c.pinned then "pinned style card, " else "")
    + (if RuleMatch(c, r) then "matches a rule in this review, " else "")
    + (if RepoMatch(c, r) then "repository scope" else "organization scope")
  }

  function EntryOf(c: Card, r: Request): Entry { Entry(c, Score(c, r), Reason(c, r)) }

  /** The documented priority: pinned cards, then cards of a matching rule, then the repository's own, then evidence. */
  predicate Outranks(a: Card, b: Card, r: Request) {
    if a.pinned != b.pinned then a.pinned
    else if RuleMatch(a, r) != RuleMatch(b, r) then RuleMatch(a, r)
    else if RepoMatch(a, r) != RepoMatch(b, r) then RepoMatch(a, r)
    else Evidence(a) > Evidence(b)
  }

  /**
   * Only cards of this repository or of none, and rule cards only for a rule of this review, whatever the request
   * leaves open.
   */
  lemma EligibleTold(c: Card, r: Request)
    ensures Eligible(c, r) <==>
      && (c.repoId == "" || r.repoId == Some(c.repoId))
      && (c.kind == Rule ==> c.ruleId in r.ruleIds)
  {
  }

  /** The four levels, each looked at only when the ones before are equal; evidence counts up to 20 sources. */
  lemma OutranksTold(a: Card, b: Card, r: Request)
    ensures
      var ruleA, ruleB := a.kind == Rule && a.ruleId in r.ruleIds, b.kind == Rule && b.ruleId in r.ruleIds;
      var repoA, repoB := a.repoId != "" && r.repoId == Some(a.repoId), b.repoId != "" && r.repoId == Some(b.repoId);
      Outranks(a, b, r) <==>
        || (a.pinned && !b.pinned)
        || (a.pinned == b.pinned && ruleA && !ruleB)
        || (a.pinned == b.pinned && ruleA == ruleB && repoA && !repoB)
        || (a.pinned == b.pinned && ruleA == ruleB && repoA == repoB && b.sourceCount < 20
            && b.sourceCount < a.sourceCount)
  {
  }

  /** The weights keep the levels apart: comparing scores is comparing the four levels in turn. */
  lemma ScoreIsPriority(a: Card, b: Card, r: Request)
    ensures Score(a, r) > Score(b, r) <==> Outranks(a, b, r)
    ensures Score(a, r) == Score(b, r) <==> !Outranks(a, b, r) && !Outranks(b, a, r)
  {
  }

  /******* Sorting *******/

  ghost predicate Collation(leq: (string, string) -> bool) {
    && (forall x, y :: leq(x, y) || leq(y, x))
    && (forall x, y, z :: leq(x, y) && leq(y, z) ==> leq(x, z))
  }

  /** `a` is sorted before `b`: by score downwards, then by title. */
  predicate Less(a: Entry, b: Entry, leq: (string, string) -> bool) {
    a.score > b.score || (a.score == b.score && !leq(b.card.title, a.card.title))
  }

  function Insert(sorted: seq<Entry>, e: Entry, leq: (string, string) -> bool): seq<Entry> {
    if sorted == [] then [e]
    else if Less(e, sorted[0], leq) then [e] + sorted
    else [sorted[0]] + Insert(sorted[1..], e, leq)
  }

  /** The stable sort. */
  function Sort(entries: seq<Entry>, leq: (string, string) -> bool): seq<Entry> {
    if entries == [] then [] else Insert(Sort(entries[..|entries| - 1], leq), entries[|entries| - 1], leq)
  }

  predicate InOrder(s: seq<Entry>, leq: (string, string) -> bool) {
    forall i, j :: 0 <= i < j < |s| ==> !Less(s[j], s[i], leq)
  }

  lemma {:induction false} InsertKeeps(sorted: seq<Entry>, e: Entry, leq: (string, string) -> bool)
    ensures multiset(Insert(sorted, e, leq)) == multiset(sorted) + multiset{e}
  {
    if sorted != [] {
      assert sorted == [sorted[0]] + sorted[1..];
      InsertKeeps(sorted[1..], e, leq);
    }
  }

  lemma {:induction false} InsertOrders(sorted: seq<Entry>, e: Entry, leq: (string, string) -> bool)
    requires Collation(leq) && InOrder(sorted, leq)
    ensures InOrder(Insert(sorted, e, leq), leq)
  {
    if sorted != [] && !Less(e, sorted[0], leq) {
      var rest := Insert(sorted[1..], e, leq);
      InsertOrders(sorted[1..], e, leq);
      InsertKeeps(sorted[1..], e, leq);
      forall x | x in rest ensures !Less(x, sorted[0], leq) {
        assert x in multiset(rest);
        assert x == e || x in sorted[1..];
      }
    }
  }

  lemma {:induction false} SortSorts(entries: seq<Entry>, leq: (string, string) -> bool)
    requires Collation(leq)
    ensures InOrder(Sort(entries, leq), leq)
    ensures multiset(Sort(entries, leq)) == multiset(entries)
  {
    if entries != [] {
      var n := |entries| - 1;
      SortSorts(entries[..n], leq);
      InsertOrders(Sort(entries[..n], leq), entries[n], leq);
      InsertKeeps(Sort(entries[..n], leq), entries[n], leq);
      assert entries == entries[..n] + [entries[n]];
    }
  }

  /******* Retrieval *******/

  function Scored(cards: seq<Card>, r: Request): seq<Entry> {
    if cards == [] then []
    else
      var n := |cards| - 1;
      Scored(cards[..n], r) + if Eligible(cards[n], r) then [EntryOf(cards[n], r)] else []
  }

  function Ranked(cards: seq<Card>, r: Request, leq: (string, string) -> bool): seq<Entry> {
    Sort(Scored(cards, r), leq)
  }

  function Costs(entries: seq<Entry>): (items: seq<Option<nat>>)
    ensures |items| == |entries|
    ensures forall i :: 0 <= i < |items| ==> items[i] == Some(entries[i].card.tokensEstimate)
  {
    seq(|entries|, i requires 0 <= i < |entries| => Some(entries[i].card.tokensEstimate))
  }

  function Chosen(e: Entry): RetrievedCard { RetrievedCard(e.card, e.reason) }

  function Picked(entries: seq<Entry>, picks: seq<bool>): seq<RetrievedCard>
    requires |picks| == |entries|
  {
    if entries == [] then []
    else
      var n := |entries| - 1;
      Picked(entries[..n], picks[..n]) + if picks[n] then [Chosen(entries[n])] else []
  }

  lemma PickedNext(entries: seq<Entry>, picks: seq<bool>, k: nat, taken: bool)
    requires k < |entries| && |picks| == k
    ensures Picked(entries[..k + 1], picks + [taken]) ==
        Picked(entries[..k], picks) + if taken then [Chosen(entries[k])] else []
  {
    assert entries[..k + 1][..k] == entries[..k] && (picks + [taken])[..k] == picks;
  }

  method FillBudget(scored: seq<Entry>, budgetTokens: nat) returns (selected: seq<RetrievedCard>)
    ensures selected == Picked(scored, Greedy(Costs(scored), budgetTokens))
  {
    selected := [];
    var remaining := budgetTokens;
    ghost var items := Costs(scored);
    ghost var picks := [];
    for k := 0 to |scored|
      invariant remaining >= 0
      invariant picks == Greedy(items[..k], budgetTokens)
      invariant selected == Picked(scored[..k], picks)
      invariant remaining == budgetTokens - Spent(items[..k], picks)
    {
      GreedyNext(items, budgetTokens, k);
      var entry := scored[k];
      ghost var taken := entry.card.tokensEstimate <= remaining;
      PickedNext(scored, picks, k, taken);
      picks := picks + [taken];
      if entry.card.tokensEstimate > remaining {
        continue;
      }
      remaining := remaining - entry.card.tokensEstimate;
      selected := selected + [RetrievedCard(entry.card, entry.reason)];
    }
    assert scored[..|scored|] == scored && items[..|scored|] == items;
  }

  function Retrieved(cards: seq<Card>, r: Request, leq: (string, string) -> bool): seq<RetrievedCard> {
    var ranked := Ranked(cards, r, leq);
    Picked(ranked, Greedy(Costs(ranked), r.budgetTokens))
  }

  method RetrieveCards(cards: seq<Card>, r: Request, leq: (string, string) -> bool)
    returns (selected: seq<RetrievedCard>)
    ensures selected == Retrieved(cards, r, leq)
  {
    selected := FillBudget(Ranked(cards, r, leq), r.budgetTokens);
  }

  lemma {:induction false} ScoredAreEntries(cards: seq<Card>, r: Request)
    ensures forall e :: e in Scored(cards, r) ==> e == EntryOf(e.card, r) && Eligible(e.card, r) && e.card in cards
  {
    if cards != [] {
      ScoredAreEntries(cards[..|cards| - 1], r);
    }
  }

  lemma OneMore<T>(s: seq<T>, x: T, y: T)
    ensures multiset(s + [x])[y] == multiset(s)[y] + if x == y then 1 else 0
  {
  }

  lemma SameEntry(a: Card, b: Card, r: Request)
    ensures EntryOf(a, r) == EntryOf(b, r) <==> a == b
  {
  }

  lemma ScoredNext(cards: seq<Card>, x: Card, r: Request)
    ensures Scored(cards + [x], r) == Scored(cards, r) + if Eligible(x, r) then [EntryOf(x, r)] else []
  {
    assert (cards + [x])[..|cards|] == cards;
  }

  lemma ScoredStep(cards: seq<Card>, x: Card, r: Request, c: Card)
    requires multiset(Scored(cards, r))[EntryOf(c, r)] == if Eligible(c, r) then multiset(cards)[c] else 0
    ensures multiset(Scored(cards + [x], r))[EntryOf(c, r)] ==
        if Eligible(c, r) then multiset(cards + [x])[c] else 0
  {
    ScoredNext(cards, x, r);
    OneMore(cards, x, c);
    SameEntry(x, c, r);
    if Eligible(x, r) {
      OneMore(Scored(cards, r), EntryOf(x, r), EntryOf(c, r));
    } else {
      assert Scored(cards, r) + [] == Scored(cards, r);
    }
  }

  /** The scored entries are the eligible cards, each as often as it was given. */
  lemma {:induction false} ScoredAreEligible(cards: seq<Card>, r: Request, c: Card)
    ensures multiset(Scored(cards, r))[EntryOf(c, r)] == if Eligible(c, r) then multiset(cards)[c] else 0
  {
    if cards != [] {
      var before, x := cards[..|cards| - 1], cards[|cards| - 1];
      ScoredAreEligible(before, r, c);
      ScoredStep(before, x, r, c);
      assert cards == before + [x];
    }
  }

  /**
   * What the documentation promises of the order, said without scores: no card comes before one that outranks
   * it, and among equals titles are in order; every eligible card is ranked, and no other.
   */
  lemma RankedByPriority(cards: seq<Card>, r: Request, leq: (string, string) -> bool, i: nat, j: nat)
    requires Collation(leq)
    requires i < j < |Ranked(cards, r, leq)|
    ensures var a, b := Ranked(cards, r, leq)[i].card, Ranked(cards, r, leq)[j].card;
      && Eligible(a, r) && Eligible(b, r)
      && !Outranks(b, a, r)
      && (!Outranks(a, b, r) ==> leq(a.title, b.title))
  {
    var ranked := Ranked(cards, r, leq);
    var a, b := ranked[i], ranked[j];
    SortSorts(Scored(cards, r), leq);
    ScoredAreEntries(cards, r);
    assert a in multiset(ranked) && b in multiset(ranked);
    assert a in multiset(Scored(cards, r)) && b in multiset(Scored(cards, r));
    assert !Less(b, a, leq);
    ScoreIsPriority(a.card, b.card, r);
    ScoreIsPriority(b.card, a.card, r);
  }

  lemma RankedAreTheEligible(cards: seq<Card>, r: Request, leq: (string, string) -> bool, c: Card)
    requires Collation(leq)
    ensures multiset(Ranked(cards, r, leq))[EntryOf(c, r)] == if Eligible(c, r) then multiset(cards)[c] else 0
  {
    SortSorts(Scored(cards, r), leq);
    ScoredAreEligible(cards, r, c);
  }

  function TotalTokens(cards: seq<RetrievedCard>): nat {
    if cards == [] then 0 else TotalTokens(cards[..|cards| - 1]) + cards[|cards| - 1].card.tokensEstimate
  }

  lemma {:induction false} PickedCosts(entries: seq<Entry>, picks: seq<bool>)
    requires |picks| == |entries|
    ensures TotalTokens(Picked(entries, picks)) == Spent(Costs(entries), picks)
  {
    if entries != [] {
      var n := |entries| - 1;
      var before := Picked(entries[..n], picks[..n]);
      PickedCosts(entries[..n], picks[..n]);
      assert Costs(entries)[..n] == Costs(entries[..n]);
      if picks[n] {
        assert (before + [Chosen(entries[n])])[..|before|] == before;
      } else {
        assert before + [] == before;
      }
    }
  }

  lemma {:induction false} PickedAreEligible(cards: seq<Card>, r: Request, entries: seq<Entry>, picks: seq<bool>)
    requires |picks| == |entries|
    requires forall e :: e in entries ==> e in Scored(cards, r)
    ensures forall x :: x in Picked(entries, picks) ==>
      x.card in cards && Eligible(x.card, r) && x.reason == Reason(x.card, r)
  {
    if entries != [] {
      var n := |entries| - 1;
      PickedAreEligible(cards, r, entries[..n], picks[..n]);
      ScoredAreEntries(cards, r);
    }
  }

  /** Every retrieved card is one of the eligible cards, with its own reason. */
  lemma RetrievedAreEligible(cards: seq<Card>, r: Request, leq: (string, string) -> bool)
    requires Collation(leq)
    ensures forall x :: x in Retrieved(cards, r, leq) ==>
      x.card in cards && Eligible(x.card, r) && x.reason == Reason(x.card, r)
  {
    var ranked := Ranked(cards, r, leq);
    SortSorts(Scored(cards, r), leq);
    forall e | e in ranked ensures e in Scored(cards, r) {
      assert e in multiset(ranked);
    }
    PickedAreEligible(cards, r, ranked, Greedy(Costs(ranked), r.budgetTokens));
  }

  /**
   * The reason tells the levels of the priority: cards are retrieved for the same reason exactly if neither
   * outranks the other by anything but evidence.
   */
  lemma ReasonTellsLevels(a: Card, b: Card, r: Request)
    ensures Reason(a, r) == Reason(b, r) <==>
      a.pinned == b.pinned && RuleMatch(a, r) == RuleMatch(b, r) && RepoMatch(a, r) == RepoMatch(b, r)
  {
    var pinned, rule := "pinned style card, ", "matches a rule in this review, ";
    assert |pinned| == 19 && |rule| == 31 && |"repository scope"| == 16 && |"organization scope"| == 18;
  }

  /** And it says them: what a card has to its credit stands in its reason, in this order. */
  lemma ReasonTold(c: Card, r: Request)
    ensures var rule := c.kind == Rule && c.ruleId in r.ruleIds;
      var scope := if c.repoId != "" && r.repoId == Some(c.repoId) then "repository scope" else "organization scope";
      Reason(c, r) ==
        if c.pinned && rule then "pinned style card, matches a rule in this review, " + scope
        else if c.pinned then "pinned style card, " + scope
        else if rule then "matches a rule in this review, " + scope
        else scope
  {
    assert "pinned style card, " + "matches a rule in this review, "
      == "pinned style card, matches a rule in this review, ";
  }

  /**
   * The retrieved cards keep to the budget; a ranked card that was left out does not fit in what remains; and
   * every other choice within the budget is worse on the first card where it differs.
   */
  lemma RetrievalIsBest(cards: seq<Card>, r: Request, leq: (string, string) -> bool, other: seq<bool>)
    requires var ranked := Ranked(cards, r, leq); Choice(Costs(ranked), other, r.budgetTokens)
    ensures var ranked := Ranked(cards, r, leq);
      var picks := Greedy(Costs(ranked), r.budgetTokens);
      var selected := Retrieved(cards, r, leq);
      && TotalTokens(selected) <= r.budgetTokens
      && (forall i :: 0 <= i < |ranked| && !picks[i] ==>
          ranked[i].card.tokensEstimate > r.budgetTokens - TotalTokens(selected))
      && (other == picks || exists i :: 0 <= i < |ranked| && other[..i] == picks[..i] && picks[i] && !other[i])
  {
    var ranked := Ranked(cards, r, leq);
    var items := Costs(ranked);
    var picks := Greedy(items, r.budgetTokens);
    PickedCosts(ranked, picks);
    forall i | 0 <= i < |ranked| && !picks[i]
        ensures ranked[i].card.tokensEstimate > r.budgetTokens - Spent(items, picks) {
      GreedyIsTight(items, r.budgetTokens, i);
    }
    GreedyIsLexicographicallyBest(items, r.budgetTokens, other);
  }
}
