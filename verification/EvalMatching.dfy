/** Scoring of produced findings against expected ones by greedy one-to-one matching. */
module EvalMatching {
  import opened Text
  import opened Totals

  datatype Severity = Info | Low | Medium | High | Critical

  datatype Finding = Finding(
    file: string, startLine: int, endLine: int, category: string, severity: Severity, ruleId: string)

  datatype Expected = Expected(
    file: string, startLine: int, endLine: int,
    category: Option<string>, severity: Option<Severity>, ruleIdIncludes: Option<string>)

  function Rank(s: Severity): nat {
    match s
    case Info => 0
    case Low => 1
    case Medium => 2
    case High => 3
    case Critical => 4
  }

  predicate Overlaps(aStart: int, aEnd: int, bStart: int, bEnd: int) {
    aStart <= bEnd && bStart <= aEnd
  }

  /** An optional text constraint applies when it is given and not empty. */
  predicate Given(text: Option<string>) { text != None && text.value != "" }

  predicate IsMatch(f: Finding, e: Expected) {
    && f.file == e.file
    && Overlaps(f.startLine, f.endLine, e.startLine, e.endLine)
    && (Given(e.category) ==> f.category == e.category.value)
    && (e.severity != None ==> f.severity == e.severity.value)
    && (Given(e.ruleIdIncludes) ==> Occurs(f.ruleId, e.ruleIdIncludes.value))
  }

  predicate InRange(line: int, startLine: int, endLine: int) { startLine <= line <= endLine }

  /** A match is in the same file, shares a line, and meets every constraint that is given. */
  lemma MatchTold(f: Finding, e: Expected)
    requires f.startLine <= f.endLine && e.startLine <= e.endLine
    ensures IsMatch(f, e) <==>
      && f.file == e.file
      && (exists line :: InRange(line, f.startLine, f.endLine) && InRange(line, e.startLine, e.endLine))
      && (e.category == None || e.category.value == "" || e.category.value == f.category)
      && (e.severity == None || e.severity == Some(f.severity))
      && (e.ruleIdIncludes == None || e.ruleIdIncludes.value == "" || Occurs(f.ruleId, e.ruleIdIncludes.value))
  {
    if f.startLine <= e.endLine && e.startLine <= f.endLine {
      var line := if f.startLine >= e.startLine then f.startLine else e.startLine;
      assert InRange(line, f.startLine, f.endLine) && InRange(line, e.startLine, e.endLine);
    }
  }

  /******* The greedy assignment *******/

  predicate Free(produced: seq<Finding>, e: Expected, used: set<nat>, i: nat)
    requires i < |produced|
  {
    i !in used && IsMatch(produced[i], e)
  }

  /** The first produced finding from `i` on that is unused and matches. */
  function FindFree(produced: seq<Finding>, e: Expected, used: set<nat>, i: nat): (r: Option<nat>)
    requires i <= |produced|
    ensures r != None ==>
              && i <= r.value < |produced| && Free(produced, e, used, r.value)
              && forall k :: i <= k < r.value ==> !Free(produced, e, used, k)
    ensures r == None ==> forall k :: i <= k < |produced| ==> !Free(produced, e, used, k)
    decreases |produced| - i
  {
    if i == |produced| then None
    else if Free(produced, e, used, i) then Some(i)
    else FindFree(produced, e, used, i + 1)
  }

  function Use(used: set<nat>, choice: Option<nat>): set<nat> {
    if choice == None then used else used + {choice.value}
  }

  /** For each expected finding in turn, the index of the produced one it takes. */
  function Assign(produced: seq<Finding>, expected: seq<Expected>, used: set<nat>): (r: seq<Option<nat>>)
    ensures |r| == |expected|
    decreases |expected|
  {
    if expected == [] then []
    else
      var choice := FindFree(produced, expected[0], used, 0);
      [choice] + Assign(produced, expected[1..], Use(used, choice))
  }

  function Chosen(choices: seq<Option<nat>>): set<nat> {
    set e | 0 <= e < |choices| && choices[e] != None :: choices[e].value
  }

  /** Chosen findings match, were free, and no finding is chosen twice. */
  lemma {:induction false} AssignIsOneToOne(produced: seq<Finding>, expected: seq<Expected>, used: set<nat>)
    ensures var r := Assign(produced, expected, used);
            && (forall e :: 0 <= e < |r| && r[e] != None ==>
                  r[e].value < |produced| && r[e].value !in used && IsMatch(produced[r[e].value], expected[e]))
            && (forall d, e :: 0 <= d < e < |r| && r[d] != None && r[e] != None ==> r[d].value != r[e].value)
    decreases |expected|
  {
    if expected != [] {
      var choice := FindFree(produced, expected[0], used, 0);
      var rest := Assign(produced, expected[1..], Use(used, choice));
      AssignIsOneToOne(produced, expected[1..], Use(used, choice));
      var r := Assign(produced, expected, used);
      assert forall e :: 1 <= e < |r| ==> r[e] == rest[e - 1] && expected[e] == expected[1..][e - 1];
    }
  }

  /** Each expected finding in turn takes the first matching one that none before it has taken. */
  lemma {:induction false} AssignIsGreedy(produced: seq<Finding>, expected: seq<Expected>, used: set<nat>,
        e: nat, p: nat)
    requires e < |expected| && p < |produced| && p !in used && IsMatch(produced[p], expected[e])
    requires forall d :: 0 <= d < e ==> Assign(produced, expected, used)[d] != Some(p)
    ensures Assign(produced, expected, used)[e].Some? && Assign(produced, expected, used)[e].value <= p
    decreases |expected|
  {
    var choice := FindFree(produced, expected[0], used, 0);
    var r, rest := Assign(produced, expected, used), Assign(produced, expected[1..], Use(used, choice));
    assert r[0] == choice && forall k :: 0 <= k < |rest| ==> rest[k] == r[k + 1];
    if e > 0 {
      assert expected[1..][e - 1] == expected[e];
      AssignIsGreedy(produced, expected[1..], Use(used, choice), e - 1, p);
    } else {
      assert Free(produced, expected[0], used, p);
    }
  }

  /** No expected finding left over still has a matching produced finding left over. */
  lemma {:induction false} AssignIsMaximal(produced: seq<Finding>, expected: seq<Expected>, used: set<nat>,
        e: nat, p: nat)
    requires e < |expected| && p < |produced|
    requires Assign(produced, expected, used)[e] == None && p !in used
    requires var r := Assign(produced, expected, used);
             forall d :: 0 <= d < |r| && r[d] != None ==> r[d].value != p
    ensures !IsMatch(produced[p], expected[e])
    decreases |expected|
  {
    var choice := FindFree(produced, expected[0], used, 0);
    var rest := Assign(produced, expected[1..], Use(used, choice));
    var r := Assign(produced, expected, used);
    if e > 0 {
      assert r[0] == choice && forall k :: 0 <= k < |rest| ==> rest[k] == r[k + 1];
      AssignIsMaximal(produced, expected[1..], Use(used, choice), e - 1, p);
    } else {
      assert !Free(produced, expected[0], used, p);
    }
  }

  /******* At least half of the best matching *******/

  /** Any other one-to-one way of pairing expected (keys) with matching produced (values). */
  ghost predicate IsMatching(m: map<nat, nat>, produced: seq<Finding>, expected: seq<Expected>) {
    && (forall e :: e in m ==> e < |expected| && m[e] < |produced| && IsMatch(produced[m[e]], expected[e]))
    && (forall d, e :: d in m && e in m && d != e ==> m[d] != m[e])
  }

  /** The expected findings that the greedy assignment served. */
  function Served(choices: seq<Option<nat>>): set<nat> {
    set e | 0 <= e < |choices| && choices[e] != None
  }

  lemma {:induction false} InjectiveImage(s: set<nat>, f: map<nat, nat>, t: set<nat>)
    requires forall x :: x in s ==> x in f && f[x] in t
    requires forall x, y :: x in s && y in s && x != y ==> f[x] != f[y]
    ensures |s| <= |t|
    decreases |s|
  {
    if x :| x in s {
      InjectiveImage(s - {x}, f, t - {f[x]});
    }
  }

  lemma ChosenSize(produced: seq<Finding>, expected: seq<Expected>)
    ensures var r := Assign(produced, expected, {}); |Chosen(r)| == |Served(r)|
  {
    var r := Assign(produced, expected, {});
    AssignIsOneToOne(produced, expected, {});
    var forth := map e | e in Served(r) :: r[e].value;
    InjectiveImage(Served(r), forth, Chosen(r));
    var back := map p | p in Chosen(r) :: Owner(r, p);
    InjectiveImage(Chosen(r), back, Served(r));
  }

  ghost function Owner(choices: seq<Option<nat>>, p: nat): (e: nat)
    requires p in Chosen(choices)
    ensures e in Served(choices) && choices[e].value == p
  {
    var e :| 0 <= e < |choices| && choices[e] != None && choices[e].value == p;
    e
  }

  /** Every pair of any matching touches a greedy pair, on one side or the other; so greedy has at least half. */
  lemma GreedyIsHalfOptimal(produced: seq<Finding>, expected: seq<Expected>, m: map<nat, nat>)
    requires IsMatching(m, produced, expected)
    ensures |m| <= 2 * |Served(Assign(produced, expected, {}))|
  {
    var r := Assign(produced, expected, {});
    var onExpected := set e | e in m && e in Served(r);
    var onProduced := set e | e in m && m[e] in Chosen(r);
    forall e | e in m ensures e in onExpected + onProduced {
      if e !in Served(r) && m[e] !in Chosen(r) {
        AssignIsMaximal(produced, expected, {}, e, m[e]);
      }
    }
    assert m.Keys == onExpected + onProduced;
    SubsetSize(onExpected, Served(r));
    InjectiveImage(onProduced, m, Chosen(r));
    ChosenSize(produced, expected);
    assert |m.Keys| == |m|;
    UnionSize(onExpected, onProduced);
  }

  lemma UnionSize(a: set<nat>, b: set<nat>)
    ensures |a + b| <= |a| + |b|
  {
    assert a + b == a + (b - a);
    SubsetSize(b - a, b);
  }

  /** Two produced findings; the first expected one accepts both, the second only the first. */
  function SampleProduced(): seq<Finding> {
    [Finding("f", 1, 1, "quality", High, "r"), Finding("f", 2, 2, "quality", High, "r")]
  }

  function SampleExpected(): seq<Expected> {
    [Expected("f", 1, 2, None, None, None), Expected("f", 1, 1, None, None, None)]
  }

  lemma SampleAssignment()
    ensures Assign(SampleProduced(), SampleExpected(), {}) == [Some(0), None]
  {
    var produced, expected := SampleProduced(), SampleExpected();
    assert FindFree(produced, expected[0], {}, 0) == Some(0);
    assert expected[1..] == [expected[1]];
    assert Assign(produced, [expected[1]], {0}) == [None];
  }

  /** The factor two is met: taking the first match can block another expected finding's only one. */
  lemma HalfIsTight()
    ensures exists produced, expected, m ::
              IsMatching(m, produced, expected) && |m| == 2 && |Served(Assign(produced, expected, {}))| == 1
  {
    var m: map<nat, nat> := map[0 := 1, 1 := 0];
    SampleAssignment();
    assert Served([Some(0), None]) == {0};
    assert IsMatching(m, SampleProduced(), SampleExpected());
  }

  /******* The lists the scorer works with *******/

  ghost predicate ValidChoices(choices: seq<Option<nat>>, produced: seq<Finding>) {
    forall e :: 0 <= e < |choices| && choices[e] != None ==> choices[e].value < |produced|
  }

  /** The pairs, and the expected findings left over, among the first `n` expected ones. */
  function Pairs(produced: seq<Finding>, expected: seq<Expected>, choices: seq<Option<nat>>, n: nat)
    : seq<(Finding, Expected)>
    requires n <= |choices| == |expected| && ValidChoices(choices, produced)
  {
    if n == 0 then []
    else
      Pairs(produced, expected, choices, n - 1) +
      if choices[n - 1] == None then [] else [(produced[choices[n - 1].value], expected[n - 1])]
  }

  function Leftover(expected: seq<Expected>, choices: seq<Option<nat>>, n: nat): seq<Expected>
    requires n <= |choices| == |expected|
  {
    if n == 0 then []
    else Leftover(expected, choices, n - 1) + if choices[n - 1] == None then [expected[n - 1]] else []
  }

  /** The first `n` produced findings without those used. */
  function Unused(produced: seq<Finding>, used: set<nat>, n: nat): seq<Finding>
    requires n <= |produced|
  {
    if n == 0 then [] else Unused(produced, used, n - 1) + if n - 1 in used then [] else [produced[n - 1]]
  }

  /** How many of the first `n` expected findings are served. */
  function ServedBefore(choices: seq<Option<nat>>, n: nat): (r: nat)
    requires n <= |choices|
    ensures r <= n
  {
    if n == 0 then 0 else ServedBefore(choices, n - 1) + if choices[n - 1].Some? then 1 else 0
  }

  /** A served expected finding is paired with what it has taken; the others are left over; both in order. */
  lemma {:induction false} PairsTold(produced: seq<Finding>, expected: seq<Expected>, choices: seq<Option<nat>>,
        n: nat, e: nat)
    requires e < n <= |choices| == |expected| && ValidChoices(choices, produced)
    ensures ServedBefore(choices, n) == |Pairs(produced, expected, choices, n)|
    ensures n - ServedBefore(choices, n) == |Leftover(expected, choices, n)|
    ensures var at := ServedBefore(choices, e);
      if choices[e].Some?
      then at < ServedBefore(choices, n)
        && Pairs(produced, expected, choices, n)[at] == (produced[choices[e].value], expected[e])
      else e - at < n - ServedBefore(choices, n) && Leftover(expected, choices, n)[e - at] == expected[e]
  {
    PairsCount(produced, expected, choices, n);
    PairsCount(produced, expected, choices, n - 1);
    if e < n - 1 {
      PairsTold(produced, expected, choices, n - 1, e);
    }
  }

  lemma {:induction false} PairsCount(produced: seq<Finding>, expected: seq<Expected>, choices: seq<Option<nat>>,
        n: nat)
    requires n <= |choices| == |expected| && ValidChoices(choices, produced)
    ensures ServedBefore(choices, n) == |Pairs(produced, expected, choices, n)|
    ensures n - ServedBefore(choices, n) == |Leftover(expected, choices, n)|
  {
    if n > 0 {
      PairsCount(produced, expected, choices, n - 1);
    }
  }

  /** What is not used is left over, in order. */
  lemma {:induction false} UnusedTold(produced: seq<Finding>, used: set<nat>, n: nat)
    requires n <= |produced|
    ensures forall f :: f in Unused(produced, used, n) <==> exists p :: 0 <= p < n && p !in used && produced[p] == f
    ensures n > 0 && n - 1 !in used ==>
      Unused(produced, used, n) != [] && Unused(produced, used, n)[|Unused(produced, used, n)| - 1] == produced[n - 1]
  {
    if n > 0 {
      UnusedTold(produced, used, n - 1);
    }
  }

  lemma {:induction false} PairCounts(produced: seq<Finding>, expected: seq<Expected>, choices: seq<Option<nat>>,
        n: nat)
    requires n <= |choices| == |expected| && ValidChoices(choices, produced)
    ensures |Pairs(produced, expected, choices, n)| == |set e | 0 <= e < n && choices[e] != None|
    ensures |Pairs(produced, expected, choices, n)| + |Leftover(expected, choices, n)| == n
  {
    var served := set e | 0 <= e < n && choices[e] != None;
    if n == 0 {
      assert served == {};
    } else {
      PairCounts(produced, expected, choices, n - 1);
      var before := set e | 0 <= e < n - 1 && choices[e] != None;
      assert served == before + if choices[n - 1] == None then {} else {n - 1};
    }
  }

  lemma {:induction false} UnusedCounts(produced: seq<Finding>, used: set<nat>, n: nat)
    requires n <= |produced|
    ensures |Unused(produced, used, n)| + |set p | p in used && p < n| == n
  {
    if n == 0 {
      assert (set p | p in used && p < n) == {};
    } else {
      UnusedCounts(produced, used, n - 1);
      var before := set p | p in used && p < n - 1;
      assert (set p | p in used && p < n) == before + if n - 1 in used then {n - 1} else {};
    }
  }

  method MatchFindings(produced: seq<Finding>, expected: seq<Expected>)
    returns (matched: seq<(Finding, Expected)>, unmatchedExpected: seq<Expected>, unmatchedProduced: seq<Finding>)
    ensures var choices := Assign(produced, expected, {});
            && ValidChoices(choices, produced)
            && matched == Pairs(produced, expected, choices, |expected|)
            && unmatchedExpected == Leftover(expected, choices, |expected|)
            && unmatchedProduced == Unused(produced, Chosen(choices), |produced|)
    ensures |matched| + |unmatchedExpected| == |expected|
    ensures |matched| + |unmatchedProduced| == |produced|
  {
    ghost var all := Assign(produced, expected, {});
    AssignIsOneToOne(produced, expected, {});
    var used: set<nat> := {};
    matched, unmatchedExpected := [], [];
    for e := 0 to |expected|
      invariant all[e..] == Assign(produced, expected[e..], used)
      invariant matched == Pairs(produced, expected, all, e)
      invariant unmatchedExpected == Leftover(expected, all, e)
      invariant used == Chosen(all[..e])
    {
      var index := FindFree(produced, expected[e], used, 0);
      NextChoice(produced, expected, all, used, e, index);
      if index == None {
        unmatchedExpected := unmatchedExpected + [expected[e]];
      } else {
        used := used + {index.value};
        matched := matched + [(produced[index.value], expected[e])];
      }
    }
    assert all[..|expected|] == all;
    unmatchedProduced := FilterUnused(produced, used);
    MatchCounts(produced, expected);
  }

  lemma MatchCounts(produced: seq<Finding>, expected: seq<Expected>)
    ensures var all := Assign(produced, expected, {});
            && ValidChoices(all, produced)
            && |Pairs(produced, expected, all, |expected|)| == |Served(all)|
            && |Pairs(produced, expected, all, |expected|)| + |Leftover(expected, all, |expected|)| == |expected|
            && |Pairs(produced, expected, all, |expected|)| + |Unused(produced, Chosen(all), |produced|)| == |produced|
  {
    var all := Assign(produced, expected, {});
    var used := Chosen(all);
    AssignIsOneToOne(produced, expected, {});
    PairCounts(produced, expected, all, |expected|);
    UnusedCounts(produced, used, |produced|);
    ChosenSize(produced, expected);
    assert (set p | p in used && p < |produced|) == used;
    assert (set e | 0 <= e < |expected| && all[e] != None) == Served(all);
  }

  lemma NextChoice(produced: seq<Finding>, expected: seq<Expected>, all: seq<Option<nat>>, used: set<nat>, e: nat,
        index: Option<nat>)
    requires e < |expected| == |all| && all[e..] == Assign(produced, expected[e..], used)
    requires used == Chosen(all[..e]) && index == FindFree(produced, expected[e], used, 0)
    ensures all[e] == index
    ensures all[e + 1..] == Assign(produced, expected[e + 1..], Use(used, index))
    ensures Use(used, index) == Chosen(all[..e + 1])
  {
    assert expected[e..][1..] == expected[e + 1..];
    assert all[e] == all[e..][0] && all[e + 1..] == all[e..][1..];
    assert all[..e + 1] == all[..e] + [index];
    ChosenGrows(all[..e], index);
  }

  method FilterUnused(produced: seq<Finding>, used: set<nat>) returns (unmatched: seq<Finding>)
    ensures unmatched == Unused(produced, used, |produced|)
  {
    unmatched := [];
    for i := 0 to |produced|
      invariant unmatched == Unused(produced, used, i)
    {
      if i !in used {
        unmatched := unmatched + [produced[i]];
      }
    }
  }

  lemma ChosenGrows(choices: seq<Option<nat>>, choice: Option<nat>)
    ensures Chosen(choices + [choice]) == Use(Chosen(choices), choice)
  {
    var more := choices + [choice];
    forall p | p in Use(Chosen(choices), choice) ensures p in Chosen(more) {
      if p in Chosen(choices) {
        var e := Owner(choices, p);
        assert more[e] == choices[e];
      } else {
        assert more[|choices|] == choice;
      }
    }
  }

  /******* Scores *******/

  datatype FixtureScore = FixtureScore(
    truePositives: nat, falsePositives: nat, falseNegatives: nat,
    missedCritical: nat, rangeMatches: nat, rangeComparable: nat)

  predicate SameRange(pair: (Finding, Expected)) {
    pair.0.startLine == pair.1.startLine && pair.0.endLine == pair.1.endLine
  }

  function CountSameRange(pairs: seq<(Finding, Expected)>, n: nat): (c: nat)
    requires n <= |pairs|
    ensures c <= n
  {
    if n == 0 then 0 else CountSameRange(pairs, n - 1) + if SameRange(pairs[n - 1]) then 1 else 0
  }

  predicate IsCritical(e: Expected) {
    e.severity != None && Rank(e.severity.value) >= Rank(Critical)
  }

  function CountCritical(missed: seq<Expected>): (c: nat)
    ensures c <= |missed|
    decreases |missed|
  {
    if missed == [] then 0 else (if IsCritical(missed[0]) then 1 else 0) + CountCritical(missed[1..])
  }

  /** The counters of a fixture count what they are named for. */
  lemma {:induction false} RangesAreCounted(pairs: seq<(Finding, Expected)>, n: nat)
    requires n <= |pairs|
    ensures CountSameRange(pairs, n) == |set i | 0 <= i < n
      && pairs[i].0.startLine == pairs[i].1.startLine && pairs[i].0.endLine == pairs[i].1.endLine|
  {
    var same := set i | 0 <= i < n
      && pairs[i].0.startLine == pairs[i].1.startLine && pairs[i].0.endLine == pairs[i].1.endLine;
    if n == 0 {
      assert same == {};
    } else {
      RangesAreCounted(pairs, n - 1);
      var before := set i | 0 <= i < n - 1
        && pairs[i].0.startLine == pairs[i].1.startLine && pairs[i].0.endLine == pairs[i].1.endLine;
      assert same == before + if n - 1 in same then {n - 1} else {};
    }
  }

  lemma {:induction false} CriticalsAreCounted(missed: seq<Expected>)
    ensures CountCritical(missed) == multiset(Severities(missed))[Some(Critical)]
  {
    if missed != [] {
      CriticalsAreCounted(missed[1..]);
      SeveritiesOfRest(missed);
      CriticalIsTheHighest(missed[0]);
      OneMore(missed[0].severity, Severities(missed[1..]), Some(Critical));
    }
  }

  lemma SeveritiesOfRest(missed: seq<Expected>)
    requires missed != []
    ensures Severities(missed) == [missed[0].severity] + Severities(missed[1..])
  {
  }

  lemma CriticalIsTheHighest(e: Expected)
    ensures IsCritical(e) <==> e.severity == Some(Critical)
  {
  }

  lemma OneMore<T>(x: T, rest: seq<T>, y: T)
    ensures multiset([x] + rest)[y] == multiset(rest)[y] + if x == y then 1 else 0
  {
    assert multiset([x] + rest) == multiset{x} + multiset(rest);
  }

  function Severities(missed: seq<Expected>): (r: seq<Option<Severity>>)
    ensures |r| == |missed|
    ensures forall i :: 0 <= i < |r| ==> r[i] == missed[i].severity
  {
    seq(|missed|, i requires 0 <= i < |missed| => missed[i].severity)
  }

  /** The score adds up against any fixture, and its recall side is at least half of what any matching could reach. */
  ghost predicate AddsUp(s: FixtureScore, produced: nat, expected: nat) {
    && s.truePositives + s.falseNegatives == expected
    && s.truePositives + s.falsePositives == produced
    && s.missedCritical <= s.falseNegatives
    && s.rangeMatches <= s.rangeComparable == s.truePositives
  }

  method ScoreFixture(produced: seq<Finding>, expected: seq<Expected>) returns (score: FixtureScore)
    ensures AddsUp(score, |produced|, |expected|)
    ensures forall m :: IsMatching(m, produced, expected) ==> |m| <= 2 * score.truePositives
    ensures score.truePositives == |Served(Assign(produced, expected, {}))|
    ensures ValidChoices(Assign(produced, expected, {}), produced)
    ensures var pairs := Pairs(produced, expected, Assign(produced, expected, {}), |expected|);
            score.rangeMatches == CountSameRange(pairs, |pairs|)
    ensures score.missedCritical == CountCritical(Leftover(expected, Assign(produced, expected, {}), |expected|))
  {
    var matched, unmatchedExpected, unmatchedProduced := MatchFindings(produced, expected);
    var rangeMatches, rangeComparable := 0, 0;
    for i := 0 to |matched|
      invariant rangeComparable == i && rangeMatches == CountSameRange(matched, i)
    {
      rangeComparable := rangeComparable + 1;
      if SameRange(matched[i]) {
        rangeMatches := rangeMatches + 1;
      }
    }
    MatchCounts(produced, expected);
    forall m | IsMatching(m, produced, expected) ensures |m| <= 2 * |matched| {
      GreedyIsHalfOptimal(produced, expected, m);
    }
    return FixtureScore(|matched|, |unmatchedProduced|, |unmatchedExpected|,
                        CountCritical(unmatchedExpected), rangeMatches, rangeComparable);
  }

  function Sum(scores: seq<FixtureScore>, pick: FixtureScore -> nat): nat
    decreases |scores|
  {
    if scores == [] then 0 else pick(scores[0]) + Sum(scores[1..], pick)
  }

  function TruePositives(s: FixtureScore): nat { s.truePositives }
  function FalsePositives(s: FixtureScore): nat { s.falsePositives }
  function FalseNegatives(s: FixtureScore): nat { s.falseNegatives }
  function MissedCritical(s: FixtureScore): nat { s.missedCritical }
  function RangeMatches(s: FixtureScore): nat { s.rangeMatches }
  function RangeComparable(s: FixtureScore): nat { s.rangeComparable }

  datatype EvalTotals = EvalTotals(
    fixtures: nat, truePositives: nat, falsePositives: nat, falseNegatives: nat, missedCritical: nat,
    precision: real, recall: real, rangeAccuracy: real)

  function Ratio(part: nat, whole: nat): real {
    if whole == 0 then 1.0 else part as real / whole as real
  }

  function Aggregate(scores: seq<FixtureScore>): EvalTotals {
    var tp := Sum(scores, TruePositives);
    var fp := Sum(scores, FalsePositives);
    var fn := Sum(scores, FalseNegatives);
    EvalTotals(|scores|, tp, fp, fn, Sum(scores, MissedCritical),
               Ratio(tp, tp + fp), Ratio(tp, tp + fn),
               Ratio(Sum(scores, RangeMatches),
                     Sum(scores, RangeComparable)))
  }

  function Total(ns: seq<nat>): nat
    decreases |ns|
  {
    if ns == [] then 0 else ns[0] + Total(ns[1..])
  }

  lemma {:induction false} SumTold(scores: seq<FixtureScore>, pick: FixtureScore -> nat, counters: seq<nat>)
    requires |counters| == |scores| && forall i :: 0 <= i < |scores| ==> pick(scores[i]) == counters[i]
    ensures Sum(scores, pick) == Total(counters)
  {
    if scores != [] {
      SumTold(scores[1..], pick, counters[1..]);
    }
  }

  /** The totals are the sums of their counters over all fixtures ... */
  lemma AggregateTold(scores: seq<FixtureScore>)
    ensures var a := Aggregate(scores);
      && a.fixtures == |scores|
      && a.truePositives == Total(seq(|scores|, i requires 0 <= i < |scores| => scores[i].truePositives))
      && a.falsePositives == Total(seq(|scores|, i requires 0 <= i < |scores| => scores[i].falsePositives))
      && a.falseNegatives == Total(seq(|scores|, i requires 0 <= i < |scores| => scores[i].falseNegatives))
      && a.missedCritical == Total(seq(|scores|, i requires 0 <= i < |scores| => scores[i].missedCritical))
  {
    SumTold(scores, TruePositives, seq(|scores|, i requires 0 <= i < |scores| => scores[i].truePositives));
    SumTold(scores, FalsePositives, seq(|scores|, i requires 0 <= i < |scores| => scores[i].falsePositives));
    SumTold(scores, FalseNegatives, seq(|scores|, i requires 0 <= i < |scores| => scores[i].falseNegatives));
    SumTold(scores, MissedCritical, seq(|scores|, i requires 0 <= i < |scores| => scores[i].missedCritical));
  }

  /** ... as are the two counters of ranges, and with nothing to compare accuracy is one. */
  lemma RangeAccuracyTold(scores: seq<FixtureScore>)
    ensures
      var matches := Total(seq(|scores|, i requires 0 <= i < |scores| => scores[i].rangeMatches));
      var comparable := Total(seq(|scores|, i requires 0 <= i < |scores| => scores[i].rangeComparable));
      && (comparable == 0 ==> Aggregate(scores).rangeAccuracy == 1.0)
      && Aggregate(scores).rangeAccuracy * comparable as real == if comparable == 0 then 0.0 else matches as real
  {
    SumTold(scores, RangeMatches, seq(|scores|, i requires 0 <= i < |scores| => scores[i].rangeMatches));
    SumTold(scores, RangeComparable, seq(|scores|, i requires 0 <= i < |scores| => scores[i].rangeComparable));
  }

  /** Precision and recall are the proportions of the true positives, or one if there is nothing to compare. */
  lemma RatesTold(scores: seq<FixtureScore>)
    ensures
      var a := Aggregate(scores);
      var reported, wanted := a.truePositives + a.falsePositives, a.truePositives + a.falseNegatives;
      && (if reported == 0 then a.precision == 1.0 else a.precision * reported as real == a.truePositives as real)
      && (if wanted == 0 then a.recall == 1.0 else a.recall * wanted as real == a.truePositives as real)
  {
    var a := Aggregate(scores);
    RatioIsProportion(a.truePositives, a.truePositives + a.falsePositives);
    RatioIsProportion(a.truePositives, a.truePositives + a.falseNegatives);
  }

  lemma {:induction false} SumsAddUp(scores: seq<FixtureScore>, produced: seq<nat>, expected: seq<nat>)
    requires |scores| == |produced| == |expected|
    requires forall i :: 0 <= i < |scores| ==> AddsUp(scores[i], produced[i], expected[i])
    ensures var a := Aggregate(scores);
            && a.truePositives + a.falseNegatives == Total(expected)
            && a.truePositives + a.falsePositives == Total(produced)
            && a.missedCritical <= a.falseNegatives
            && Sum(scores, RangeMatches) <= a.truePositives
            && Sum(scores, RangeComparable) == a.truePositives
    decreases |scores|
  {
    if scores != [] {
      SumsAddUp(scores[1..], produced[1..], expected[1..]);
    }
  }

  lemma RatioIsProportion(part: nat, whole: nat)
    requires part <= whole
    ensures 0.0 <= Ratio(part, whole) <= 1.0
    ensures whole != 0 ==> Ratio(part, whole) * whole as real == part as real
  {
  }

  /** Counts still add up over all fixtures, and the three ratios are proportions of exactly those totals. */
  lemma AggregateAddsUp(scores: seq<FixtureScore>, produced: seq<nat>, expected: seq<nat>)
    requires |scores| == |produced| == |expected|
    requires forall i :: 0 <= i < |scores| ==> AddsUp(scores[i], produced[i], expected[i])
    ensures var a := Aggregate(scores);
            && a.precision == Ratio(a.truePositives, Total(produced))
            && a.recall == Ratio(a.truePositives, Total(expected))
            && 0.0 <= a.precision <= 1.0 && 0.0 <= a.recall <= 1.0 && 0.0 <= a.rangeAccuracy <= 1.0
  {
    SumsAddUp(scores, produced, expected);
    var a := Aggregate(scores);
    RatioIsProportion(a.truePositives, Total(produced));
    RatioIsProportion(a.truePositives, Total(expected));
    RatioIsProportion(Sum(scores, RangeMatches), a.truePositives);
  }
}
