/** The caching provider (src/core/llm-cache.ts), which keeps answers under the normalized prompts. */
module LlmCache {
  import opened NormalPrompt
  import opened Text
  import CacheKey
  import P = PromptFence

  /******* The caching provider *******/

  datatype Request = Request(system: string, user: string)

  /**
   * A provider as a program of some prompt version asks it. A finding is its serialized text; a provider that
   * fails answers with nothing.
   */
  datatype Provider = Provider(
    version: string, name: string, model: string,
    review: Request -> Option<seq<string>>,
    parse: string -> Option<string>,
    utf8: string -> string,
    digest: string -> string)

  function KeyParts(p: Provider, r: Request): seq<string> {
    ["llm", p.version, p.name, p.model, Normal(r.system), Normal(r.user)]
  }

  function KeyOf(p: Provider, r: Request): string { CacheKey.Key(KeyParts(p, r), p.utf8, p.digest) }

  /** What a cache file holds: a list, or something that is none. */
  datatype Entry = List(findings: seq<string>) | NotAList

  type Cache = map<string, Entry>

  /** Every finding parsed; nothing as soon as one is not valid. */
  function ParseAll(p: Provider, findings: seq<string>): Option<seq<string>> {
    if findings == [] then Some([])
    else
      var n := |findings| - 1;
      match ParseAll(p, findings[..n])
      case None => None
      case Some(parsed) =>
        match p.parse(findings[n])
        case None => None
        case Some(finding) => Some(parsed + [finding])
  }

  function Cached(p: Provider, cache: Cache, key: string): Option<seq<string>> {
    if key in cache && cache[key].List? then ParseAll(p, cache[key].findings) else None
  }

  method ReadCachedFindings(p: Provider, cache: Cache, key: string) returns (r: Option<seq<string>>)
    ensures r == Cached(p, cache, key)
  {
    if key !in cache || !cache[key].List? {
      return None;
    }
    var stored := cache[key].findings;
    var findings: seq<string> := [];
    for i := 0 to |stored|
      invariant ParseAll(p, stored[..i]) == Some(findings)
    {
      assert stored[..i + 1][..i] == stored[..i];
      var parsed := p.parse(stored[i]);
      if parsed.None? {
        ParseStops(p, stored, i + 1);
        return None;
      }
      findings := findings + [parsed.value];
    }
    assert stored[..|stored|] == stored;
    return Some(findings);
  }

  lemma {:induction false} ParseStops(p: Provider, findings: seq<string>, i: nat)
    requires i <= |findings|
    requires ParseAll(p, findings[..i]).None?
    ensures ParseAll(p, findings).None?
  {
    if i == |findings| {
      assert findings[..i] == findings;
    } else {
      assert findings[..|findings| - 1][..i] == findings[..i];
      ParseStops(p, findings[..|findings| - 1], i);
    }
  }

  datatype Outcome = Outcome(result: Option<seq<string>>, cache: Cache, asked: bool)

  function Answer(p: Provider, cache: Cache, r: Request): Outcome {
    var key := KeyOf(p, r);
    match Cached(p, cache, key)
    case Some(findings) => Outcome(Some(findings), cache, false)
    case None =>
      match p.review(r)
      case Some(findings) => Outcome(Some(findings), cache[key := List(findings)], true)
      case None => Outcome(None, cache, true)
  }

  /** Cached findings are all parsed, or none is given back. */
  lemma {:induction false} ParsedTold(p: Provider, findings: seq<string>)
    ensures ParseAll(p, findings).Some? <==> forall i :: 0 <= i < |findings| ==> p.parse(findings[i]).Some?
    ensures ParseAll(p, findings).Some? ==>
      |ParseAll(p, findings).value| == |findings|
      && forall i :: 0 <= i < |findings| ==> p.parse(findings[i]) == Some(ParseAll(p, findings).value[i])
  {
    if findings != [] {
      var n := |findings| - 1;
      ParsedTold(p, findings[..n]);
      assert forall i :: 0 <= i < n ==> findings[..n][i] == findings[i];
    }
  }

  /** The model is asked exactly if the cache has no list under the key, or one with an invalid finding. */
  lemma AnswerTold(p: Provider, cache: Cache, r: Request)
    ensures
      var key, a := KeyOf(p, r), Answer(p, cache, r);
      var hit := key in cache && cache[key].List?
        && forall i :: 0 <= i < |cache[key].findings| ==> p.parse(cache[key].findings[i]).Some?;
      && (a.asked <==> !hit)
      && (hit ==>
            && a.cache == cache && a.result.Some? && |a.result.value| == |cache[key].findings|
            && forall i :: 0 <= i < |a.result.value| ==> p.parse(cache[key].findings[i]) == Some(a.result.value[i]))
      && (!hit ==>
            && a.result == p.review(r)
            && a.cache == if p.review(r).Some? then cache[key := List(p.review(r).value)] else cache)
  {
    if KeyOf(p, r) in cache && cache[KeyOf(p, r)].List? {
      ParsedTold(p, cache[KeyOf(p, r)].findings);
    }
  }

  class CachedProvider {
    const provider: Provider
    var cache: Cache

    constructor (provider: Provider, cache: Cache)
      ensures this.provider == provider && this.cache == cache
    {
      this.provider, this.cache := provider, cache;
    }

    /** `asked` tells whether the model was called. */
    method Review(r: Request) returns (result: Option<seq<string>>, asked: bool)
      modifies this`cache
      ensures Outcome(result, cache, asked) == Answer(provider, old(cache), r)
    {
      var key := CacheKey.BuildKey(KeyParts(provider, r), provider.utf8, provider.digest);
      var cached := ReadCachedFindings(provider, cache, key);
      if cached.Some? {
        return cached, false;
      }
      result := provider.review(r);
      asked := true;
      if result.Some? {
        cache := cache[key := List(result.value)];
      }
    }
  }

  /******* The cache cannot be told from the provider *******/

  /**
   * What the caching relies on: keys and encoding do not collide, and the answer of the model depends on the
   * prompts only up to the boundary.
   */
  ghost predicate Reliable(p: Provider) {
    && CacheKey.Injective(p.digest) && CacheKey.Injective(p.utf8)
    && forall r: Request, q: Request :: Same(r.system, q.system) && Same(r.user, q.user) ==> p.review(r) == p.review(q)
  }

  /** The findings come out of the cache as they went in, or not at all. */
  predicate ReadsBack(p: Provider, findings: seq<string>) {
    ParseAll(p, findings).Some? ==> ParseAll(p, findings).value == findings
  }

  ghost predicate Faithful(p: Provider) {
    forall r :: p.review(r).Some? ==> ReadsBack(p, p.review(r).value)
  }

  /** The keys of two requests to two providers agree exactly if version, name, model and both prompts do. */
  lemma KeysTellProvidersApart(p: Provider, q: Provider, r: Request, t: Request)
    requires p.utf8 == q.utf8 && p.digest == q.digest
    requires CacheKey.Injective(p.digest) && CacheKey.Injective(p.utf8)
    ensures KeyOf(p, r) == KeyOf(q, t) <==>
      && p.version == q.version && p.name == q.name && p.model == q.model
      && Normal(r.system) == Normal(t.system) && Normal(r.user) == Normal(t.user)
  {
    var a, b := KeyParts(p, r), KeyParts(q, t);
    CacheKey.KeysAreUnique(a, b, p.utf8, p.digest);
    if KeyOf(p, r) == KeyOf(q, t) {
      forall i | 0 <= i < 6 ensures a[i] == b[i] {
        assert p.utf8(a[i]) == CacheKey.Encoded(a, p.utf8)[i] == CacheKey.Encoded(b, p.utf8)[i] == p.utf8(b[i]);
      }
      assert a[1] == b[1] && a[2] == b[2] && a[3] == b[3] && a[4] == b[4] && a[5] == b[5];
    }
  }

  /** And no other parts, say of another kind of entry, have such a key. */
  lemma KeysAreOfTheirKind(p: Provider, r: Request, parts: seq<string>)
    requires CacheKey.Injective(p.digest) && CacheKey.Injective(p.utf8)
    requires CacheKey.Key(parts, p.utf8, p.digest) == KeyOf(p, r)
    ensures |parts| == 6 && parts[0] == "llm"
  {
    var a := KeyParts(p, r);
    CacheKey.KeysAreUnique(a, parts, p.utf8, p.digest);
    assert p.utf8(a[0]) == CacheKey.Encoded(a, p.utf8)[0] == CacheKey.Encoded(parts, p.utf8)[0] == p.utf8(parts[0]);
  }

  /** Providers on one cache: the same encoding and hash, and one model behind each version, name and model. */
  ghost predicate OnOneCache(ps: seq<Provider>) {
    forall i, j :: 0 <= i < |ps| && 0 <= j < |ps| ==>
      && Reliable(ps[i])
      && ps[i].utf8 == ps[j].utf8 && ps[i].digest == ps[j].digest
      && (ps[i].version == ps[j].version && ps[i].name == ps[j].name && ps[i].model == ps[j].model ==>
            ps[i].review == ps[j].review)
  }

  /** Between the calls entries are lost, or overwritten with something that is no list. */
  datatype Op = Call(i: nat, r: Request) | Evict(key: string) | Spoil(key: string)

  predicate Calls(ps: seq<Provider>, op: Op) { op.Call? ==> op.i < |ps| }

  function Perform(ps: seq<Provider>, cache: Cache, op: Op): Cache
    requires Calls(ps, op)
  {
    match op
    case Call(i, r) => Answer(ps[i], cache, r).cache
    case Evict(key) => cache - {key}
    case Spoil(key) => cache[key := NotAList]
  }

  function CacheAfter(ps: seq<Provider>, ops: seq<Op>): Cache
    requires forall op :: op in ops ==> Calls(ps, op)
  {
    if ops == [] then map[] else Perform(ps, CacheAfter(ps, ops[..|ops| - 1]), ops[|ops| - 1])
  }

  /** After any operations, any request to any of the providers is answered as that provider itself answers it. */
  ghost predicate Transparent(ps: seq<Provider>) {
    forall ops, i, r | (forall op :: op in ops ==> Calls(ps, op)) && 0 <= i < |ps| ::
      Answer(ps[i], CacheAfter(ps, ops), r).result == ps[i].review(r)
  }

  ghost predicate AllFaithful(ps: seq<Provider>) {
    forall i :: 0 <= i < |ps| ==> Faithful(ps[i])
  }

  /** Every list in the cache is the answer of every provider to every request with its key. */
  ghost predicate Honest(ps: seq<Provider>, cache: Cache) {
    forall i, r {:trigger ps[i].review(r)} :: 0 <= i < |ps| ==>
      var key := KeyOf(ps[i], r);
      key in cache && cache[key].List? ==> ps[i].review(r) == Some(cache[key].findings)
  }

  lemma SameKeySameAnswer(ps: seq<Provider>, i: nat, j: nat, r: Request, q: Request)
    requires OnOneCache(ps) && i < |ps| && j < |ps| && KeyOf(ps[i], r) == KeyOf(ps[j], q)
    ensures ps[i].review(r) == ps[j].review(q)
  {
    KeysTellProvidersApart(ps[i], ps[j], r, q);
    assert Same(r.system, q.system) && Same(r.user, q.user);
  }

  lemma OpKeepsHonest(ps: seq<Provider>, cache: Cache, op: Op)
    requires OnOneCache(ps) && Honest(ps, cache) && Calls(ps, op)
    ensures Honest(ps, Perform(ps, cache, op))
  {
    var after := Perform(ps, cache, op);
    forall i, r | 0 <= i < |ps| && KeyOf(ps[i], r) in after && after[KeyOf(ps[i], r)].List?
        ensures ps[i].review(r) == Some(after[KeyOf(ps[i], r)].findings) {
      if op.Call? && KeyOf(ps[op.i], op.r) == KeyOf(ps[i], r) {
        SameKeySameAnswer(ps, op.i, i, op.r, r);
      }
    }
  }

  lemma {:induction false} CacheStaysHonest(ps: seq<Provider>, ops: seq<Op>)
    requires OnOneCache(ps) && forall op :: op in ops ==> Calls(ps, op)
    ensures Honest(ps, CacheAfter(ps, ops))
  {
    if ops != [] {
      CacheStaysHonest(ps, ops[..|ops| - 1]);
      OpKeepsHonest(ps, CacheAfter(ps, ops[..|ops| - 1]), ops[|ops| - 1]);
    }
  }

  lemma FaithfulAnswer(ps: seq<Provider>, cache: Cache, i: nat, r: Request)
    requires AllFaithful(ps) && Honest(ps, cache) && i < |ps|
    ensures Answer(ps[i], cache, r).result == ps[i].review(r)
  {
    assert Faithful(ps[i]);
    if KeyOf(ps[i], r) in cache && cache[KeyOf(ps[i], r)].List? {
      assert ps[i].review(r) == Some(cache[KeyOf(ps[i], r)].findings);
    }
  }

  /**
   * A cache shared by any reliable providers, of different models, names and versions, cannot be told from the
   * providers, over any sequence of calls and losses, if and only if every answer is read back from the cache as
   * it was or not at all.
   */
  lemma CacheIsTransparentExactly(ps: seq<Provider>)
    requires OnOneCache(ps)
    ensures Transparent(ps) <==> AllFaithful(ps)
  {
    if AllFaithful(ps) {
      forall ops, i, r | (forall op :: op in ops ==> Calls(ps, op)) && 0 <= i < |ps|
          ensures Answer(ps[i], CacheAfter(ps, ops), r).result == ps[i].review(r) {
        CacheStaysHonest(ps, ops);
        FaithfulAnswer(ps, CacheAfter(ps, ops), i, r);
      }
    }
    if Transparent(ps) {
      forall i, r | 0 <= i < |ps| && ps[i].review(r).Some? ensures ReadsBack(ps[i], ps[i].review(r).value) {
        if ParseAll(ps[i], ps[i].review(r).value).Some? {
          SecondAnswer(ps, i, r);
        }
      }
    }
  }

  /** A request repeated at once is answered with what parsing makes of the first answer. */
  lemma SecondAnswer(ps: seq<Provider>, i: nat, r: Request)
    requires i < |ps| && ps[i].review(r).Some? && ParseAll(ps[i], ps[i].review(r).value).Some?
    ensures Answer(ps[i], CacheAfter(ps, [Call(i, r)]), r) ==
      Outcome(ParseAll(ps[i], ps[i].review(r).value), CacheAfter(ps, [Call(i, r)]), false)
  {
    assert [Call(i, r)][..0] == [];
    assert CacheAfter(ps, [Call(i, r)]) == Perform(ps, map[], Call(i, r));
  }

  /**
   * The point of normalizing: the same review asked for again, under another boundary, is answered from the
   * cache with the first answer and without calling the model, if none of its texts has an end marker in it ...
   */
  lemma SameReviewIsAnsweredFromCache(p: Provider, cache: Cache, t: SystemText, input: P.Input, b1: string, b2: string)
    requires RunBoundary(b1) && RunBoundary(b2) && AllUnmarked(Contents(input), b1, b2)
    requires Keeps(p, cache, Asked(t, input, b1))
    ensures var first := Answer(p, cache, Asked(t, input, b1));
      var second := Answer(p, first.cache, Asked(t, input, b2));
      second.result == first.result && !second.asked
  {
    SystemPromptIsSame(t, b1, b2);
    BoundaryDoesNotMatter(input, b1, b2);
    SameKeys(p, Asked(t, input, b1), Asked(t, input, b2));
    AnswerIsKept(p, cache, Asked(t, input, b1), Asked(t, input, b2));
  }

  /** ... and, unless an answer to that very prompt was there before, only then. */
  lemma SecondCallIsSavedExactly(p: Provider, cache: Cache, t: SystemText, input: P.Input, b1: string, b2: string)
    requires Reliable(p)
    requires RunBoundary(b1) && RunBoundary(b2)
    requires Keeps(p, cache, Asked(t, input, b1)) && KeyOf(p, Asked(t, input, b2)) !in cache
    ensures var first := Answer(p, cache, Asked(t, input, b1));
      !Answer(p, first.cache, Asked(t, input, b2)).asked <==> AllUnmarked(Contents(input), b1, b2)
  {
    var r, q := Asked(t, input, b1), Asked(t, input, b2);
    if AllUnmarked(Contents(input), b1, b2) {
      SameReviewIsAnsweredFromCache(p, cache, t, input, b1, b2);
    } else {
      BoundaryDoesNotMatter(input, b1, b2);
      OtherPromptIsAsked(p, cache, r, q);
    }
  }

  lemma OtherPromptIsAsked(p: Provider, cache: Cache, r: Request, q: Request)
    requires Reliable(p) && KeyOf(p, q) !in cache && !Same(r.user, q.user)
    ensures Answer(p, Answer(p, cache, r).cache, q).asked
  {
    KeysTellProvidersApart(p, p, r, q);
  }

  /** One review under a boundary. */
  function Asked(t: SystemText, input: P.Input, boundary: string): Request {
    Request(SystemPrompt(t, boundary), P.UserPrompt(input, boundary))
  }

  /** The request goes to the model, and the answer is one that can be read back from the cache. */
  predicate Keeps(p: Provider, cache: Cache, r: Request) {
    var first := Answer(p, cache, r);
    first.asked && first.result.Some? && ParseAll(p, first.result.value) == first.result
  }

  lemma SameKeys(p: Provider, r: Request, q: Request)
    requires Same(r.system, q.system) && Same(r.user, q.user)
    ensures KeyOf(p, r) == KeyOf(p, q)
  {
  }

  lemma AnswerIsKept(p: Provider, cache: Cache, r: Request, q: Request)
    requires KeyOf(p, r) == KeyOf(p, q) && Keeps(p, cache, r)
    ensures var first := Answer(p, cache, r);
      var second := Answer(p, first.cache, q);
      second.result == first.result && !second.asked
  {
  }
}
