/** AI scoring with its one-entry-per-analysis cache. The provider's call, the decoding of its reply and the
    hash are given; what is modelled is what is asked, what is kept and what is reused. */
module AICache {
  import opened Collections
  import opened RemediationPlans

  /** Everything that changes the answer. */
  datatype Request = Request(provider: string, model: string, maxTokens: nat, prompt: string)

  datatype Answer = Answer(score: int, reasoning: string, actions: seq<AIAction>)

  datatype Entry = Entry(hash: string, answer: Answer)

  const NUL: char := '\0'

  function CacheKey(r: Request): string {
    r.provider + [NUL] + r.model + [NUL] + Decimal(r.maxTokens) + [NUL] + r.prompt
  }

  /** The key determines the request, as long as the provider and the model hold no NUL. */
  lemma {:induction false} KeyIsInjective(r: Request, r': Request)
    requires NUL !in r.provider && NUL !in r.model && NUL !in r'.provider && NUL !in r'.model
    requires CacheKey(r) == CacheKey(r')
    ensures r == r'
  {
    var rest := r.model + [NUL] + (Decimal(r.maxTokens) + [NUL] + r.prompt);
    var rest' := r'.model + [NUL] + (Decimal(r'.maxTokens) + [NUL] + r'.prompt);
    assert CacheKey(r) == r.provider + [NUL] + rest && CacheKey(r') == r'.provider + [NUL] + rest';
    SplitAtFirst(NUL, r.provider, rest, r'.provider, rest');
    SplitAtFirst(NUL, r.model, Decimal(r.maxTokens) + [NUL] + r.prompt, r'.model,
                 Decimal(r'.maxTokens) + [NUL] + r'.prompt);
    DecimalRoundTrip(r.maxTokens);
    DecimalRoundTrip(r'.maxTokens);
    SplitAtFirst(NUL, Decimal(r.maxTokens), r.prompt, Decimal(r'.maxTokens), r'.prompt);
  }

  predicate InRange(a: Answer) {
    0 <= a.score <= 100
  }

  /** A reply counts only if it decodes and its score is between 0 and 100. */
  function ParseResponse(decode: string -> Option<Answer>, raw: string): Option<Answer> {
    var a := decode(raw);
    if a.None? || !InRange(a.value) then None else a
  }

  ghost predicate IsInjective(hash: string -> string) {
    forall a, b :: hash(a) == hash(b) ==> a == b
  }

  class Scorer {
    const hash: string -> string
    const decode: string -> Option<Answer>
    var cache: map<string, Entry>
    /** Every answer the provider has given, with the request it was given to. */
    ghost var given: set<(Request, Answer)>

    /** What is kept is in range and was given to a request with that hash. */
    ghost predicate Valid()
      reads this
    {
      && (forall name :: name in cache ==>
            exists r :: (r, cache[name].answer) in given && hash(CacheKey(r)) == cache[name].hash)
      && (forall r, a :: (r, a) in given ==> InRange(a) && NUL !in r.provider && NUL !in r.model)
    }

    constructor (hash: string -> string, decode: string -> Option<Answer>)
      ensures Valid() && cache == map[] && given == {}
      ensures this.hash == hash && this.decode == decode
    {
      this.hash, this.decode := hash, decode;
      cache, given := map[], {};
    }

    method Get(name: string, h: string) returns (e: Option<Entry>)
      ensures e == if name in cache && cache[name].hash == h then Some(cache[name]) else None
    {
      if name in cache && cache[name].hash == h {
        return Some(cache[name]);
      }
      return None;
    }

    method Put(name: string, e: Entry)
      modifies this`cache
      ensures cache == old(cache)[name := e]
    {
      cache := cache[name := e];
    }

    /** Scores one analysis. hasKey says whether the credentials were read; reply is what the provider
        would return, None for a failed call. An answer, cached or not, is one the provider gave to this
        very request, and in range. The provider is asked only when nothing fits the request, and nothing
        but a parsed answer changes the cache. */
    method ScoreWithAI(name: string, hasKey: bool, provider: string, model: string, maxTokens: int, prompt: string,
                       reply: Option<string>)
      returns (answer: Option<Answer>, asked: bool)
      requires Valid() && IsInjective(hash) && NUL !in provider && NUL !in model
      modifies this
      ensures Valid()
      ensures var r := Request(provider, model, if maxTokens <= 0 then 2048 else maxTokens, prompt);
              && (answer.Some? ==> InRange(answer.value) && (r, answer.value) in given)
              && (asked <==> hasKey && !(name in old(cache) && old(cache)[name].hash == hash(CacheKey(r))))
              && (answer.None? ==> cache == old(cache) && given == old(given))
              && (answer.Some? ==> cache == old(cache)[name := Entry(hash(CacheKey(r)), answer.value)])
              && (answer.Some? && !asked ==> (r, answer.value) in old(given) && cache == old(cache))
              && (asked ==> answer == if reply.None? then None else ParseResponse(decode, reply.value))
              && (answer.Some? ==> 0 <= answer.value.score <= 100)
              && (asked ==>
                    (answer.Some? <==>
                       && reply.Some? && decode(reply.value).Some?
                       && 0 <= decode(reply.value).value.score <= 100)
                    && (answer.Some? ==> answer == decode(reply.value)))
              && (given == if asked && answer.Some? then old(given) + {(r, answer.value)} else old(given))
    {
      hide CacheKey;
      if !hasKey {
        return None, false;
      }
      var tokens := maxTokens;
      if tokens <= 0 {
        tokens := 2048;
      }
      var r := Request(provider, model, tokens, prompt);
      var h := hash(CacheKey(r));
      var cached := Get(name, h);
      if cached.Some? {
        ghost var r' :| (r', cached.value.answer) in given && hash(CacheKey(r')) == h;
        KeyIsInjective(r, r');
        assert cache == cache[name := cached.value];
        return Some(cached.value.answer), false;
      }
      if reply.None? {
        return None, true;
      }
      answer := ParseResponse(decode, reply.value);
      if answer.None? {
        return None, true;
      }
      given := given + {(r, answer.value)};
      Put(name, Entry(h, answer.value));
      assert (r, cache[name].answer) in given && hash(CacheKey(r)) == cache[name].hash;
      return answer, true;
    }
  }
}
