/** The cache of queue URLs. */
module QueueUrls {
  import opened Wrappers

  /** Direct resolution: the URL of a queue topic in an account. */
  type Resolver = (string, string) -> string

  /** One call of `getQueueUrl`, and whether the resolver would answer it. */
  datatype Call = Call(topic: string, account: string, up: bool)

  // --- The cache over a sequence of calls ---------------------------------------------

  function After(resolve: Resolver, cache: map<string, string>, calls: seq<Call>): map<string, string>
    decreases calls
  {
    if calls == [] then cache else After(resolve, AfterOne(resolve, cache, calls[0]), calls[1..])
  }

  function AfterOne(resolve: Resolver, cache: map<string, string>, c: Call): map<string, string> {
    if c.topic in cache || !c.up then cache else cache[c.topic := resolve(c.topic, c.account)]
  }

  /** What the call answers. */
  function Answer(resolve: Resolver, cache: map<string, string>, c: Call): Option<string> {
    if c.topic in cache then Some(cache[c.topic])
    else if c.up then Some(resolve(c.topic, c.account))
    else None
  }

  /** The call went to the resolver and got an answer. */
  predicate Resolves(cache: map<string, string>, c: Call) {
    c.topic !in cache && c.up
  }

  class Cache {
    const resolve: Resolver
    var queueUrlLookupTable: map<string, string>

    constructor (resolve: Resolver)
      ensures this.resolve == resolve && queueUrlLookupTable == map[]
    {
      this.resolve := resolve;
      queueUrlLookupTable := map[];
    }

    /** `getQueueUrl` */
    method GetQueueUrl(topic: string, account: string, up: bool) returns (url: Option<string>)
      modifies this
      ensures url == Answer(resolve, old(queueUrlLookupTable), Call(topic, account, up))
      ensures queueUrlLookupTable == AfterOne(resolve, old(queueUrlLookupTable), Call(topic, account, up))
      ensures url.None? ==> queueUrlLookupTable == old(queueUrlLookupTable)
    {
      if topic in queueUrlLookupTable {
        return Some(queueUrlLookupTable[topic]);
      }
      if !up {
        return None;
      }
      queueUrlLookupTable := queueUrlLookupTable[topic := resolve(topic, account)];
      return Some(queueUrlLookupTable[topic]);
    }
  }

  // --- Properties over every sequence of calls ----------------------------------------

  /** A topic is always used with the same account. */
  predicate OneAccount(calls: seq<Call>) {
    forall i, j | 0 <= i < j < |calls| :: calls[i].topic == calls[j].topic ==> calls[i].account == calls[j].account
  }

  /** What the cache holds for a topic is what its first answered call resolved. */
  lemma {:induction false} CacheHoldsFirstAnswer(resolve: Resolver, calls: seq<Call>, topic: string)
    ensures topic in After(resolve, map[], calls) <==>
            exists i :: 0 <= i < |calls| && calls[i].topic == topic && calls[i].up
    ensures topic in After(resolve, map[], calls) ==>
              exists i :: 0 <= i < |calls| && calls[i].topic == topic && calls[i].up &&
                          (forall j | 0 <= j < i :: calls[j].topic == topic ==> !calls[j].up) &&
                          After(resolve, map[], calls)[topic] == resolve(topic, calls[i].account)
    decreases calls
  {
    var n := |calls| - 1;
    if calls != [] {
      AfterSnoc(resolve, map[], calls[..n], calls[n]);
      assert calls[..n] + [calls[n]] == calls;
      var before := After(resolve, map[], calls[..n]);
      CacheHoldsFirstAnswer(resolve, calls[..n], topic);
      if topic in before {
        var i :| 0 <= i < n && calls[..n][i].topic == topic && calls[..n][i].up &&
                 (forall j | 0 <= j < i :: calls[..n][j].topic == topic ==> !calls[..n][j].up) &&
                 before[topic] == resolve(topic, calls[..n][i].account);
        assert calls[i] == calls[..n][i];
        assert forall j | 0 <= j < i :: calls[j] == calls[..n][j];
      } else if topic in After(resolve, map[], calls) {
        assert calls[n].topic == topic && calls[n].up;
        forall j | 0 <= j < n ensures calls[j].topic == topic ==> !calls[j].up {
          assert calls[j] == calls[..n][j];
        }
      } else {
        assert forall j | 0 <= j < n :: calls[j] == calls[..n][j];
      }
    }
  }

  lemma {:induction false} AfterSnoc(resolve: Resolver, cache: map<string, string>, calls: seq<Call>, c: Call)
    ensures After(resolve, cache, calls + [c]) == AfterOne(resolve, After(resolve, cache, calls), c)
    decreases calls
  {
    if calls == [] {
      assert calls + [c] == [c] && [c][1..] == [];
    } else {
      assert (calls + [c])[1..] == calls[1..] + [c];
      AfterSnoc(resolve, AfterOne(resolve, cache, calls[0]), calls[1..], c);
    }
  }

  /** After any calls, with any failures, the next call answers what direct resolution
      would, if topics keep to their account. */
  lemma AnswersLikeTheResolver(resolve: Resolver, calls: seq<Call>, c: Call)
    requires OneAccount(calls + [c])
    ensures var answer := Answer(resolve, After(resolve, map[], calls), c);
            answer.Some? ==> answer == Some(resolve(c.topic, c.account))
    ensures c.up ==> Answer(resolve, After(resolve, map[], calls), c).Some?
  {
    CacheHoldsFirstAnswer(resolve, calls, c.topic);
    if c.topic in After(resolve, map[], calls) {
      var i :| 0 <= i < |calls| && calls[i].topic == c.topic &&
               After(resolve, map[], calls)[c.topic] == resolve(c.topic, calls[i].account);
      assert (calls + [c])[i] == calls[i] && (calls + [c])[|calls|] == c;
    }
  }

  /** Without that condition the answer is right exactly when the account of the first
      answered call for the topic gives the same URL. */
  lemma RightIffFirstAccountAgrees(resolve: Resolver, calls: seq<Call>, c: Call, i: nat)
    requires i < |calls| && calls[i].topic == c.topic && calls[i].up
    requires forall j | 0 <= j < i :: calls[j].topic == c.topic ==> !calls[j].up
    ensures Answer(resolve, After(resolve, map[], calls), c) == Some(resolve(c.topic, c.account)) <==>
            resolve(c.topic, calls[i].account) == resolve(c.topic, c.account)
  {
    CacheHoldsFirstAnswer(resolve, calls, c.topic);
    var k :| 0 <= k < |calls| && calls[k].topic == c.topic && calls[k].up &&
             (forall j | 0 <= j < k :: calls[j].topic == c.topic ==> !calls[j].up) &&
             After(resolve, map[], calls)[c.topic] == resolve(c.topic, calls[k].account);
    assert k == i;
  }

  /** A topic is resolved successfully at most once. */
  lemma ResolvedAtMostOnce(resolve: Resolver, calls: seq<Call>, i: nat, j: nat)
    requires i < j < |calls| && calls[i].topic == calls[j].topic
    requires Resolves(After(resolve, map[], calls[..i]), calls[i])
    ensures !Resolves(After(resolve, map[], calls[..j]), calls[j])
  {
    CacheHoldsFirstAnswer(resolve, calls[..j], calls[j].topic);
    assert calls[..j][i] == calls[i];
  }
}
