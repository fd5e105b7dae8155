/** The analyzer client: how the service fans requests out to the analyzer
    back ends, each reachable through a named message exchange.

    The message broker is abstracted into a `Broker` value: the snapshot of
    analyzer exchanges it lists, and the replies each exchange gives to an
    index or analyze request. Sends are recorded as a trace of `Message`s, so
    "which exchange was contacted with what" is part of each result. */
module AnalyzerClient {
  import opened Common

  const IndexRoute: string := "index"
  const AnalyzeRoute: string := "analyze"
  const DeleteRoute: string := "delete"
  const CleanRoute: string := "clean"

  /** An analyzer exchange as listed by the broker: its name (the message
      destination) and its declared arguments. */
  datatype Exchange = Exchange(name: string, arguments: map<string, string>)

  datatype IndexTestItem = IndexTestItem(testItemId: int, uniqueId: string)

  /** A launch offered for analysis; its test items are what the analyzers
      classify, and what `analyze` removes once an analyzer has claimed them. */
  datatype IndexLaunch = IndexLaunch(launchId: int, launchName: string, testItems: seq<IndexTestItem>)

  /** One classification returned by an analyzer, about the test item `itemId`. */
  datatype AnalyzedItemRs = AnalyzedItemRs(itemId: int, relevantItemId: int, issueType: string)

  datatype IndexRsItem = IndexRsItem(index: string, status: int)
  datatype IndexRs = IndexRs(items: seq<IndexRsItem>)

  datatype CleanIndexRq = CleanIndexRq(index: int, ids: seq<int>)

  datatype Body =
    | IndexBody(launches: seq<IndexLaunch>)
    | AnalyzeBody(launches: seq<IndexLaunch>)
    | CleanBody(clean: CleanIndexRq)
    | DeleteBody(index: int)

  /** A message sent to the exchange named `exchange` with routing key `route`. */
  datatype Message = Message(exchange: string, route: string, body: Body)

  /** What the client sees of the broker: the current list of analyzer
      exchanges and the reply each exchange gives to an index request and to
      an analyze request (`None` for a missing reply). */
  datatype Broker = Broker(
    exchanges: seq<Exchange>,
    indexReply: (Exchange, seq<IndexLaunch>) -> IndexRs,
    analyzeReply: (Exchange, seq<IndexLaunch>) -> Option<seq<AnalyzedItemRs>>)

  /** The two exchange-inspecting helpers the client imports: the
      capability test for indexing and the name of the argument that carries
      an analyzer's result key. */
  datatype ClientUtils = ClientUtils(supportsIndex: Exchange -> bool, analyzerKey: string)

  predicate DistinctNames(exs: seq<Exchange>) {
    forall i, j :: 0 <= i < j < |exs| ==> exs[i].name != exs[j].name
  }

  // ---------------------------------------------------------------------
  // hasClients

  function HasClients(b: Broker): (r: bool)
    ensures r <==> exists e :: e in b.exchanges
  {
    assert |b.exchanges| != 0 ==> b.exchanges[0] in b.exchanges;
    |b.exchanges| != 0
  }

  // ---------------------------------------------------------------------
  // Sending one message to each of a list of exchanges

  /** One message with the given route and body to each exchange, in order. */
  function Broadcast(exs: seq<Exchange>, route: string, body: Body): (r: seq<Message>)
    ensures |r| == |exs|
    ensures forall i :: 0 <= i < |r| ==> r[i].exchange == exs[i].name && r[i].route == route && r[i].body == body
    decreases |exs|
  {
    if |exs| == 0 then [] else [Message(exs[0].name, route, body)] + Broadcast(exs[1..], route, body)
  }

  /** Positions in `msgs` of the messages addressed to the exchange `name`. */
  function AddressedTo(msgs: seq<Message>, name: string): set<int> {
    set i | 0 <= i < |msgs| && msgs[i].exchange == name
  }

  /** When exchange names are distinct, each exchange receives exactly one
      of the broadcast messages, and a name that is not listed receives none. */
  lemma BroadcastOnePerExchange(exs: seq<Exchange>, route: string, body: Body, name: string)
    requires DistinctNames(exs)
    ensures forall k :: 0 <= k < |exs| && exs[k].name == name ==> AddressedTo(Broadcast(exs, route, body), name) == {k}
    ensures (forall e :: e in exs ==> e.name != name) ==> AddressedTo(Broadcast(exs, route, body), name) == {}
  {
  }

  // ---------------------------------------------------------------------
  // cleanIndex and deleteIndex

  /** `cleanIndex(index, ids)`: a clean request to every exchange, unfiltered. */
  function CleanIndex(b: Broker, index: int, ids: seq<int>): (sent: seq<Message>)
    ensures |sent| == |b.exchanges|
    ensures forall m :: m in sent ==> m.route == CleanRoute && m.body == CleanBody(CleanIndexRq(index, ids))
    ensures forall i :: 0 <= i < |sent| ==> sent[i].exchange == b.exchanges[i].name
  {
    Broadcast(b.exchanges, CleanRoute, CleanBody(CleanIndexRq(index, ids)))
  }

  /** `deleteIndex(index)`: the bare index to every exchange, unfiltered. */
  function DeleteIndex(b: Broker, index: int): (sent: seq<Message>)
    ensures |sent| == |b.exchanges|
    ensures forall m :: m in sent ==> m.route == DeleteRoute && m.body == DeleteBody(index)
    ensures forall i :: 0 <= i < |sent| ==> sent[i].exchange == b.exchanges[i].name
  {
    Broadcast(b.exchanges, DeleteRoute, DeleteBody(index))
  }

  // ---------------------------------------------------------------------
  // index

  /** The exchanges that pass the indexing capability filter, in order. */
  function Indexers(exs: seq<Exchange>, supportsIndex: Exchange -> bool): (r: seq<Exchange>)
    ensures forall e :: e in r <==> e in exs && supportsIndex(e)
    ensures Subsequence(r, exs)
    decreases |exs|
  {
    if |exs| == 0 then []
    else if supportsIndex(exs[0]) then [exs[0]] + Indexers(exs[1..], supportsIndex)
    else Indexers(exs[1..], supportsIndex)
  }

  /** Sum of the item counts the given exchanges report for `rq`. */
  function SumIndexed(b: Broker, exs: seq<Exchange>, rq: seq<IndexLaunch>): nat
    decreases |exs|
  {
    if |exs| == 0 then 0 else |b.indexReply(exs[0], rq).items| + SumIndexed(b, exs[1..], rq)
  }

  /** The count an exchange contributes to the index total when the whole
      exchange list is considered: its reply's item count if it supports
      indexing, nothing otherwise. */
  function IndexShare(b: Broker, supportsIndex: Exchange -> bool, e: Exchange, rq: seq<IndexLaunch>): nat {
    if supportsIndex(e) then |b.indexReply(e, rq).items| else 0
  }

  function SumShares(b: Broker, supportsIndex: Exchange -> bool, exs: seq<Exchange>, rq: seq<IndexLaunch>): nat
    decreases |exs|
  {
    if |exs| == 0 then 0 else IndexShare(b, supportsIndex, exs[0], rq) + SumShares(b, supportsIndex, exs[1..], rq)
  }

  datatype IndexOutcome = IndexOutcome(total: nat, sent: seq<Message>)

  /** `index(rq)`: send `rq` to each exchange that supports indexing and sum
      the item counts of their replies. */
  function Index(b: Broker, utils: ClientUtils, rq: seq<IndexLaunch>): (r: IndexOutcome)
    ensures forall m :: m in r.sent ==>
              m.route == IndexRoute && m.body == IndexBody(rq) &&
              exists e :: e in b.exchanges && utils.supportsIndex(e) && e.name == m.exchange
    ensures (forall e :: e in b.exchanges ==> !utils.supportsIndex(e)) ==> r.total == 0 && r.sent == []
  {
    var indexers := Indexers(b.exchanges, utils.supportsIndex);
    var sent := Broadcast(indexers, IndexRoute, IndexBody(rq));
    BroadcastToIndexers(b.exchanges, utils.supportsIndex, rq);
    IndexOutcome(SumIndexed(b, indexers, rq), sent)
  }

  lemma BroadcastToIndexers(exs: seq<Exchange>, supportsIndex: Exchange -> bool, rq: seq<IndexLaunch>)
    ensures forall m :: m in Broadcast(Indexers(exs, supportsIndex), IndexRoute, IndexBody(rq)) ==>
              exists e :: e in exs && supportsIndex(e) && e.name == m.exchange
    ensures (forall e :: e in exs ==> !supportsIndex(e)) ==> Indexers(exs, supportsIndex) == []
  {
    var indexers := Indexers(exs, supportsIndex);
    var sent := Broadcast(indexers, IndexRoute, IndexBody(rq));
    forall m | m in sent
      ensures exists e :: e in exs && supportsIndex(e) && e.name == m.exchange
    {
      var i :| 0 <= i < |sent| && sent[i] == m;
      assert indexers[i] in indexers;
    }
    if forall e :: e in exs ==> !supportsIndex(e) {
      if |indexers| > 0 {
        assert indexers[0] in indexers;
      }
    }
  }

  lemma {:induction false} SumIndexedIndexers(b: Broker, supportsIndex: Exchange -> bool, exs: seq<Exchange>, rq: seq<IndexLaunch>)
    ensures SumIndexed(b, Indexers(exs, supportsIndex), rq) == SumShares(b, supportsIndex, exs, rq)
    decreases |exs|
  {
    if |exs| > 0 {
      SumIndexedIndexers(b, supportsIndex, exs[1..], rq);
      var rest := Indexers(exs[1..], supportsIndex);
      if supportsIndex(exs[0]) {
        assert ([exs[0]] + rest)[1..] == rest;
      }
    }
  }

  /** The index total is the sum, over the whole exchange list, of the counts
      of the exchanges that support indexing; the others add nothing. */
  lemma IndexTotalIsSumOfShares(b: Broker, utils: ClientUtils, rq: seq<IndexLaunch>)
    ensures Index(b, utils, rq).total == SumShares(b, utils.supportsIndex, b.exchanges, rq)
  {
    SumIndexedIndexers(b, utils.supportsIndex, b.exchanges, rq);
  }

  /** With distinct exchange names, each exchange that supports indexing is
      sent exactly one index request and every other exchange none. */
  lemma IndexContactsExactlySupporters(b: Broker, utils: ClientUtils, rq: seq<IndexLaunch>, e: Exchange)
    requires DistinctNames(b.exchanges)
    requires e in b.exchanges
    ensures utils.supportsIndex(e) ==> |AddressedTo(Index(b, utils, rq).sent, e.name)| == 1
    ensures !utils.supportsIndex(e) ==> AddressedTo(Index(b, utils, rq).sent, e.name) == {}
  {
    var indexers := Indexers(b.exchanges, utils.supportsIndex);
    IndexersDistinct(b.exchanges, utils.supportsIndex);
    BroadcastOnePerExchange(indexers, IndexRoute, IndexBody(rq), e.name);
    if utils.supportsIndex(e) {
      var k :| 0 <= k < |indexers| && indexers[k] == e;
    } else {
      forall x | x in indexers ensures x.name != e.name {
        var i :| 0 <= i < |b.exchanges| && b.exchanges[i] == x;
        var j :| 0 <= j < |b.exchanges| && b.exchanges[j] == e;
        assert i != j;
      }
    }
  }

  lemma {:induction false} IndexersDistinct(exs: seq<Exchange>, supportsIndex: Exchange -> bool)
    requires DistinctNames(exs)
    ensures DistinctNames(Indexers(exs, supportsIndex))
    decreases |exs|
  {
    if |exs| > 0 {
      var tail := exs[1..];
      assert DistinctNames(tail) by {
        forall i, j | 0 <= i < j < |tail| ensures tail[i].name != tail[j].name {
          assert tail[i] == exs[i + 1] && tail[j] == exs[j + 1];
        }
      }
      IndexersDistinct(tail, supportsIndex);
      var rest := Indexers(tail, supportsIndex);
      if supportsIndex(exs[0]) {
        var r := [exs[0]] + rest;
        forall i, j | 0 <= i < j < |r| ensures r[i].name != r[j].name {
          if i == 0 {
            assert r[j] in rest;
            var k :| 0 <= k < |tail| && tail[k] == r[j];
            assert tail[k] == exs[k + 1];
          }
        }
      }
    }
  }

  // ---------------------------------------------------------------------
  // analyze

  /** The key an analyzer's results are stored under: its declared analyzer
      key argument when present, else the exchange name. */
  function ResultKey(e: Exchange, analyzerKey: string): (k: string)
    ensures analyzerKey !in e.arguments ==> k == e.name
    ensures analyzerKey in e.arguments ==> k == e.arguments[analyzerKey]
  {
    if analyzerKey in e.arguments then e.arguments[analyzerKey] else e.name
  }

  /** The ids of the test items an analyzer reply classifies. */
  function ClaimedIds(analyzed: seq<AnalyzedItemRs>): set<int> {
    set a | a in analyzed :: a.itemId
  }

  function ItemIds(items: seq<IndexTestItem>): set<int> {
    set it | it in items :: it.testItemId
  }

  /** The items whose ids are not in `claimed`, in their original order,
      each as many times as it occurred. */
  function KeepUnclaimed(items: seq<IndexTestItem>, claimed: set<int>): (r: seq<IndexTestItem>)
    ensures forall it :: it in r <==> it in items && it.testItemId !in claimed
    ensures Subsequence(r, items)
    decreases |items|
  {
    if |items| == 0 then []
    else
      var rest := KeepUnclaimed(items[1..], claimed);
      assert items == [items[0]] + items[1..];
      if items[0].testItemId in claimed then
        rest
      else
        assert ([items[0]] + rest)[1..] == rest;
        [items[0]] + rest
  }

  /** Every unclaimed item is kept as many times as it occurs, as
      `removeIf` keeps duplicates; every claimed one is gone. */
  lemma {:induction false} KeepUnclaimedKeepsEveryCopy(items: seq<IndexTestItem>, claimed: set<int>)
    ensures forall it :: multiset(KeepUnclaimed(items, claimed))[it] ==
              if it.testItemId in claimed then 0 else multiset(items)[it]
    decreases |items|
  {
    if |items| > 0 {
      KeepUnclaimedKeepsEveryCopy(items[1..], claimed);
      var rest := KeepUnclaimed(items[1..], claimed);
      assert items == [items[0]] + items[1..];
      assert multiset(items) == multiset{items[0]} + multiset(items[1..]);
      if items[0].testItemId !in claimed {
        assert multiset([items[0]] + rest) == multiset{items[0]} + multiset(rest);
      }
    }
  }

  /** `removeAnalyzedFromRq`: drop from the request exactly the test items
      whose id an analyzer reply claims. */
  function RemoveAnalyzedFromRq(rq: IndexLaunch, analyzed: seq<AnalyzedItemRs>): (r: IndexLaunch)
    ensures r.launchId == rq.launchId && r.launchName == rq.launchName
    ensures forall it :: it in r.testItems <==> it in rq.testItems && it.testItemId !in ClaimedIds(analyzed)
    ensures Subsequence(r.testItems, rq.testItems)
    ensures ItemIds(r.testItems) == ItemIds(rq.testItems) - ClaimedIds(analyzed)
  {
    var r := rq.(testItems := KeepUnclaimed(rq.testItems, ClaimedIds(analyzed)));
    KeptIds(rq.testItems, r.testItems, ClaimedIds(analyzed));
    r
  }

  /** The request keeps every copy of an unclaimed item and none of a
      claimed one. */
  lemma RemoveAnalyzedKeepsEveryCopy(rq: IndexLaunch, analyzed: seq<AnalyzedItemRs>)
    ensures forall it :: multiset(RemoveAnalyzedFromRq(rq, analyzed).testItems)[it] ==
              if it.testItemId in ClaimedIds(analyzed) then 0 else multiset(rq.testItems)[it]
  {
    KeepUnclaimedKeepsEveryCopy(rq.testItems, ClaimedIds(analyzed));
  }

  lemma KeptIds(items: seq<IndexTestItem>, kept: seq<IndexTestItem>, claimed: set<int>)
    requires forall it :: it in kept <==> it in items && it.testItemId !in claimed
    ensures ItemIds(kept) == ItemIds(items) - claimed
  {
  }

  /** A reply that counts: present and non-empty. */
  predicate Contributes(reply: Option<seq<AnalyzedItemRs>>) {
    reply.Some? && |reply.value| > 0
  }

  /** The state `analyze` threads through the exchanges: the result map so
      far, the request as it now stands, and the messages sent. */
  datatype AnalyzeState = AnalyzeState(results: map<string, seq<AnalyzedItemRs>>, rq: IndexLaunch, sent: seq<Message>)

  /** The private `analyze(rq, resultMap, exchange)`: ask one exchange about
      the current request; a non-empty reply is stored under the exchange's
      result key and its items are removed from the request. */
  function AnalyzeExchange(b: Broker, analyzerKey: string, s: AnalyzeState, e: Exchange): (r: AnalyzeState)
    ensures r.sent == s.sent + [Message(e.name, AnalyzeRoute, AnalyzeBody([s.rq]))]
    ensures Contributes(b.analyzeReply(e, [s.rq])) ==>
              var reply := b.analyzeReply(e, [s.rq]).value;
              && r.results == s.results[ResultKey(e, analyzerKey) := reply]
              && r.rq == RemoveAnalyzedFromRq(s.rq, reply)
    ensures !Contributes(b.analyzeReply(e, [s.rq])) ==> r.results == s.results && r.rq == s.rq
  {
    var msg := Message(e.name, AnalyzeRoute, AnalyzeBody([s.rq]));
    var reply := b.analyzeReply(e, [s.rq]);
    if Contributes(reply) then
      AnalyzeState(s.results[ResultKey(e, analyzerKey) := reply.value], RemoveAnalyzedFromRq(s.rq, reply.value), s.sent + [msg])
    else
      AnalyzeState(s.results, s.rq, s.sent + [msg])
  }

  /** The state after asking the first `k` exchanges of `exs` in order,
      starting from an empty result map and the request `rq`: one message per
      exchange asked, and at most one result entry per exchange. */
  function AnalyzeFirst(b: Broker, analyzerKey: string, exs: seq<Exchange>, rq: IndexLaunch, k: nat): (r: AnalyzeState)
    requires k <= |exs|
    ensures |r.sent| == k
    ensures |r.results| <= k
    decreases k
  {
    if k == 0 then
      AnalyzeState(map[], rq, [])
    else
      var s := AnalyzeFirst(b, analyzerKey, exs, rq, k - 1);
      var r := AnalyzeExchange(b, analyzerKey, s, exs[k - 1]);
      assert |r.results.Keys| <= |s.results.Keys| + 1 by {
        assert r.results.Keys <= s.results.Keys + {ResultKey(exs[k - 1], analyzerKey)};
        assert |s.results.Keys + {ResultKey(exs[k - 1], analyzerKey)}| <= |s.results.Keys| + 1;
      }
      r
  }

  /** The request only ever shrinks: what is left after `k` exchanges is a
      subsequence of the original test items, for the same launch. */
  lemma {:induction false} AnalyzeKeepsOrder(b: Broker, analyzerKey: string, exs: seq<Exchange>, rq: IndexLaunch, k: nat)
    requires k <= |exs|
    ensures Subsequence(AnalyzeFirst(b, analyzerKey, exs, rq, k).rq.testItems, rq.testItems)
    ensures AnalyzeFirst(b, analyzerKey, exs, rq, k).rq.launchId == rq.launchId
    ensures AnalyzeFirst(b, analyzerKey, exs, rq, k).rq.launchName == rq.launchName
    decreases k
  {
    if k == 0 {
      SubsequenceReflexive(rq.testItems);
    } else {
      AnalyzeKeepsOrder(b, analyzerKey, exs, rq, k - 1);
      var s := AnalyzeFirst(b, analyzerKey, exs, rq, k - 1);
      var r := AnalyzeFirst(b, analyzerKey, exs, rq, k);
      if r.rq == s.rq {
      } else {
        SubsequenceTransitive(r.rq.testItems, s.rq.testItems, rq.testItems);
      }
    }
  }

  /** `analyze(rq)`: ask every analyzer exchange in list order, each about
      what is left of the request. */
  function Analyze(b: Broker, utils: ClientUtils, rq: IndexLaunch): (r: AnalyzeState)
    ensures |b.exchanges| == 0 ==> r.results == map[] && r.rq == rq && r.sent == []
    ensures |r.results| <= |b.exchanges|
    ensures Subsequence(r.rq.testItems, rq.testItems)
  {
    AnalyzeKeepsOrder(b, utils.analyzerKey, b.exchanges, rq, |b.exchanges|);
    AnalyzeFirst(b, utils.analyzerKey, b.exchanges, rq, |b.exchanges|)
  }

  /** The request exchange `k` is asked about. */
  function RequestSeenBy(b: Broker, analyzerKey: string, exs: seq<Exchange>, rq: IndexLaunch, k: nat): IndexLaunch
    requires k <= |exs|
  {
    AnalyzeFirst(b, analyzerKey, exs, rq, k).rq
  }

  /** The reply exchange `k` gives. */
  function ReplyOf(b: Broker, analyzerKey: string, exs: seq<Exchange>, rq: IndexLaunch, k: nat): Option<seq<AnalyzedItemRs>>
    requires k < |exs|
  {
    b.analyzeReply(exs[k], [RequestSeenBy(b, analyzerKey, exs, rq, k)])
  }

  /** The ids exchange `j` claims: those of its reply if non-empty, else none. */
  function ClaimedAt(b: Broker, analyzerKey: string, exs: seq<Exchange>, rq: IndexLaunch, j: nat): set<int>
    requires j < |exs|
  {
    var reply := ReplyOf(b, analyzerKey, exs, rq, j);
    if Contributes(reply) then ClaimedIds(reply.value) else {}
  }

  /** The ids claimed by exchanges `0..k-1`. */
  function ClaimedBefore(b: Broker, analyzerKey: string, exs: seq<Exchange>, rq: IndexLaunch, k: nat): set<int>
    requires k <= |exs|
    decreases k
  {
    if k == 0 then {} else ClaimedBefore(b, analyzerKey, exs, rq, k - 1) + ClaimedAt(b, analyzerKey, exs, rq, k - 1)
  }

  /** Exchanges are contacted once each, in list order, and exchange `j` is
      sent exactly the request left after exchanges `0..j-1`. */
  lemma {:induction false} AnalyzeSendsInOrder(b: Broker, analyzerKey: string, exs: seq<Exchange>, rq: IndexLaunch, k: nat, j: nat)
    requires j < k <= |exs|
    ensures AnalyzeFirst(b, analyzerKey, exs, rq, k).sent[j]
            == Message(exs[j].name, AnalyzeRoute, AnalyzeBody([RequestSeenBy(b, analyzerKey, exs, rq, j)]))
    decreases k
  {
    if j < k - 1 {
      AnalyzeSendsInOrder(b, analyzerKey, exs, rq, k - 1, j);
    }
  }

  /** Asking exchange `k` removes from the request exactly the items it claims. */
  lemma RequestStep(b: Broker, analyzerKey: string, exs: seq<Exchange>, rq: IndexLaunch, k: nat)
    requires k < |exs|
    ensures forall it :: it in RequestSeenBy(b, analyzerKey, exs, rq, k + 1).testItems
                         <==> it in RequestSeenBy(b, analyzerKey, exs, rq, k).testItems
                              && it.testItemId !in ClaimedAt(b, analyzerKey, exs, rq, k)
  {
  }

  /** An empty or missing reply adds no result entry and leaves the request
      as it was. */
  lemma SilentExchangeChangesNothing(b: Broker, analyzerKey: string, exs: seq<Exchange>, rq: IndexLaunch, k: nat)
    requires k < |exs|
    requires !Contributes(ReplyOf(b, analyzerKey, exs, rq, k))
    ensures AnalyzeFirst(b, analyzerKey, exs, rq, k + 1).results == AnalyzeFirst(b, analyzerKey, exs, rq, k).results
    ensures RequestSeenBy(b, analyzerKey, exs, rq, k + 1) == RequestSeenBy(b, analyzerKey, exs, rq, k)
  {
  }

  /** The request exchange `k` sees is the original request minus exactly
      the items claimed by earlier exchanges. */
  lemma {:induction false} RequestSeenIsOriginalMinusClaimed(b: Broker, analyzerKey: string, exs: seq<Exchange>, rq: IndexLaunch, k: nat)
    requires k <= |exs|
    ensures forall it :: it in RequestSeenBy(b, analyzerKey, exs, rq, k).testItems
                         <==> it in rq.testItems && it.testItemId !in ClaimedBefore(b, analyzerKey, exs, rq, k)
    decreases k
  {
    if k > 0 {
      RequestSeenIsOriginalMinusClaimed(b, analyzerKey, exs, rq, k - 1);
      RequestStep(b, analyzerKey, exs, rq, k - 1);
    }
  }

  lemma {:induction false} ClaimedBeforeGrows(b: Broker, analyzerKey: string, exs: seq<Exchange>, rq: IndexLaunch, j: nat, k: nat)
    requires j < k <= |exs|
    ensures ClaimedAt(b, analyzerKey, exs, rq, j) <= ClaimedBefore(b, analyzerKey, exs, rq, k)
    decreases k
  {
    if j < k - 1 {
      ClaimedBeforeGrows(b, analyzerKey, exs, rq, j, k - 1);
    }
  }

  /** Once an exchange claims an item, no later exchange is offered it. */
  lemma NoItemOfferedAfterClaim(b: Broker, analyzerKey: string, exs: seq<Exchange>, rq: IndexLaunch, j: nat, k: nat)
    requires j < k <= |exs|
    ensures forall it :: it in RequestSeenBy(b, analyzerKey, exs, rq, k).testItems ==>
                         it.testItemId !in ClaimedAt(b, analyzerKey, exs, rq, j)
  {
    RequestSeenIsOriginalMinusClaimed(b, analyzerKey, exs, rq, k);
    ClaimedBeforeGrows(b, analyzerKey, exs, rq, j, k);
  }

  /** If every analyzer only classifies items it was offered, no item is
      classified by two exchanges in one `analyze` call. */
  lemma HonestRepliesAreDisjoint(b: Broker, analyzerKey: string, exs: seq<Exchange>, rq: IndexLaunch, j: nat, k: nat)
    requires j < k < |exs|
    requires ClaimedAt(b, analyzerKey, exs, rq, k) <= ItemIds(RequestSeenBy(b, analyzerKey, exs, rq, k).testItems)
    ensures ClaimedAt(b, analyzerKey, exs, rq, j) !! ClaimedAt(b, analyzerKey, exs, rq, k)
  {
    NoItemOfferedAfterClaim(b, analyzerKey, exs, rq, j, k);
  }

  /** The position of the last exchange among the first `k` whose result
      key is `key` and whose reply was non-empty. */
  function LastWriter(b: Broker, analyzerKey: string, exs: seq<Exchange>, rq: IndexLaunch, k: nat, key: string): (r: Option<nat>)
    requires k <= |exs|
    ensures r.Some? ==> r.value < k
    decreases k
  {
    if k == 0 then None
    else if Contributes(ReplyOf(b, analyzerKey, exs, rq, k - 1)) && ResultKey(exs[k - 1], analyzerKey) == key then Some(k - 1)
    else LastWriter(b, analyzerKey, exs, rq, k - 1, key)
  }

  /** `LastWriter` finds a contributing exchange with the key, and no later
      exchange with that key contributes. */
  lemma {:induction false} LastWriterIsLast(b: Broker, analyzerKey: string, exs: seq<Exchange>, rq: IndexLaunch, k: nat, key: string)
    requires k <= |exs|
    requires LastWriter(b, analyzerKey, exs, rq, k, key).Some?
    ensures var j := LastWriter(b, analyzerKey, exs, rq, k, key).value;
            && ResultKey(exs[j], analyzerKey) == key && Contributes(ReplyOf(b, analyzerKey, exs, rq, j))
            && forall j' :: j < j' < k && ResultKey(exs[j'], analyzerKey) == key ==> !Contributes(ReplyOf(b, analyzerKey, exs, rq, j'))
    decreases k
  {
    if !(Contributes(ReplyOf(b, analyzerKey, exs, rq, k - 1)) && ResultKey(exs[k - 1], analyzerKey) == key) {
      LastWriterIsLast(b, analyzerKey, exs, rq, k - 1, key);
    }
  }

  /** Every contributing exchange with the key is found: `LastWriter` then
      names it or a later one. */
  lemma {:induction false} LastWriterFound(b: Broker, analyzerKey: string, exs: seq<Exchange>, rq: IndexLaunch, k: nat, key: string, j: nat)
    requires j < k <= |exs|
    requires ResultKey(exs[j], analyzerKey) == key && Contributes(ReplyOf(b, analyzerKey, exs, rq, j))
    ensures LastWriter(b, analyzerKey, exs, rq, k, key).Some?
    ensures j <= LastWriter(b, analyzerKey, exs, rq, k, key).value
    decreases k
  {
    if j < k - 1 {
      LastWriterFound(b, analyzerKey, exs, rq, k - 1, key, j);
    }
  }

  /** The result map after `k` exchanges: a key is present exactly when some
      exchange with that key gave a non-empty reply, and it then holds the
      reply of the last such exchange (later ones overwrite earlier ones). */
  lemma {:induction false} AnalyzeResultsLastWriterWins(b: Broker, analyzerKey: string, exs: seq<Exchange>, rq: IndexLaunch, k: nat, key: string)
    requires k <= |exs|
    ensures key in AnalyzeFirst(b, analyzerKey, exs, rq, k).results <==> LastWriter(b, analyzerKey, exs, rq, k, key).Some?
    ensures key in AnalyzeFirst(b, analyzerKey, exs, rq, k).results ==>
              Some(AnalyzeFirst(b, analyzerKey, exs, rq, k).results[key])
              == ReplyOf(b, analyzerKey, exs, rq, LastWriter(b, analyzerKey, exs, rq, k, key).value)
    decreases k
  {
    if k > 0 {
      AnalyzeResultsLastWriterWins(b, analyzerKey, exs, rq, k - 1, key);
    }
  }

  /** Key resolution: an exchange's non-empty reply is found under its
      declared analyzer key when it has one and under its name otherwise,
      unless a later exchange with the same key replied too. */
  lemma ReplyStoredUnderResultKey(b: Broker, analyzerKey: string, exs: seq<Exchange>, rq: IndexLaunch, j: nat)
    requires j < |exs|
    requires Contributes(ReplyOf(b, analyzerKey, exs, rq, j))
    requires forall j' :: j < j' < |exs| && ResultKey(exs[j'], analyzerKey) == ResultKey(exs[j], analyzerKey) ==>
                          !Contributes(ReplyOf(b, analyzerKey, exs, rq, j'))
    ensures var key := if analyzerKey in exs[j].arguments then exs[j].arguments[analyzerKey] else exs[j].name;
            && key in AnalyzeFirst(b, analyzerKey, exs, rq, |exs|).results
            && AnalyzeFirst(b, analyzerKey, exs, rq, |exs|).results[key] == ReplyOf(b, analyzerKey, exs, rq, j).value
  {
    var key := ResultKey(exs[j], analyzerKey);
    LastWriterFound(b, analyzerKey, exs, rq, |exs|, key, j);
    LastWriterIsLast(b, analyzerKey, exs, rq, |exs|, key);
    AnalyzeResultsLastWriterWins(b, analyzerKey, exs, rq, |exs|, key);
  }

  // ---------------------------------------------------------------------
  // A worked example

  /** Exchange A classifies items 1 and 2, exchange B item 3. */
  function ScenarioReply(e: Exchange, launches: seq<IndexLaunch>): Option<seq<AnalyzedItemRs>> {
    if e.name == "A" then Some([AnalyzedItemRs(1, 10, "pb001"), AnalyzedItemRs(2, 20, "pb001")])
    else Some([AnalyzedItemRs(3, 30, "ab001")])
  }

  function NoIndexReply(e: Exchange, launches: seq<IndexLaunch>): IndexRs {
    IndexRs([])
  }

  /** With exchanges [A, B] and items {1, 2, 3}: A is asked about all three,
      B only about item 3, and the result holds A's and B's replies under
      their names. */
  lemma AnalyzeScenario(supportsIndex: Exchange -> bool)
    ensures var a := Exchange("A", map[]);
            var b := Exchange("B", map[]);
            var items := [IndexTestItem(1, "u1"), IndexTestItem(2, "u2"), IndexTestItem(3, "u3")];
            var rq := IndexLaunch(7, "launch", items);
            var r := Analyze(Broker([a, b], NoIndexReply, ScenarioReply), ClientUtils(supportsIndex, "analyzer"), rq);
            && r.sent == [Message("A", AnalyzeRoute, AnalyzeBody([rq])),
                          Message("B", AnalyzeRoute, AnalyzeBody([rq.(testItems := [items[2]])]))]
            && r.results == map["A" := ScenarioReply(a, []).value, "B" := ScenarioReply(b, []).value]
            && r.rq.testItems == []
  {
    var a := Exchange("A", map[]);
    var items := [IndexTestItem(1, "u1"), IndexTestItem(2, "u2"), IndexTestItem(3, "u3")];
    var claimedByA := ClaimedIds(ScenarioReply(a, []).value);
    assert claimedByA == {1, 2};
    assert KeepUnclaimed(items[2..], claimedByA) == [items[2]];
    assert KeepUnclaimed(items, claimedByA) == [items[2]];
    assert ClaimedIds(ScenarioReply(Exchange("B", map[]), []).value) == {3};
    assert KeepUnclaimed([items[2]], {3}) == [];
  }

  /** Exchange A reports seven indexed items. */
  function SevenIndexed(e: Exchange, launches: seq<IndexLaunch>): IndexRs {
    IndexRs(seq(7, i => IndexRsItem("rp_7", 200)))
  }

  function OnlyA(e: Exchange): bool {
    e.name == "A"
  }

  /** With exchanges [A (indexing), B (not indexing)], only A is sent the
      launches and its count of 7 is the total. */
  lemma IndexScenario(rq: seq<IndexLaunch>)
    ensures var r := Index(Broker([Exchange("A", map[]), Exchange("B", map[])], SevenIndexed, ScenarioReply),
                           ClientUtils(OnlyA, "analyzer"), rq);
            r.total == 7 && r.sent == [Message("A", IndexRoute, IndexBody(rq))]
  {
    var exs := [Exchange("A", map[]), Exchange("B", map[])];
    var b := Broker(exs, SevenIndexed, ScenarioReply);
    assert Indexers(exs, OnlyA) == [exs[0]] by {
      assert Indexers(exs[1..], OnlyA) == [];
    }
    assert |SevenIndexed(exs[0], rq).items| == 7;
    assert SumIndexed(b, [exs[0]], rq) == 7 by {
      assert [exs[0]][1..] == [];
    }
    assert Broadcast([exs[0]], IndexRoute, IndexBody(rq)) == [Message("A", IndexRoute, IndexBody(rq))];
  }

  /** The imperative shape of `analyze`: a loop over the exchanges that
      updates the result map and the request in place. It computes the fold. */
  method AnalyzeInPlace(b: Broker, utils: ClientUtils, rq: IndexLaunch)
    returns (results: map<string, seq<AnalyzedItemRs>>, remaining: IndexLaunch)
    ensures results == Analyze(b, utils, rq).results
    ensures remaining == Analyze(b, utils, rq).rq
  {
    var exs := b.exchanges;
    results := map[];
    remaining := rq;
    var i := 0;
    while i < |exs|
      invariant 0 <= i <= |exs|
      invariant results == AnalyzeFirst(b, utils.analyzerKey, exs, rq, i).results
      invariant remaining == AnalyzeFirst(b, utils.analyzerKey, exs, rq, i).rq
    {
      var e := exs[i];
      var reply := b.analyzeReply(e, [remaining]);
      if reply.Some? && |reply.value| != 0 {
        results := results[ResultKey(e, utils.analyzerKey) := reply.value];
        remaining := RemoveAnalyzedFromRq(remaining, reply.value);
      }
      i := i + 1;
    }
  }
}
