/** The slot of a continuation and the one run of a submission as tokens: where each token is, and what one move of
    a thread does to it and to the messages under way. */
module DispatcherTokens {
  import opened Dispatcher

  /** How far a token has come: an initial run, or a continuation whose message is unsent, waiting or delivered. */
  datatype Stage = First | Unsent(message: string) | Waiting | Delivered

  /** What a thread holds. */
  datatype Hold = Nothing | Hold(id: Id, stage: Stage)

  /** Queue places are numbered from the first entry ever enqueued. */
  datatype Place = InThread(t: Thread) | InQueue(n: int)

  datatype Token = Token(place: Place, stage: Stage)

  type Holds = map<Thread, Hold>
  type Tokens = map<Id, Token>

  function At(h: Holds, t: Thread): Hold {
    if t in h then h[t] else Nothing
  }

  function EntryAt(queue: seq<Entry>, i: nat): Entry
    requires i < |queue|
  {
    queue[i]
  }

  function EntryStage(e: Entry): Stage {
    if e.origin == Initial then First else Waiting
  }

  /** `k` knows every token: each is with one thread or at one place of the queue, which starts at place `base`. */
  ghost predicate Located(h: Holds, queue: seq<Entry>, base: int, k: Tokens) {
    && (forall t | At(h, t).Hold? :: At(h, t).id in k && k[At(h, t).id] == Token(InThread(t), At(h, t).stage))
    && (forall id | id in k && k[id].place.InThread? ::
          k[id].place.t in h && h[k[id].place.t] == Hold(id, k[id].stage))
    && (forall i | 0 <= i < |queue| ::
          EntryAt(queue, i).id in k
          && k[EntryAt(queue, i).id] == Token(InQueue(base + i), EntryStage(EntryAt(queue, i))))
    && (forall id | id in k && k[id].place.InQueue? ::
          base <= k[id].place.n < base + |queue| && queue[k[id].place.n - base].id == id)
  }

  lemma AfterGo(h: Holds, h': Holds, t: Thread, x: Hold)
    requires h' == h[t := x]
    ensures forall u :: At(h', u) == if u == t then x else At(h, u)
  {
  }

  /** A thread takes its token one stage on, or keeps it as it is. */
  lemma Advance(h: Holds, queue: seq<Entry>, base: int, k: Tokens, t: Thread, id: Id, stage: Stage)
    requires Located(h, queue, base, k) && At(h, t).Hold? && At(h, t).id == id
    ensures Located(h[t := Hold(id, stage)], queue, base, k[id := Token(InThread(t), stage)])
  {
    AfterGo(h, h[t := Hold(id, stage)], t, Hold(id, stage));
  }

  /** A thread that holds nothing goes on holding nothing. */
  lemma Idles(h: Holds, queue: seq<Entry>, base: int, k: Tokens, t: Thread)
    requires Located(h, queue, base, k) && At(h, t).Nothing?
    ensures Located(h[t := Nothing], queue, base, k)
  {
    AfterGo(h, h[t := Nothing], t, Nothing);
  }

  lemma Drop(h: Holds, queue: seq<Entry>, base: int, k: Tokens, t: Thread, id: Id)
    requires Located(h, queue, base, k) && At(h, t).Hold? && At(h, t).id == id
    ensures Located(h[t := Nothing], queue, base, k - {id})
  {
    AfterGo(h, h[t := Nothing], t, Nothing);
  }

  lemma Gain(h: Holds, queue: seq<Entry>, base: int, k: Tokens, t: Thread, id: Id, stage: Stage)
    requires Located(h, queue, base, k) && At(h, t).Nothing? && id !in k
    ensures Located(h[t := Hold(id, stage)], queue, base, k[id := Token(InThread(t), stage)])
  {
    AfterGo(h, h[t := Hold(id, stage)], t, Hold(id, stage));
  }

  lemma Enqueue(h: Holds, queue: seq<Entry>, base: int, k: Tokens, t: Thread, e: Entry)
    requires Located(h, queue, base, k) && At(h, t).Hold? && At(h, t).id == e.id
    ensures Located(h[t := Nothing], queue + [e], base, k[e.id := Token(InQueue(base + |queue|), EntryStage(e))])
  {
    AfterGo(h, h[t := Nothing], t, Nothing);
    assert forall i | 0 <= i < |queue| :: EntryAt(queue + [e], i) == EntryAt(queue, i);
  }

  lemma Pop(h: Holds, queue: seq<Entry>, base: int, k: Tokens, t: Thread)
    requires Located(h, queue, base, k) && At(h, t).Nothing? && queue != []
    ensures Located(h[t := Hold(queue[0].id, EntryStage(queue[0]))], queue[1..], base + 1,
                    k[queue[0].id := Token(InThread(t), EntryStage(queue[0]))])
  {
    AfterGo(h, h[t := Hold(queue[0].id, EntryStage(queue[0]))], t, Hold(queue[0].id, EntryStage(queue[0])));
    assert EntryAt(queue, 0) == queue[0];
    assert forall i | 0 <= i < |queue| - 1 :: EntryAt(queue[1..], i) == EntryAt(queue, i + 1);
  }

  /** The messages of a task: acknowledged, taken, kept for a worker. */
  function Get(m: map<Id, seq<string>>, id: Id): seq<string> {
    if id in m then m[id] else []
  }

  /** The message that is acknowledged and not yet taken. */
  function Pending(queued: map<Id, string>, k: Tokens, id: Id): seq<string> {
    if id in k && k[id].stage.Waiting? && id in queued then [queued[id]] else []
  }

  /** The slots in use are the continuations' tokens, and the messages kept are those not yet delivered. */
  ghost predicate Accounted(busy: set<Id>, queued: map<Id, string>, k: Tokens) {
    && (forall id :: id in busy <==> id in k && !k[id].stage.First?)
    && (forall id :: id in queued <==> id in k && (k[id].stage.Unsent? || k[id].stage.Waiting?))
    && (forall id | id in k && k[id].stage.Unsent? :: queued[id] == k[id].stage.message)
  }

  ghost predicate Conserved(queued: map<Id, string>, accepted: map<Id, seq<string>>, taken: map<Id, seq<string>>,
                            k: Tokens) {
    forall id :: Get(accepted, id) == Get(taken, id) + Pending(queued, k, id)
  }

  lemma AppendGet(m: map<Id, seq<string>>, id: Id, x: string)
    ensures forall i :: Get(Append(m, id, x), i) == if i == id then Get(m, id) + [x] else Get(m, i)
  {
  }

  lemma AccountReserve(busy: set<Id>, queued: map<Id, string>, accepted: map<Id, seq<string>>,
                       taken: map<Id, seq<string>>, k: Tokens, id: Id, message: string, place: Place)
    requires Accounted(busy, queued, k) && Conserved(queued, accepted, taken, k) && id !in k
    ensures var k' := k[id := Token(place, Unsent(message))];
            Accounted(busy + {id}, queued[id := message], k') && Conserved(queued[id := message], accepted, taken, k')
  {
    assert forall i ::
             Pending(queued[id := message], k[id := Token(place, Unsent(message))], i) == Pending(queued, k, i);
  }

  lemma AccountSend(busy: set<Id>, queued: map<Id, string>, accepted: map<Id, seq<string>>, taken: map<Id, seq<string>>,
                    k: Tokens, id: Id, place: Place)
    requires Accounted(busy, queued, k) && Conserved(queued, accepted, taken, k) && id in k && k[id].stage.Unsent?
    ensures Accounted(busy, queued, k[id := Token(place, Waiting)])
    ensures Conserved(queued, Append(accepted, id, k[id].stage.message), taken, k[id := Token(place, Waiting)])
  {
    SendConserves(queued, accepted, taken, k, id, place);
  }

  lemma SendConserves(queued: map<Id, string>, accepted: map<Id, seq<string>>, taken: map<Id, seq<string>>,
                      k: Tokens, id: Id, place: Place)
    requires Conserved(queued, accepted, taken, k)
    requires id in k && k[id].stage.Unsent? && id in queued && queued[id] == k[id].stage.message
    ensures Conserved(queued, Append(accepted, id, k[id].stage.message), taken, k[id := Token(place, Waiting)])
  {
    AppendGet(accepted, id, k[id].stage.message);
    assert Get(accepted, id) == Get(taken, id) by {
      assert Pending(queued, k, id) == [];
      assert Get(taken, id) + [] == Get(taken, id);
    }
    var k' := k[id := Token(place, Waiting)];
    forall i | i != id
      ensures Pending(queued, k', i) == Pending(queued, k, i)
    {
    }
  }

  lemma AccountDeliver(busy: set<Id>, queued: map<Id, string>, accepted: map<Id, seq<string>>,
                       taken: map<Id, seq<string>>, k: Tokens, id: Id, place: Place)
    requires Accounted(busy, queued, k) && Conserved(queued, accepted, taken, k) && id in k && k[id].stage.Waiting?
    ensures id in queued
    ensures var k' := k[id := Token(place, Delivered)];
            Accounted(busy, queued - {id}, k') && Conserved(queued - {id}, accepted, Append(taken, id, queued[id]), k')
  {
    AppendGet(taken, id, queued[id]);
    assert forall i | i != id :: Pending(queued - {id}, k[id := Token(place, Delivered)], i) == Pending(queued, k, i);
  }

  lemma AccountFree(busy: set<Id>, queued: map<Id, string>, accepted: map<Id, seq<string>>, taken: map<Id, seq<string>>,
                    k: Tokens, id: Id)
    requires Accounted(busy, queued, k) && Conserved(queued, accepted, taken, k)
    requires id in k && (k[id].stage.Unsent? || k[id].stage.Delivered?)
    ensures Accounted(busy - {id}, queued - {id}, k - {id}) && Conserved(queued - {id}, accepted, taken, k - {id})
  {
    assert forall i :: Pending(queued - {id}, k - {id}, i) == Pending(queued, k, i);
  }

  /** Tokens of initial runs, and the places of tokens, do not enter the account. */
  lemma AccountSame(busy: set<Id>, queued: map<Id, string>, accepted: map<Id, seq<string>>, taken: map<Id, seq<string>>,
                    k: Tokens, k': Tokens)
    requires Accounted(busy, queued, k) && Conserved(queued, accepted, taken, k)
    requires forall id :: id in k && !k[id].stage.First? <==> id in k' && !k'[id].stage.First?
    requires forall id | id in k && id in k' && !k[id].stage.First? :: k[id].stage == k'[id].stage
    ensures Accounted(busy, queued, k') && Conserved(queued, accepted, taken, k')
  {
    assert forall id :: Pending(queued, k', id) == Pending(queued, k, id);
  }
}
