/** The request/response protocol between `SocketCache` and `handleConn`.

    Messages are records of optional fields, since the agent decodes every message of a connection
    into one request record: a field that is absent keeps its previous value. JSON itself is a lossless
    codec; a payload is told apart only by what it decodes to. */
module Protocol {
  import opened Wrappers
  import opened MemCache

  const RETRIEVE := "retrieve"
  const STORE := "store"
  const PRUNE := "prune"
  const SHUTDOWN := "shutdown"

  /** `Null` decodes to the zero value of any type, `Other` stands for JSON of another shape. */
  datatype Payload = KeyPayload(key: string) | EntryPayload(entry: Entry) | Null | Other

  datatype Message = Message(verb: Option<string>, payload: Option<Payload>)

  datatype Request = Request(verb: string, payload: Option<Payload>)

  const EMPTY := Request("", None)

  datatype Failure = InvalidJson | UnknownMethod | BadPayload

  datatype Reply = Done | Miss | Found(response: Response) | Failed(why: Failure)

  /** Decoding a message into an existing record. */
  function Merge(req: Request, msg: Message): Request {
    Request(if msg.verb.Some? then msg.verb.value else req.verb,
            if msg.payload.Some? then msg.payload else req.payload)
  }

  function AsKey(p: Option<Payload>): Option<string> {
    match p
    case Some(KeyPayload(k)) => Some(k)
    case Some(Null) => Some("")
    case _ => None
  }

  function AsEntry(p: Option<Payload>): Option<Entry> {
    match p
    case Some(EntryPayload(e)) => Some(e)
    case Some(Null) => Some(Entry("", Response("", map[])))
    case _ => None
  }

  /** Handling one request. `pruned` is what a prune would leave. */
  function Handle(m: Contents, req: Request, pruned: Contents): (Contents, Reply) {
    if req.verb == RETRIEVE then
      match AsKey(req.payload) {
        case None => (m, Failed(BadPayload))
        case Some(k) =>
          (m, match Fetched(m, k) { case None => Miss case Some(r) => Found(r) })
      }
    else if req.verb == STORE then
      match AsEntry(req.payload) {
        case None => (m, Failed(BadPayload))
        case Some(e) => (Stored(m, e), Done)
      }
    else if req.verb == PRUNE then (pruned, Done)
    else if req.verb == SHUTDOWN then (m, Done)
    else (m, Failed(UnknownMethod))
  }

  /******* One connection *******/

  datatype Incoming = Decoded(msg: Message) | Malformed

  /** The server side of one connection, with its reused request record. */
  class ConnHandler {
    var req: Request
    const store: MemCache

    constructor (store: MemCache)
      ensures req == EMPTY && this.store == store
    {
      req := EMPTY;
      this.store := store;
    }

    /** One round of the loop: decode into `req`, then dispatch. */
    method Round(msg: Message, clock: Clock) returns (reply: Reply)
      modifies this, store, clock
      ensures req == Merge(old(req), msg)
      ensures RoundOk(store.parse, req, old(store.cache), store.cache, reply, old(clock.now), clock.now)
    {
      req := Merge(req, msg);
      if req.verb == RETRIEVE {
        var key := AsKey(req.payload);
        if key.None? { return Failed(BadPayload); }
        var found := store.Retrieve(key.value);
        return if found.None? then Miss else Found(found.value);
      } else if req.verb == STORE {
        var entry := AsEntry(req.payload);
        if entry.None? { return Failed(BadPayload); }
        store.Store(entry.value);
        return Done;
      } else if req.verb == PRUNE {
        var _, _ := store.Prune(clock);
        return Done;
      } else if req.verb == SHUTDOWN {
        return Done;
      } else {
        return Failed(UnknownMethod);
      }
    }

    /** The loop of `handleConn` over everything the client sends before it hangs up. `trace` records
        the cache and `times` the clock before and after every round. */
    method Serve(stream: seq<Incoming>, clock: Clock)
      returns (replies: seq<Reply>, ghost trace: seq<Contents>, ghost times: seq<int>)
      requires req == EMPTY
      modifies this, store, clock
      ensures var msgs := Messages(stream);
        && |trace| == |times| == |msgs| + 1
        && trace[0] == old(store.cache) && trace[|msgs|] == store.cache
        && times[0] == old(clock.now) && times[|msgs|] == clock.now
        && |msgs| <= |replies|
        && replies[|msgs|..] == (if |msgs| < |stream| then [Failed(InvalidJson)] else [])
        && forall i :: 0 <= i < |msgs| ==>
             RoundOk(store.parse, Effective(msgs[..i + 1]), trace[i], trace[i + 1], replies[i], times[i], times[i + 1])
    {
      replies := [];
      trace := [store.cache];
      times := [clock.now];
      var i := 0;
      while i < |stream|
        invariant 0 <= i <= |stream| && |Messages(stream)| >= i
        invariant |replies| == i && |trace| == i + 1 && trace[0] == old(store.cache) && trace[i] == store.cache
        invariant |times| == i + 1 && times[0] == old(clock.now) && times[i] == clock.now
        invariant req == Effective(Messages(stream)[..i])
        invariant forall j :: 0 <= j < i ==>
          RoundOk(store.parse, Effective(Messages(stream)[..j + 1]), trace[j], trace[j + 1], replies[j],
                  times[j], times[j + 1])
      {
        MessagesAt(stream, i);
        if stream[i].Malformed? {
          replies := replies + [Failed(InvalidJson)];
          return;
        }
        ghost var msgs := Messages(stream);
        assert msgs[..i + 1][..i] == msgs[..i];
        var reply := Round(stream[i].msg, clock);
        assert RoundOk(store.parse, Effective(msgs[..i + 1]), trace[i], store.cache, reply, times[i], clock.now);
        replies := replies + [reply];
        trace := trace + [store.cache];
        times := times + [clock.now];
        i := i + 1;
      }
      MessagesAt(stream, |stream|);
    }
  }

  /** One round on an effective request: the reply and the cache afterwards, also for a prune. */
  ghost predicate RoundOk(parse: ExpiryParser, req: Request, m: Contents, m': Contents, reply: Reply, t0: int, t1: int) {
    && (m', reply) == Handle(m, req, m')
    && t0 <= t1 && (req.verb == PRUNE ==> PrunedBetween(parse, m, m', t0, t1))
  }

  /** The messages before the first malformed one. */
  function Messages(stream: seq<Incoming>): seq<Message> {
    if stream == [] || stream[0].Malformed? then [] else [stream[0].msg] + Messages(stream[1..])
  }

  lemma {:induction false} MessagesAt(stream: seq<Incoming>, i: nat)
    requires i <= |stream| && i <= |Messages(stream)|
    ensures i == |stream| ==> |Messages(stream)| == i
    ensures i < |stream| ==> (|Messages(stream)| > i <==> stream[i].Decoded?)
    ensures i < |stream| && stream[i].Decoded? ==> Messages(stream)[i] == stream[i].msg
  {
    if stream != [] && stream[0].Decoded? && i > 0 { MessagesAt(stream[1..], i - 1); }
  }

  /** The reused record after a prefix of the connection. */
  function Effective(msgs: seq<Message>): Request {
    if msgs == [] then EMPTY else Merge(Effective(msgs[..|msgs| - 1]), msgs[|msgs| - 1])
  }

  /******* What reusing the record means *******/

  predicate LastMethod(msgs: seq<Message>, i: nat) {
    i < |msgs| && msgs[i].verb.Some? && forall j :: i < j < |msgs| ==> msgs[j].verb.None?
  }

  predicate LastPayload(msgs: seq<Message>, i: nat) {
    i < |msgs| && msgs[i].payload.Some? && forall j :: i < j < |msgs| ==> msgs[j].payload.None?
  }

  /** Field by field, the effective request is the last value present in the prefix. */
  lemma {:induction false} EffectiveIsLastPresent(msgs: seq<Message>, i: nat)
    ensures LastMethod(msgs, i) ==> Effective(msgs).verb == msgs[i].verb.value
    ensures LastPayload(msgs, i) ==> Effective(msgs).payload == msgs[i].payload
  {
    if i + 1 < |msgs| { EffectiveIsLastPresent(msgs[..|msgs| - 1], i); }
  }

  lemma {:induction false} EffectiveNeverPresent(msgs: seq<Message>)
    ensures (forall j :: 0 <= j < |msgs| ==> msgs[j].verb.None?) ==> Effective(msgs).verb == ""
    ensures (forall j :: 0 <= j < |msgs| ==> msgs[j].payload.None?) ==> Effective(msgs).payload == None
  {
    if msgs != [] { EffectiveNeverPresent(msgs[..|msgs| - 1]); }
  }

  /** What the rest of the system does: what others make of the cache before message `i` is handled,
      and what a prune at that point leaves. */
  datatype Surroundings = Surroundings(between: (nat, Contents) -> Contents, prune: (nat, Contents) -> Contents)

  /** Replies and cache contents of a connection, decoding into the reused record or a fresh one. */
  function Session(reuse: bool, msgs: seq<Message>, m: Contents, env: Surroundings): (rounds: seq<(Contents, Reply)>)
    ensures |rounds| == |msgs|
  {
    if msgs == [] then [] else
      var i := |msgs| - 1;
      var before := Session(reuse, msgs[..i], m, env);
      var now := env.between(i, if i == 0 then m else before[i - 1].0);
      before + [Handle(now, if reuse then Effective(msgs) else Merge(EMPTY, msgs[i]), env.prune(i, now))]
  }

  predicate Known(name: string) { name == RETRIEVE || name == STORE || name == PRUNE || name == SHUTDOWN }

  /** Message `i` omits a field for which an earlier message left a value that matters: a known method,
      or a payload that decodes for the method named. */
  predicate CarriesOver(msgs: seq<Message>, i: nat)
    requires i < |msgs|
  {
    var left := Effective(msgs[..i]);
    match msgs[i].verb
    case None => Known(left.verb)
    case Some(name) =>
      && msgs[i].payload.None?
      && ((name == RETRIEVE && AsKey(left.payload).Some?) || (name == STORE && AsEntry(left.payload).Some?))
  }

  predicate SelfContained(msg: Message) {
    && msg.verb.Some?
    && (msg.verb.value == RETRIEVE || msg.verb.value == STORE ==> msg.payload.Some?)
  }

  /** One round: the two ways of decoding act alike, or already their replies differ. */
  lemma RoundAgrees(msgs: seq<Message>, i: nat, m: Contents, pruned: Contents)
    requires i < |msgs|
    ensures var r, f := Merge(Effective(msgs[..i]), msgs[i]), Merge(EMPTY, msgs[i]);
      if CarriesOver(msgs, i) then Handle(m, r, pruned).1 != Handle(m, f, pruned).1
      else Handle(m, r, pruned) == Handle(m, f, pruned)
  {
  }

  lemma {:induction false} SessionPrefix(reuse: bool, msgs: seq<Message>, m: Contents, env: Surroundings, k: nat)
    requires k <= |msgs|
    ensures Session(reuse, msgs, m, env)[..k] == Session(reuse, msgs[..k], m, env)
  {
    if k == |msgs| {
      assert msgs[..k] == msgs;
    } else {
      SessionPrefix(reuse, msgs[..|msgs| - 1], m, env, k);
      assert msgs[..|msgs| - 1][..k] == msgs[..k];
    }
  }

  /** The cache a round of a session starts from. */
  function RoundStart(reuse: bool, msgs: seq<Message>, i: nat, m: Contents, env: Surroundings): Contents
    requires i < |msgs|
  {
    env.between(i, if i == 0 then m else Session(reuse, msgs[..i], m, env)[i - 1].0)
  }

  lemma SessionAt(reuse: bool, msgs: seq<Message>, i: nat, m: Contents, env: Surroundings)
    requires i < |msgs|
    ensures var now := RoundStart(reuse, msgs, i, m, env);
      Session(reuse, msgs, m, env)[i] ==
        Handle(now, Merge(if reuse then Effective(msgs[..i]) else EMPTY, msgs[i]), env.prune(i, now))
  {
    SessionPrefix(reuse, msgs, m, env, i + 1);
    assert Session(reuse, msgs, m, env)[i] == Session(reuse, msgs[..i + 1], m, env)[i];
    assert msgs[..i + 1][..i] == msgs[..i];
  }

  predicate NothingCarriedOver(msgs: seq<Message>) {
    forall i :: 0 <= i < |msgs| ==> !CarriesOver(msgs, i)
  }

  lemma {:induction false} AgreeWithoutCarry(msgs: seq<Message>, m: Contents, env: Surroundings)
    requires NothingCarriedOver(msgs)
    ensures Session(true, msgs, m, env) == Session(false, msgs, m, env)
  {
    if msgs != [] {
      var i := |msgs| - 1;
      forall j: nat | j < i ensures !CarriesOver(msgs[..i], j) {
        assert msgs[..i][..j] == msgs[..j];
        assert !CarriesOver(msgs, j);
      }
      AgreeWithoutCarry(msgs[..i], m, env);
      var now := RoundStart(true, msgs, i, m, env);
      RoundAgrees(msgs, i, now, env.prune(i, now));
    }
  }

  predicate FirstCarry(msgs: seq<Message>, i: nat) {
    i < |msgs| && CarriesOver(msgs, i) && NothingCarriedOver(msgs[..i])
  }

  lemma {:induction false} FindFirstCarry(msgs: seq<Message>, i: nat) returns (first: nat)
    requires i < |msgs| && CarriesOver(msgs, i)
    ensures FirstCarry(msgs, first)
    decreases i
  {
    if j: nat :| j < i && CarriesOver(msgs, j) {
      first := FindFirstCarry(msgs, j);
    } else {
      first := i;
      forall j: nat | j < i ensures !CarriesOver(msgs[..i], j) {
        assert msgs[..i][..j] == msgs[..j];
        assert !CarriesOver(msgs, j);
      }
    }
  }

  /** At the first carried-over value the replies differ, whatever the cache holds. */
  lemma DifferAtFirstCarry(msgs: seq<Message>, i: nat, m: Contents, env: Surroundings)
    requires FirstCarry(msgs, i)
    ensures Session(true, msgs, m, env)[i].1 != Session(false, msgs, m, env)[i].1
  {
    AgreeWithoutCarry(msgs[..i], m, env);
    SessionAt(true, msgs, i, m, env);
    SessionAt(false, msgs, i, m, env);
    var now := RoundStart(true, msgs, i, m, env);
    RoundAgrees(msgs, i, now, env.prune(i, now));
  }

  ghost predicate SameReplies(a: seq<(Contents, Reply)>, b: seq<(Contents, Reply)>) {
    |a| == |b| && forall i :: 0 <= i < |a| ==> a[i].1 == b[i].1
  }

  /** Reusing the record is invisible in a connection exactly when no message carries a value over:
      then replies and cache contents agree, otherwise the replies alone tell the difference. */
  lemma ReuseInvisibleIff(msgs: seq<Message>, m: Contents, env: Surroundings)
    ensures NothingCarriedOver(msgs) <==> Session(true, msgs, m, env) == Session(false, msgs, m, env)
    ensures NothingCarriedOver(msgs) <==> SameReplies(Session(true, msgs, m, env), Session(false, msgs, m, env))
  {
    if NothingCarriedOver(msgs) {
      AgreeWithoutCarry(msgs, m, env);
    } else {
      var i :| 0 <= i < |msgs| && CarriesOver(msgs, i);
      var first := FindFirstCarry(msgs, i);
      DifferAtFirstCarry(msgs, first, m, env);
    }
  }

  /** Streams as the repository's own clients produce them. */
  lemma SelfContainedStreams(msgs: seq<Message>, m: Contents, env: Surroundings)
    requires forall i :: 0 <= i < |msgs| ==> SelfContained(msgs[i])
    ensures Session(true, msgs, m, env) == Session(false, msgs, m, env)
  {
    ReuseInvisibleIff(msgs, m, env);
  }

  /** A stream whose second message names nothing repeats the first request. */
  lemma ReuseCanShow(key: string, m: Contents, env: Surroundings)
    ensures var msgs := [Message(Some(RETRIEVE), Some(KeyPayload(key))), Message(None, None)];
      !SameReplies(Session(true, msgs, m, env), Session(false, msgs, m, env))
  {
    var msgs := [Message(Some(RETRIEVE), Some(KeyPayload(key))), Message(None, None)];
    assert msgs[..1] == [msgs[0]] && [msgs[0]][..0] == [];
    assert Effective(msgs[..1]) == Merge(EMPTY, msgs[0]);
    assert CarriesOver(msgs, 1);
    ReuseInvisibleIff(msgs, m, env);
  }

  /******* The client half *******/

  datatype Answer = Hit(response: Response) | NoEntry | Accepted | Error

  function RetrieveMessage(key: string): Message { Message(Some(RETRIEVE), Some(KeyPayload(key))) }

  function StoreMessage(e: Entry): Message { Message(Some(STORE), Some(EntryPayload(e))) }

  function AnswerRetrieve(reply: Reply): Answer {
    match reply
    case Miss => NoEntry
    case Found(r) => Hit(r)
    case _ => Error
  }

  function AnswerStore(reply: Reply): Answer { if reply.Done? then Accepted else Error }

  /** How far a call gets over the connection: it may break before the agent has the request, or before the
      client has the reply. */
  datatype Link = Whole | RequestLost | ReplyLost

  /** A client cache over a connection to the agent. */
  class SocketCache {
    const conn: ConnHandler

    constructor (conn: ConnHandler)
      ensures this.conn == conn
    {
      this.conn := conn;
    }

    method Retrieve(key: string, clock: Clock, link: Link) returns (a: Answer)
      modifies conn, conn.store, clock
      ensures conn.store.cache == old(conn.store.cache)
      ensures key != "" && !link.Whole? ==> a == Error
      ensures WellFormed(old(conn.store.cache)) && (key == "" || link.Whole?) ==>
                a == match Fetched(old(conn.store.cache), key) case None => NoEntry case Some(r) => Hit(r)
    {
      if |key| == 0 { return NoEntry; }
      if link.RequestLost? { return Error; }
      var reply := conn.Round(RetrieveMessage(key), clock);
      if link.ReplyLost? { return Error; }
      return AnswerRetrieve(reply);
    }

    /** A failed store has taken effect exactly when the agent got the request. */
    method Store(e: Entry, clock: Clock, link: Link) returns (a: Answer)
      modifies conn, conn.store, clock
      ensures a == if Cachable(e) && !link.Whole? then Error else Accepted
      ensures conn.store.cache == if link.RequestLost? then old(conn.store.cache) else Stored(old(conn.store.cache), e)
    {
      if |e.key| == 0 || |e.response.expires| == 0 { return Accepted; }
      if link.RequestLost? { return Error; }
      var reply := conn.Round(StoreMessage(e), clock);
      if link.ReplyLost? { return Error; }
      return AnswerStore(reply);
    }
  }

  /** One millisecond, in nanoseconds. */
  const WAIT: int := 1000000

  /** The dial loop of `NewSocketCache`: attempt `n` is made after `n` pauses, as long as the pauses add up
      to less than the timeout. Returns the number of the first attempt that succeeds. */
  method Dial(dial: nat -> bool, timeout: int) returns (attempt: Option<nat>)
    ensures attempt.Some? ==> dial(attempt.value) && attempt.value * WAIT < timeout
    ensures attempt.Some? ==> forall j: nat :: j < attempt.value ==> !dial(j)
    ensures attempt.None? ==> forall j: nat :: j * WAIT < timeout ==> !dial(j)
  {
    var waited, n := 0, 0;
    while waited < timeout
      invariant 0 <= n && waited == n * WAIT
      invariant forall j: nat :: j < n ==> !dial(j)
      decreases timeout - waited
    {
      if dial(n) { return Some(n); }
      waited := waited + WAIT;
      n := n + 1;
    }
    return None;
  }

  /** A request changes the cache only by storing an entry under its own key, or by pruning; what it reads
      and writes is known from its reply alone. */
  lemma HandleFrame(m: Contents, req: Request, pruned: Contents)
    ensures var (m', reply) := Handle(m, req, pruned);
      && (req.verb != PRUNE ==>
            forall k :: Fetched(m', k) != Fetched(m, k) ==> req.verb == STORE && AsEntry(req.payload).Some?
                                                            && AsEntry(req.payload).value.key == k)
      && (reply.Found? ==> req.verb == RETRIEVE && exists k :: k in m && reply.response == m[k].response)
      && (reply.Miss? ==> req.verb == RETRIEVE)
      && (reply == Failed(UnknownMethod) <==> !Known(req.verb))
      && (reply == Failed(BadPayload) <==>
            (req.verb == RETRIEVE && AsKey(req.payload).None?) || (req.verb == STORE && AsEntry(req.payload).None?))
  {
  }

  /** A `null` payload reads as an empty key or an empty entry: a miss, and a store without effect. */
  lemma NullIsEmpty(m: Contents, pruned: Contents)
    requires WellFormed(m)
    ensures Handle(m, Request(RETRIEVE, Some(Null)), pruned) == (m, Miss)
    ensures Handle(m, Request(STORE, Some(Null)), pruned) == (m, Done)
    ensures Handle(m, Request(RETRIEVE, None), pruned) == (m, Failed(BadPayload))
    ensures Handle(m, Request(STORE, None), pruned) == (m, Failed(BadPayload))
  {
  }

  /** The client takes a reply for what it says; anything unexpected is an error. */
  lemma AnswersByReply(reply: Reply)
    ensures AnswerRetrieve(reply).Hit? <==> reply.Found?
    ensures reply.Found? ==> AnswerRetrieve(reply).response == reply.response
    ensures AnswerRetrieve(reply).NoEntry? <==> reply.Miss?
    ensures AnswerRetrieve(reply).Error? <==> !reply.Found? && !reply.Miss?
    ensures AnswerStore(reply) == Accepted <==> reply == Done
    ensures AnswerStore(reply) == Error <==> reply != Done
  {
  }

  /** The client-side filters answer as the agent would have. */
  lemma FiltersAgree(m: Contents, key: string, e: Entry)
    requires WellFormed(m) && key == "" && !Cachable(e)
    ensures Handle(m, Merge(EMPTY, RetrieveMessage(key)), m) == (m, Miss)
    ensures Handle(m, Merge(EMPTY, StoreMessage(e)), m) == (m, Done)
  {
  }
}
