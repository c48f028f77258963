/** `AgentHandler.handle` of vpn_agent/agent.py: the order of its checks, and what a replayed
  request can do over a whole run. */
module AgentServers {
  import opened Text
  import opened ChapSecrets
  import opened PeerStores
  import opened NonceCaches

  datatype RequestAction = Health | Peer(action: Action) | Unsupported

  /** `wellFormed` covers the size and the JSON, `signed` the HMAC over the canonical envelope. */
  datatype Request = Request(
    wellFormed: bool, signed: bool, nonce: string, timestamp: int,
    action: RequestAction, username: string, password: string)

  datatype Response =
    | Healthy
    | Answer(reply: Reply)
    | InvalidRequest
    | Unauthorized
    | NonceRefused(verdict: Verdict)

  datatype State = State(nonces: map<string, int>, lines: seq<string>)

  function Handled(config: Config, s: State, r: Request, now: int): (State, Response) {
    if !r.wellFormed then (s, InvalidRequest)
    else if !r.signed then (s, Unauthorized)
    else
      var (nonces, verdict) := Consumed(s.nonces, r.nonce, r.timestamp, now);
      if !verdict.Accepted? then (s.(nonces := nonces), NonceRefused(verdict))
      else match r.action
           case Health => (s.(nonces := nonces), Healthy)
           case Unsupported => (s.(nonces := nonces), InvalidRequest)
           case Peer(action) =>
             var (lines, reply) := Mutated(config, s.lines, action, r.username, r.password);
             (State(nonces, lines), Answer(reply))
  }

  class AgentServer {
    const store: PeerStore
    const nonces: NonceCache

    constructor (store: PeerStore)
      ensures this.store == store && fresh(nonces) && nonces.values == map[]
    {
      this.store := store;
      nonces := new NonceCache();
    }

    ghost function View(): State
      reads this, store, nonces
    {
      State(nonces.values, SplitLines(store.text))
    }

    method Handle(r: Request, now: int) returns (response: Response)
      requires store.Valid()
      modifies store, nonces
      ensures store.Valid()
      ensures (View(), response) == Handled(store.config, old(View()), r, now)
    {
      hide Consumed, Mutated, SplitLines;
      if !r.wellFormed {
        return InvalidRequest;
      }
      if !r.signed {
        return Unauthorized;
      }
      var verdict := nonces.Consume(r.nonce, r.timestamp, now);
      if !verdict.Accepted? {
        return NonceRefused(verdict);
      }
      match r.action {
        case Health => response := Healthy;
        case Unsupported => response := InvalidRequest;
        case Peer(action) =>
          var reply := store.Mutate(action, r.username, r.password);
          response := Answer(reply);
      }
    }
  }

  // ------------------------------------------------------------------ replays

  datatype Event = Event(request: Request, now: int)

  /** The answers to a run of requests. */
  function Answers(config: Config, s: State, events: seq<Event>): (answers: seq<Response>)
    ensures |answers| == |events|
    decreases |events|
  {
    if events == [] then [] else
      var (next, response) := Handled(config, s, events[0].request, events[0].now);
      [response] + Answers(config, next, events[1..])
  }

  /** Only an answered peer request has touched the file. */
  lemma OthersLeaveTheFile(config: Config, s: State, r: Request, now: int)
    ensures !Handled(config, s, r, now).1.Answer? ==> Handled(config, s, r, now).0.lines == s.lines
  {
    hide Consumed, Mutated;
  }

  /** What a request asks of the nonce cache: an unsigned one never gets there. */
  function Arrivals(events: seq<Event>): (arrivals: seq<Arrival>)
    ensures |arrivals| == |events|
  {
    seq(|events|, k requires 0 <= k < |events| =>
      var r := events[k].request;
      if r.wellFormed && r.signed then Arrival(r.nonce, r.timestamp, events[k].now) else Arrival("", 0, events[k].now))
  }

  lemma {:induction false} AnswersNeedTheCache(config: Config, s: State, events: seq<Event>, k: nat)
    requires k < |events|
    ensures |RunCache(s.nonces, Arrivals(events))| == |events|
    ensures Answers(config, s, events)[k].Answer? ==>
              && events[k].request.wellFormed && events[k].request.signed
              && RunCache(s.nonces, Arrivals(events))[k].Accepted?
    decreases |events|
  {
    hide Mutated, Pruned;
    var (next, response) := Handled(config, s, events[0].request, events[0].now);
    assert Arrivals(events)[1..] == Arrivals(events[1..]);
    if k > 0 {
      AnswersNeedTheCache(config, next, events[1..], k - 1);
    } else {
      CacheRunLength(next.nonces, Arrivals(events[1..]));
    }
  }

  lemma {:induction false} CacheRunLength(values: map<string, int>, arrivals: seq<Arrival>)
    ensures |RunCache(values, arrivals)| == |arrivals|
    decreases |arrivals|
  {
    if arrivals != [] {
      CacheRunLength(Consumed(values, arrivals[0].nonce, arrivals[0].timestamp, arrivals[0].now).0, arrivals[1..]);
    }
  }

  /** However often a signed request is sent again, it reaches `mutate` at most once. */
  lemma MutatesAtMostOnce(config: Config, lines: seq<string>, events: seq<Event>, i: nat, j: nat)
    requires ClockInOrder(Arrivals(events)) && i < j < |events|
    requires events[i].request.nonce == events[j].request.nonce
    requires events[i].request.timestamp == events[j].request.timestamp
    ensures !(Answers(config, State(map[], lines), events)[i].Answer?
              && Answers(config, State(map[], lines), events)[j].Answer?)
  {
    hide Answers, RunCache, ClockInOrder;
    var s := State(map[], lines);
    AnswersNeedTheCache(config, s, events, i);
    AnswersNeedTheCache(config, s, events, j);
    if Answers(config, s, events)[i].Answer? && Answers(config, s, events)[j].Answer? {
      AcceptedAtMostOnce(Arrivals(events), i, j);
    }
  }
}
