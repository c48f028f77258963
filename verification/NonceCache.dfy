/** `NonceCache` of vpn_agent/agent.py, which forgets a nonce once its timestamp is more than
  60 seconds old, against a history that never forgets. */
module NonceCaches {
  import opened Text

  predicate NonceFormat(nonce: string) {
    |nonce| == 32 && forall i | 0 <= i < 32 :: '0' <= nonce[i] <= '9' || 'a' <= nonce[i] <= 'f'
  }

  datatype Verdict = Accepted | InvalidNonce | Expired | Replayed

  function Pruned(values: map<string, int>, now: int): map<string, int> {
    map key | key in values && now - values[key] <= 60 :: values[key]
  }

  /** The cache and the verdict after one `consume`. */
  function Consumed(values: map<string, int>, nonce: string, timestamp: int, now: int): (map<string, int>, Verdict) {
    if !NonceFormat(nonce) then (values, InvalidNonce)
    else if now - timestamp > 60 || timestamp - now > 60 then (values, Expired)
    else if nonce in Pruned(values, now) then (Pruned(values, now), Replayed)
    else (Pruned(values, now)[nonce := timestamp], Accepted)
  }

  /** A nonce of 32 hexadecimal digits is taken exactly when the time stamp is within 60 seconds of
    the clock, either way, and no use of it is remembered from the last 60 seconds. */
  lemma AcceptedExactly(values: map<string, int>, nonce: string, timestamp: int, now: int)
    ensures
      Consumed(values, nonce, timestamp, now).1.Accepted?
      <==> && |nonce| == 32 && (forall c | c in nonce :: IsHex(c))
           && timestamp - 60 <= now <= timestamp + 60
           && !(nonce in values && now <= values[nonce] + 60)
  {
    hide IsHex, Pruned;
    HexRange();
    RecentKeys(values, nonce, now);
    assert forall i | 0 <= i < |nonce| :: nonce[i] in nonce;
  }

  lemma RecentKeys(values: map<string, int>, nonce: string, now: int)
    ensures nonce in Pruned(values, now) <==> nonce in values && now <= values[nonce] + 60
  {
  }

  class NonceCache {
    var values: map<string, int>

    constructor ()
      ensures values == map[]
    {
      values := map[];
    }

    /** `now` is the clock the call read before it took the lock. */
    method Consume(nonce: string, timestamp: int, now: int) returns (verdict: Verdict)
      modifies this
      ensures (values, verdict) == Consumed(old(values), nonce, timestamp, now)
    {
      if !NonceFormat(nonce) {
        return InvalidNonce;
      }
      var distance := if now < timestamp then timestamp - now else now - timestamp;
      if distance > 60 {
        return Expired;
      }
      values := map key | key in values && now - values[key] <= 60 :: values[key];
      if nonce in values {
        return Replayed;
      }
      values := values[nonce := timestamp];
      verdict := Accepted;
    }
  }

  // ------------------------------------------------------------------ a history that is never pruned

  datatype Use = Use(nonce: string, timestamp: int)

  /** Has some accepted use of this nonce a timestamp within 60 seconds of now? */
  predicate RecentlyUsed(history: seq<Use>, nonce: string, now: int) {
    exists i | 0 <= i < |history| :: history[i].nonce == nonce && now - history[i].timestamp <= 60
  }

  function Decided(history: seq<Use>, nonce: string, timestamp: int, now: int): Verdict {
    if !NonceFormat(nonce) then InvalidNonce
    else if now - timestamp > 60 || timestamp - now > 60 then Expired
    else if RecentlyUsed(history, nonce, now) then Replayed
    else Accepted
  }

  datatype Arrival = Arrival(nonce: string, timestamp: int, now: int)

  /** The clock never runs backwards from one lock holder to the next. */
  predicate ClockInOrder(arrivals: seq<Arrival>) {
    forall i, j | 0 <= i < j < |arrivals| :: arrivals[i].now <= arrivals[j].now
  }

  function RunCache(values: map<string, int>, arrivals: seq<Arrival>): seq<Verdict>
    decreases |arrivals|
  {
    if arrivals == [] then [] else
      var a := arrivals[0];
      var (next, verdict) := Consumed(values, a.nonce, a.timestamp, a.now);
      [verdict] + RunCache(next, arrivals[1..])
  }

  function RunHistory(history: seq<Use>, arrivals: seq<Arrival>): seq<Verdict>
    decreases |arrivals|
  {
    if arrivals == [] then [] else
      var a := arrivals[0];
      var verdict := Decided(history, a.nonce, a.timestamp, a.now);
      [verdict]
      + RunHistory(if verdict.Accepted? then history + [Use(a.nonce, a.timestamp)] else history, arrivals[1..])
  }

  /** The cache holds every use that is still recent at `time`, and nothing that never happened. */
  ghost predicate Represents(values: map<string, int>, history: seq<Use>, time: int) {
    && (forall n | n in values :: Use(n, values[n]) in history)
    && (forall i | 0 <= i < |history| ::
          time - history[i].timestamp <= 60 ==>
            history[i].nonce in values && values[history[i].nonce] == history[i].timestamp)
  }

  lemma ConsumeDecides(values: map<string, int>, history: seq<Use>, time: int, a: Arrival)
    requires Represents(values, history, time) && time <= a.now
    ensures
      var (next, verdict) := Consumed(values, a.nonce, a.timestamp, a.now);
      && verdict == Decided(history, a.nonce, a.timestamp, a.now)
      && Represents(next, if verdict.Accepted? then history + [Use(a.nonce, a.timestamp)] else history, a.now)
  {
    var kept := Pruned(values, a.now);
    assert Represents(kept, history, a.now);
    if a.nonce in kept {
      var i :| 0 <= i < |history| && history[i] == Use(a.nonce, kept[a.nonce]);
    }
  }

  /** Forgetting old nonces changes no decision, as long as the clock does not run backwards. */
  lemma {:induction false} PruningIsInvisible(values: map<string, int>, history: seq<Use>, time: int,
                                              arrivals: seq<Arrival>)
    requires Represents(values, history, time) && ClockInOrder(arrivals)
    requires arrivals != [] ==> time <= arrivals[0].now
    ensures RunCache(values, arrivals) == RunHistory(history, arrivals)
    decreases |arrivals|
  {
    if arrivals != [] {
      var a := arrivals[0];
      ConsumeDecides(values, history, time, a);
      var (next, verdict) := Consumed(values, a.nonce, a.timestamp, a.now);
      var known := if verdict.Accepted? then history + [Use(a.nonce, a.timestamp)] else history;
      assert ClockInOrder(arrivals[1..]);
      PruningIsInvisible(next, known, a.now, arrivals[1..]);
    }
  }

  lemma {:induction false} KnownUseNeverAccepted(history: seq<Use>, arrivals: seq<Arrival>, j: nat)
    requires j < |arrivals| && Use(arrivals[j].nonce, arrivals[j].timestamp) in history
    ensures |RunHistory(history, arrivals)| == |arrivals| && !RunHistory(history, arrivals)[j].Accepted?
    decreases |arrivals|
  {
    var a := arrivals[0];
    var verdict := Decided(history, a.nonce, a.timestamp, a.now);
    var known := if verdict.Accepted? then history + [Use(a.nonce, a.timestamp)] else history;
    RunLength(known, arrivals[1..]);
    if j == 0 {
      var i :| 0 <= i < |history| && history[i] == Use(a.nonce, a.timestamp);
    } else {
      KnownUseNeverAccepted(known, arrivals[1..], j - 1);
    }
  }

  lemma {:induction false} RunLength(history: seq<Use>, arrivals: seq<Arrival>)
    ensures |RunHistory(history, arrivals)| == |arrivals|
    decreases |arrivals|
  {
    if arrivals != [] {
      var a := arrivals[0];
      var verdict := Decided(history, a.nonce, a.timestamp, a.now);
      RunLength(if verdict.Accepted? then history + [Use(a.nonce, a.timestamp)] else history, arrivals[1..]);
    }
  }

  lemma {:induction false} HistoryAcceptsOnce(history: seq<Use>, arrivals: seq<Arrival>, i: nat, j: nat)
    requires i < j < |arrivals|
    requires arrivals[i].nonce == arrivals[j].nonce && arrivals[i].timestamp == arrivals[j].timestamp
    ensures |RunHistory(history, arrivals)| == |arrivals|
    ensures !(RunHistory(history, arrivals)[i].Accepted? && RunHistory(history, arrivals)[j].Accepted?)
    decreases |arrivals|
  {
    RunLength(history, arrivals);
    var a := arrivals[0];
    var verdict := Decided(history, a.nonce, a.timestamp, a.now);
    var known := if verdict.Accepted? then history + [Use(a.nonce, a.timestamp)] else history;
    if i > 0 {
      HistoryAcceptsOnce(known, arrivals[1..], i - 1, j - 1);
    } else if verdict.Accepted? {
      assert known[|history|] == Use(a.nonce, a.timestamp);
      KnownUseNeverAccepted(known, arrivals[1..], j - 1);
    }
  }

  /** The same nonce with the same timestamp is accepted at most once. */
  lemma AcceptedAtMostOnce(arrivals: seq<Arrival>, i: nat, j: nat)
    requires ClockInOrder(arrivals) && i < j < |arrivals|
    requires arrivals[i].nonce == arrivals[j].nonce && arrivals[i].timestamp == arrivals[j].timestamp
    ensures |RunCache(map[], arrivals)| == |arrivals|
    ensures !(RunCache(map[], arrivals)[i].Accepted? && RunCache(map[], arrivals)[j].Accepted?)
  {
    PruningIsInvisible(map[], [], arrivals[0].now, arrivals);
    HistoryAcceptsOnce([], arrivals, i, j);
  }

  // ------------------------------------------------------------------ without clock order

  function CacheAfter(values: map<string, int>, arrivals: seq<Arrival>): map<string, int>
    decreases |arrivals|
  {
    if arrivals == [] then values
    else CacheAfter(Consumed(values, arrivals[0].nonce, arrivals[0].timestamp, arrivals[0].now).0, arrivals[1..])
  }

  predicate Fresh(timestamp: int, now: int) { -60 <= now - timestamp <= 60 }

  /** The arrival passed the first two checks, so it pruned, and its clock was past the use. */
  predicate Forgets(a: Arrival, timestamp: int) {
    NonceFormat(a.nonce) && Fresh(a.timestamp, a.now) && a.now - timestamp > 60
  }

  /** None of these arrivals is accepted with this nonce. */
  predicate Refuses(values: map<string, int>, nonce: string, arrivals: seq<Arrival>)
    decreases |arrivals|
  {
    arrivals == [] ||
    (var a := arrivals[0];
     var (next, verdict) := Consumed(values, a.nonce, a.timestamp, a.now);
     (a.nonce == nonce ==> !verdict.Accepted?) && Refuses(next, nonce, arrivals[1..]))
  }

  /** A use stays in the cache until an arrival with a later clock prunes it. */
  lemma {:induction false} KeptUnlessForgotten(values: map<string, int>, nonce: string, between: seq<Arrival>)
    requires Refuses(values, nonce, between)
    ensures nonce in CacheAfter(values, between)
            <==> nonce in values && forall a | a in between :: !Forgets(a, values[nonce])
    ensures nonce in CacheAfter(values, between) ==> CacheAfter(values, between)[nonce] == values[nonce]
    decreases |between|
  {
    hide NonceFormat;
    if between != [] {
      var a := between[0];
      assert a in between && forall b | b in between :: b == a || b in between[1..];
      KeptUnlessForgotten(Consumed(values, a.nonce, a.timestamp, a.now).0, nonce, between[1..]);
    }
  }

  /** For any clocks and any requests between: after an accepted request, the same nonce and time
    stamp are next accepted exactly when the clock is within 60 seconds of the time stamp although
    a request between has pruned with a clock that was past it. */
  lemma ReplayAcceptedExactly(values: map<string, int>, r: Arrival, between: seq<Arrival>, later: int)
    requires Consumed(values, r.nonce, r.timestamp, r.now).1.Accepted?
    requires Refuses(Consumed(values, r.nonce, r.timestamp, r.now).0, r.nonce, between)
    ensures
      var cache := CacheAfter(Consumed(values, r.nonce, r.timestamp, r.now).0, between);
      Consumed(cache, r.nonce, r.timestamp, later).1.Accepted?
      <==> Fresh(r.timestamp, later) && exists a | a in between :: Forgets(a, r.timestamp)
  {
    hide NonceFormat, Forgets;
    KeptUnlessForgotten(Consumed(values, r.nonce, r.timestamp, r.now).0, r.nonce, between);
  }

  const NONCE_A := "00000000000000000000000000000000"
  const NONCE_B := "11111111111111111111111111111111"

  /** The clock is read before the lock is taken, and that order matters: a later holder with an
    earlier clock can accept a nonce that a holder between them has already forgotten. */
  lemma ClockOrderIsNeeded()
    ensures
      var arrivals := [Arrival(NONCE_A, 0, 0), Arrival(NONCE_B, 61, 61), Arrival(NONCE_A, 0, 60)];
      RunCache(map[], arrivals) == [Accepted, Accepted, Accepted]
  {
    var a0, a1, a2 := Arrival(NONCE_A, 0, 0), Arrival(NONCE_B, 61, 61), Arrival(NONCE_A, 0, 60);
    var v1 := Consumed(map[], NONCE_A, 0, 0).0;
    assert v1 == map[NONCE_A := 0];
    var v2 := Consumed(v1, NONCE_B, 61, 61).0;
    assert NONCE_A[0] != NONCE_B[0];
    assert v2 == map[NONCE_B := 61];
    assert [a0, a1, a2][1..] == [a1, a2] && [a1, a2][1..] == [a2] && [a2][1..] == [];
    assert Consumed(v2, NONCE_A, 0, 60).1 == Accepted;
    assert RunCache(v2, [a2]) == [Accepted];
    assert RunCache(v1, [a1, a2]) == [Accepted, Accepted];
  }
}
