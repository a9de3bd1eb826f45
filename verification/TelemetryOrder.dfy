/** The order of the table of completed requests (`telemetry.py`). */
module TelemetryOrder {
  import opened OrderedMap
  import opened Telemetry
  import opened Wire

  // ---- Keys ----

  function KeysOf<V>(m: seq<Entry<V>>): seq<string> {
    seq(|m|, i requires 0 <= i < |m| => m[i].key)
  }

  /** Storing under a key that is there changes no place; a new key goes last, and the oldest may go. */
  function Stored(keys: seq<string>, id: string, cap: nat): seq<string> {
    if id in keys then keys else if |keys| + 1 > cap then (keys + [id])[|keys| + 1 - cap..] else keys + [id]
  }

  lemma HasKey<V>(m: seq<Entry<V>>, id: string)
    ensures Has(m, id) <==> id in KeysOf(m)
  {
    if Has(m, id) {
      assert KeysOf(m)[IndexOf(m, id)] == id;
    }
  }

  lemma PutKeys<V>(m: seq<Entry<V>>, id: string, v: V)
    ensures KeysOf(Put(m, id, v)) == if id in KeysOf(m) then KeysOf(m) else KeysOf(m) + [id]
  {
    HasKey(m, id);
  }

  lemma RememberKeys<V>(m: seq<Entry<V>>, id: string, v: V, cap: nat)
    requires id != "" && |m| <= cap
    ensures KeysOf(Remember(m, id, v, cap)) == Stored(KeysOf(m), id, cap)
  {
    PutKeys(m, id, v);
    var p := Put(m, id, v);
    if |p| > cap {
      assert KeysOf(Trim(p, cap)) == KeysOf(p)[|p| - cap..];
    }
  }

  /** The completed keys after one event. */
  lemma KeysAfter(t: Tier0, e: NetEvent, maxEvents: nat, maxMap: nat)
    requires |t.done| <= maxMap
    ensures KeysOf(Ingested(t, e, maxEvents, maxMap).done)
         == if Ends(e) && e.id != "" then Stored(KeysOf(t.done), e.id, maxMap) else KeysOf(t.done)
  {
    if Ends(e) && e.id != "" {
      RememberKeys(t.done, e.id, DoneOf(Known(t, e), e), maxMap);
    }
  }

  function DoneKeys(events: seq<NetEvent>, maxEvents: nat, maxMap: nat): seq<string> {
    KeysOf(IngestAll(events, maxEvents, maxMap).done)
  }

  lemma DoneKeysSnoc(front: seq<NetEvent>, e: NetEvent, maxEvents: nat, maxMap: nat)
    ensures DoneKeys(front + [e], maxEvents, maxMap)
         == if Ends(e) && e.id != "" then Stored(DoneKeys(front, maxEvents, maxMap), e.id, maxMap)
            else DoneKeys(front, maxEvents, maxMap)
  {
    assert (front + [e])[..|front|] == front;
    TablesStayOk(front, maxEvents, maxMap);
    KeysAfter(IngestAll(front, maxEvents, maxMap), e, maxEvents, maxMap);
  }

  lemma {:induction false} KeysNamed(events: seq<NetEvent>, maxEvents: nat, maxMap: nat)
    ensures "" !in DoneKeys(events, maxEvents, maxMap) && |DoneKeys(events, maxEvents, maxMap)| <= maxMap
  {
    if events != [] {
      var front, e := events[..|events| - 1], events[|events| - 1];
      KeysNamed(front, maxEvents, maxMap);
      assert events == front + [e];
      DoneKeysSnoc(front, e, maxEvents, maxMap);
    }
  }

  // ---- Order of completion ----

  /** When the request last ended, as a position in the run, or -1. */
  function LastEnd(events: seq<NetEvent>, id: string): (n: int)
    ensures -1 <= n < |events|
  {
    if events == [] then -1
    else if events[|events| - 1].id == id && Ends(events[|events| - 1]) then |events| - 1
    else LastEnd(events[..|events| - 1], id)
  }

  lemma LastEndSnoc(front: seq<NetEvent>, e: NetEvent, id: string)
    ensures LastEnd(front + [e], id) == if e.id == id && Ends(e) then |front| else LastEnd(front, id)
  {
    assert (front + [e])[..|front|] == front;
  }

  /** Later completions are further back. */
  ghost predicate ByCompletion(events: seq<NetEvent>, keys: seq<string>) {
    forall i, j :: 0 <= i < j < |keys| ==> LastEnd(events, keys[i]) < LastEnd(events, keys[j])
  }

  /** The event completes again a request that is in the table, but not at its end. */
  predicate Returns(keys: seq<string>, e: NetEvent) {
    Ends(e) && e.id in keys && keys[|keys| - 1] != e.id
  }

  lemma OthersKeepOrder(front: seq<NetEvent>, e: NetEvent, keys: seq<string>)
    requires ByCompletion(front, keys) && (Ends(e) ==> e.id !in keys)
    ensures ByCompletion(front + [e], keys)
  {
    forall i, j | 0 <= i < j < |keys|
      ensures LastEnd(front + [e], keys[i]) < LastEnd(front + [e], keys[j])
    {
      LastEndSnoc(front, e, keys[i]);
      LastEndSnoc(front, e, keys[j]);
    }
  }

  lemma NewLast(front: seq<NetEvent>, e: NetEvent, keys: seq<string>)
    requires ByCompletion(front, keys) && Ends(e) && e.id !in keys
    ensures ByCompletion(front + [e], keys + [e.id])
  {
    OthersKeepOrder(front, e, keys);
    LastEndSnoc(front, e, e.id);
    forall i, j | 0 <= i < j < |keys + [e.id]|
      ensures LastEnd(front + [e], (keys + [e.id])[i]) < LastEnd(front + [e], (keys + [e.id])[j])
    {
      if j == |keys| {
        LastEndSnoc(front, e, keys[i]);
      }
    }
  }

  lemma SuffixByCompletion(events: seq<NetEvent>, keys: seq<string>, n: nat)
    requires ByCompletion(events, keys) && n <= |keys|
    ensures ByCompletion(events, keys[n..])
  {
  }

  lemma ReturnKeepsOrderIff(front: seq<NetEvent>, e: NetEvent, keys: seq<string>)
    requires ByCompletion(front, keys) && Ends(e) && e.id in keys
    ensures ByCompletion(front + [e], keys) <==> keys[|keys| - 1] == e.id
  {
    var last := |keys| - 1;
    var p :| 0 <= p < |keys| && keys[p] == e.id;
    LastEndSnoc(front, e, e.id);
    if keys[last] != e.id {
      LastEndSnoc(front, e, keys[last]);
      assert !(LastEnd(front + [e], keys[p]) < LastEnd(front + [e], keys[last]));
    } else {
      forall i, j | 0 <= i < j < |keys|
        ensures LastEnd(front + [e], keys[i]) < LastEnd(front + [e], keys[j])
      {
        assert LastEnd(front, keys[i]) < LastEnd(front, keys[j]);
        assert j < last ==> LastEnd(front, keys[j]) < LastEnd(front, keys[last]);
        assert LastEnd(front, keys[i]) < LastEnd(front, keys[last]);
        LastEndSnoc(front, e, keys[i]);
        LastEndSnoc(front, e, keys[j]);
      }
    }
  }

  /** One event keeps the table in order of completion exactly unless it returns to an earlier entry. */
  lemma OrderAfterIff(front: seq<NetEvent>, e: NetEvent, maxEvents: nat, maxMap: nat)
    requires ByCompletion(front, DoneKeys(front, maxEvents, maxMap))
    ensures ByCompletion(front + [e], DoneKeys(front + [e], maxEvents, maxMap))
       <==> !Returns(DoneKeys(front, maxEvents, maxMap), e)
  {
    var keys := DoneKeys(front, maxEvents, maxMap);
    KeysNamed(front, maxEvents, maxMap);
    DoneKeysSnoc(front, e, maxEvents, maxMap);
    if Ends(e) && e.id in keys {
      ReturnKeepsOrderIff(front, e, keys);
    } else if Ends(e) && e.id != "" {
      NewLast(front, e, keys);
      if |keys| + 1 > maxMap {
        SuffixByCompletion(front + [e], keys + [e.id], |keys| + 1 - maxMap);
      }
    } else {
      OthersKeepOrder(front, e, keys);
    }
  }

  /** At every moment of the run. */
  ghost predicate AlwaysByCompletion(events: seq<NetEvent>, maxEvents: nat, maxMap: nat) {
    && ByCompletion(events, DoneKeys(events, maxEvents, maxMap))
    && (events != [] ==> AlwaysByCompletion(events[..|events| - 1], maxEvents, maxMap))
  }

  predicate NeverReturns(events: seq<NetEvent>, maxEvents: nat, maxMap: nat) {
    events != [] ==>
      && NeverReturns(events[..|events| - 1], maxEvents, maxMap)
      && !Returns(DoneKeys(events[..|events| - 1], maxEvents, maxMap), events[|events| - 1])
  }

  /** The table is in order of completion at every moment, so that the newest is always last, exactly
      when no request of the run completes again while it is in the table but not at its end. */
  lemma {:induction false} ByCompletionIffNeverReturns(events: seq<NetEvent>, maxEvents: nat, maxMap: nat)
    ensures AlwaysByCompletion(events, maxEvents, maxMap) <==> NeverReturns(events, maxEvents, maxMap)
  {
    if events != [] {
      var front, e := events[..|events| - 1], events[|events| - 1];
      ByCompletionIffNeverReturns(front, maxEvents, maxMap);
      assert front + [e] == events;
      if ByCompletion(front, DoneKeys(front, maxEvents, maxMap)) {
        OrderAfterIff(front, e, maxEvents, maxMap);
      }
    }
  }

  // ---- A run that returns ----

  function Starting(id: string): NetEvent {
    RequestWillBeSent(id, 0, None, None, None)
  }

  function Finishing(id: string): NetEvent {
    LoadingFinished(id, 0, None)
  }

  function Loads(ids: seq<string>): seq<NetEvent> {
    if ids == [] then [] else Loads(ids[..|ids| - 1]) + [Starting(ids[|ids| - 1])] + [Finishing(ids[|ids| - 1])]
  }

  lemma LoadKeys(ids: seq<string>, id: string, maxEvents: nat, maxMap: nat)
    requires id != ""
    ensures DoneKeys(Loads(ids + [id]), maxEvents, maxMap) == Stored(DoneKeys(Loads(ids), maxEvents, maxMap), id, maxMap)
    ensures LastEnd(Loads(ids + [id]), id) == |Loads(ids)| + 1
    ensures forall other :: other != id ==> LastEnd(Loads(ids + [id]), other) <= |Loads(ids)|
  {
    assert (ids + [id])[..|ids|] == ids;
    DoneKeysSnoc(Loads(ids), Starting(id), maxEvents, maxMap);
    DoneKeysSnoc(Loads(ids) + [Starting(id)], Finishing(id), maxEvents, maxMap);
    forall other
      ensures LastEnd(Loads(ids + [id]), other) == if other == id then |Loads(ids)| + 1 else LastEnd(Loads(ids) + [Starting(id)], other)
    {
      LastEndSnoc(Loads(ids) + [Starting(id)], Finishing(id), other);
    }
  }

  /** Loading a, then b, then a again leaves a before b, though a completed last. */
  lemma ReturningBreaksOrder(a: string, b: string, maxEvents: nat, maxMap: nat)
    requires a != "" && b != "" && a != b && maxMap >= 2
    ensures DoneKeys(Loads([a, b, a]), maxEvents, maxMap) == [a, b]
    ensures LastEnd(Loads([a, b, a]), a) > LastEnd(Loads([a, b, a]), b)
    ensures !AlwaysByCompletion(Loads([a, b, a]), maxEvents, maxMap)
  {
    assert [] + [a] == [a] && [a] + [b] == [a, b] && [a, b] + [a] == [a, b, a];
    LoadKeys([], a, maxEvents, maxMap);
    LoadKeys([a], b, maxEvents, maxMap);
    LoadKeys([a, b], a, maxEvents, maxMap);
    assert DoneKeys([], maxEvents, maxMap) == [];
    assert [a, b][0] == a && [a, b][1] == b;
  }
}
