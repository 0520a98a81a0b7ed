/**
 * Hash-chained event logs, as kept by the observability bus, the distributed engine, the autonomous
 * network (one chain each) and the promotion audit trail (one chain per request). The hash is an
 * arbitrary function of an event's content and the previous hash; nothing is assumed about it.
 */
module HashChain {
  import opened Order

  const GENESIS := "genesis"

  type HashOf<!B> = (B, string) -> string

  /** `body` is everything an event records besides the two hashes, its id and timestamp included. */
  datatype Event<+B> = Event(body: B, previous: string, hash: string)

  function Head<B>(events: seq<Event<B>>): string {
    if events == [] then GENESIS else events[|events| - 1].hash
  }

  /** Event `i` names its predecessor's hash and carries the hash of its own content. */
  predicate LinkOk<B>(h: HashOf<B>, events: seq<Event<B>>, i: nat)
    requires i < |events|
  {
    events[i].previous == Head(events[..i]) && events[i].hash == h(events[i].body, events[i].previous)
  }

  ghost predicate Verifies<B>(h: HashOf<B>, events: seq<Event<B>>) {
    forall i :: 0 <= i < |events| ==> LinkOk(h, events, i)
  }

  lemma VerifiesPrefix<B>(h: HashOf<B>, events: seq<Event<B>>, k: nat)
    requires k <= |events| && Verifies(h, events)
    ensures Verifies(h, events[..k])
  {
    forall i | 0 <= i < k ensures LinkOk(h, events[..k], i) {
      assert events[..k][..i] == events[..i];
      assert LinkOk(h, events, i);
    }
  }

  lemma VerifiesAppend<B>(h: HashOf<B>, events: seq<Event<B>>, body: B)
    requires Verifies(h, events)
    ensures Verifies(h, events + [Event(body, Head(events), h(body, Head(events)))])
  {
    var all := events + [Event(body, Head(events), h(body, Head(events)))];
    forall i | 0 <= i < |all| ensures LinkOk(h, all, i) {
      assert all[..i] == events[..i];
      if i < |events| { assert LinkOk(h, events, i); } else { assert events[..i] == events; }
    }
  }

  /** Walks the log with a running hash and returns the position of the first bad event. */
  method FirstInvalid<B>(h: HashOf<B>, events: seq<Event<B>>) returns (r: Option<nat>)
    ensures r.None? <==> Verifies(h, events)
    ensures r.Some? ==> r.value < |events| && !LinkOk(h, events, r.value) && Verifies(h, events[..r.value])
  {
    var previous := GENESIS;
    for i := 0 to |events|
      invariant previous == Head(events[..i])
      invariant forall j :: 0 <= j < i ==> LinkOk(h, events, j)
    {
      assert events[..i + 1][i] == events[i];
      if events[i].previous != previous {
        PrefixSoFar(h, events, i);
        assert !LinkOk(h, events, i);
        return Some(i);
      }
      if events[i].hash != h(events[i].body, events[i].previous) {
        PrefixSoFar(h, events, i);
        assert !LinkOk(h, events, i);
        return Some(i);
      }
      previous := events[i].hash;
    }
    return None;
  }

  lemma PrefixSoFar<B>(h: HashOf<B>, events: seq<Event<B>>, k: nat)
    requires k <= |events| && forall j :: 0 <= j < k ==> LinkOk(h, events, j)
    ensures Verifies(h, events[..k])
  {
    forall i | 0 <= i < k ensures LinkOk(h, events[..k], i) {
      assert LinkOk(h, events, i);
      assert events[..k][..i] == events[..i];
    }
  }

  /**
   * Two events of the given logs that carry one hash although their content or previous hash differs,
   * or an event that carries the starting value: what a forger would have to exhibit.
   */
  ghost predicate Clash<B(!new)>(a: seq<Event<B>>, b: seq<Event<B>>) {
    || (exists x, y :: x in a && y in b && x.hash == y.hash && (x.body != y.body || x.previous != y.previous))
    || (exists x :: (x in a || x in b) && x.hash == GENESIS)
  }

  /** A clash of verifying logs is a collision of the hash function, or content that hashes to the starting value. */
  lemma ClashBreaksHash<B(!new)>(h: HashOf<B>, a: seq<Event<B>>, b: seq<Event<B>>)
    requires Verifies(h, a) && Verifies(h, b) && Clash(a, b)
    ensures (exists x, y :: x in a && y in b && h(x.body, x.previous) == h(y.body, y.previous)
                            && (x.body != y.body || x.previous != y.previous))
         || (exists x :: (x in a || x in b) && h(x.body, x.previous) == GENESIS)
  {
    EventsHashed(h, a);
    EventsHashed(h, b);
    hide Verifies;
    if x, y :| x in a && y in b && x.hash == y.hash && (x.body != y.body || x.previous != y.previous) {
      assert h(x.body, x.previous) == h(y.body, y.previous);
    } else {
      var x :| (x in a || x in b) && x.hash == GENESIS;
      assert h(x.body, x.previous) == GENESIS;
    }
  }

  lemma EventsHashed<B>(h: HashOf<B>, a: seq<Event<B>>)
    requires Verifies(h, a)
    ensures forall x :: x in a ==> x.hash == h(x.body, x.previous)
  {
    forall x | x in a ensures x.hash == h(x.body, x.previous) {
      var i :| 0 <= i < |a| && a[i] == x;
      assert LinkOk(h, a, i);
    }
  }

  lemma ClashExtends<B(!new)>(a: seq<Event<B>>, b: seq<Event<B>>, m: nat, n: nat)
    requires m <= |a| && n <= |b| && Clash(a[..m], b[..n])
    ensures Clash(a, b)
  {
    if x, y :| x in a[..m] && y in b[..n] && x.hash == y.hash && (x.body != y.body || x.previous != y.previous) {
      assert x in a && y in b;
    } else {
      var x :| (x in a[..m] || x in b[..n]) && x.hash == GENESIS;
      assert x in a || x in b;
    }
  }

  /** Two verifying logs with the same final hash are the same log event by event, or they clash. */
  lemma {:induction false} SameHeadSameLog<B(!new)>(h: HashOf<B>, a: seq<Event<B>>, b: seq<Event<B>>)
    requires Verifies(h, a) && Verifies(h, b) && Head(a) == Head(b)
    ensures a == b || Clash(a, b)
    decreases |a|
  {
    if a != [] && b != [] {
      var m, n := |a| - 1, |b| - 1;
      assert LinkOk(h, a, m) && LinkOk(h, b, n);
      assert a[m] in a && b[n] in b;
      if a[m].body == b[n].body && a[m].previous == b[n].previous {
        VerifiesPrefix(h, a, m);
        VerifiesPrefix(h, b, n);
        SameHeadSameLog(h, a[..m], b[..n]);
        if a[..m] == b[..n] {
          assert a == a[..m] + [a[m]] && b == b[..n] + [b[n]];
        } else {
          ClashExtends(a, b, m, n);
        }
      }
    } else if a != [] {
      assert a[|a| - 1] in a;
    } else if b != [] {
      assert b[|b| - 1] in b;
    }
  }

  /**
   * A hash noted earlier pins the log down to that point: a later log that verifies and still
   * contains the noted hash begins with exactly the log that was there, or the two logs clash.
   */
  lemma NotedHashPinsPrefix<B(!new)>(h: HashOf<B>, before: seq<Event<B>>, later: seq<Event<B>>, k: nat)
    requires Verifies(h, before) && Verifies(h, later) && k <= |later| && Head(later[..k]) == Head(before)
    ensures before <= later || Clash(before, later)
  {
    VerifiesPrefix(h, later, k);
    SameHeadSameLog(h, before, later[..k]);
    if before != later[..k] {
      assert before[..|before|] == before;
      ClashExtends(before, later, |before|, k);
    }
  }

  /** One chain: events are only ever appended. */
  class EventLog<B> {
    const h: HashOf<B>
    var events: seq<Event<B>>
    var last: string

    constructor (h: HashOf<B>)
      ensures this.h == h && Valid() && events == []
    {
      this.h := h;
      events, last := [], GENESIS;
    }

    ghost predicate Valid()
      reads this
    {
      Verifies(h, events) && last == Head(events)
    }

    method Append(body: B) returns (e: Event<B>)
      requires Valid()
      modifies this
      ensures Valid() && e.body == body && events == old(events) + [e]
    {
      e := Event(body, last, h(body, last));
      VerifiesAppend(h, events, body);
      events := events + [e];
      last := e.hash;
    }

    method VerifyChain() returns (firstInvalid: Option<nat>)
      ensures firstInvalid.None? <==> Verifies(h, events)
      ensures firstInvalid.Some? ==>
        firstInvalid.value < |events| && !LinkOk(h, events, firstInvalid.value)
          && Verifies(h, events[..firstInvalid.value])
    {
      firstInvalid := FirstInvalid(h, events);
    }
  }

  /** One chain per key; a key without events has an empty chain. */
  class AuditTrail<B> {
    const h: HashOf<B>
    var logs: map<string, seq<Event<B>>>
    var last: map<string, string>

    constructor (h: HashOf<B>)
      ensures this.h == h && Valid() && logs == map[]
    {
      this.h := h;
      logs, last := map[], map[];
    }

    function LogOf(key: string): seq<Event<B>>
      reads this
    {
      if key in logs then logs[key] else []
    }

    function LastOf(key: string): string
      reads this
    {
      if key in last then last[key] else GENESIS
    }

    ghost predicate Valid()
      reads this
    {
      forall k :: Verifies(h, LogOf(k)) && LastOf(k) == Head(LogOf(k))
    }

    /** Recording for one key extends that chain and leaves every other one alone. */
    method Record(key: string, body: B) returns (e: Event<B>)
      requires Valid()
      modifies this
      ensures Valid() && e.body == body && logs == old(logs)[key := old(LogOf(key)) + [e]]
    {
      var events := LogOf(key);
      var previous := LastOf(key);
      e := Event(body, previous, h(body, previous));
      VerifiesAppend(h, events, body);
      logs, last := logs[key := events + [e]], last[key := e.hash];
      assert Verifies(h, LogOf(key)) && LastOf(key) == Head(LogOf(key));
      hide Verifies, Head;
      assert forall k :: k != key ==> LogOf(k) == old(LogOf(k)) && LastOf(k) == old(LastOf(k));
    }

    method Verify(key: string) returns (firstInvalid: Option<nat>)
      ensures firstInvalid.None? <==> Verifies(h, LogOf(key))
      ensures firstInvalid.Some? ==>
        && firstInvalid.value < |LogOf(key)| && !LinkOk(h, LogOf(key), firstInvalid.value)
        && Verifies(h, LogOf(key)[..firstInvalid.value])
    {
      firstInvalid := FirstInvalid(h, LogOf(key));
    }
  }
}
