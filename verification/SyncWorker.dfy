/**
 * The service worker's sync handler and the client's journal, as code. Every call is a run of the
 * transition system of OfflineSync, whose remaining state is kept here as ghost fields.
 */
module SyncWorker {
  import opened Basics
  import opened OfflineSync

  /** What the network does with one request; of an answer the status may come through and the body not. */
  datatype Net = LostRequest | LostReply(verdict: Verdict) | Answered(verdict: Verdict, whole: bool)

  predicate Clean(net: seq<Net>) { forall i :: 0 <= i < |net| ==> net[i].Answered? && !net[i].verdict.Break? }

  /** No event is taken for accepted without being stored. */
  predicate Stores(net: Net) {
    net.Answered? ==> net.verdict != Acknowledge && (net.whole || net.verdict != Park(false))
  }

  lemma {:induction false} RunThen(w: World, first: seq<Event>, e: Event)
    ensures Run(w, first + [e]) == Next(Run(w, first), e)
    decreases first
  {
    if first == [] {
      assert [] + [e] == [e] && [e][1..] == [];
      assert Run(Next(w, e), []) == Next(w, e);
    } else {
      assert (first + [e])[1..] == first[1..] + [e];
      RunThen(Next(w, first[0]), first[1..], e);
    }
  }

  lemma {:induction false} RunConcat(w: World, first: seq<Event>, second: seq<Event>)
    ensures Run(w, first + second) == Run(Run(w, first), second)
    decreases first
  {
    if first == [] {
      assert [] + second == second;
    } else {
      assert (first + second)[1..] == first[1..] + second;
      RunConcat(Next(w, first[0]), first[1..], second);
    }
  }

  class Station {
    var journal: seq<Key>
    var status: map<Key, Status>
    var applied: seq<Key>
    ghost var wire: set<Key>
    ghost var replies: set<(Key, Reply)>
    ghost var rounds: seq<Round>

    ghost function Value(): World
      reads this
    {
      World(journal, status, applied, wire, replies, rounds)
    }

    ghost predicate Valid()
      reads this
    {
      Safe(Value())
    }

    constructor ()
      ensures Valid() && Value() == NOTHING
    {
      journal, status, applied, wire, replies, rounds := [], map[], [], {}, {}, [];
    }

    /** Appending the same key twice is a no-op. */
    method AppendEvent(key: Key)
      requires Valid()
      modifies this
      ensures Valid() && Value() == Next(old(Value()), Append(key))
    {
      NextKeepsSafe(Value(), Append(key));
      if key !in journal {
        journal := journal + [key];
        if key !in status { status := status[key := Pending]; }
      }
    }

    method MarkSynced(key: Key)
      modifies `status
      ensures status == old(status)[key := Synced]
    {
      status := status[key := Synced];
    }

    method MarkReview(key: Key)
      modifies `status
      ensures status == old(status)[key := Review]
    {
      status := status[key := Review];
    }

    /** The client's handler of the completion message. */
    method OnBackgroundSyncComplete(syncedKeys: seq<Key>, reviewKeys: seq<Key>)
      modifies `status
      ensures status == Marked(old(status), Message(syncedKeys, reviewKeys))
      ensures forall k :: k in reviewKeys ==> k in status && status[k] == Review
      ensures forall k :: k in syncedKeys && k !in reviewKeys ==> k in status && status[k] == Synced
      ensures forall k :: k !in syncedKeys && k !in reviewKeys ==> SameStatus(old(status), status, k)
    {
      hide Marked;
      NothingMarked(status);
      assert syncedKeys[..0] == [] && reviewKeys[..0] == [];
      for i := 0 to |syncedKeys|
        invariant status == Marked(old(status), Message(syncedKeys[..i], []))
      {
        OneMoreSynced(old(status), syncedKeys[..i], syncedKeys[i]);
        assert syncedKeys[..i + 1] == syncedKeys[..i] + [syncedKeys[i]];
        MarkSynced(syncedKeys[i]);
      }
      assert syncedKeys[..|syncedKeys|] == syncedKeys;
      for i := 0 to |reviewKeys|
        invariant status == Marked(old(status), Message(syncedKeys, reviewKeys[..i]))
      {
        OneMoreInReview(old(status), syncedKeys, reviewKeys[..i], reviewKeys[i]);
        assert reviewKeys[..i + 1] == reviewKeys[..i] + [reviewKeys[i]];
        MarkReview(reviewKeys[i]);
      }
      assert reviewKeys[..|reviewKeys|] == reviewKeys;
      MarkedExactly(old(status), syncedKeys, reviewKeys);
    }

    static lemma {:induction false} MarkedExactly(before: map<Key, Status>, synced: seq<Key>, review: seq<Key>)
      ensures var after := Marked(before, Message(synced, review));
        && (forall k :: k in review ==> k in after && after[k] == Review)
        && (forall k :: k in synced && k !in review ==> k in after && after[k] == Synced)
        && (forall k :: k !in synced && k !in review ==> SameStatus(before, after, k))
    {
    }

    static lemma {:induction false} NothingMarked(status: map<Key, Status>)
      ensures Marked(status, Message([], [])) == status
    {
    }

    static lemma {:induction false} OneMoreSynced(status: map<Key, Status>, synced: seq<Key>, k: Key)
      ensures Marked(status, Message(synced + [k], [])) == Marked(status, Message(synced, []))[k := Synced]
    {
    }

    static lemma {:induction false} OneMoreInReview(status: map<Key, Status>, synced: seq<Key>, review: seq<Key>, k: Key)
      ensures Marked(status, Message(synced, review + [k])) == Marked(status, Message(synced, review))[k := Review]
    {
    }

    /** One request: it may not arrive, and its reply may not come back. */
    method Fetch(ghost i: nat, key: Key, net: Net) returns (reply: Reply, thrown: bool, ghost events: seq<Event>)
      requires i < |rounds| && !rounds[i].aborted && rounds[i].next < |rounds[i].todo|
      requires rounds[i].todo[rounds[i].next] == key
      modifies `applied, `wire, `replies
      ensures events == if net.LostRequest? then [Send(i)] else [Send(i), Arrive(key, net.verdict)]
      ensures Value() == Run(old(Value()), events)
      ensures thrown <==> !net.Answered?
      ensures net.Answered? ==> reply == ReplyTo(old(applied), key, net.verdict) && (key, reply) in replies
      ensures net.Answered? ==> applied == AppliedAfter(old(applied), key, net.verdict)
      ensures old(applied) <= applied
    {
      ghost var before := Value();
      reply := OtherStatus;
      events := [Send(i)];
      RunThen(before, [], Send(i));
      assert [] + [Send(i)] == [Send(i)] && Run(before, []) == before;
      wire := wire + {key};
      if net.LostRequest? { return reply, true, events; }
      reply := ReplyTo(applied, key, net.verdict);
      RunThen(before, events, Arrive(key, net.verdict));
      assert events + [Arrive(key, net.verdict)] == [Send(i), Arrive(key, net.verdict)];
      events := [Send(i), Arrive(key, net.verdict)];
      applied, replies := AppliedAfter(applied, key, net.verdict), replies + {(key, reply)};
      thrown := net.LostReply?;
    }

    static lemma {:induction false} ExchangeBacked(
        w: World, applied: seq<Key>, wire: set<Key>, replies: set<(Key, Reply)>, i: nat, key: Key, round: Round)
      requires Backed(w) && w.applied <= applied && i < |w.rounds| && !w.rounds[i].aborted
      requires round.aborted || round.synced == w.rounds[i].synced || (round.synced == w.rounds[i].synced + [key] && key in applied)
      ensures Backed(w.(applied := applied, wire := wire, replies := replies, rounds := w.rounds[i := round]))
    {
      var rounds := w.rounds[i := round];
      forall j | 0 <= j < |rounds| && !rounds[j].aborted ensures Within(rounds[j].synced, applied) {
        assert Within(w.rounds[j].synced, w.applied);
      }
    }

    /** One turn of the round: the reply is noted, or the round is given up. */
    method Exchange(ghost i: nat, key: Key, net: Net) returns (reply: Reply, thrown: bool, ghost events: seq<Event>)
      requires i < |rounds| && !rounds[i].aborted && rounds[i].next < |rounds[i].todo|
      requires rounds[i].todo[rounds[i].next] == key
      modifies `applied, `wire, `replies, `rounds
      ensures Value() == Run(old(Value()), events)
      ensures thrown <==> !net.Answered?
      ensures net.Answered? ==> reply == HeardAs(ReplyTo(old(applied), key, net.verdict), net.whole)
      ensures Stores(net) && Backed(old(Value())) ==> Backed(Value())
      ensures !thrown ==> rounds == old(rounds)[i := Hear(old(rounds[i]), key, reply)]
      ensures old(applied) <= applied
    {
      ghost var before := Value();
      reply, thrown, events := Fetch(i, key, net);
      ghost var last := if thrown then NetworkError(i) else Answer(i, reply, net.whole);
      RunThen(before, events, last);
      if !thrown { reply := HeardAs(reply, net.whole); }
      ghost var round := if thrown then rounds[i].(aborted := true) else Hear(rounds[i], key, reply);
      if Stores(net) && Backed(before) { ExchangeBacked(before, applied, wire, replies, i, key, round); }
      events := events + [last];
      rounds := rounds[i := round];
    }

    /** Posts the events one by one; a network error gives up on the spot. */
    method PostAll(unsyncedEvents: seq<Key>, net: seq<Net>, ghost i: nat)
      returns (syncedKeys: seq<Key>, reviewKeys: seq<Key>, ghost failedKeys: seq<Key>, thrown: bool, ghost events: seq<Event>)
      requires |net| >= |unsyncedEvents|
      requires i < |rounds| && rounds[i] == Round(unsyncedEvents, 0, [], [], [], false)
      modifies `applied, `wire, `replies, `rounds
      ensures Value() == Run(old(Value()), events) && old(applied) <= applied
      ensures thrown <==> exists n :: 0 <= n < |unsyncedEvents| && !net[n].Answered?
      ensures !thrown ==>
        && i < |rounds| && rounds[i] == Round(unsyncedEvents, |unsyncedEvents|, syncedKeys, reviewKeys, failedKeys, false)
        && (forall k :: k in unsyncedEvents ==> k in syncedKeys || k in reviewKeys || k in failedKeys)
      ensures Clean(net) ==> failedKeys == [] && forall k :: k in reviewKeys ==> k !in old(applied)
      ensures (forall n :: 0 <= n < |net| ==> Stores(net[n])) && Backed(old(Value())) ==> Backed(Value())
    {
      ghost var before := Value();
      assert Run(before, []) == before;
      hide Backed, Stores, Run, AppliedAfter, Sorted, ReplyTo, HeardAs, Clean;
      NothingSorted(rounds[i], net, applied);
      syncedKeys, reviewKeys, failedKeys, events := [], [], [], [];
      for n := 0 to |unsyncedEvents|
        invariant Value() == Run(before, events) && old(applied) <= applied
        invariant i < |rounds| && rounds[i] == Round(unsyncedEvents, n, syncedKeys, reviewKeys, failedKeys, false)
        invariant Sorted(rounds[i], net, old(applied))
        invariant forall m :: 0 <= m < n ==> net[m].Answered?
        invariant (forall m :: 0 <= m < |net| ==> Stores(net[m])) && Backed(before) ==> Backed(Value())
      {
        var key := unsyncedEvents[n];
        ghost var soFar, more := events, [];
        var reply;
        ghost var have := applied;
        reply, thrown, more := Exchange(i, key, net[n]);
        RunConcat(before, soFar, more);
        events := soFar + more;
        if thrown { return; }
        OneMoreSorted(Round(unsyncedEvents, n, syncedKeys, reviewKeys, failedKeys, false), net, old(applied), have, reply);
        match reply
        case Accepted => syncedKeys := syncedKeys + [key];
        case Duplicate => syncedKeys := syncedKeys + [key];
        case NeedsReview => reviewKeys := reviewKeys + [key];
        case Unprocessable => reviewKeys := reviewKeys + [key];
        case OtherStatus => failedKeys := failedKeys + [key];
      }
      AllSorted(rounds[i], net, old(applied));
      thrown := false;
    }

    /** The answered events are in the round's lists; on a clean network none is refused, and none in review is held. */
    static ghost predicate Sorted(r: Round, net: seq<Net>, held: seq<Key>) {
      && r.next <= |r.todo|
      && (forall m :: 0 <= m < r.next ==> r.todo[m] in r.synced || r.todo[m] in r.review || r.todo[m] in r.failed)
      && (Clean(net) ==> r.failed == [] && forall k :: k in r.review ==> k !in held)
    }

    static lemma {:induction false} NothingSorted(r: Round, net: seq<Net>, held: seq<Key>)
      requires r.next == 0 && r.review == [] && r.failed == []
      ensures Sorted(r, net, held)
    {
    }

    static lemma {:induction false} OneMoreSorted(r: Round, net: seq<Net>, held: seq<Key>, have: seq<Key>, reply: Reply)
      requires Sorted(r, net, held) && r.next < |r.todo| && r.next < |net| && net[r.next].Answered? && held <= have
      requires reply == HeardAs(ReplyTo(have, r.todo[r.next], net[r.next].verdict), net[r.next].whole)
      ensures Sorted(Hear(r, r.todo[r.next], reply), net, held)
    {
      var h := Hear(r, r.todo[r.next], reply);
      forall m | 0 <= m < h.next ensures h.todo[m] in h.synced || h.todo[m] in h.review || h.todo[m] in h.failed {
        assert m < r.next || m == r.next;
      }
    }

    static lemma {:induction false} AllSorted(r: Round, net: seq<Net>, held: seq<Key>)
      requires Sorted(r, net, held) && r.next == |r.todo|
      ensures forall k :: k in r.todo ==> k in r.synced || k in r.review || k in r.failed
      ensures Clean(net) ==> r.failed == [] && forall k :: k in r.review ==> k !in held
    {
    }

    /** Every open tab handles the completion message. */
    method Announce(syncedKeys: seq<Key>, reviewKeys: seq<Key>, clients: nat, ghost i: nat) returns (ghost events: seq<Event>)
      requires i < |rounds| && Finished(rounds[i])
      requires rounds[i].synced == syncedKeys && rounds[i].review == reviewKeys
      modifies `status
      ensures Value() == Run(old(Value()), events)
      ensures status == if clients > 0 then Marked(old(status), Message(syncedKeys, reviewKeys)) else old(status)
      ensures Backed(old(Value())) ==> Backed(Value())
    {
      ghost var before := Value();
      events := [];
      for c := 0 to clients
        invariant Value() == Run(before, events)
        invariant status == if c > 0 then Marked(old(status), Message(syncedKeys, reviewKeys)) else old(status)
      {
        RunThen(before, events, Deliver(i));
        events := events + [Deliver(i)];
        OnBackgroundSyncComplete(syncedKeys, reviewKeys);
      }
    }

    /**
     * The sync handler: one round over the unsynced events, then a completion message that `clients` open tabs
     * handle. With no tab open it does nothing, and a network error leaves every status as it was.
     */
    method SyncPendingOfflineSales(net: seq<Net>, clients: nat) returns (ghost events: seq<Event>)
      requires Valid() && |net| >= |UnsyncedKeys(journal, status)|
      modifies this
      ensures Valid() && Value() == Run(old(Value()), events)
      ensures journal == old(journal) && old(applied) <= applied
      ensures clients == 0 ==> Value() == old(Value())
      ensures clients > 0 && Clean(net) ==>
                forall k :: k in journal && Waiting(old(status), k) ==>
                  StatusOf(status, k) == Synced || (StatusOf(status, k) == Review && k !in old(applied))
      ensures (exists n :: 0 <= n < |UnsyncedKeys(old(journal), old(status))| && !net[n].Answered?) ==> status == old(status)
      ensures (forall n :: 0 <= n < |net| ==> Stores(net[n])) && Backed(old(Value())) ==> Backed(Value())
    {
      events := [];
      ghost var before := Value();
      assert Run(before, []) == before;
      NothingLost(before, []);
      if clients == 0 { return; }
      var unsyncedEvents := UnsyncedKeys(journal, status);
      UnsyncedKeysExact(journal, status);
      if |unsyncedEvents| == 0 { return; }
      ghost var i := |rounds|;
      rounds := rounds + [Round(unsyncedEvents, 0, [], [], [], false)];
      RunThen(before, [], Begin);
      assert [] + [Begin] == [Begin];
      var syncedKeys, reviewKeys, thrown;
      ghost var failedKeys, posted, told := [], [], [];
      syncedKeys, reviewKeys, failedKeys, thrown, posted := PostAll(unsyncedEvents, net, i);
      RunConcat(before, [Begin], posted);
      events := [Begin] + posted;
      if !thrown {
        told := Announce(syncedKeys, reviewKeys, clients, i);
        RunConcat(before, events, told);
        events := events + told;
      }
      RunKeepsSafe(before, events);
    }
  }
}
