/**
 * Background synchronisation of the offline event journal: an append-only journal with a separate
 * sync state on the client, a network that loses, delays and repeats, and a server that stores events
 * by key. Any number of rounds, foreground actions and deliveries interleave.
 */
module OfflineSync {
  import opened Basics

  type Key = int

  datatype Status = Pending | Failed | Synced | Review | Cancelled

  /**
   * What the server makes of a request for an event it does not hold yet: it stores the event, answers as if it had,
   * parks it for review with or without storing it, refuses it, or breaks.
   */
  datatype Verdict = Accept | Acknowledge | Park(stored: bool) | Reject | Break

  /** 2xx, 2xx with requiresReview, 409, 422, and every other status. */
  datatype Reply = Accepted | NeedsReview | Duplicate | Unprocessable | OtherStatus

  datatype Message = Message(synced: seq<Key>, review: seq<Key>)

  /** One run of the sync handler: the events it started with and what has been answered so far. */
  datatype Round = Round(todo: seq<Key>, next: nat, synced: seq<Key>, review: seq<Key>, failed: seq<Key>, aborted: bool)

  datatype World = World(
    journal: seq<Key>,
    status: map<Key, Status>,
    applied: seq<Key>,              // what took effect at the server, in order
    wire: set<Key>,                 // requests sent; each may reach the server any number of times, or never
    replies: set<(Key, Reply)>,     // replies sent; each may reach any waiting round, or none
    rounds: seq<Round>)

  datatype Event =
    | Append(key: Key)
    | Foreground(key: Key, status: Status)   // the app resets, fails, parks or cancels an event
    | Begin
    | Send(round: nat)
    | Arrive(key: Key, verdict: Verdict)
    | Answer(round: nat, reply: Reply, whole: bool)   // `whole`: the body arrives along with the status
    | NetworkError(round: nat)
    | Deliver(round: nat)                    // one client handles the round's completion message

  // ---------------------------------------------------------------- the parts

  function StatusOf(status: map<Key, Status>, k: Key): Status { if k in status then status[k] else Pending }

  predicate Unsynced(status: map<Key, Status>, k: Key) { StatusOf(status, k) in {Pending, Failed} }

  function UnsyncedKeys(journal: seq<Key>, status: map<Key, Status>): seq<Key> {
    if journal == [] then []
    else (if Unsynced(status, journal[0]) then [journal[0]] else []) + UnsyncedKeys(journal[1..], status)
  }

  /** The server answers 409 for a key it holds, and stores what it accepts. */
  function ReplyTo(applied: seq<Key>, k: Key, verdict: Verdict): Reply {
    if verdict.Break? then OtherStatus
    else if k in applied then Duplicate
    else if verdict.Accept? || verdict.Acknowledge? then Accepted
    else if verdict.Park? then NeedsReview
    else Unprocessable
  }

  function AppliedAfter(applied: seq<Key>, k: Key, verdict: Verdict): seq<Key> {
    if k !in applied && (verdict == Accept || verdict == Park(true)) then applied + [k] else applied
  }

  /** A 2xx reply whose body is cut off says nothing about review, and counts as plain acceptance. */
  function HeardAs(reply: Reply, whole: bool): Reply { if reply == NeedsReview && !whole then Accepted else reply }

  function Hear(r: Round, k: Key, reply: Reply): Round {
    match reply
    case Accepted => r.(next := r.next + 1, synced := r.synced + [k])
    case Duplicate => r.(next := r.next + 1, synced := r.synced + [k])
    case NeedsReview => r.(next := r.next + 1, review := r.review + [k])
    case Unprocessable => r.(next := r.next + 1, review := r.review + [k])
    case OtherStatus => r.(next := r.next + 1, failed := r.failed + [k])
  }

  /** The completion handler marks the synced keys, then the review keys. */
  function Marked(status: map<Key, Status>, m: Message): map<Key, Status> {
    map k | k in status.Keys + (set x | x in m.synced) + (set x | x in m.review) ::
      if k in m.review then Review else if k in m.synced then Synced else status[k]
  }

  predicate Finished(r: Round) { !r.aborted && r.next >= |r.todo| }

  function Appended(w: World, k: Key): World {
    if k in w.journal then w
    else w.(journal := w.journal + [k], status := if k in w.status then w.status else w.status[k := Pending])
  }

  /** One event of the world; an event that is not enabled changes nothing. */
  function Next(w: World, e: Event): World {
    match e
    case Append(k) => Appended(w, k)
    case Foreground(k, s) => if s == Synced then w else w.(status := w.status[k := s])
    case Begin => w.(rounds := w.rounds + [Round(UnsyncedKeys(w.journal, w.status), 0, [], [], [], false)])
    case Send(i) =>
      if i < |w.rounds| && !w.rounds[i].aborted && w.rounds[i].next < |w.rounds[i].todo|
      then w.(wire := w.wire + {w.rounds[i].todo[w.rounds[i].next]}) else w
    case Arrive(k, v) =>
      if k in w.wire
      then w.(applied := AppliedAfter(w.applied, k, v), replies := w.replies + {(k, ReplyTo(w.applied, k, v))}) else w
    case Answer(i, reply, whole) =>
      if i < |w.rounds| && !w.rounds[i].aborted && w.rounds[i].next < |w.rounds[i].todo|
         && (w.rounds[i].todo[w.rounds[i].next], reply) in w.replies
      then w.(rounds := w.rounds[i := Hear(w.rounds[i], w.rounds[i].todo[w.rounds[i].next], HeardAs(reply, whole))])
      else w
    case NetworkError(i) =>
      if i < |w.rounds| && w.rounds[i].next < |w.rounds[i].todo|
      then w.(rounds := w.rounds[i := w.rounds[i].(aborted := true)]) else w
    case Deliver(i) =>
      if i < |w.rounds| && Finished(w.rounds[i])
      then w.(status := Marked(w.status, Message(w.rounds[i].synced, w.rounds[i].review))) else w
  }

  function Run(w: World, events: seq<Event>): World
    decreases events
  {
    if events == [] then w else Run(Next(w, events[0]), events[1..])
  }

  const NOTHING := World([], map[], [], {}, {}, [])

  // ---------------------------------------------------------------- safety

  predicate Within(s: seq<Key>, whole: seq<Key>) { forall k :: k in s ==> k in whole }

  /** The server has answered a request for the event with 409 or a status of 2xx. */
  predicate Welcomed(w: World, k: Key) {
    (k, Accepted) in w.replies || (k, NeedsReview) in w.replies || (k, Duplicate) in w.replies
  }

  /** Every event a round has had an answer for is in exactly the list its answer calls for. */
  ghost predicate RoundSound(r: Round, w: World) {
    && r.next <= |r.todo|
    && Within(r.todo, w.journal) && Distinct(r.todo)
    && (forall k :: k in r.synced ==> Welcomed(w, k))
    && (forall k :: k in r.todo[..r.next] <==> k in r.synced || k in r.review || k in r.failed)
    && (forall k :: !(k in r.synced && k in r.review) && !(k in r.synced && k in r.failed) && !(k in r.review && k in r.failed))
  }

  ghost predicate Safe(w: World) {
    && Distinct(w.journal)
    && Distinct(w.applied)
    && Within(w.applied, w.journal)
    && (forall k :: k in w.wire ==> k in w.journal)
    && (forall k :: (k, Duplicate) in w.replies ==> k in w.applied)
    && (forall k :: k in w.status && w.status[k] == Synced ==> Welcomed(w, k))
    && (forall i :: 0 <= i < |w.rounds| ==> RoundSound(w.rounds[i], w))
  }

  /** Nothing is noted about the event, or that it is pending or has failed. */
  predicate Waiting(status: map<Key, Status>, k: Key) {
    k !in status || status[k] == Pending || status[k] == Failed
  }

  lemma {:induction false} UnsyncedKeysExact(journal: seq<Key>, status: map<Key, Status>)
    ensures forall k :: k in UnsyncedKeys(journal, status) <==> k in journal && Waiting(status, k)
    ensures Distinct(journal) ==> Distinct(UnsyncedKeys(journal, status))
  {
    if journal != [] {
      UnsyncedKeysExact(journal[1..], status);
      var rest := UnsyncedKeys(journal[1..], status);
      forall k ensures k in UnsyncedKeys(journal, status) <==> k in journal && Waiting(status, k) {
        assert k in journal <==> k == journal[0] || k in journal[1..];
      }
      if Distinct(journal) {
        assert journal[0] !in journal[1..];
        assert journal[0] !in rest;
      }
    }
  }

  /** The filter keeps the journal's order. */
  lemma {:induction false} UnsyncedKeysConcat(a: seq<Key>, b: seq<Key>, status: map<Key, Status>)
    ensures UnsyncedKeys(a + b, status) == UnsyncedKeys(a, status) + UnsyncedKeys(b, status)
  {
    if a == [] {
      assert a + b == b;
    } else {
      assert (a + b)[1..] == a[1..] + b;
      UnsyncedKeysConcat(a[1..], b, status);
    }
  }

  lemma {:induction false} HearKeepsSound(w: World, r: Round, reply: Reply, whole: bool)
    requires RoundSound(r, w) && r.next < |r.todo| && (r.todo[r.next], reply) in w.replies
    ensures RoundSound(Hear(r, r.todo[r.next], HeardAs(reply, whole)), w)
  {
    var k := r.todo[r.next];
    var h := Hear(r, k, HeardAs(reply, whole));
    assert r.todo[..h.next] == r.todo[..r.next] + [k];
    assert k !in r.todo[..r.next];
    assert forall x :: x in h.todo[..h.next] <==> x == k || x in r.todo[..r.next];
    assert forall x :: x in h.synced + h.review + h.failed <==> x == k || x in r.synced + r.review + r.failed;
  }

  lemma {:induction false} RoundsStaySound(w: World, w': World)
    requires Safe(w) && w'.rounds == w.rounds
    requires Within(w.journal, w'.journal) && w.replies <= w'.replies
    ensures forall i :: 0 <= i < |w'.rounds| ==> RoundSound(w'.rounds[i], w')
  {
    forall i | 0 <= i < |w'.rounds| ensures RoundSound(w'.rounds[i], w') { assert RoundSound(w.rounds[i], w); }
  }

  lemma {:induction false} BeginKeepsSafe(w: World)
    requires Safe(w)
    ensures Safe(Next(w, Begin))
  {
    var w' := Next(w, Begin);
    UnsyncedKeysExact(w.journal, w.status);
    forall i | 0 <= i < |w'.rounds| ensures RoundSound(w'.rounds[i], w') {
      if i < |w.rounds| { assert RoundSound(w.rounds[i], w); }
    }
  }

  lemma {:induction false} AnswerKeepsSafe(w: World, j: nat, reply: Reply, whole: bool)
    requires Safe(w)
    ensures Safe(Next(w, Answer(j, reply, whole)))
  {
    var w' := Next(w, Answer(j, reply, whole));
    if w' != w {
      HearKeepsSound(w, w.rounds[j], reply, whole);
      forall i | 0 <= i < |w'.rounds| ensures RoundSound(w'.rounds[i], w') { assert RoundSound(w.rounds[i], w); }
    }
  }

  lemma {:induction false} NetworkErrorKeepsSafe(w: World, j: nat)
    requires Safe(w)
    ensures Safe(Next(w, NetworkError(j)))
  {
    var w' := Next(w, NetworkError(j));
    forall i | 0 <= i < |w'.rounds| ensures RoundSound(w'.rounds[i], w') { assert RoundSound(w.rounds[i], w); }
  }

  lemma {:induction false} NextKeepsSafe(w: World, e: Event)
    requires Safe(w)
    ensures Safe(Next(w, e))
  {
    var w' := Next(w, e);
    match e
    case Begin => BeginKeepsSafe(w);
    case Answer(j, reply, whole) => AnswerKeepsSafe(w, j, reply, whole);
    case NetworkError(j) => NetworkErrorKeepsSafe(w, j);
    case Append(_) => RoundsStaySound(w, w');
    case Foreground(_, _) => RoundsStaySound(w, w');
    case Arrive(_, _) => RoundsStaySound(w, w');
    case Send(j) =>
      RoundsStaySound(w, w');
      if w' != w { assert w.rounds[j].todo[w.rounds[j].next] in w.rounds[j].todo; }
    case Deliver(j) =>
      RoundsStaySound(w, w');
      if w' != w { assert RoundSound(w.rounds[j], w); }
  }

  /** In every interleaving each event takes effect at most once, and only events the server welcomed are marked synced. */
  lemma {:induction false} RunKeepsSafe(w: World, events: seq<Event>)
    requires Safe(w)
    ensures Safe(Run(w, events))
    decreases events
  {
    if events != [] {
      NextKeepsSafe(w, events[0]);
      RunKeepsSafe(Next(w, events[0]), events[1..]);
    }
  }

  lemma {:induction false} ReachableSafe(events: seq<Event>)
    ensures Safe(Run(NOTHING, events))
  {
    RunKeepsSafe(NOTHING, events);
  }

  /** Nothing is ever lost from the journal, and what took effect stays in effect, whatever is aborted. */
  lemma {:induction false} NothingLost(w: World, events: seq<Event>)
    ensures var w' := Run(w, events);
      w.journal <= w'.journal && w.applied <= w'.applied && |w.rounds| <= |w'.rounds|
    ensures forall i :: 0 <= i < |w.rounds| ==> Run(w, events).rounds[i].todo == w.rounds[i].todo
    decreases events
  {
    if events != [] {
      var one := Next(w, events[0]);
      assert w.journal <= one.journal && w.applied <= one.applied && |w.rounds| <= |one.rounds|;
      NothingLost(one, events[1..]);
    }
  }

  // ---------------------------------------------------------------- what a finished round achieves

  /**
   * A round is begun, anything at all happens, and then its completion message is handled. If no reply of the round
   * was outside 2xx, 409 and 422, every event that was unsynced when the round began is now synced or in review;
   * and in any case exactly the answered ones are.
   */
  lemma {:induction false} FinishedRound(w: World, between: seq<Event>)
    requires Safe(w)
    ensures var i := |w.rounds|;
      var w' := Run(Next(w, Begin), between);
      && i < |w'.rounds| && w'.rounds[i].todo == UnsyncedKeys(w.journal, w.status)
      && (Finished(w'.rounds[i]) ==>
            var after := Next(w', Deliver(i));
            && (forall k :: k in w.journal && Waiting(w.status, k) && k !in w'.rounds[i].failed ==>
                  StatusOf(after.status, k) in {Synced, Review})
            && (forall k :: k in w'.rounds[i].failed ==> StatusOf(after.status, k) == StatusOf(w'.status, k)))
  {
    var i := |w.rounds|;
    var begun := Next(w, Begin);
    var w' := Run(begun, between);
    NextKeepsSafe(w, Begin);
    RunKeepsSafe(begun, between);
    NothingLost(begun, between);
    UnsyncedKeysExact(w.journal, w.status);
    assert begun.rounds[i].todo == UnsyncedKeys(w.journal, w.status);
    if Finished(w'.rounds[i]) { DeliveredRound(w', i); }
  }

  lemma {:induction false} DeliveredRound(w: World, i: nat)
    requires i < |w.rounds| && RoundSound(w.rounds[i], w) && Finished(w.rounds[i])
    ensures var r := w.rounds[i];
      var after := Next(w, Deliver(i));
      && (forall k :: k in r.todo && k !in r.failed ==> StatusOf(after.status, k) in {Synced, Review})
      && (forall k :: k in r.failed ==> StatusOf(after.status, k) == StatusOf(w.status, k))
  {
    var r := w.rounds[i];
    assert r.todo[..r.next] == r.todo;
  }

  // ---------------------------------------------------------------- what each reply comes to

  lemma {:induction false} ListsGrow(w: World, events: seq<Event>, i: nat)
    requires i < |w.rounds|
    ensures var w' := Run(w, events);
      && i < |w'.rounds|
      && w.rounds[i].synced <= w'.rounds[i].synced && w.rounds[i].review <= w'.rounds[i].review
      && w.rounds[i].failed <= w'.rounds[i].failed
    decreases events
  {
    if events != [] {
      var one := Next(w, events[0]);
      assert i < |one.rounds|;
      assert w.rounds[i].synced <= one.rounds[i].synced && w.rounds[i].review <= one.rounds[i].review;
      assert w.rounds[i].failed <= one.rounds[i].failed;
      ListsGrow(one, events[1..], i);
    }
  }

  predicate SameStatus(before: map<Key, Status>, after: map<Key, Status>, k: Key) {
    (k in before <==> k in after) && (k in before ==> before[k] == after[k])
  }

  /**
   * What a reply comes to in the end, whatever happens between the reply and the delivery of its round: 2xx and 409 make
   * the event synced, 422 and a 2xx that asks for review put it in review, and any other status leaves it as it is.
   */
  lemma {:induction false} AnsweredStatus(w: World, i: nat, reply: Reply, whole: bool, between: seq<Event>)
    requires Safe(w) && i < |w.rounds| && !w.rounds[i].aborted && w.rounds[i].next < |w.rounds[i].todo|
    requires (w.rounds[i].todo[w.rounds[i].next], reply) in w.replies
    ensures var k := w.rounds[i].todo[w.rounds[i].next];
      var w' := Run(Next(w, Answer(i, reply, whole)), between);
      && i < |w'.rounds|
      && (Finished(w'.rounds[i]) ==>
            var after := Next(w', Deliver(i)).status;
            && (reply == Accepted || reply == Duplicate || (reply == NeedsReview && !whole) ==>
                  k in after && after[k] == Synced)
            && (reply == Unprocessable || (reply == NeedsReview && whole) ==> k in after && after[k] == Review)
            && (reply == OtherStatus ==> SameStatus(w'.status, after, k)))
  {
    var k := w.rounds[i].todo[w.rounds[i].next];
    var heard := Next(w, Answer(i, reply, whole));
    var r := heard.rounds[i];
    assert k in r.synced + r.review + r.failed;
    AnswerKeepsSafe(w, i, reply, whole);
    ListsGrow(heard, between, i);
    RunKeepsSafe(heard, between);
    var w' := Run(heard, between);
    assert RoundSound(w'.rounds[i], w');
    hide Run, Safe;
    if reply == OtherStatus { assert k in r.failed; }
    if reply == Unprocessable || (reply == NeedsReview && whole) { assert k in r.review; }
    if reply == Accepted || reply == Duplicate || (reply == NeedsReview && !whole) { assert k in r.synced; }
  }

  /** Delivery of a round concerns the events the round was about, and no other. */
  lemma {:induction false} OthersKeepStatus(w: World, i: nat, k: Key)
    requires Safe(w) && i < |w.rounds| && k !in w.rounds[i].todo
    ensures SameStatus(w.status, Next(w, Deliver(i)).status, k)
  {
    var r := w.rounds[i];
    assert RoundSound(r, w);
    assert k !in r.todo[..r.next];
  }

  /** Appending records the event once, as pending unless something is noted about it already, and changes no status. */
  lemma {:induction false} AppendKeeps(w: World, k: Key, other: Key)
    requires Safe(w)
    ensures var w' := Next(w, Append(k));
      && (other in w'.journal <==> other == k || other in w.journal)
      && w.journal <= w'.journal && Distinct(w'.journal)
      && (other in w.status ==> SameStatus(w.status, w'.status, other))
      && (other !in w.status && other != k ==> other !in w'.status)
      && (k !in w.journal && k !in w.status ==> k in w'.status && w'.status[k] == Pending)
      && w' == w.(journal := w'.journal, status := w'.status)
  {
    NextKeepsSafe(w, Append(k));
  }

  /** A request that reaches the server: 409 if the event is held, and otherwise what the server makes of it. */
  lemma {:induction false} ArriveExactly(w: World, k: Key, v: Verdict)
    requires k in w.wire
    ensures var w' := Next(w, Arrive(k, v));
      && w' == w.(applied := w'.applied, replies := w'.replies)
      && w'.applied == (if k !in w.applied && (v == Accept || v == Park(true)) then w.applied + [k] else w.applied)
      && w'.replies == w.replies + {(k,
           if v == Break then OtherStatus else if k in w.applied then Duplicate
           else if v == Reject then Unprocessable else if v.Park? then NeedsReview else Accepted)}
  {
  }

  /** In the course of the run a request for the event reached the server and was one to be stored. */
  predicate StoredIn(w: World, events: seq<Event>, k: Key)
    decreases events
  {
    events != [] &&
    ((events[0] in {Arrive(k, Accept), Arrive(k, Park(true))} && k in w.wire) || StoredIn(Next(w, events[0]), events[1..], k))
  }

  /** An event has taken effect exactly if it had before or a request for it was stored in the course of the run. */
  lemma {:induction false} AppliedExactly(w: World, events: seq<Event>, k: Key)
    ensures k in Run(w, events).applied <==> k in w.applied || StoredIn(w, events, k)
    decreases events
  {
    if events != [] {
      var one := Next(w, events[0]);
      AppliedExactly(one, events[1..], k);
      NothingLost(one, events[1..]);
      if events[0].Arrive? && events[0].key in w.wire { ArriveExactly(w, events[0].key, events[0].verdict); }
    }
  }

  // ---------------------------------------------------------------- when synced means held

  /** Every event marked synced is held by the server. */
  ghost predicate Held(w: World) { forall k :: k in w.status && w.status[k] == Synced ==> k in w.applied }

  /** So is every event that a round still under way is going to have marked. */
  ghost predicate Backed(w: World) {
    && Held(w)
    && (forall i :: 0 <= i < |w.rounds| && !w.rounds[i].aborted ==> Within(w.rounds[i].synced, w.applied))
  }

  /** A round takes an event for synced that the server does not hold. */
  predicate Misheard(w: World, e: Event) {
    && e.Answer? && e.round < |w.rounds|
    && var r := w.rounds[e.round];
       !r.aborted && r.next < |r.todo| && (r.todo[r.next], e.reply) in w.replies
       && HeardAs(e.reply, e.whole) in {Accepted, Duplicate} && r.todo[r.next] !in w.applied
  }

  lemma {:induction false} NextBacked(w: World, e: Event)
    requires Safe(w) && Backed(w)
    ensures Backed(Next(w, e)) <==> !Misheard(w, e)
  {
    var w' := Next(w, e);
    if Misheard(w, e) {
      var k := w.rounds[e.round].todo[w.rounds[e.round].next];
      assert k in w'.rounds[e.round].synced && k !in w'.applied;
    }
  }

  ghost predicate BackedThroughout(w: World, events: seq<Event>)
    decreases events
  {
    Backed(w) && (events != [] ==> BackedThroughout(Next(w, events[0]), events[1..]))
  }

  predicate NothingMisheard(w: World, events: seq<Event>)
    decreases events
  {
    events == [] || (!Misheard(w, events[0]) && NothingMisheard(Next(w, events[0]), events[1..]))
  }

  /** In every run: what is synced, or about to be, is held at every moment exactly if no reply is misheard. */
  lemma {:induction false} BackedExactly(w: World, events: seq<Event>)
    requires Safe(w) && Backed(w)
    ensures BackedThroughout(w, events) <==> NothingMisheard(w, events)
    decreases events
  {
    if events != [] {
      NextBacked(w, events[0]);
      NextKeepsSafe(w, events[0]);
      if !Misheard(w, events[0]) { BackedExactly(Next(w, events[0]), events[1..]); }
    }
  }

  /** What the server may do, and whether a reply may lose its body. */
  datatype Conditions = Conditions(verdicts: set<Verdict>, bodiesLost: bool)

  predicate Permits(c: Conditions, e: Event) {
    match e
    case Arrive(_, v) => v in c.verdicts
    case Answer(_, _, whole) => whole || c.bodiesLost
    case _ => true
  }

  predicate PermitsAll(c: Conditions, events: seq<Event>) { forall i :: 0 <= i < |events| ==> Permits(c, events[i]) }

  /** The server stores whatever it answers in a way that can be taken for acceptance. */
  predicate StoresAll(c: Conditions) {
    Acknowledge !in c.verdicts && (c.bodiesLost ==> Park(false) !in c.verdicts)
  }

  ghost predicate RepliesBacked(w: World, bodiesLost: bool) {
    forall k :: (k, Accepted) in w.replies || (bodiesLost && (k, NeedsReview) in w.replies) ==> k in w.applied
  }

  lemma {:induction false} StoringKeepsBacked(c: Conditions, w: World, events: seq<Event>)
    requires StoresAll(c) && PermitsAll(c, events)
    requires Safe(w) && Backed(w) && RepliesBacked(w, c.bodiesLost)
    ensures Backed(Run(w, events))
    decreases events
  {
    if events != [] {
      var e, rest := events[0], events[1..];
      assert Permits(c, e) && forall i :: 0 <= i < |rest| ==> rest[i] == events[i + 1];
      NextBacked(w, e);
      NextKeepsSafe(w, e);
      StoringKeepsBacked(c, Next(w, e), rest);
    }
  }

  /** One event is appended, sent, answered with `verdict`, heard and marked. */
  function OneRound(verdict: Verdict, reply: Reply, whole: bool): seq<Event> {
    [Append(1), Begin, Send(0), Arrive(1, verdict), Answer(0, reply, whole), Deliver(0)]
  }

  /** An event that is parked without being stored, and whose reply loses its body, is marked synced and held by nobody. */
  lemma {:induction false} ParkedAndLost()
    ensures !Held(Run(NOTHING, OneRound(Park(false), NeedsReview, false)))
  {
    hide Run;
    OneRoundEnds(Park(false), NeedsReview, false);
  }

  lemma {:induction false} OnlyAcknowledged()
    ensures !Held(Run(NOTHING, OneRound(Acknowledge, Accepted, true)))
  {
    hide Run;
    OneRoundEnds(Acknowledge, Accepted, true);
  }

  lemma {:induction false} RunSix(w: World, a: Event, b: Event, c: Event, d: Event, e: Event, f: Event)
    ensures Run(w, [a, b, c, d, e, f]) == Next(Next(Next(Next(Next(Next(w, a), b), c), d), e), f)
  {
    hide Next;
    var events := [a, b, c, d, e, f];
    var w1 := Next(w, a);
    var w2 := Next(w1, b);
    var w3 := Next(w2, c);
    var w4 := Next(w3, d);
    var w5 := Next(w4, e);
    assert events[1..] == [b, c, d, e, f] && [b, c, d, e, f][1..] == [c, d, e, f];
    assert [c, d, e, f][1..] == [d, e, f] && [d, e, f][1..] == [e, f] && [e, f][1..] == [f] && [f][1..] == [];
    assert Run(w5, [f]) == Next(w5, f);
    assert Run(w4, [e, f]) == Next(w5, f);
    assert Run(w3, [d, e, f]) == Next(w5, f);
    assert Run(w2, [c, d, e, f]) == Next(w5, f);
    assert Run(w1, [b, c, d, e, f]) == Next(w5, f);
  }

  lemma {:induction false} OneRoundEnds(verdict: Verdict, reply: Reply, whole: bool)
    requires verdict in {Acknowledge, Park(false)} && reply == ReplyTo([], 1, verdict) && HeardAs(reply, whole) == Accepted
    ensures var w := Run(NOTHING, OneRound(verdict, reply, whole));
      w.applied == [] && w.status == map[1 := Synced]
  {
    hide Run, Next;
    RunSix(NOTHING, Append(1), Begin, Send(0), Arrive(1, verdict), Answer(0, reply, whole), Deliver(0));
    OneBegun();
    OneAnswered(verdict, reply, whole);
  }

  const ONE_BEGUN := World([1], map[1 := Pending], [], {}, {}, [Round([1], 0, [], [], [], false)])

  lemma {:induction false} OneBegun()
    ensures Next(Next(NOTHING, Append(1)), Begin) == ONE_BEGUN
  {
    var w := World([1], map[1 := Pending], [], {}, {}, []);
    assert Next(NOTHING, Append(1)) == w;
    assert UnsyncedKeys([1], w.status) == [1] by { assert [1][1..] == []; }
  }

  lemma {:induction false} OneAnswered(verdict: Verdict, reply: Reply, whole: bool)
    requires verdict in {Acknowledge, Park(false)} && reply == ReplyTo([], 1, verdict) && HeardAs(reply, whole) == Accepted
    ensures var w := Next(Next(Next(Next(ONE_BEGUN, Send(0)), Arrive(1, verdict)), Answer(0, reply, whole)), Deliver(0));
      w.applied == [] && w.status == map[1 := Synced]
  {
    var w := ONE_BEGUN.(wire := {1}, replies := {(1, reply)});
    var sent := ONE_BEGUN.(wire := {1});
    assert Next(ONE_BEGUN, Send(0)) == sent;
    assert Next(sent, Arrive(1, verdict)) == w;
    OneHeard(w, reply, whole);
  }

  lemma {:induction false} OneHeard(w: World, reply: Reply, whole: bool)
    requires w == ONE_BEGUN.(wire := {1}, replies := {(1, reply)}) && HeardAs(reply, whole) == Accepted
    ensures var after := Next(Next(w, Answer(0, reply, whole)), Deliver(0));
      after.applied == [] && after.status == map[1 := Synced]
  {
    var r := w.rounds[0];
    var r' := Hear(r, 1, Accepted);
    assert r' == Round([1], 1, [1], [], [], false) by { assert [] + [1] == [1]; }
    var heard := w.(rounds := [r']);
    assert Next(w, Answer(0, reply, whole)) == heard by { assert w.rounds[0 := r'] == [r']; }
    assert Marked(heard.status, Message([1], [])) == map[1 := Synced];
  }

  /**
   * Synced means held in every run exactly if the server stores all it acknowledges, and also all it parks unless no
   * reply ever loses its body.
   */
  lemma {:induction false} HeldExactly(c: Conditions)
    ensures (forall events :: PermitsAll(c, events) ==> Held(Run(NOTHING, events))) <==> StoresAll(c)
  {
    hide Run, Held;
    ParkedAndLost();
    OnlyAcknowledged();
    if StoresAll(c) {
      forall events | PermitsAll(c, events) ensures Held(Run(NOTHING, events)) {
        StoringKeepsBacked(c, NOTHING, events);
      }
    } else if Acknowledge in c.verdicts {
      assert PermitsAll(c, OneRound(Acknowledge, Accepted, true));
    } else {
      assert PermitsAll(c, OneRound(Park(false), NeedsReview, false));
    }
  }

  // ---------------------------------------------------------------- aborted rounds

  function WithoutDelivery(events: seq<Event>, i: nat): seq<Event>
    decreases events
  {
    if events == [] then []
    else (if events[0] == Deliver(i) then [] else [events[0]]) + WithoutDelivery(events[1..], i)
  }

  /** Once a round is aborted it stays so, and its completion message would change nothing at any later time. */
  lemma {:induction false} AbortedRoundMarksNothing(w: World, i: nat, events: seq<Event>)
    requires i < |w.rounds| && w.rounds[i].aborted
    ensures var w' := Run(w, events);
      && i < |w'.rounds| && w'.rounds[i] == w.rounds[i]
      && w' == Run(w, WithoutDelivery(events, i))
    decreases events
  {
    if events != [] {
      var one, rest := Next(w, events[0]), WithoutDelivery(events[1..], i);
      assert i < |one.rounds| && one.rounds[i] == w.rounds[i];
      AbortedRoundMarksNothing(one, i, events[1..]);
      if events[0] == Deliver(i) {
        assert one == w && [] + rest == rest;
      } else {
        assert ([events[0]] + rest)[1..] == rest;
      }
    }
  }

  /**
   * An event whose answer an aborted round threw away is settled by any later round that gets it answered with 2xx,
   * 409 or 422 and whose message arrives, whatever happens in between.
   */
  lemma {:induction false} AbortedRoundMadeGood(w: World, j: nat, k: Key, between: seq<Event>)
    requires Safe(w) && j < |w.rounds| && w.rounds[j].aborted && Waiting(w.status, k)
    requires k in w.rounds[j].synced || k in w.rounds[j].review
    ensures var i := |w.rounds|;
      var w' := Run(Next(w, Begin), between);
      && i < |w'.rounds| && k in w'.rounds[i].todo
      && (Finished(w'.rounds[i]) && k !in w'.rounds[i].failed ==>
            StatusOf(Next(w', Deliver(i)).status, k) in {Synced, Review})
  {
    var r := w.rounds[j];
    assert RoundSound(r, w);
    assert k in r.todo[..r.next];
    assert k in w.journal;
    FinishedRound(w, between);
    UnsyncedKeysExact(w.journal, w.status);
  }
}
