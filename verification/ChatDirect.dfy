/** Direct conversations: many callers may get or create the conversation of the same two users
    at the same time, with only a unique key in the database between them. */
module ChatDirect {
  import opened Wrappers

  // ---- the key of a pair of users ----

  /** Default string order: by code unit, a prefix first. */
  predicate Below(a: string, b: string) {
    if a == [] then true
    else if b == [] then false
    else a[0] < b[0] || (a[0] == b[0] && Below(a[1..], b[1..]))
  }

  lemma {:induction false} BelowTotal(a: string, b: string)
    ensures Below(a, b) || Below(b, a)
    ensures Below(a, b) && Below(b, a) ==> a == b
  {
    if a == [] || b == [] {
    } else {
      BelowTotal(a[1..], b[1..]);
      if a[0] == b[0] {
        assert a == [a[0]] + a[1..] && b == [b[0]] + b[1..];
      }
    }
  }

  function DirectKey(a: string, b: string): string {
    if Below(a, b) then a + ":" + b else b + ":" + a
  }

  lemma DirectKeySymmetric(a: string, b: string)
    ensures DirectKey(a, b) == DirectKey(b, a)
  {
    BelowTotal(a, b);
  }

  predicate NoColon(s: string) {
    ':' !in s
  }

  function Ordered(a: string, b: string): (string, string) {
    if Below(a, b) then (a, b) else (b, a)
  }

  /** The second pair is the first with its colon moved to an earlier one inside the second id, or
      the other way round. */
  predicate ColonMoved(p: (string, string), q: (string, string)) {
    exists i :: 0 <= i < |p.1| && p.1[i] == ':' && q == (p.0 + ":" + p.1[..i], p.1[i + 1..])
  }

  lemma {:induction false} JoinsCollide(p: (string, string), q: (string, string))
    requires p.0 + ":" + p.1 == q.0 + ":" + q.1 && |p.0| < |q.0|
    ensures ColonMoved(p, q)
  {
    var x, y := p.0 + ":" + p.1, q.0 + ":" + q.1;
    var i := |q.0| - |p.0| - 1;
    assert q.0 == x[..|q.0|] && q.1 == x[|q.0| + 1..];
    assert x[|q.0|] == ':' && p.1 == x[|p.0| + 1..] && p.0 == x[..|p.0|] && x[|p.0|] == ':';
    assert p.1[i] == x[|q.0|];
    assert q.0 == p.0 + ":" + p.1[..i];
    assert q.1 == p.1[i + 1..];
  }

  lemma SameLengthJoins(p: (string, string), q: (string, string))
    requires p.0 + ":" + p.1 == q.0 + ":" + q.1 && |p.0| == |q.0|
    ensures p == q
  {
    var x, y := p.0 + ":" + p.1, q.0 + ":" + q.1;
    assert p.0 == x[..|p.0|] && q.0 == y[..|p.0|];
    assert p.1 == x[|p.0| + 1..] && q.1 == y[|p.0| + 1..];
  }

  lemma MovedColonJoins(p: (string, string), q: (string, string))
    requires ColonMoved(p, q)
    ensures p.0 + ":" + p.1 == q.0 + ":" + q.1
  {
    var i :| 0 <= i < |p.1| && p.1[i] == ':' && q == (p.0 + ":" + p.1[..i], p.1[i + 1..]);
    assert p.1 == p.1[..i] + ":" + p.1[i + 1..];
    assert p.0 + ":" + p.1 == p.0 + ":" + p.1[..i] + ":" + p.1[i + 1..];
  }

  /** Two pairs share a key if and only if they are the same unordered pair, or one is the other with
      the colon in its key taken to be another one. */
  lemma KeysCollideExactly(a: string, b: string, c: string, d: string)
    ensures DirectKey(a, b) == DirectKey(c, d)
       <==> var p, q := Ordered(a, b), Ordered(c, d);
            p == q || ColonMoved(p, q) || ColonMoved(q, p)
  {
    var p, q := Ordered(a, b), Ordered(c, d);
    if DirectKey(a, b) == DirectKey(c, d) {
      if |p.0| < |q.0| {
        JoinsCollide(p, q);
      } else if |q.0| < |p.0| {
        JoinsCollide(q, p);
      } else {
        SameLengthJoins(p, q);
      }
    } else {
      if ColonMoved(p, q) { MovedColonJoins(p, q); }
      if ColonMoved(q, p) { MovedColonJoins(q, p); }
    }
  }

  /** With colons in the ids two different pairs may share a key. */
  lemma ColonsConfuseKeys()
    ensures DirectKey("a", "b:c") == DirectKey("a:b", "c") && {"a", "b:c"} != {"a:b", "c"}
  {
    assert Ordered("a", "b:c").1[1] == ':';
    KeysCollideExactly("a", "b:c", "a:b", "c");
    assert "a" in {"a", "b:c"};
  }

  /** Two pairs of ids without a colon share a key only if they are the same unordered pair. */
  lemma DirectKeyInjective(a: string, b: string, c: string, d: string)
    requires NoColon(a) && NoColon(b) && NoColon(c) && NoColon(d)
    requires DirectKey(a, b) == DirectKey(c, d)
    ensures (a == c && b == d) || (a == d && b == c)
  {
    KeysCollideExactly(a, b, c, d);
  }

  // ---- callers ----

  /** How far a call has come: not started, waiting to look the key up, looked it up in vain, lost
      the race to create, returned a conversation, or failed. */
  datatype Call =
    | Looking(key: string, me: string, other: string)
    | Missing(key: string, me: string, other: string)
    | Conflicted(key: string, me: string, other: string)
    | Returned(key: string, me: string, other: string, conversation: nat)
    | Failed(error: Error)

  datatype Error = ChatWithYourself | UserNotFound | KeyConflict

  datatype Conversation = Conversation(key: string, participants: set<string>)

  /** The conversation table, whose row numbers are the ids, and the calls in progress. */
  datatype Server = Server(users: set<string>, conversations: seq<Conversation>, calls: seq<Call>)

  predicate Exists(conversations: seq<Conversation>, key: string) {
    exists i :: 0 <= i < |conversations| && conversations[i].key == key
  }

  function Find(conversations: seq<Conversation>, key: string, from: nat): (r: Option<nat>)
    ensures r.Some? ==> from <= r.value < |conversations| && conversations[r.value].key == key
    ensures r.None? ==> forall i :: from <= i < |conversations| ==> conversations[i].key != key
    decreases |conversations| - from
  {
    if from >= |conversations| then None
    else if conversations[from].key == key then Some(from)
    else Find(conversations, key, from + 1)
  }

  /** A request arrives. */
  function Begin(s: Server, me: string, other: string): Server {
    s.(calls := s.calls + [
      if other == me then Failed(ChatWithYourself)
      else if other !in s.users then Failed(UserNotFound)
      else Looking(DirectKey(me, other), me, other)])
  }

  /** One database operation of a call in progress: a lookup, an insert that the unique key may
      refuse, or the second lookup after a refusal. */
  function Advance(s: Server, c: nat): Server
    requires c < |s.calls|
  {
    match s.calls[c]
    case Looking(key, me, other) =>
      (match Find(s.conversations, key, 0)
       case Some(id) => s.(calls := s.calls[c := Returned(key, me, other, id)])
       case None => s.(calls := s.calls[c := Missing(key, me, other)]))
    case Missing(key, me, other) =>
      if Exists(s.conversations, key) then s.(calls := s.calls[c := Conflicted(key, me, other)])
      else s.(conversations := s.conversations + [Conversation(key, {me, other})],
              calls := s.calls[c := Returned(key, me, other, |s.conversations|)])
    case Conflicted(key, me, other) =>
      (match Find(s.conversations, key, 0)
       case Some(id) => s.(calls := s.calls[c := Returned(key, me, other, id)])
       case None => s.(calls := s.calls[c := Failed(KeyConflict)]))
    case Returned(_, _, _, _) => s
    case Failed(_) => s
  }

  datatype Event = Register(user: string) | Request(me: string, other: string) | Progress(call: nat)

  function Next(s: Server, e: Event): Server {
    match e
    case Register(user) => s.(users := s.users + {user})
    case Request(me, other) => Begin(s, me, other)
    case Progress(c) => if c < |s.calls| then Advance(s, c) else s
  }

  function Run(s: Server, events: seq<Event>): Server
    decreases |events|
  {
    if events == [] then s else Run(Next(s, events[0]), events[1..])
  }

  const EMPTY: Server := Server({}, [], [])

  // ---- what every interleaving keeps ----

  predicate CallSound(conversations: seq<Conversation>, c: Call) {
    match c
    case Looking(key, me, other) => key == DirectKey(me, other) && me != other
    case Missing(key, me, other) => key == DirectKey(me, other) && me != other
    case Conflicted(key, me, other) => key == DirectKey(me, other) && me != other && Exists(conversations, key)
    case Returned(key, me, other, id) =>
      key == DirectKey(me, other) && me != other && id < |conversations| && conversations[id].key == key
    case Failed(e) => e != KeyConflict
  }

  predicate Between(c: Conversation, a: string, b: string) {
    c.participants == {a, b} && a != b && c.key == DirectKey(a, b)
  }

  ghost predicate ConversationSound(c: Conversation) {
    exists a, b :: Between(c, a, b)
  }

  ghost predicate Sound(s: Server) {
    && (forall i: nat, j: nat | i < |s.conversations| && j < |s.conversations| ::
          s.conversations[i].key == s.conversations[j].key ==> i == j)
    && (forall i: nat | i < |s.conversations| :: ConversationSound(s.conversations[i]))
    && (forall c: nat | c < |s.calls| :: CallSound(s.conversations, s.calls[c]))
  }

  lemma ConversationsGrow(s: Server, e: Event)
    requires Sound(s)
    ensures s.conversations <= Next(s, e).conversations
    ensures forall i: nat | |s.conversations| <= i < |Next(s, e).conversations| ::
              i == |s.conversations| && !Exists(s.conversations, Next(s, e).conversations[i].key)
              && ConversationSound(Next(s, e).conversations[i])
  {
    var s' := Next(s, e);
    if |s'.conversations| > |s.conversations| {
      var call := s.calls[e.call];
      assert CallSound(s.conversations, call);
      assert Between(s'.conversations[|s.conversations|], call.me, call.other);
    }
  }

  lemma CallKept(before: seq<Conversation>, after: seq<Conversation>, c: Call)
    requires CallSound(before, c) && before <= after
    ensures CallSound(after, c)
  {
    if c.Conflicted? {
      var i :| 0 <= i < |before| && before[i].key == c.key;
      assert after[i].key == c.key;
    }
  }

  lemma AdvancedCallSound(s: Server, c: nat)
    requires c < |s.calls| && CallSound(s.conversations, s.calls[c])
    ensures CallSound(Advance(s, c).conversations, Advance(s, c).calls[c])
  {
  }

  lemma CallsStaySound(s: Server, e: Event)
    requires Sound(s)
    ensures forall c: nat | c < |Next(s, e).calls| :: CallSound(Next(s, e).conversations, Next(s, e).calls[c])
  {
    var s' := Next(s, e);
    ConversationsGrow(s, e);
    forall c: nat | c < |s'.calls| ensures CallSound(s'.conversations, s'.calls[c]) {
      if e == Progress(c) {
        AdvancedCallSound(s, c);
      } else if c < |s.calls| {
        CallKept(s.conversations, s'.conversations, s.calls[c]);
      }
    }
  }

  lemma StepSound(s: Server, e: Event)
    requires Sound(s)
    ensures Sound(Next(s, e))
    ensures s.conversations <= Next(s, e).conversations
  {
    ConversationsGrow(s, e);
    CallsStaySound(s, e);
  }

  lemma {:induction false} RunSound(s: Server, events: seq<Event>)
    requires Sound(s)
    ensures Sound(Run(s, events)) && s.conversations <= Run(s, events).conversations
    decreases |events|
  {
    if events == [] {
    } else {
      StepSound(s, events[0]);
      RunSound(Next(s, events[0]), events[1..]);
    }
  }

  lemma EmptySound()
    ensures Sound(EMPTY)
  {
  }

  /** However the calls of all users interleave, every call that returns for the same two users
      returns the same conversation, whose participants are those two, and none of them fails
      because another was faster. */
  lemma CallersAgree(events: seq<Event>, c: nat, d: nat)
    requires var s := Run(EMPTY, events); c < |s.calls| && d < |s.calls|
    ensures var s := Run(EMPTY, events);
      && (s.calls[c].Returned? && s.calls[d].Returned? && s.calls[c].key == s.calls[d].key ==>
            s.calls[c].conversation == s.calls[d].conversation)
      && (s.calls[c].Returned? ==>
            s.calls[c].conversation < |s.conversations|
            && s.conversations[s.calls[c].conversation].key == s.calls[c].key
            && ConversationSound(s.conversations[s.calls[c].conversation]))
      && (s.calls[c].Failed? ==> s.calls[c].error != KeyConflict)
  {
    EmptySound();
    RunSound(EMPTY, events);
    var s := Run(EMPTY, events);
    assert CallSound(s.conversations, s.calls[c]) && CallSound(s.conversations, s.calls[d]);
  }

  /** The ids in the requests hold no colon. */
  predicate ColonlessRequests(events: seq<Event>) {
    forall e :: e in events && e.Request? ==> NoColon(e.me) && NoColon(e.other)
  }

  predicate ColonlessCall(c: Call) {
    !c.Failed? ==> NoColon(c.me) && NoColon(c.other)
  }

  ghost predicate Colonless(s: Server) {
    && (forall c: nat | c < |s.calls| :: ColonlessCall(s.calls[c]))
    && (forall i: nat, p | i < |s.conversations| && p in s.conversations[i].participants :: NoColon(p))
  }

  lemma StepColonless(s: Server, e: Event)
    requires Colonless(s) && (e.Request? ==> NoColon(e.me) && NoColon(e.other))
    ensures Colonless(Next(s, e))
  {
    if e.Progress? && e.call < |s.calls| {
      assert ColonlessCall(s.calls[e.call]);
    }
    forall c: nat | c < |Next(s, e).calls| ensures ColonlessCall(Next(s, e).calls[c]) {
      assert c < |s.calls| ==> ColonlessCall(s.calls[c]);
    }
  }

  lemma {:induction false} RunColonless(s: Server, events: seq<Event>)
    requires Colonless(s) && ColonlessRequests(events)
    ensures Colonless(Run(s, events))
    decreases |events|
  {
    if events == [] {
    } else {
      assert events[0] in events;
      StepColonless(s, events[0]);
      RunColonless(Next(s, events[0]), events[1..]);
    }
  }

  /** When no id that is asked for holds a colon, a caller gets the conversation of exactly the two
      users it asked for. */
  lemma CallerGetsOwnConversation(events: seq<Event>, c: nat)
    requires ColonlessRequests(events)
    requires var s := Run(EMPTY, events); c < |s.calls| && s.calls[c].Returned?
    ensures var s := Run(EMPTY, events);
      var call := s.calls[c];
      && call.conversation < |s.conversations|
      && s.conversations[call.conversation].participants == {call.me, call.other}
  {
    CallersAgree(events, c, c);
    EmptySound();
    RunSound(EMPTY, events);
    RunColonless(EMPTY, events);
    var s := Run(EMPTY, events);
    var call := s.calls[c];
    assert CallSound(s.conversations, call) && ColonlessCall(call);
    var x := s.conversations[call.conversation];
    var a, b :| Between(x, a, b);
    assert a in x.participants && b in x.participants;
    DirectKeyInjective(a, b, call.me, call.other);
  }

  /** A pair of users never has two conversations. */
  lemma OneConversationPerPair(events: seq<Event>, i: nat, j: nat)
    requires var s := Run(EMPTY, events); i < |s.conversations| && j < |s.conversations|
    ensures var s := Run(EMPTY, events);
      s.conversations[i].participants == s.conversations[j].participants ==> i == j
  {
    EmptySound();
    RunSound(EMPTY, events);
    var s := Run(EMPTY, events);
    var x, y := s.conversations[i], s.conversations[j];
    if x.participants == y.participants {
      var a, b :| Between(x, a, b);
      var c, d :| Between(y, c, d);
      SameUnorderedPair(a, b, c, d);
    }
  }

  lemma SameUnorderedPair(a: string, b: string, c: string, d: string)
    requires {a, b} == {c, d}
    ensures DirectKey(a, b) == DirectKey(c, d)
  {
    assert a in {c, d} && b in {c, d} && c in {a, b} && d in {a, b};
    DirectKeySymmetric(a, b);
  }

  /** How many database operations a call still needs at most. */
  function Remaining(c: Call): nat {
    match c
    case Looking(_, _, _) => 3
    case Missing(_, _, _) => 2
    case Conflicted(_, _, _) => 1
    case Returned(_, _, _, _) => 0
    case Failed(_) => 0
  }

  /** Whatever other calls do in between, each operation of a call brings it closer to an answer,
      and no other event sets it back. */
  lemma CallsProgress(s: Server, e: Event, c: nat)
    requires c < |s.calls|
    ensures c < |Next(s, e).calls|
    ensures Remaining(Next(s, e).calls[c]) <= Remaining(s.calls[c])
    ensures e == Progress(c) && Remaining(s.calls[c]) > 0 ==>
              Remaining(Next(s, e).calls[c]) < Remaining(s.calls[c])
  {
  }

  /** Number of operations a call was given in a run. */
  function Turns(events: seq<Event>, c: nat): nat {
    if events == [] then 0
    else (if events[0] == Progress(c) then 1 else 0) + Turns(events[1..], c)
  }

  /** After three operations of its own every call has an answer. */
  lemma {:induction false} ThreeTurnsSuffice(s: Server, events: seq<Event>, c: nat)
    requires c < |s.calls| && Remaining(s.calls[c]) <= Turns(events, c)
    ensures c < |Run(s, events).calls| && Remaining(Run(s, events).calls[c]) == 0
    decreases |events|
  {
    if events == [] {
    } else {
      CallsProgress(s, events[0], c);
      ThreeTurnsSuffice(Next(s, events[0]), events[1..], c);
    }
  }

  lemma {:induction false} RunRegisters(s: Server, events: seq<Event>, user: string)
    ensures user in Run(s, events).users <==> user in s.users || Register(user) in events
    decreases |events|
  {
    if events == [] {
    } else {
      RunRegisters(Next(s, events[0]), events[1..], user);
      assert Register(user) in events <==> events[0] == Register(user) || Register(user) in events[1..];
    }
  }

  /** A call that is under way keeps its users and does not fail. */
  predicate UnderWay(c: Call, me: string, other: string) {
    !c.Failed? && c.me == me && c.other == other
  }

  lemma StepUnderWay(s: Server, e: Event, c: nat, me: string, other: string)
    requires Sound(s) && c < |s.calls| && UnderWay(s.calls[c], me, other)
    ensures c < |Next(s, e).calls| && UnderWay(Next(s, e).calls[c], me, other)
  {
    StepSound(s, e);
    assert CallSound(s.conversations, s.calls[c]) && CallSound(Next(s, e).conversations, Next(s, e).calls[c]);
  }

  lemma {:induction false} RunUnderWay(s: Server, events: seq<Event>, c: nat, me: string, other: string)
    requires Sound(s) && c < |s.calls| && UnderWay(s.calls[c], me, other)
    ensures c < |Run(s, events).calls| && UnderWay(Run(s, events).calls[c], me, other)
    decreases |events|
  {
    if events == [] {
    } else {
      StepSound(s, events[0]);
      StepUnderWay(s, events[0], c, me, other);
      RunUnderWay(Next(s, events[0]), events[1..], c, me, other);
    }
  }

  /** A request to oneself or to somebody not registered fails. Every other one returns a conversation of the two users
      after three operations of its own, whatever the others do meanwhile. */
  lemma RequestsSucceedExactly(before: seq<Event>, me: string, other: string, after: seq<Event>)
    ensures var s := Run(EMPTY, before);
      var c, t := |s.calls|, Run(Next(s, Request(me, other)), after);
      && c < |t.calls|
      && (other == me || Register(other) !in before ==> t.calls[c].Failed?)
      && (other != me && Register(other) in before ==>
            !t.calls[c].Failed? && t.calls[c].me == me && t.calls[c].other == other
            && (Turns(after, c) >= 3 ==> t.calls[c].Returned?))
  {
    var s := Run(EMPTY, before);
    var c, s' := |s.calls|, Next(s, Request(me, other));
    EmptySound();
    RunSound(EMPTY, before);
    StepSound(s, Request(me, other));
    RunRegisters(EMPTY, before, other);
    if other == me || other !in s.users {
      FailedStays(s', after, c);
    } else {
      RunUnderWay(s', after, c, me, other);
      if Turns(after, c) >= 3 {
        ThreeTurnsSuffice(s', after, c);
      }
    }
  }

  lemma {:induction false} FailedStays(s: Server, events: seq<Event>, c: nat)
    requires c < |s.calls| && s.calls[c].Failed?
    ensures c < |Run(s, events).calls| && Run(s, events).calls[c] == s.calls[c]
    decreases |events|
  {
    if events == [] {
    } else {
      FailedStays(Next(s, events[0]), events[1..], c);
    }
  }

  /** The service itself. Between its database calls other requests may run; without any, a request
      is the run of its three operations. */
  class ChatService {
    var users: set<string>
    var conversations: seq<Conversation>

    constructor ()
      ensures users == {} && conversations == []
    {
      users, conversations := {}, [];
    }

    method FindDirectConversation(key: string) returns (r: Option<nat>)
      ensures r == Find(conversations, key, 0)
    {
      var i := 0;
      while i < |conversations|
        invariant i <= |conversations|
        invariant Find(conversations, key, i) == Find(conversations, key, 0)
      {
        if conversations[i].key == key { return Some(i); }
        i := i + 1;
      }
      r := None;
    }

    /** None when the unique key refuses the row. */
    method CreateDirectConversation(key: string, me: string, other: string) returns (r: Option<nat>)
      modifies this`conversations
      ensures Exists(old(conversations), key) ==>
                r == None && conversations == old(conversations)
      ensures !Exists(old(conversations), key) ==>
                r == Some(|old(conversations)|)
                && conversations == old(conversations) + [Conversation(key, {me, other})]
    {
      if Exists(conversations, key) { return None; }
      r := Some(|conversations|);
      conversations := conversations + [Conversation(key, {me, other})];
    }

    method GetOrCreateDirectConversation(me: string, other: string) returns (r: Result<nat, Error>)
      modifies this`conversations
      ensures var s := Run(Server(users, old(conversations), []),
                           [Request(me, other), Progress(0), Progress(0), Progress(0)]);
        && conversations == s.conversations
        && s.calls == [match r case Ok(id) => Returned(DirectKey(me, other), me, other, id) case Err(e) => Failed(e)]
    {
      ghost var s0 := Server(users, conversations, []);
      ghost var es := [Request(me, other), Progress(0), Progress(0), Progress(0)];
      FourSteps(s0, es);
      if other == me { return Err(ChatWithYourself); }
      if other !in users { return Err(UserNotFound); }
      var key := DirectKey(me, other);
      var conversation := FindDirectConversation(key);
      if conversation.None? {
        var created := CreateDirectConversation(key, me, other);
        if created.None? {
          conversation := FindDirectConversation(key);
          if conversation.None? { return Err(KeyConflict); }
        } else {
          conversation := created;
        }
      }
      r := Ok(conversation.value);
    }
  }

  lemma FourSteps(s: Server, events: seq<Event>)
    requires |events| == 4
    ensures Run(s, events) == Next(Next(Next(Next(s, events[0]), events[1]), events[2]), events[3])
  {
    var s1 := Next(s, events[0]);
    var s2 := Next(s1, events[1]);
    var s3 := Next(s2, events[2]);
    assert Run(s, events) == Run(s1, events[1..]);
    assert events[1..][1..] == events[2..] && events[2..][1..] == events[3..] && events[3..][1..] == [];
    assert Run(s1, events[1..]) == Run(s2, events[2..]);
    assert Run(s2, events[2..]) == Run(s3, events[3..]);
    assert Run(s3, events[3..]) == Run(Next(s3, events[3]), []);
  }
}
