/** Push audiences: who is told about which conversation, and which notifications each client
    has had. Subscriptions and receipts of agent conversations outlive the process.

    The manager's methods hold its lock for stretches of their work and wait between them, so
    the model is a machine whose steps are those stretches, interleaved at will with crashes. */
module Notifications {
  import opened Runs

  /** The eight parts that identify what an audience follows. */
  datatype Key = Key(extensionId: string, viewId: string, handlerId: string, launch: string,
                     resourceKind: string, resourceId: string, focusKind: string, focusId: string)

  predicate IsAgentConversation(k: Key) {
    k.extensionId == "agent" && k.resourceKind == "agentConversation"
    && k.focusKind == "conversation" && k.focusId == k.resourceId
  }

  /** One client's place in the audience of one key. */
  datatype Slot = Slot(key: Key, client: string)

  datatype Lifetime = Once | Target

  datatype Audience = Audience(lifetime: Lifetime, delivered: set<string>)

  type Audiences = map<Slot, Audience>

  /** A delivery that a running task has taken on and not yet carried out. */
  datatype Delivery = Delivery(task: nat, slot: Slot, id: string)

  datatype Attempt = Attempt(slot: Slot, id: string)

  datatype State = State(
    memory: Audiences, disk: Audiences, waiting: set<Delivery>, saved: set<nat>, nextTask: nat,
    attempts: seq<Attempt>)

  datatype Event =
    | Record(slot: Slot, lifetime: Lifetime)
    | Remove(slots: set<Slot>)
    | Save(ok: bool)                          // after recording or removing
    | Admit(key: Key, id: string)             // a notification arrives
    | SaveReceipts(task: nat, saveOk: bool)   // before its deliveries
    | Deliver(delivery: Delivery, push: bool) // no push when there is no token or the client is looking
    | Crash

  /** What the store is given: the agent conversations. */
  function Persistable(memory: Audiences): Audiences {
    map slot | slot in memory && IsAgentConversation(slot.key) :: memory[slot]
  }

  /** What a new process takes from the store. */
  function Loaded(disk: Audiences): Audiences {
    map slot | slot in disk && disk[slot].lifetime == Target && IsAgentConversation(slot.key) :: disk[slot]
  }

  predicate HasHad(a: Audience, key: Key, id: string) { IsAgentConversation(key) && id in a.delivered }

  /** The audience members a notification goes to: those of its key, less the ones that follow
      a conversation and have had it. */
  function Recipients(memory: Audiences, key: Key, id: string): set<Slot> {
    set slot | slot in memory && slot.key == key && !HasHad(memory[slot], key, id)
  }

  /** The audiences after a notification: receipts noted, one-shot audiences gone. */
  function Noted(memory: Audiences, key: Key, id: string): Audiences {
    map slot | slot in memory && !(slot.key == key && memory[slot].lifetime == Once) ::
      if slot.key == key then NotedOne(memory[slot], key, id) else memory[slot]
  }

  /** An audience member once a notification has been noted for it. */
  function NotedOne(a: Audience, key: Key, id: string): Audience {
    if IsAgentConversation(key) then a.(delivered := a.delivered + {id}) else a
  }

  predicate MayDeliver(s: State, d: Delivery) {
    d in s.waiting && (IsAgentConversation(d.slot.key) ==> d.task in s.saved)
  }

  function Step(s: State, e: Event): State {
    match e
    case Record(slot, lifetime) =>
      var delivered := if slot in s.memory then s.memory[slot].delivered else {};
      s.(memory := s.memory[slot := Audience(lifetime, delivered)])
    case Remove(slots) => s.(memory := s.memory - slots)
    case Save(ok) => if ok then s.(disk := Persistable(s.memory)) else s
    case Admit(key, id) =>
      s.(memory := Noted(s.memory, key, id),
         waiting := s.waiting + set slot | slot in Recipients(s.memory, key, id) :: Delivery(s.nextTask, slot, id),
         nextTask := s.nextTask + 1)
    case SaveReceipts(task, ok) =>
      if task >= s.nextTask then s
      else s.(disk := if ok then Persistable(s.memory) else s.disk, saved := s.saved + {task})
    case Deliver(d, push) =>
      if !MayDeliver(s, d) then s
      else s.(waiting := s.waiting - {d},
              attempts := if push then s.attempts + [Attempt(d.slot, d.id)] else s.attempts)
    case Crash => s.(memory := Loaded(s.disk), waiting := {})
  }

  function Run(s: State, events: seq<Event>): State { Fold(Step, s, events) }

  function Count(attempts: seq<Attempt>, a: Attempt): nat {
    if attempts == [] then 0
    else Count(attempts[..|attempts| - 1], a) + if attempts[|attempts| - 1] == a then 1 else 0
  }

  /** Task numbers are not reused. */
  predicate Numbered(s: State) {
    (forall d :: d in s.waiting ==> d.task < s.nextTask) && (forall t :: t in s.saved ==> t < s.nextTask)
  }

  /** The audience, if any, lasts until it is removed. */
  predicate Followed(s: State, slot: Slot) { slot in s.memory ==> s.memory[slot].lifetime == Target }

  /** An event that leaves the slot's audience in place; agent conversations are followed until
      removed, as their one recorder has it. Store writes may fail. */
  predicate Undisturbed(e: Event, slot: Slot) {
    match e
    case Record(other, lifetime) => other == slot ==> lifetime == Target
    case Remove(slots) => slot !in slots
    case _ => true
  }

  /** ... and does not fail to save receipts. */
  predicate Benign(e: Event, slot: Slot) { Undisturbed(e, slot) && (e.SaveReceipts? ==> e.saveOk) }

  predicate AllUndisturbed(events: seq<Event>, slot: Slot) { forall e :: e in events ==> Undisturbed(e, slot) }

  predicate AllBenign(events: seq<Event>, slot: Slot) { forall e :: e in events ==> Benign(e, slot) }

  predicate HasReceipt(audiences: Audiences, slot: Slot, id: string) {
    slot in audiences && audiences[slot].lifetime == Target && id in audiences[slot].delivered
  }

  predicate IsFor(d: Delivery, slot: Slot, id: string) { d.slot == slot && d.id == id }

  predicate NoneWaits(s: State, slot: Slot, id: string) { forall d :: d in s.waiting ==> !IsFor(d, slot, id) }

  /** How often `id` was pushed to the slot after the first `n` attempts. */
  function PushesSince(s: State, slot: Slot, id: string, n: nat): nat {
    if n <= |s.attempts| then Count(s.attempts[n..], Attempt(slot, id)) else 0
  }

  /** At most one delivery of `id` to the slot has been taken on since the first `n` attempts:
      waiting, or carried out. As long as there is one, memory has its receipt. */
  ghost predicate AtMostOne(s: State, slot: Slot, id: string, n: nat) {
    && n <= |s.attempts| && Followed(s, slot)
    && (forall d, d' :: d in s.waiting && d' in s.waiting && IsFor(d, slot, id) && IsFor(d', slot, id) ==> d == d')
    && (forall d :: d in s.waiting && IsFor(d, slot, id) ==> HasReceipt(s.memory, slot, id))
    && PushesSince(s, slot, id, n) <= 1
    && (PushesSince(s, slot, id, n) == 1 ==> HasReceipt(s.memory, slot, id) && NoneWaits(s, slot, id))
  }

  /** A crash now loses no receipt of a push already made. */
  predicate Covered(s: State, slot: Slot, id: string, n: nat) {
    PushesSince(s, slot, id, n) > 0 ==> HasReceipt(s.disk, slot, id)
  }

  /** Every crash of the run comes at a covered moment. */
  predicate CrashesCovered(s: State, events: seq<Event>, slot: Slot, id: string, n: nat)
    decreases |events|
  {
    events != [] ==>
      && (events[0].Crash? ==> Covered(s, slot, id, n))
      && CrashesCovered(Step(s, events[0]), events[1..], slot, id, n)
  }

  lemma AdmitKeepsAtMostOne(s: State, key: Key, notified: string, slot: Slot, id: string, n: nat)
    requires IsAgentConversation(slot.key) && AtMostOne(s, slot, id, n)
    ensures AtMostOne(Step(s, Admit(key, notified)), slot, id, n)
  {
    var s' := Step(s, Admit(key, notified));
    assert HasReceipt(s.memory, slot, id) ==>
      && HasReceipt(s'.memory, slot, id)
      && (key == slot.key && notified == id ==> slot !in Recipients(s.memory, key, id));
    forall d | d in s'.waiting && IsFor(d, slot, id)
      ensures HasReceipt(s'.memory, slot, id)
    {
    }
  }

  lemma CountSnoc(attempts: seq<Attempt>, n: nat, last: Attempt, a: Attempt)
    requires n <= |attempts|
    ensures Count((attempts + [last])[n..], a) == Count(attempts[n..], a) + if last == a then 1 else 0
  {
    var all := (attempts + [last])[n..];
    assert all == attempts[n..] + [last];
    assert all[..|all| - 1] == attempts[n..];
  }

  lemma DeliverKeepsAtMostOne(s: State, d: Delivery, push: bool, slot: Slot, id: string, n: nat)
    requires IsAgentConversation(slot.key) && AtMostOne(s, slot, id, n) && MayDeliver(s, d)
    ensures AtMostOne(Step(s, Deliver(d, push)), slot, id, n)
  {
    CountSnoc(s.attempts, n, Attempt(d.slot, d.id), Attempt(slot, id));
    if IsFor(d, slot, id) {
      assert PushesSince(s, slot, id, n) == 0;
    }
  }

  /** Every step keeps it, a crash at a covered moment included. */
  lemma StepKeepsAtMostOne(s: State, e: Event, slot: Slot, id: string, n: nat)
    requires IsAgentConversation(slot.key) && AtMostOne(s, slot, id, n) && Undisturbed(e, slot)
    requires e.Crash? ==> Covered(s, slot, id, n)
    ensures AtMostOne(Step(s, e), slot, id, n)
  {
    match e
    case Admit(key, notified) => AdmitKeepsAtMostOne(s, key, notified, slot, id, n);
    case Deliver(d, push) => if MayDeliver(s, d) { DeliverKeepsAtMostOne(s, d, push, slot, id, n); }
    case Crash => assert HasReceipt(s.disk, slot, id) ==> HasReceipt(Loaded(s.disk), slot, id);
    case _ =>
  }

  lemma {:induction false} RunKeepsAtMostOne(s: State, events: seq<Event>, slot: Slot, id: string, n: nat)
    requires IsAgentConversation(slot.key) && AtMostOne(s, slot, id, n)
    requires AllUndisturbed(events, slot) && CrashesCovered(s, events, slot, id, n)
    ensures AtMostOne(Run(s, events), slot, id, n)
    decreases |events|
  {
    if events != [] {
      assert events[0] in events;
      StepKeepsAtMostOne(s, events[0], slot, id, n);
      RunKeepsAtMostOne(Step(s, events[0]), events[1..], slot, id, n);
    }
  }

  /** From any moment at which no delivery of `id` to the client is waiting, and until the
      client's audience is next removed, `id` is pushed to that client at most once, whatever
      is resubscribed, arrives concurrently, fails to be written, crashes or is reloaded in
      between, as long as no crash loses the receipt of a push. */
  lemma AtMostOneAttempt(s: State, events: seq<Event>, slot: Slot, id: string)
    requires IsAgentConversation(slot.key) && Followed(s, slot) && NoneWaits(s, slot, id)
    requires AllUndisturbed(events, slot) && CrashesCovered(s, events, slot, id, |s.attempts|)
    ensures var s' := Run(s, events);
      |s.attempts| <= |s'.attempts| && PushesSince(s', slot, id, |s.attempts|) <= 1
  {
    assert s.attempts[|s.attempts|..] == [];
    RunKeepsAtMostOne(s, events, slot, id, |s.attempts|);
  }

  /** A notification is taken on for exactly the members of its audience that are not followers
      of the conversation who have had it; those who were to hear one only are gone after it,
      and followers have their receipt. */
  lemma WhoHears(s: State, key: Key, id: string, slot: Slot)
    ensures var s' := Step(s, Admit(key, id));
      && (Delivery(s.nextTask, slot, id) in s'.waiting - s.waiting ==> slot in s.memory && slot.key == key)
      && (slot in s.memory && slot.key == key && Delivery(s.nextTask, slot, id) !in s.waiting ==>
            (Delivery(s.nextTask, slot, id) in s'.waiting <==>
              !(IsAgentConversation(key) && id in s.memory[slot].delivered)))
      && (slot in s.memory && slot.key == key && s.memory[slot].lifetime == Once ==> slot !in s'.memory)
      && (slot in s.memory && slot.key == key && s.memory[slot].lifetime == Target ==>
            slot in s'.memory && (IsAgentConversation(key) ==> HasReceipt(s'.memory, slot, id)))
      && (slot in s.memory && slot.key != key ==> slot in s'.memory && s'.memory[slot] == s.memory[slot])
  {
  }

  /** What is saved and outlives a crash: exactly the lasting audiences of agent conversations,
      as they were. */
  lemma WhatSurvives(s: State, slot: Slot)
    ensures var s' := Step(Step(s, Save(true)), Crash);
      var k := slot.key;
      && (slot in s'.memory <==>
            && slot in s.memory && s.memory[slot].lifetime == Target
            && k.extensionId == "agent" && k.resourceKind == "agentConversation" && k.focusKind == "conversation"
            && k.focusId == k.resourceId)
      && (slot in s'.memory ==> s'.memory[slot] == s.memory[slot])
      && (slot in s'.disk <==> slot in s.memory && IsAgentConversation(k))
      && s'.waiting == {}
  {
  }

  // ---------------------------------------------------------------------------------------
  // When crashes are covered

  /** Receipts are on disk before the push: those of tasks that have saved, and of pushes. */
  ghost predicate Backed(s: State, slot: Slot, id: string, n: nat) {
    && AtMostOne(s, slot, id, n) && Numbered(s) && Covered(s, slot, id, n)
    && (forall d :: d in s.waiting && IsFor(d, slot, id) && d.task in s.saved ==> HasReceipt(s.disk, slot, id))
  }

  lemma PersistedReceipt(memory: Audiences, slot: Slot, id: string)
    requires IsAgentConversation(slot.key) && HasReceipt(memory, slot, id)
    ensures HasReceipt(Persistable(memory), slot, id)
  {
  }

  lemma StepKeepsBacked(s: State, e: Event, slot: Slot, id: string, n: nat)
    requires IsAgentConversation(slot.key) && Backed(s, slot, id, n) && Benign(e, slot)
    ensures Backed(Step(s, e), slot, id, n)
  {
    StepKeepsAtMostOne(s, e, slot, id, n);
    if HasReceipt(s.memory, slot, id) {
      PersistedReceipt(s.memory, slot, id);
    }
    if e.Deliver? && MayDeliver(s, e.delivery) {
      CountSnoc(s.attempts, n, Attempt(e.delivery.slot, e.delivery.id), Attempt(slot, id));
    }
  }

  lemma {:induction false} RunKeepsBacked(s: State, events: seq<Event>, slot: Slot, id: string, n: nat)
    requires IsAgentConversation(slot.key) && Backed(s, slot, id, n) && AllBenign(events, slot)
    ensures Backed(Run(s, events), slot, id, n) && CrashesCovered(s, events, slot, id, n)
    decreases |events|
  {
    if events != [] {
      assert events[0] in events;
      StepKeepsBacked(s, events[0], slot, id, n);
      RunKeepsBacked(Step(s, events[0]), events[1..], slot, id, n);
    }
  }

  /** In particular when the writes that save receipts succeed; others may fail. */
  lemma SavedReceiptsCoverCrashes(s: State, events: seq<Event>, slot: Slot, id: string)
    requires IsAgentConversation(slot.key) && Numbered(s) && Followed(s, slot) && NoneWaits(s, slot, id)
    requires AllBenign(events, slot)
    ensures AllUndisturbed(events, slot) && CrashesCovered(s, events, slot, id, |s.attempts|)
  {
    assert s.attempts[|s.attempts|..] == [];
    RunKeepsBacked(s, events, slot, id, |s.attempts|);
  }

  /** Any later write that succeeds covers the pushes made so far. */
  lemma LaterWriteCovers(s: State, slot: Slot, id: string, n: nat, e: Event)
    requires IsAgentConversation(slot.key) && AtMostOne(s, slot, id, n)
    requires e == Save(true) || (e.SaveReceipts? && e.saveOk && e.task < s.nextTask)
    ensures Covered(Step(s, e), slot, id, n)
  {
    if HasReceipt(s.memory, slot, id) {
      PersistedReceipt(s.memory, slot, id);
    }
  }

  /** No crash at all is the other extreme: writes may then fail at will. */
  lemma {:induction false} NoCrashNoCondition(s: State, events: seq<Event>, slot: Slot, id: string, n: nat)
    requires forall e :: e in events ==> !e.Crash?
    ensures CrashesCovered(s, events, slot, id, n)
    decreases |events|
  {
    if events != [] {
      assert events[0] in events;
      NoCrashNoCondition(Step(s, events[0]), events[1..], slot, id, n);
    }
  }

  const INITIAL := State(map[], map[], {}, {}, 0, [])

  lemma {:induction false} ReachableIsNumbered(s: State, events: seq<Event>)
    requires Numbered(s)
    ensures Numbered(Run(s, events))
    decreases |events|
  {
    if events != [] {
      ReachableIsNumbered(Step(s, events[0]), events[1..]);
    }
  }

  predicate OnlyFollowed(events: seq<Event>, slot: Slot) {
    forall e :: e in events && e.Record? && e.slot == slot ==> e.lifetime == Target
  }

  /** Whatever has happened since the first start satisfies what the results above ask of
      their starting point, waiting deliveries aside. */
  lemma {:induction false} ReachableIsReady(s: State, events: seq<Event>, slot: Slot)
    requires Numbered(s) && Followed(s, slot) && OnlyFollowed(events, slot)
    ensures Numbered(Run(s, events)) && Followed(Run(s, events), slot)
    decreases |events|
  {
    if events != [] {
      var s' := Step(s, events[0]);
      assert events[0] in events;
      assert Numbered(s') && Followed(s', slot);
      ReachableIsReady(s', events[1..], slot);
    }
  }

  /** In any whole run, the stretch from any point on until the next removal. */
  lemma BetweenRemovals(before: seq<Event>, events: seq<Event>, slot: Slot, id: string)
    requires IsAgentConversation(slot.key) && OnlyFollowed(before, slot) && NoneWaits(Run(INITIAL, before), slot, id)
    requires AllUndisturbed(events, slot)
    requires
      var s := Run(INITIAL, before);
      AllBenign(events, slot) || CrashesCovered(s, events, slot, id, |s.attempts|)
    ensures var s := Run(INITIAL, before);
      var s' := Run(s, events);
      |s.attempts| <= |s'.attempts| && PushesSince(s', slot, id, |s.attempts|) <= 1
  {
    var s := Run(INITIAL, before);
    ReachableIsReady(INITIAL, before, slot);
    if AllBenign(events, slot) {
      SavedReceiptsCoverCrashes(s, events, slot, id);
    }
    AtMostOneAttempt(s, events, slot, id);
  }

  // ---------------------------------------------------------------------------------------
  // Both conditions are exact

  /** The run that pushes to a client without a receipt, subscribing it first. */
  function PushAgain(s: State, slot: Slot, id: string): seq<Event> {
    [Record(slot, Target), Admit(slot.key, id), SaveReceipts(s.nextTask, true),
     Deliver(Delivery(s.nextTask, slot, id), true)]
  }

  lemma RunOne(s: State, e: Event, events: seq<Event>)
    ensures Run(s, [e] + events) == Run(Step(s, e), events)
  {
    assert ([e] + events)[1..] == events;
  }

  lemma Run4(s: State, e0: Event, e1: Event, e2: Event, e3: Event)
    ensures Run(s, [e0, e1, e2, e3]) == Step(Step(Step(Step(s, e0), e1), e2), e3)
  {
    var s1 := Step(s, e0);
    var s2 := Step(s1, e1);
    var s3 := Step(s2, e2);
    assert [e2] + [e3] == [e2, e3] && [e3] + [] == [e3];
    assert [e1] + [e2, e3] == [e1, e2, e3] && [e0] + [e1, e2, e3] == [e0, e1, e2, e3];
    RunOne(s3, e3, []);
    RunOne(s2, e2, [e3]);
    RunOne(s1, e1, [e2, e3]);
    RunOne(s, e0, [e1, e2, e3]);
  }

  /** With no receipt in memory, the notification is taken on and pushed. */
  lemma UnreceiptedIsPushed(s: State, slot: Slot, id: string)
    requires IsAgentConversation(slot.key) && (slot in s.memory ==> id !in s.memory[slot].delivered)
    ensures AllBenign(PushAgain(s, slot, id), slot)
    ensures Run(s, PushAgain(s, slot, id)).attempts == s.attempts + [Attempt(slot, id)]
  {
    var events := PushAgain(s, slot, id);
    Run4(s, events[0], events[1], events[2], events[3]);
    var s1 := Step(s, events[0]);
    assert slot in Recipients(s1.memory, slot.key, id);
    assert Delivery(s.nextTask, slot, id) in Step(s1, events[1]).waiting;
  }

  /** The condition on waiting deliveries is needed. If one was still waiting when the
      audience was removed, a client that subscribes again can be sent the same notification
      twice with no removal in between. */
  lemma WaitingDeliveryRepeats(s: State, task: nat, slot: Slot, id: string) returns (events: seq<Event>)
    requires IsAgentConversation(slot.key) && Numbered(s)
    requires slot !in s.memory && Delivery(task, slot, id) in s.waiting
    ensures AllBenign(events, slot)
    ensures Run(s, events).attempts == s.attempts + [Attempt(slot, id), Attempt(slot, id)]
  {
    var save, deliver := SaveReceipts(task, true), Deliver(Delivery(task, slot, id), true);
    var s1 := Step(s, save);
    var s2 := Step(s1, deliver);
    assert s2.attempts == s.attempts + [Attempt(slot, id)];
    UnreceiptedIsPushed(s2, slot, id);
    RunOne(s1, deliver, PushAgain(s2, slot, id));
    RunOne(s, save, [deliver] + PushAgain(s2, slot, id));
    events := [save] + ([deliver] + PushAgain(s2, slot, id));
  }

  lemma TwoPushes(s: State, slot: Slot, id: string, s': State)
    requires s'.attempts == s.attempts + [Attempt(slot, id), Attempt(slot, id)]
    ensures PushesSince(s', slot, id, |s.attempts|) == 2
  {
    var a := Attempt(slot, id);
    assert s'.attempts[|s.attempts|..] == [a, a];
    assert [a, a][..1] == [a] && Count([a], a) == 1;
  }

  /** Once an audience has been removed, its notifications are pushed at most once until the
      next removal exactly when no delivery is still waiting. */
  lemma AtMostOnceIffNoneWaits(s: State, slot: Slot, id: string)
    requires IsAgentConversation(slot.key) && Numbered(s) && slot !in s.memory
    ensures (forall events: seq<Event> ::
              AllBenign(events, slot) ==> PushesSince(Run(s, events), slot, id, |s.attempts|) <= 1)
            <==> NoneWaits(s, slot, id)
  {
    if NoneWaits(s, slot, id) {
      forall events: seq<Event> | AllBenign(events, slot)
        ensures PushesSince(Run(s, events), slot, id, |s.attempts|) <= 1
      {
        SavedReceiptsCoverCrashes(s, events, slot, id);
        AtMostOneAttempt(s, events, slot, id);
      }
    } else {
      var d :| d in s.waiting && IsFor(d, slot, id);
      var events := WaitingDeliveryRepeats(s, d.task, slot, id);
      TwoPushes(s, slot, id, Run(s, events));
      assert PushesSince(Run(s, events), slot, id, |s.attempts|) == 2;
    }
  }

  /** A receipt that is not on disk is lost in a crash, and the push is repeated. */
  lemma LostReceiptRepeats(s: State, slot: Slot, id: string, n: nat) returns (events: seq<Event>)
    requires IsAgentConversation(slot.key) && AtMostOne(s, slot, id, n) && !Covered(s, slot, id, n)
    ensures AllBenign(events, slot)
    ensures PushesSince(Run(Step(s, Crash), events), slot, id, n) == 2
  {
    var crashed := Step(s, Crash);
    events := PushAgain(crashed, slot, id);
    UnreceiptedIsPushed(crashed, slot, id);
    CountSnoc(s.attempts, n, Attempt(slot, id), Attempt(slot, id));
  }

  /** After a crash, a second push is possible, whatever is written from then on, exactly when
      a push had been made and its receipt was not on disk. */
  lemma CrashIsHarmlessIffCovered(s: State, slot: Slot, id: string, n: nat)
    requires IsAgentConversation(slot.key) && Numbered(s) && AtMostOne(s, slot, id, n)
    ensures (forall events: seq<Event> ::
              AllBenign(events, slot) ==> PushesSince(Run(Step(s, Crash), events), slot, id, n) <= 1)
            <==> Covered(s, slot, id, n)
  {
    var crashed := Step(s, Crash);
    if Covered(s, slot, id, n) {
      StepKeepsAtMostOne(s, Crash, slot, id, n);
      forall events: seq<Event> | AllBenign(events, slot)
        ensures PushesSince(Run(crashed, events), slot, id, n) <= 1
      {
        RunKeepsBacked(crashed, events, slot, id, n);
      }
    } else {
      var events := LostReceiptRepeats(s, slot, id, n);
      assert PushesSince(Run(crashed, events), slot, id, n) == 2;
    }
  }

  // ---------------------------------------------------------------------------------------
  // Both conditions can fail in practice

  /** A removal can overtake a delivery that was taken on before it. */
  lemma RemovalCanOvertake(slot: Slot, id: string) returns (before: seq<Event>)
    requires IsAgentConversation(slot.key)
    ensures OnlyFollowed(before, slot)
    ensures var s := Run(INITIAL, before); slot !in s.memory && !NoneWaits(s, slot, id) && Numbered(s)
  {
    before := [Record(slot, Target), Save(true), Admit(slot.key, id), Remove({slot})];
    Run4(INITIAL, before[0], before[1], before[2], before[3]);
    var s2 := Step(Step(INITIAL, before[0]), before[1]);
    assert slot in Recipients(s2.memory, slot.key, id);
    assert Delivery(0, slot, id) in Step(s2, before[2]).waiting;
    assert IsFor(Delivery(0, slot, id), slot, id);
    ReachableIsNumbered(INITIAL, before);
  }

  /** A push can precede its receipt on disk, when the write before it fails. */
  lemma PushCanPrecedeReceipt(slot: Slot, id: string) returns (before: seq<Event>)
    requires IsAgentConversation(slot.key)
    ensures AllUndisturbed(before, slot) && OnlyFollowed(before, slot)
    ensures var s := Run(INITIAL, before); AtMostOne(s, slot, id, 0) && !Covered(s, slot, id, 0) && Numbered(s)
  {
    var d := Delivery(0, slot, id);
    before := [Record(slot, Target), Admit(slot.key, id), SaveReceipts(0, false), Deliver(d, true)];
    var s1 := Step(INITIAL, before[0]);
    var s2 := Step(s1, before[1]);
    var s3 := Step(s2, before[2]);
    var s4 := Step(s3, before[3]);
    assert AllUndisturbed(before, slot);
    assert slot in Recipients(s1.memory, slot.key, id);
    assert d in s2.waiting;
    assert s4.attempts == [Attempt(slot, id)] && s4.disk == map[];
    PushedOnce(s4, slot, id);
    Run4(INITIAL, before[0], before[1], before[2], before[3]);
    ReachableIsNumbered(INITIAL, before);
    NoCrashNoCondition(INITIAL, before, slot, id, 0);
    assert INITIAL.attempts[0..] == [];
    RunKeepsAtMostOne(INITIAL, before, slot, id, 0);
  }

  lemma PushedOnce(s: State, slot: Slot, id: string)
    requires s.attempts == [Attempt(slot, id)] && s.disk == map[]
    ensures PushesSince(s, slot, id, 0) == 1 && !Covered(s, slot, id, 0)
  {
    var a := Attempt(slot, id);
    assert s.attempts[0..] == [a] && [a][..0] == [] && Count([], a) == 0;
  }

  // ---------------------------------------------------------------------------------------
  // The manager

  /** What a task does not do to another one. */
  predicate LeavesTask(e: Event, task: nat) {
    match e
    case SaveReceipts(other, _) => other != task
    case Deliver(d, _) => d.task != task
    case Crash => false
    case _ => true
  }

  /** The deliveries of a task. */
  function Of(waiting: set<Delivery>, task: nat): set<Delivery> {
    set d | d in waiting && d.task == task
  }

  lemma {:induction false} OthersLeaveTask(s: State, events: seq<Event>, task: nat)
    requires task < s.nextTask && forall e :: e in events ==> LeavesTask(e, task)
    ensures var s' := Run(s, events);
      task < s'.nextTask && Of(s'.waiting, task) == Of(s.waiting, task) && (task in s'.saved <==> task in s.saved)
    decreases |events|
  {
    if events != [] {
      var s' := Step(s, events[0]);
      assert LeavesTask(events[0], task);
      assert Of(s'.waiting, task) == Of(s.waiting, task);
      OthersLeaveTask(s', events[1..], task);
    }
  }

  /** Everyone subscribed to one of the keys. */
  function InBuckets(memory: Audiences, keys: seq<Key>): set<Slot> {
    set slot | slot in memory && slot.key in keys
  }

  predicate HasAgent(slots: set<Slot>) { exists slot :: slot in slots && IsAgentConversation(slot.key) }

  method DropBuckets(memory: Audiences, keys: seq<Key>) returns (kept: Audiences, removedAgent: bool)
    ensures kept == memory - InBuckets(memory, keys)
    ensures removedAgent <==> HasAgent(InBuckets(memory, keys))
  {
    kept, removedAgent := memory, false;
    for i := 0 to |keys|
      invariant kept == memory - InBuckets(memory, keys[..i])
      invariant removedAgent <==> HasAgent(InBuckets(memory, keys[..i]))
    {
      var bucket := InBuckets(kept, [keys[i]]);
      assert InBuckets(memory, keys[..i + 1]) == InBuckets(memory, keys[..i]) + bucket;
      kept, removedAgent := kept - bucket, removedAgent || HasAgent(bucket);
    }
    assert keys[..|keys|] == keys;
  }

  /** Each member of the audience in turn is noted and, unless it has had the notification,
      kept for delivery; then the one-shot audiences go. */
  method NoteAudience(memory: Audiences, key: Key, id: string) returns (noted: Audiences, delivery: set<Slot>)
    ensures noted == Noted(memory, key, id) && delivery == Recipients(memory, key, id)
  {
    var all;
    all, delivery := NoteMembers(memory, key, id);
    noted := map slot | slot in all && !(slot.key == key && all[slot].lifetime == Once) :: all[slot];
  }

  /** The audiences with every member of the key's audience noted but those still to do. */
  function NotedExcept(memory: Audiences, key: Key, id: string, todo: set<Slot>): Audiences {
    map slot | slot in memory ::
      if slot.key == key && slot !in todo then NotedOne(memory[slot], key, id) else memory[slot]
  }

  lemma NotedExceptOne(memory: Audiences, key: Key, id: string, todo: set<Slot>, slot: Slot)
    requires slot in memory && slot.key == key && slot in todo
    ensures var noted := NotedExcept(memory, key, id, todo);
      && slot in noted && noted[slot] == memory[slot]
      && noted[slot := NotedOne(memory[slot], key, id)] == NotedExcept(memory, key, id, todo - {slot})
  {
  }

  lemma NotedExceptAll(memory: Audiences, key: Key, id: string)
    ensures NotedExcept(memory, key, id, InBuckets(memory, [key])) == memory
    ensures Recipients(memory, key, id) <= InBuckets(memory, [key])
  {
  }

  method NoteMembers(memory: Audiences, key: Key, id: string) returns (noted: Audiences, delivery: set<Slot>)
    ensures noted == NotedExcept(memory, key, id, {}) && delivery == Recipients(memory, key, id)
  {
    noted, delivery := memory, {};
    ghost var recipients := Recipients(memory, key, id);
    var todo := InBuckets(memory, [key]);
    NotedExceptAll(memory, key, id);
    while todo != {}
      invariant forall slot :: slot in todo ==> slot in memory && slot.key == key
      invariant noted == NotedExcept(memory, key, id, todo)
      invariant delivery == recipients - todo
      decreases |todo|
    {
      var slot :| slot in todo;
      NotedExceptOne(memory, key, id, todo, slot);
      var had := HasHad(noted[slot], key, id);
      noted := noted[slot := NotedOne(noted[slot], key, id)];
      if !had {
        delivery := delivery + {slot};
      }
      todo := todo - {slot};
    }
  }

  method LoadAudiences(disk: Audiences) returns (audiences: Audiences)
    ensures audiences == Loaded(disk)
  {
    audiences := map[];
    ghost var loaded := Loaded(disk);
    var todo := disk.Keys;
    while todo != {}
      invariant todo <= disk.Keys
      invariant audiences == loaded - todo
      decreases |todo|
    {
      var slot :| slot in todo;
      if disk[slot].lifetime == Target && IsAgentConversation(slot.key) {
        audiences := audiences[slot := disk[slot]];
      }
      todo := todo - {slot};
    }
  }

  /** The manager with its maps. Every method is a run of the machine, so the results above
      hold of any calls, in any number and order. */
  class Manager {
    var audiences: Audiences
    var store: Audiences         // the file on disk
    var waiting: set<Delivery>
    var saved: set<nat>
    var nextTask: nat
    var attempts: seq<Attempt>
    ghost var history: seq<Event>

    ghost function View(): State
      reads this
    {
      State(audiences, store, waiting, saved, nextTask, attempts)
    }

    ghost predicate Valid()
      reads this
    {
      View() == Run(INITIAL, history)
    }

    constructor ()
      ensures Valid() && history == []
    {
      audiences, store, waiting, saved, nextTask, attempts := map[], map[], {}, {}, 0, [];
      history := [];
    }

    method Persist(ok: bool)
      requires Valid()
      modifies this`store, this`history
      ensures Valid() && history == old(history) + [Save(ok)]
    {
      FoldSnoc(Step, INITIAL, history, Save(ok));
      if ok {
        store := Persistable(audiences);
      }
      history := history + [Save(ok)];
    }

    /** Subscribes a client, keeping the receipts of an earlier subscription. */
    method RecordAudience(slot: Slot, lifetime: Lifetime, ok: bool)
      requires Valid()
      modifies this`audiences, this`store, this`history
      ensures Valid()
      ensures history == old(history) + [Record(slot, lifetime)] +
        if IsAgentConversation(slot.key) then [Save(ok)] else []
    {
      FoldSnoc(Step, INITIAL, history, Record(slot, lifetime));
      var delivered := if slot in audiences then audiences[slot].delivered else {};
      audiences := audiences[slot := Audience(lifetime, delivered)];
      history := history + [Record(slot, lifetime)];
      if IsAgentConversation(slot.key) {
        Persist(ok);
      }
    }

    /** Unsubscribes everyone from the given keys. */
    method RemoveAudiences(keys: seq<Key>, ok: bool)
      requires Valid()
      modifies this`audiences, this`store, this`history
      ensures Valid()
      ensures var gone := InBuckets(old(audiences), keys);
        history == old(history) + [Remove(gone)] + if HasAgent(gone) then [Save(ok)] else []
    {
      ghost var gone := InBuckets(audiences, keys);
      FoldSnoc(Step, INITIAL, history, Remove(gone));
      var kept, removedAgent := DropBuckets(audiences, keys);
      audiences := kept;
      history := history + [Remove(gone)];
      if removedAgent {
        Persist(ok);
      }
    }

    /** Takes a notification on. */
    method TakeOn(key: Key, id: string) returns (task: nat)
      requires Valid()
      modifies this`audiences, this`waiting, this`nextTask, this`history
      ensures Valid() && history == old(history) + [Admit(key, id)] && task == old(nextTask) && nextTask == task + 1
      ensures waiting == old(waiting) +
        set slot | slot in Recipients(old(audiences), key, id) :: Delivery(task, slot, id)
    {
      FoldSnoc(Step, INITIAL, history, Admit(key, id));
      var noted, delivery := NoteAudience(audiences, key, id);
      audiences := noted;
      task := nextTask;
      waiting := waiting + set slot | slot in delivery :: Delivery(task, slot, id);
      nextTask := nextTask + 1;
      history := history + [Admit(key, id)];
    }

    method PersistReceipts(task: nat, ok: bool)
      requires Valid() && task < nextTask
      modifies this`store, this`saved, this`history
      ensures Valid() && history == old(history) + [SaveReceipts(task, ok)] && saved == old(saved) + {task}
    {
      FoldSnoc(Step, INITIAL, history, SaveReceipts(task, ok));
      if ok {
        store := Persistable(audiences);
      }
      saved := saved + {task};
      history := history + [SaveReceipts(task, ok)];
    }

    method DeliverOne(d: Delivery, push: bool)
      requires Valid() && MayDeliver(View(), d)
      modifies this`waiting, this`attempts, this`history
      ensures Valid() && history == old(history) + [Deliver(d, push)] && waiting == old(waiting) - {d}
    {
      FoldSnoc(Step, INITIAL, history, Deliver(d, push));
      waiting := waiting - {d};
      if push {
        attempts := attempts + [Attempt(d.slot, d.id)];
      }
      history := history + [Deliver(d, push)];
    }

    /** A new process starts from the store; whatever ran is gone. */
    method Restart()
      requires Valid()
      modifies this`audiences, this`waiting, this`history
      ensures Valid() && history == old(history) + [Crash]
    {
      FoldSnoc(Step, INITIAL, history, Crash);
      audiences := LoadAudiences(store);
      waiting := {};
      history := history + [Crash];
    }

    /** What other calls do while a task waits: any run that leaves its deliveries alone. */
    method Elsewhere(task: nat)
      requires Valid() && task < nextTask
      modifies this
      ensures Valid() && task < nextTask && old(history) <= history
      ensures forall k :: |old(history)| <= k < |history| ==> LeavesTask(history[k], task)
      ensures Of(waiting, task) == old(Of(waiting, task)) && (task in saved <==> task in old(saved))
    {
      var chosen: seq<Event> := *;
      var events := if forall e :: e in chosen ==> LeavesTask(e, task) then chosen else [];
      FoldConcat(Step, INITIAL, history, events);
      OthersLeaveTask(View(), events, task);
      var s := Run(State(audiences, store, waiting, saved, nextTask, attempts), events);
      audiences, store, waiting := s.memory, s.disk, s.waiting;
      saved, nextTask, attempts := s.saved, s.nextTask, s.attempts;
      history := history + events;
    }

    /** Handles a notification from start to end, with other calls at every wait. All that it
        took on is carried out, and receipts are saved before the first delivery. */
    method HandleNotification(key: Key, id: string, ok: bool)
      requires Valid()
      modifies this
      ensures Valid() && old(history) + [Admit(key, id)] <= history
      ensures old(nextTask) < nextTask && Of(waiting, old(nextTask)) == {}
      // Receipts of a conversation are written before its deliveries; with nobody to tell, nothing is.
      ensures IsAgentConversation(key) && Recipients(old(audiences), key, id) != {} ==>
        exists k :: |old(history)| <= k < |history| && history[k] == SaveReceipts(old(nextTask), ok)
      ensures Recipients(old(audiences), key, id) == {} ==> history == old(history) + [Admit(key, id)]
      ensures forall k :: |old(history)| <= k < |history| ==> history[k] != Crash
    {
      ReachableIsNumbered(INITIAL, history);
      var task := TakeOn(key, id);
      assert forall d :: d in Of(waiting, task) ==> d.slot.key == key;
      if Of(waiting, task) == {} {
        assert forall slot :: slot in Recipients(old(audiences), key, id) ==>
          Delivery(task, slot, id) in Of(waiting, task);
        return;
      }
      Elsewhere(task);
      ghost var at := |history|;
      if IsAgentConversation(key) {
        PersistReceipts(task, ok);
      }
      ghost var written := history;
      DeliverAll(task);
      assert IsAgentConversation(key) ==> history[at] == written[at] == SaveReceipts(task, ok);
    }

    method DeliverAll(task: nat)
      requires Valid() && task < nextTask && forall d :: d in Of(waiting, task) ==> MayDeliver(View(), d)
      modifies this
      ensures Valid() && task < nextTask && Of(waiting, task) == {}
      ensures old(history) <= history && forall k :: |old(history)| <= k < |history| ==> history[k] != Crash
    {
      var todo := Of(waiting, task);
      while todo != {}
        invariant Valid() && task < nextTask && todo == Of(waiting, task)
        invariant old(history) <= history && forall k :: |old(history)| <= k < |history| ==> history[k] != Crash
        invariant forall d :: d in todo ==> MayDeliver(View(), d)
        decreases |todo|
      {
        var d :| d in todo;
        var push: bool := *;
        DeliverOne(d, push);
        todo := todo - {d};
        assert todo == Of(waiting, task);
        Elsewhere(task);
      }
    }
  }
}
