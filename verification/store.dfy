/**
 * The document store as the service uses it: a `chats` collection that is
 * only ever appended to, and a `subscriptions` collection keyed by user id.
 * Every query the handlers run fetches the user's chats by `userId` and
 * filters the rest in memory; `Filter` names the two in-memory filters.
 */
module Store {

  import opened Wrappers

  /** One stored chat document; `timestamp` is seconds, absent if the field is missing. */
  datatype ChatEvent = ChatEvent(
    id: string,
    userId: string,
    persona: string,
    message: string,
    reply: string,
    timestamp: Option<int>)

  /** One subscription document; each field may be missing or null. */
  datatype SubRecord = SubRecord(
    subscriptionId: Option<string>,
    customerId: Option<string>,
    status: Option<string>,
    planId: Option<string>,
    createdAt: Option<int>,
    updatedAt: Option<int>)

  /** The two in-memory scans of a user's chats. */
  datatype Filter =
    | SamePersona(userId: string, persona: string)  // chats of this user with this persona
    | Recent(userId: string, since: int)            // chats of this user stamped strictly after `since`

  predicate Selects(f: Filter, e: ChatEvent) {
    && e.userId == f.userId
    && match f
       case SamePersona(_, persona) => e.persona == persona
       case Recent(_, since) => e.timestamp.Some? && e.timestamp.value > since
  }

  /** How many chats the filter selects. */
  function Count(chats: seq<ChatEvent>, f: Filter): (n: nat)
    ensures n <= |chats|
  {
    if chats == [] then 0
    else Count(chats[..|chats| - 1], f) + (if Selects(f, chats[|chats| - 1]) then 1 else 0)
  }

  /** No chat is selected exactly when the count is zero. */
  lemma {:induction false} CountZeroIff(chats: seq<ChatEvent>, f: Filter)
    ensures Count(chats, f) == 0 <==> forall i :: 0 <= i < |chats| ==> !Selects(f, chats[i])
  {
    if chats != [] {
      var init := chats[..|chats| - 1];
      CountZeroIff(init, f);
      assert forall i :: 0 <= i < |init| ==> init[i] == chats[i];
    }
  }

  /** Counting distributes over concatenation of logs. */
  lemma {:induction false} CountAppend(a: seq<ChatEvent>, b: seq<ChatEvent>, f: Filter)
    ensures Count(a + b, f) == Count(a, f) + Count(b, f)
    decreases |b|
  {
    if b == [] {
      assert a + b == a;
    } else {
      var init := b[..|b| - 1];
      assert (a + b)[..|a + b| - 1] == a + init;
      CountAppend(a, init, f);
    }
  }

  /** Chats the filter does not select do not change the count. */
  lemma CountIgnoresUnselected(chats: seq<ChatEvent>, others: seq<ChatEvent>, f: Filter)
    requires forall i :: 0 <= i < |others| ==> !Selects(f, others[i])
    ensures Count(chats + others, f) == Count(chats, f)
  {
    CountAppend(chats, others, f);
    CountZeroIff(others, f);
  }

  /** Every chat the filter selects counts once. */
  lemma CountAllSelected(chats: seq<ChatEvent>, f: Filter)
    requires forall i :: 0 <= i < |chats| ==> Selects(f, chats[i])
    ensures Count(chats, f) == |chats|
  {
    if chats != [] {
      var init := chats[..|chats| - 1];
      assert forall i :: 0 <= i < |init| ==> init[i] == chats[i];
      CountAllSelected(init, f);
    }
  }

  /** The user holds an `'active'` subscription record: the Plus entitlement. */
  predicate IsPlus(subs: map<string, SubRecord>, userId: string)
    ensures IsPlus(subs, userId) <==> userId in subs && subs[userId].status.GetOr("inactive") == "active"
  {
    userId in subs && subs[userId].status == Some("active")
  }

  /** The in-memory stand-in for the document store. */
  class Database {
    var chats: seq<ChatEvent>
    var subscriptions: map<string, SubRecord>

    constructor (chats: seq<ChatEvent>, subscriptions: map<string, SubRecord>)
      ensures this.chats == chats && this.subscriptions == subscriptions
    {
      this.chats := chats;
      this.subscriptions := subscriptions;
    }

    /** Streams the chats and counts those the filter keeps, one document at a time. */
    method CountWhere(f: Filter) returns (count: nat)
      ensures count == Count(chats, f)
    {
      count := 0;
      var i := 0;
      while i < |chats|
        invariant 0 <= i <= |chats|
        invariant count == Count(chats[..i], f)
      {
        assert chats[..i + 1][..i] == chats[..i];
        if Selects(f, chats[i]) {
          count := count + 1;
        }
        i := i + 1;
      }
      assert chats[..i] == chats;
    }

    /** `collection('chats').add(...)`: the log grows by exactly this document. */
    method Add(e: ChatEvent)
      modifies this
      ensures chats == old(chats) + [e]
      ensures subscriptions == old(subscriptions)
    {
      chats := chats + [e];
    }

    /** `document(key).set(record, merge=True)` with every field of the record given. */
    method Put(key: string, record: SubRecord)
      modifies this
      ensures subscriptions == old(subscriptions)[key := record]
      ensures chats == old(chats)
    {
      subscriptions := subscriptions[key := record];
    }

    /** `document(key).update({'status': ..., 'updatedAt': ...})` on an existing record. */
    method SetStatus(key: string, status: string, now: int)
      requires key in subscriptions
      modifies this
      ensures subscriptions == old(subscriptions)[key := old(subscriptions)[key].(status := Some(status), updatedAt := Some(now))]
      ensures chats == old(chats)
    {
      subscriptions := subscriptions[key := subscriptions[key].(status := Some(status), updatedAt := Some(now))];
    }

    /**
     * `where('subscriptionId', '==', id).limit(1)`: some record whose
     * subscription id equals `id` (a null id matches a null field), or none
     * if no record has it.
     */
    method FindBySubscriptionId(id: Option<string>) returns (key: Option<string>)
      ensures key.Some? ==> key.value in subscriptions && subscriptions[key.value].subscriptionId == id
      ensures key.None? ==> forall k :: k in subscriptions ==> subscriptions[k].subscriptionId != id
    {
      if k :| k in subscriptions && subscriptions[k].subscriptionId == id {
        key := Some(k);
      } else {
        key := None;
      }
    }
  }
}
