/**
 * The history endpoint: the user's chats with one persona, oldest first.
 * The handler collects the matching documents in query order and sorts them
 * with Python's stable sort on the timestamp, a missing timestamp counting
 * as 0. The sort is modelled as an in-place insertion sort by adjacent
 * swaps, which is stable for the same reason Python's is: two entries are
 * only ever exchanged when their keys differ.
 */
module History {

  import opened Wrappers
  import opened Http
  import opened Validation
  import opened Store

  /** One element of the `messages` list in the answer. */
  datatype HistoryEntry = HistoryEntry(id: string, message: string, reply: string, timestamp: Option<int>)

  /** The sort key `x.get('timestamp') or 0`. */
  function Key(h: HistoryEntry): int {
    h.timestamp.GetOr(0)
  }

  function Entry(e: ChatEvent): HistoryEntry {
    HistoryEntry(e.id, e.message, e.reply, e.timestamp)
  }

  /** The entries the loop over the user's documents appends, in query order. */
  function Matching(chats: seq<ChatEvent>, userId: string, persona: string): (r: seq<HistoryEntry>)
    ensures |r| <= |chats|
  {
    if chats == [] then []
    else
      var last := chats[|chats| - 1];
      Matching(chats[..|chats| - 1], userId, persona) +
      (if Selects(SamePersona(userId, persona), last) then [Entry(last)] else [])
  }

  /** The history has as many entries as the conversation count of the chat endpoint. */
  lemma {:induction false} MatchingCount(chats: seq<ChatEvent>, userId: string, persona: string)
    ensures |Matching(chats, userId, persona)| == Count(chats, SamePersona(userId, persona))
  {
    if chats != [] {
      MatchingCount(chats[..|chats| - 1], userId, persona);
    }
  }

  /** `h` is the entry of some stored chat of this user with this persona. */
  ghost predicate FromChat(chats: seq<ChatEvent>, userId: string, persona: string, h: HistoryEntry) {
    exists j :: 0 <= j < |chats| && Selects(SamePersona(userId, persona), chats[j]) && h == Entry(chats[j])
  }

  /** Every entry comes from a stored chat of this user with this persona. */
  lemma {:induction false} MatchingSound(chats: seq<ChatEvent>, userId: string, persona: string)
    ensures forall h :: h in Matching(chats, userId, persona) ==> FromChat(chats, userId, persona, h)
  {
    if chats != [] {
      var init := chats[..|chats| - 1];
      MatchingSound(init, userId, persona);
      var r := Matching(chats, userId, persona);
      var r0 := Matching(init, userId, persona);
      forall h | h in r
        ensures FromChat(chats, userId, persona, h)
      {
        if h in r0 {
          var j :| 0 <= j < |init| && Selects(SamePersona(userId, persona), init[j]) && h == Entry(init[j]);
          assert chats[j] == init[j];
        } else {
          assert h == Entry(chats[|chats| - 1]);
        }
      }
    }
  }

  // ---------------------------------------------------------------------------
  // Sortedness and stability
  // ---------------------------------------------------------------------------

  predicate SortedByKey(s: seq<HistoryEntry>) {
    forall i, j :: 0 <= i < j < |s| ==> Key(s[i]) <= Key(s[j])
  }

  /** The entries of `s` whose key is `k`, in their order in `s`. */
  function WithKey(s: seq<HistoryEntry>, k: int): (r: seq<HistoryEntry>)
    ensures |r| <= |s|
  {
    if s == [] then [] else (if Key(s[0]) == k then [s[0]] else []) + WithKey(s[1..], k)
  }

  /**
   * `r` is `s` rearranged so that entries with equal keys keep their
   * relative order: what a stable sort produces.
   */
  ghost predicate StablePermutation(r: seq<HistoryEntry>, s: seq<HistoryEntry>) {
    forall k :: WithKey(r, k) == WithKey(s, k)
  }

  lemma {:induction false} WithKeyAppend(a: seq<HistoryEntry>, b: seq<HistoryEntry>, k: int)
    ensures WithKey(a + b, k) == WithKey(a, k) + WithKey(b, k)
  {
    if a != [] {
      assert (a + b)[1..] == a[1..] + b;
      WithKeyAppend(a[1..], b, k);
    } else {
      assert a + b == b;
    }
  }

  /** Exchanging two neighbours with different keys keeps every key's entries in order. */
  lemma SwapKeepsStable(s: seq<HistoryEntry>, p: nat)
    requires p + 1 < |s| && Key(s[p]) != Key(s[p + 1])
    ensures StablePermutation(s[p := s[p + 1]][p + 1 := s[p]], s)
  {
    var t := s[p := s[p + 1]][p + 1 := s[p]];
    var front, back := s[..p], s[p + 2..];
    assert s == front + [s[p], s[p + 1]] + back;
    assert t == front + [s[p + 1], s[p]] + back;
    forall k ensures WithKey(t, k) == WithKey(s, k) {
      WithKeyAppend(front + [s[p], s[p + 1]], back, k);
      WithKeyAppend(front, [s[p], s[p + 1]], k);
      WithKeyAppend(front + [s[p + 1], s[p]], back, k);
      WithKeyAppend(front, [s[p + 1], s[p]], k);
      assert [s[p], s[p + 1]][1..] == [s[p + 1]];
      assert [s[p + 1], s[p]][1..] == [s[p]];
    }
  }

  /** An entry occurs in `s` as often as it occurs among the entries of its own key. */
  lemma {:induction false} OccurrencesByKey(s: seq<HistoryEntry>, x: HistoryEntry)
    ensures multiset(s)[x] == multiset(WithKey(s, Key(x)))[x]
  {
    if s != [] {
      OccurrencesByKey(s[1..], x);
      assert s == [s[0]] + s[1..];
    }
  }

  /** A stable rearrangement is in particular a permutation. */
  lemma StableIsPermutation(r: seq<HistoryEntry>, s: seq<HistoryEntry>)
    requires StablePermutation(r, s)
    ensures multiset(r) == multiset(s)
  {
    forall x ensures multiset(r)[x] == multiset(s)[x] {
      OccurrencesByKey(r, x);
      OccurrencesByKey(s, x);
      assert WithKey(r, Key(x)) == WithKey(s, Key(x));
    }
  }

  lemma {:induction false} WithKeyMember(s: seq<HistoryEntry>, k: int)
    requires WithKey(s, k) != []
    ensures exists i :: 0 <= i < |s| && Key(s[i]) == k
  {
    if Key(s[0]) != k {
      WithKeyMember(s[1..], k);
      var i :| 0 <= i < |s[1..]| && Key(s[1..][i]) == k;
      assert s[i + 1] == s[1..][i];
    }
  }

  /**
   * The sorted stable rearrangement is unique: the history's order is fully
   * determined by the timestamps and the query order.
   */
  lemma {:induction false} SortedStableUnique(r1: seq<HistoryEntry>, r2: seq<HistoryEntry>)
    requires SortedByKey(r1) && SortedByKey(r2)
    requires StablePermutation(r1, r2)
    ensures r1 == r2
    decreases |r1|
  {
    StableIsPermutation(r1, r2);
    assert |r1| == |multiset(r1)| == |multiset(r2)| == |r2|;
    if r1 != [] {
      var k1, k2 := Key(r1[0]), Key(r2[0]);
      assert WithKey(r1, k1) != [] && WithKey(r2, k2) != [];
      assert WithKey(r2, k1) == WithKey(r1, k1);
      WithKeyMember(r2, k1);
      WithKeyMember(r1, k2);
      assert k1 == k2;
      assert r1[0] == WithKey(r1, k1)[0] == WithKey(r2, k1)[0] == r2[0];
      forall k ensures WithKey(r1[1..], k) == WithKey(r2[1..], k) {
        var head := if Key(r1[0]) == k then [r1[0]] else [];
        assert WithKey(r1, k) == head + WithKey(r1[1..], k);
        assert WithKey(r2, k) == head + WithKey(r2[1..], k);
        assert WithKey(r1[1..], k) == WithKey(r1, k)[|head|..];
        assert WithKey(r2[1..], k) == WithKey(r2, k)[|head|..];
      }
      SortedStableUnique(r1[1..], r2[1..]);
      assert r1 == [r1[0]] + r1[1..];
      assert r2 == [r2[0]] + r2[1..];
    }
  }

  lemma StableTransitive(r: seq<HistoryEntry>, s: seq<HistoryEntry>, t: seq<HistoryEntry>)
    requires StablePermutation(r, s) && StablePermutation(s, t)
    ensures StablePermutation(r, t)
  {
    forall k ensures WithKey(r, k) == WithKey(t, k) {
      assert WithKey(r, k) == WithKey(s, k);
    }
  }

  /**
   * While `a[i]` sinks, it sits at `j`: the other entries of `s[..i + 1]`
   * are in order and every entry after `j` has a larger key.
   */
  predicate Sinking(s: seq<HistoryEntry>, j: nat, i: nat)
    requires j <= i < |s|
  {
    && (forall p, q :: 0 <= p < q <= i && p != j && q != j ==> Key(s[p]) <= Key(s[q]))
    && (forall q :: j < q <= i ==> Key(s[j]) < Key(s[q]))
  }

  lemma SinkStart(s: seq<HistoryEntry>, i: nat)
    requires i < |s| && SortedByKey(s[..i])
    ensures Sinking(s, i, i)
  {
    assert forall p :: 0 <= p < i ==> s[..i][p] == s[p];
  }

  lemma SinkStep(s: seq<HistoryEntry>, j: nat, i: nat)
    requires 0 < j <= i < |s| && Sinking(s, j, i) && Key(s[j - 1]) > Key(s[j])
    ensures Sinking(s[j - 1 := s[j]][j := s[j - 1]], j - 1, i)
  {
  }

  lemma SinkDone(s: seq<HistoryEntry>, j: nat, i: nat)
    requires j <= i < |s| && Sinking(s, j, i)
    requires j == 0 || Key(s[j - 1]) <= Key(s[j])
    ensures SortedByKey(s[..i + 1])
  {
    forall p, q | 0 <= p < q <= i ensures Key(s[p]) <= Key(s[q]) {
      if q == j && p < j - 1 {
        assert Key(s[p]) <= Key(s[j - 1]);
      }
    }
  }

  /**
   * One step of insertion sort: with `a[..i]` sorted, moves `a[i]` left past
   * every entry with a larger key.
   */
  method Sink(a: array<HistoryEntry>, i: nat)
    requires i < a.Length && SortedByKey(a[..i])
    modifies a
    ensures SortedByKey(a[..i + 1])
    ensures StablePermutation(a[..], old(a[..]))
  {
    SinkStart(a[..], i);
    var j := i;
    while j > 0 && Key(a[j - 1]) > Key(a[j])
      invariant 0 <= j <= i
      invariant Sinking(a[..], j, i)
      invariant StablePermutation(a[..], old(a[..]))
    {
      ghost var before := a[..];
      a[j - 1], a[j] := a[j], a[j - 1];
      assert a[..] == before[j - 1 := before[j]][j := before[j - 1]];
      SinkStep(before, j, i);
      SwapKeepsStable(before, j - 1);
      StableTransitive(a[..], before, old(a[..]));
      j := j - 1;
    }
    SinkDone(a[..], j, i);
  }

  /** `messages.sort(key=...)`, in place. */
  method SortByKey(a: array<HistoryEntry>)
    modifies a
    ensures SortedByKey(a[..])
    ensures StablePermutation(a[..], old(a[..]))
  {
    var i := 0;
    while i < a.Length
      invariant 0 <= i <= a.Length
      invariant SortedByKey(a[..i])
      invariant StablePermutation(a[..], old(a[..]))
    {
      ghost var before := a[..];
      Sink(a, i);
      StableTransitive(a[..], before, old(a[..]));
      i := i + 1;
    }
    assert a[..a.Length] == a[..];
  }

  // ---------------------------------------------------------------------------
  // The handler
  // ---------------------------------------------------------------------------

  datatype HistoryResponse = Messages(entries: seq<HistoryEntry>) | Rejected(error: ErrorKind)

  /** The checks before the query: the user id and the persona, which defaults to "Luna". */
  function HistoryGate(dbConfigured: bool, userId: Option<string>, persona: Option<string>): (r: Result<(string, string), ErrorKind>)
    ensures r.Success? ==> ValidateUserId(Str(r.value.0)) && ValidatePersona(Str(r.value.1))
    ensures r.Success? <==> dbConfigured && ValidateUserId(Arg(userId)) && ValidatePersona(Str(persona.GetOr("Luna")))
    ensures r.Failure? ==> r.error in {DatabaseNotConfigured, UserIdRequired, InvalidUserId, InvalidPersona}
  {
    if !dbConfigured then Failure(DatabaseNotConfigured)
    else if !Truthy(Arg(userId)) then Failure(UserIdRequired)
    else if !ValidateUserId(Arg(userId)) then Failure(InvalidUserId)
    else if !ValidatePersona(Str(persona.GetOr("Luna"))) then Failure(InvalidPersona)
    else Success((userId.value, persona.GetOr("Luna")))
  }

  /** The loop over the user's documents, keeping those with the persona. */
  method CollectMatching(db: Database, userId: string, persona: string) returns (messages: seq<HistoryEntry>)
    ensures messages == Matching(db.chats, userId, persona)
  {
    messages := [];
    var i := 0;
    while i < |db.chats|
      invariant 0 <= i <= |db.chats|
      invariant messages == Matching(db.chats[..i], userId, persona)
    {
      assert db.chats[..i + 1][..i] == db.chats[..i];
      var doc := db.chats[i];
      if doc.userId == userId && doc.persona == persona {
        messages := messages + [Entry(doc)];
      }
      i := i + 1;
    }
    assert db.chats[..i] == db.chats;
  }

  /**
   * `get_chat_history` with the missing timestamp read as 0: the user's
   * chats with the persona, sorted stably by timestamp; an empty list when
   * the query fails.
   */
  method History(db: Database, dbConfigured: bool, userId: Option<string>, persona: Option<string>, queryFails: bool)
    returns (response: HistoryResponse)
    ensures var gate := HistoryGate(dbConfigured, userId, persona);
            && (gate.Failure? <==> response.Rejected?)
            && (gate.Failure? ==> response.error == gate.error)
            && (gate.Success? && queryFails ==> response == Messages([]))
            && (gate.Success? && !queryFails ==>
                  && SortedByKey(response.entries)
                  && StablePermutation(response.entries, Matching(db.chats, gate.value.0, gate.value.1)))
  {
    var gate := HistoryGate(dbConfigured, userId, persona);
    if gate.Failure? {
      return Rejected(gate.error);
    }
    if queryFails {
      return Messages([]);
    }
    var messages := CollectMatching(db, gate.value.0, gate.value.1);
    var a := new HistoryEntry[|messages|](i requires 0 <= i < |messages| => messages[i]);
    assert a[..] == messages;
    SortByKey(a);
    response := Messages(a[..]);
  }

  /**
   * Whatever the history answers for an accepted request holds exactly the
   * matching chats, each once, and two answers to the same store agree.
   */
  lemma HistoryIsDetermined(r1: seq<HistoryEntry>, r2: seq<HistoryEntry>, chats: seq<ChatEvent>, userId: string, persona: string)
    requires SortedByKey(r1) && StablePermutation(r1, Matching(chats, userId, persona))
    requires SortedByKey(r2) && StablePermutation(r2, Matching(chats, userId, persona))
    ensures r1 == r2
    ensures multiset(r1) == multiset(Matching(chats, userId, persona))
  {
    StableIsPermutation(r1, Matching(chats, userId, persona));
    SortedStableUnique(r1, r2);
  }

  // ---------------------------------------------------------------------------
  // The sort as written
  // ---------------------------------------------------------------------------

  /**
   * Stored timestamps are datetimes, so `x.get('timestamp') or 0` yields a
   * datetime for some entries and the int 0 for others; sorting a list that
   * holds both compares the two and raises TypeError, which the query's
   * `except` turns into an empty history.
   */
  predicate SortRaises(s: seq<HistoryEntry>) {
    (exists i :: 0 <= i < |s| && s[i].timestamp.Some?) && (exists i :: 0 <= i < |s| && s[i].timestamp.None?)
  }

  /** `get_chat_history` as written, including the TypeError of a mixed sort. */
  method HistoryAsWritten(db: Database, dbConfigured: bool, userId: Option<string>, persona: Option<string>, queryFails: bool)
    returns (response: HistoryResponse)
    ensures var gate := HistoryGate(dbConfigured, userId, persona);
            && (gate.Failure? <==> response.Rejected?)
            && (gate.Success? && (queryFails || SortRaises(Matching(db.chats, gate.value.0, gate.value.1))) ==>
                  response == Messages([]))
            && (gate.Success? && !queryFails && !SortRaises(Matching(db.chats, gate.value.0, gate.value.1)) ==>
                  && SortedByKey(response.entries)
                  && StablePermutation(response.entries, Matching(db.chats, gate.value.0, gate.value.1)))
  {
    var gate := HistoryGate(dbConfigured, userId, persona);
    if gate.Failure? {
      return Rejected(gate.error);
    }
    if queryFails {
      return Messages([]);
    }
    var messages := CollectMatching(db, gate.value.0, gate.value.1);
    if SortRaises(messages) {
      return Messages([]);
    }
    var a := new HistoryEntry[|messages|](i requires 0 <= i < |messages| => messages[i]);
    assert a[..] == messages;
    SortByKey(a);
    response := Messages(a[..]);
  }

  /**
   * A user with two chats with a persona, one stamped and one written before
   * its timestamp was set, gets an empty history from the code as written,
   * though the two entries are there to show.
   */
  lemma MixedTimestampsHideHistory(u: string)
    requires ValidateUserId(Str(u))
    ensures var chats := [ChatEvent("a", u, "Luna", "hi", "hello", Some(100)),
                          ChatEvent("b", u, "Luna", "again", "welcome back", None)];
            && HistoryGate(true, Some(u), None) == Success((u, "Luna"))
            && |Matching(chats, u, "Luna")| == 2
            && SortRaises(Matching(chats, u, "Luna"))
  {
    var chats := [ChatEvent("a", u, "Luna", "hi", "hello", Some(100)),
                  ChatEvent("b", u, "Luna", "again", "welcome back", None)];
    assert chats[..1][..0] == [];
    var m0 := Matching(chats[..1], u, "Luna");
    assert m0 == [Entry(chats[0])];
    var m := Matching(chats, u, "Luna");
    assert m == m0 + [Entry(chats[1])];
    assert m[0].timestamp.Some? && m[1].timestamp.None?;
  }
}
