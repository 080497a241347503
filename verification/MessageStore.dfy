/** The in-memory message store: expiry, purging, selective retrieval and deletion. */
module MessageStore {
  import opened Bytes
  import opened Seqs
  import opened TextMessage

  datatype Stored = Stored(message: TextMessage, expiresAt: int, receivedAt: int)

  /** Recipient PID to messages in arrival order. Times are nanoseconds. */
  type Boxes = map<u32, seq<Stored>>

  const SECOND := 1_000_000_000

  // ---------- filters ----------

  function Unexpired(now: int): Stored -> bool {
    (sm: Stored) => now < sm.expiresAt
  }

  function WithID(ids: seq<u32>): Stored -> bool {
    (sm: Stored) => sm.message.id in ids
  }

  function Not(p: Stored -> bool): Stored -> bool {
    (sm: Stored) => !p(sm)
  }

  function And(p: Stored -> bool, q: Stored -> bool): Stored -> bool {
    (sm: Stored) => p(sm) && q(sm)
  }

  function Messages(s: seq<Stored>): seq<TextMessage> {
    seq(|s|, i requires 0 <= i < |s| => s[i].message)
  }

  lemma MessagesNext(s: seq<Stored>, sm: Stored)
    ensures Messages(s + [sm]) == Messages(s) + [sm.message]
  {
  }

  function Box(boxes: Boxes, pid: u32): seq<Stored> {
    if pid in boxes then boxes[pid] else []
  }

  /** A recipient without messages has no box. */
  function WithBox(boxes: Boxes, pid: u32, box: seq<Stored>): Boxes {
    if box == [] then boxes - {pid} else boxes[pid := box]
  }

  function Purged(boxes: Boxes, now: int): Boxes {
    map pid | pid in boxes && Filter(boxes[pid], Unexpired(now)) != [] :: Filter(boxes[pid], Unexpired(now))
  }

  /** The boxes when all but `todo` are purged. */
  function PurgedExcept(boxes: Boxes, todo: set<u32>, now: int): Boxes {
    map pid | pid in boxes && (pid in todo || Filter(boxes[pid], Unexpired(now)) != [])
      :: if pid in todo then boxes[pid] else Filter(boxes[pid], Unexpired(now))
  }

  lemma OneBoxPurged(boxes: Boxes, todo: set<u32>, pid: u32, now: int)
    requires todo <= boxes.Keys && pid in todo
    ensures var m, valid := PurgedExcept(boxes, todo, now), Filter(boxes[pid], Unexpired(now));
            && pid in m && m[pid] == boxes[pid]
            && PurgedExcept(boxes, todo - {pid}, now) == WithBox(m, pid, valid)
  {
  }

  lemma PurgedIs(boxes: Boxes, now: int)
    ensures forall p :: p in Purged(boxes, now) <==> p in boxes && exists sm :: sm in boxes[p] && now < sm.expiresAt
    ensures forall p :: p in Purged(boxes, now) ==>
              Purged(boxes, now)[p] == Filter(boxes[p], (sm: Stored) => now < sm.expiresAt)
  {
    forall p | p in boxes
      ensures Filter(boxes[p], Unexpired(now)) == Filter(boxes[p], (sm: Stored) => now < sm.expiresAt)
      ensures Filter(boxes[p], Unexpired(now)) != [] <==> exists sm :: sm in boxes[p] && now < sm.expiresAt
    {
      FilterAgree(boxes[p], Unexpired(now), (sm: Stored) => now < sm.expiresAt);
      NotEmptyIff(boxes[p], now);
    }
  }

  lemma NotEmptyIff(box: seq<Stored>, now: int)
    ensures Filter(box, Unexpired(now)) != [] <==> exists sm :: sm in box && now < sm.expiresAt
  {
    FilterMembers(box, Unexpired(now));
    var kept := Filter(box, Unexpired(now));
    if kept != [] {
      assert kept[0] in kept;
    }
  }

  // ---------- calls ----------

  datatype Op =
    | Add(pid: u32, message: TextMessage)
    | Get(pid: u32)
    | GetAndClear(pid: u32)
    | GetByIDs(pid: u32, ids: seq<u32>, deleteAfter: bool)
    | Delete(pid: u32, ids: seq<u32>)
    | Purge

  datatype Call = Call(now: int, op: Op)

  function Arriving(call: Call): Stored
    requires call.op.Add?
  {
    Stored(call.op.message, call.now + call.op.message.lifeTime * SECOND, call.now)
  }

  function Step(boxes: Boxes, call: Call): Boxes {
    match call.op
    case Add(pid, _) => boxes[pid := Box(boxes, pid) + [Arriving(call)]]
    case Get(_) => boxes
    case GetAndClear(pid) => boxes - {pid}
    case GetByIDs(pid, ids, deleteAfter) =>
      if pid in boxes && deleteAfter
      then WithBox(boxes, pid, Filter(boxes[pid], And(Unexpired(call.now), Not(WithID(ids)))))
      else boxes
    case Delete(pid, ids) =>
      if pid in boxes then WithBox(boxes, pid, Filter(boxes[pid], Not(WithID(ids)))) else boxes
    case Purge => Purged(boxes, call.now)
  }

  function Answer(boxes: Boxes, call: Call): seq<TextMessage> {
    match call.op
    case Get(pid) => Messages(Filter(Box(boxes, pid), Unexpired(call.now)))
    case GetAndClear(pid) => Messages(Filter(Box(boxes, pid), Unexpired(call.now)))
    case GetByIDs(pid, ids, _) => Messages(Filter(Box(boxes, pid), And(Unexpired(call.now), WithID(ids))))
    case _ => []
  }

  class MessageStore {
    var messages: Boxes
    var nextMessageID: u32

    constructor ()
      ensures messages == map[] && nextMessageID == 0
    {
      messages := map[];
      nextMessageID := 0;
    }

    method NextMessageID() returns (id: u32)
      modifies this`nextMessageID
      ensures id == nextMessageID == (old(nextMessageID) + 1) % 0x1_0000_0000
    {
      nextMessageID := (nextMessageID + 1) % 0x1_0000_0000;
      id := nextMessageID;
    }

    method AddMessage(pid: u32, msg: TextMessage, now: int)
      modifies this`messages
      ensures messages == Step(old(messages), Call(now, Add(pid, msg)))
      ensures pid in messages && forall p :: p != pid ==> (p in messages <==> p in old(messages))
      ensures forall p :: p in old(messages) && p != pid ==> messages[p] == old(messages)[p]
      ensures messages[pid]
           == (if pid in old(messages) then old(messages)[pid] else [])
              + [Stored(msg, now + msg.lifeTime * 1_000_000_000, now)]
    {
      var expiresAt := now + msg.lifeTime * SECOND;
      var box := if pid in messages then messages[pid] else [];
      messages := messages[pid := box + [Stored(msg, expiresAt, now)]];
    }

    method GetMessages(pid: u32, now: int) returns (result: seq<TextMessage>)
      ensures result == Answer(messages, Call(now, Get(pid)))
    {
      result := [];
      if pid in messages {
        result := Live(messages[pid], now);
      }
    }

    method GetAndClearMessages(pid: u32, now: int) returns (result: seq<TextMessage>)
      modifies this`messages
      ensures result == Answer(old(messages), Call(now, GetAndClear(pid)))
      ensures messages == Step(old(messages), Call(now, GetAndClear(pid)))
    {
      result := [];
      if pid in messages {
        result := Live(messages[pid], now);
        messages := messages - {pid};
      }
    }

    static method Live(stored: seq<Stored>, now: int) returns (result: seq<TextMessage>)
      ensures result == Messages(Filter(stored, Unexpired(now)))
    {
      result := [];
      for i := 0 to |stored|
        invariant result == Messages(Filter(stored[..i], Unexpired(now)))
      {
        assert stored[..i + 1][..i] == stored[..i];
        if now < stored[i].expiresAt {
          result := result + [stored[i].message];
        }
      }
      assert stored[..|stored|] == stored;
    }

    static method IdSet(ids: seq<u32>) returns (idSet: set<u32>)
      ensures forall id :: id in idSet <==> id in ids
    {
      idSet := {};
      for i := 0 to |ids|
        invariant forall id :: id in idSet <==> id in ids[..i]
      {
        assert ids[..i + 1] == ids[..i] + [ids[i]];
        idSet := idSet + {ids[i]};
      }
      assert ids[..|ids|] == ids;
    }

    /** The unexpired messages asked for, and those that stay if the answer is deleted. */
    static method Select(stored: seq<Stored>, ids: seq<u32>, deleteAfter: bool, now: int)
      returns (result: seq<TextMessage>, remaining: seq<Stored>)
      ensures result == Messages(Filter(stored, And(Unexpired(now), WithID(ids))))
      ensures deleteAfter ==> remaining == Filter(stored, And(Unexpired(now), Not(WithID(ids))))
    {
      var idSet := IdSet(ids);
      result, remaining := [], [];
      for i := 0 to |stored|
        invariant result == Messages(Filter(stored[..i], And(Unexpired(now), WithID(ids))))
        invariant deleteAfter ==> remaining == Filter(stored[..i], And(Unexpired(now), Not(WithID(ids))))
      {
        FilterNext(stored, i, And(Unexpired(now), WithID(ids)));
        FilterNext(stored, i, And(Unexpired(now), Not(WithID(ids))));
        var sm := stored[i];
        if now < sm.expiresAt {
          if sm.message.id in idSet {
            MessagesNext(Filter(stored[..i], And(Unexpired(now), WithID(ids))), sm);
            result := result + [sm.message];
            if !deleteAfter {
              remaining := remaining + [sm];
            }
          } else {
            remaining := remaining + [sm];
          }
        }
      }
      assert stored[..|stored|] == stored;
    }

    method GetMessagesByIDs(pid: u32, ids: seq<u32>, deleteAfter: bool, now: int) returns (result: seq<TextMessage>)
      modifies this`messages
      ensures result == Answer(old(messages), Call(now, GetByIDs(pid, ids, deleteAfter)))
      ensures messages == Step(old(messages), Call(now, GetByIDs(pid, ids, deleteAfter)))
    {
      result := [];
      if pid !in messages {
        return;
      }
      var remaining;
      result, remaining := Select(messages[pid], ids, deleteAfter, now);
      if deleteAfter {
        if |remaining| == 0 {
          messages := messages - {pid};
        } else {
          messages := messages[pid := remaining];
        }
      }
    }

    method DeleteMessages(pid: u32, ids: seq<u32>, now: int)
      modifies this`messages
      ensures messages == Step(old(messages), Call(now, Delete(pid, ids)))
    {
      if pid !in messages {
        return;
      }
      var stored := messages[pid];
      var idSet := IdSet(ids);
      var remaining := [];
      for i := 0 to |stored|
        invariant messages == old(messages)
        invariant remaining == Filter(stored[..i], Not(WithID(ids)))
      {
        assert stored[..i + 1][..i] == stored[..i];
        if stored[i].message.id !in idSet {
          remaining := remaining + [stored[i]];
        }
      }
      assert stored[..|stored|] == stored;
      if |remaining| == 0 {
        messages := messages - {pid};
      } else {
        messages := messages[pid := remaining];
      }
    }

    static method KeepValid(stored: seq<Stored>, now: int) returns (valid: seq<Stored>)
      ensures valid == Filter(stored, Unexpired(now))
    {
      valid := [];
      for i := 0 to |stored|
        invariant valid == Filter(stored[..i], Unexpired(now))
      {
        assert stored[..i + 1][..i] == stored[..i];
        if now < stored[i].expiresAt {
          valid := valid + [stored[i]];
        }
      }
      assert stored[..|stored|] == stored;
    }

    /** The boxes are visited in any order. */
    method PurgeExpired(now: int)
      modifies this`messages
      ensures messages == Step(old(messages), Call(now, Purge))
      ensures forall p :: p in messages
                <==> p in old(messages) && exists sm :: sm in old(messages)[p] && now < sm.expiresAt
      ensures forall p :: p in messages ==>
                messages[p] == Filter(old(messages)[p], (sm: Stored) => now < sm.expiresAt)
    {
      var todo := messages.Keys;
      ghost var boxes := messages;
      while todo != {}
        invariant todo <= boxes.Keys && messages == PurgedExcept(boxes, todo, now)
        decreases todo
      {
        var pid :| pid in todo;
        OneBoxPurged(boxes, todo, pid, now);
        var valid := KeepValid(messages[pid], now);
        if |valid| == 0 {
          messages := messages - {pid};
        } else {
          messages := messages[pid := valid];
        }
        todo := todo - {pid};
      }
      PurgedIs(boxes, now);
    }
  }

  // ---------- the store that never purges ----------

  /** The store after a run of calls that starts from an empty one. */
  function After(calls: seq<Call>): Boxes {
    if calls == [] then map[] else Step(After(calls[..|calls| - 1]), calls[|calls| - 1])
  }

  /** A call asks for the removal of a recipient's message with this id. */
  predicate Removes(op: Op, pid: u32, id: u32) {
    match op
    case GetAndClear(p) => p == pid
    case GetByIDs(p, ids, deleteAfter) => p == pid && deleteAfter && id in ids
    case Delete(p, ids) => p == pid && id in ids
    case _ => false
  }

  function Spared(op: Op, pid: u32): Stored -> bool {
    (sm: Stored) => !Removes(op, pid, sm.message.id)
  }

  /** What a recipient would have if only explicit removals removed anything. */
  function NeverPurged(calls: seq<Call>, pid: u32): seq<Stored> {
    if calls == [] then []
    else
      var before, call := NeverPurged(calls[..|calls| - 1], pid), calls[|calls| - 1];
      if call.op.Add? && call.op.pid == pid then before + [Arriving(call)]
      else Filter(before, Spared(call.op, pid))
  }

  predicate Monotone(calls: seq<Call>) {
    forall i, j :: 0 <= i < j < |calls| ==> calls[i].now <= calls[j].now
  }

  /** The same messages are alive from now on. */
  ghost predicate SameLive(box: seq<Stored>, full: seq<Stored>, now: int) {
    forall t: int :: t >= now ==> Filter(box, Unexpired(t)) == Filter(full, Unexpired(t))
  }

  lemma KeepThenExpire(box: seq<Stored>, keep: Stored -> bool, spared: Stored -> bool, now: int, t: int)
    requires t >= now
    requires forall sm :: spared(sm) && now < sm.expiresAt ==> keep(sm)
    requires forall sm :: keep(sm) ==> spared(sm)
    ensures Filter(Filter(box, keep), Unexpired(t)) == Filter(Filter(box, Unexpired(t)), spared)
  {
    FilterFilter(box, keep, Unexpired(t), And(Unexpired(t), spared));
    FilterFilter(box, Unexpired(t), spared, And(Unexpired(t), spared));
  }

  /** Removing from both keeps them the same, even if expired messages are dropped from one on the way. */
  lemma RemovalKeepsSameLive(box: seq<Stored>, full: seq<Stored>, keep: Stored -> bool, spared: Stored -> bool,
                             now: int)
    requires SameLive(box, full, now)
    requires forall sm :: spared(sm) && now < sm.expiresAt ==> keep(sm)
    requires forall sm :: keep(sm) ==> spared(sm)
    ensures SameLive(Filter(box, keep), Filter(full, spared), now)
  {
    forall t: int | t >= now
      ensures Filter(Filter(box, keep), Unexpired(t)) == Filter(Filter(full, spared), Unexpired(t))
    {
      KeepThenExpire(box, keep, spared, now, t);
      KeepThenExpire(full, spared, spared, now, t);
    }
  }

  /** What a step keeps of a recipient's box. */
  function Keeps(call: Call, pid: u32): Stored -> bool {
    match call.op
    case GetByIDs(p, ids, true) => if p == pid then And(Unexpired(call.now), Not(WithID(ids))) else Spared(call.op, pid)
    case Purge => Unexpired(call.now)
    case _ => Spared(call.op, pid)
  }

  lemma BoxOfStep(boxes: Boxes, call: Call, pid: u32)
    ensures Box(Step(boxes, call), pid)
         == if call.op.Add? && call.op.pid == pid then Box(boxes, pid) + [Arriving(call)]
            else Filter(Box(boxes, pid), Keeps(call, pid))
  {
    var box, op := Box(boxes, pid), call.op;
    if op.Delete? && op.pid == pid {
      FilterAgree(box, Keeps(call, pid), Not(WithID(op.ids)));
    } else if op.GetAndClear? && op.pid == pid {
      FilterIsEmpty(box, Keeps(call, pid));
    } else if !op.Purge? && !(op.GetByIDs? && op.deleteAfter && op.pid == pid) {
      FilterAll(box, Keeps(call, pid));
    }
  }

  lemma AdditionKeepsSameLive(box: seq<Stored>, full: seq<Stored>, sm: Stored, now: int)
    requires SameLive(box, full, now)
    ensures SameLive(box + [sm], full + [sm], now)
  {
    forall t: int | t >= now
      ensures Filter(box + [sm], Unexpired(t)) == Filter(full + [sm], Unexpired(t))
    {
      FilterConcat(box, [sm], Unexpired(t));
      FilterConcat(full, [sm], Unexpired(t));
    }
  }

  lemma StepKeepsSameLive(boxes: Boxes, calls: seq<Call>, call: Call, pid: u32)
    requires SameLive(Box(boxes, pid), NeverPurged(calls, pid), call.now)
    ensures SameLive(Box(Step(boxes, call), pid), NeverPurged(calls + [call], pid), call.now)
  {
    assert (calls + [call])[..|calls|] == calls;
    BoxOfStep(boxes, call, pid);
    if call.op.Add? && call.op.pid == pid {
      AdditionKeepsSameLive(Box(boxes, pid), NeverPurged(calls, pid), Arriving(call), call.now);
    } else {
      RemovalKeepsSameLive(Box(boxes, pid), NeverPurged(calls, pid), Keeps(call, pid), Spared(call.op, pid), call.now);
    }
  }

  lemma FilterIsEmpty(s: seq<Stored>, p: Stored -> bool)
    requires forall x :: x in s ==> !p(x)
    ensures Filter(s, p) == []
  {
    FilterMembers(s, p);
    if Filter(s, p) != [] {
      assert Filter(s, p)[0] in Filter(s, p);
    }
  }

  lemma {:induction false} Simulates(calls: seq<Call>, pid: u32, now: int)
    requires Monotone(calls) && (calls != [] ==> calls[|calls| - 1].now <= now)
    ensures SameLive(Box(After(calls), pid), NeverPurged(calls, pid), now)
  {
    if calls == [] {
    } else {
      var n := |calls| - 1;
      var call := calls[n];
      Simulates(calls[..n], pid, call.now);
      StepKeepsSameLive(After(calls[..n]), calls[..n], call, pid);
      assert calls[..n] + [call] == calls;
    }
  }

  // ---------- the theorems ----------

  predicate IsQuery(op: Op) {
    op.Get? || op.GetAndClear? || op.GetByIDs?
  }

  /** Not expired, and asked for. */
  function Wanted(call: Call): Stored -> bool {
    (sm: Stored) => call.now < sm.expiresAt && (call.op.GetByIDs? ==> sm.message.id in call.op.ids)
  }

  lemma AnswerOfBox(boxes: Boxes, query: Call)
    requires IsQuery(query.op)
    ensures Answer(boxes, query) == Messages(Filter(Box(boxes, query.op.pid), Wanted(query)))
  {
    var box := Box(boxes, query.op.pid);
    if query.op.GetByIDs? {
      FilterAgree(box, And(Unexpired(query.now), WithID(query.op.ids)), Wanted(query));
    } else {
      FilterAgree(box, Unexpired(query.now), Wanted(query));
    }
  }

  lemma WantedAgree(box: seq<Stored>, full: seq<Stored>, query: Call)
    requires Filter(box, Unexpired(query.now)) == Filter(full, Unexpired(query.now))
    ensures Filter(box, Wanted(query)) == Filter(full, Wanted(query))
  {
    FilterFilter(box, Unexpired(query.now), Wanted(query), Wanted(query));
    FilterFilter(full, Unexpired(query.now), Wanted(query), Wanted(query));
  }

  /**
   * Wherever purges happened, a query answers with exactly the unexpired messages asked for
   * that the never-purging store has, in arrival order.
   */
  lemma AnswersAreExact(calls: seq<Call>, query: Call)
    requires Monotone(calls + [query]) && IsQuery(query.op)
    ensures Answer(After(calls), query) == Messages(Filter(NeverPurged(calls, query.op.pid), Wanted(query)))
  {
    var pid := query.op.pid;
    assert forall i :: 0 <= i < |calls| ==> (calls + [query])[i] == calls[i];
    assert (calls + [query])[|calls|] == query;
    Simulates(calls, pid, query.now);
    AnswerOfBox(After(calls), query);
    WantedAgree(Box(After(calls), pid), NeverPurged(calls, pid), query);
  }

  /** The call at `i` delivered to this recipient, and no later call asked for that message's removal. */
  predicate DeliveredAndKept(calls: seq<Call>, pid: u32, i: nat) {
    && i < |calls| && calls[i].op.Add? && calls[i].op.pid == pid
    && forall k {:trigger Removes(calls[k].op, pid, calls[i].op.message.id)} ::
         i < k < |calls| ==> !Removes(calls[k].op, pid, calls[i].op.message.id)
  }

  function DeliveryAt(calls: seq<Call>, pid: u32, i: nat): seq<Stored> {
    if DeliveredAndKept(calls, pid, i) then [Arriving(calls[i])] else []
  }

  /** The deliveries among the first `n` calls that no call of the whole run has removed, in arrival order. */
  function KeptDeliveries(calls: seq<Call>, pid: u32, n: nat): seq<Stored>
    requires n <= |calls|
  {
    if n == 0 then [] else KeptDeliveries(calls, pid, n - 1) + DeliveryAt(calls, pid, n - 1)
  }

  lemma StillKeptIff(calls: seq<Call>, call: Call, pid: u32, i: nat)
    requires i < |calls|
    ensures DeliveredAndKept(calls + [call], pid, i)
            <==> DeliveredAndKept(calls, pid, i) && !Removes(call.op, pid, calls[i].op.message.id)
  {
    var longer := calls + [call];
    assert forall k :: 0 <= k < |calls| ==> longer[k] == calls[k];
    assert longer[|calls|] == call;
    if DeliveredAndKept(longer, pid, i) {
      forall k | i < k < |calls|
        ensures !Removes(calls[k].op, pid, calls[i].op.message.id)
      {
        assert longer[k] == calls[k];
      }
    }
  }

  lemma DeliveryAtLonger(calls: seq<Call>, call: Call, pid: u32, i: nat)
    requires i < |calls|
    ensures DeliveryAt(calls + [call], pid, i) == Filter(DeliveryAt(calls, pid, i), Spared(call.op, pid))
  {
    StillKeptIff(calls, call, pid, i);
    assert (calls + [call])[i] == calls[i];
  }

  lemma {:induction false} OneMoreCall(calls: seq<Call>, longer: seq<Call>, call: Call, pid: u32, n: nat)
    requires longer == calls + [call] && n <= |calls|
    ensures KeptDeliveries(longer, pid, n) == Filter(KeptDeliveries(calls, pid, n), Spared(call.op, pid))
  {
    if n == 0 {
    } else {
      OneMoreCall(calls, longer, call, pid, n - 1);
      OneMoreDelivery(calls, longer, call, pid, n - 1);
    }
  }

  lemma OneMoreDelivery(calls: seq<Call>, longer: seq<Call>, call: Call, pid: u32, n: nat)
    requires longer == calls + [call] && n < |calls|
    requires KeptDeliveries(longer, pid, n) == Filter(KeptDeliveries(calls, pid, n), Spared(call.op, pid))
    ensures KeptDeliveries(longer, pid, n + 1) == Filter(KeptDeliveries(calls, pid, n + 1), Spared(call.op, pid))
  {
    DeliveryAtLonger(calls, call, pid, n);
    KeptStep(calls, pid, n);
    KeptStep(longer, pid, n);
    FilterConcat(KeptDeliveries(calls, pid, n), DeliveryAt(calls, pid, n), Spared(call.op, pid));
  }

  lemma KeptStep(calls: seq<Call>, pid: u32, n: nat)
    requires n < |calls|
    ensures KeptDeliveries(calls, pid, n + 1) == KeptDeliveries(calls, pid, n) + DeliveryAt(calls, pid, n)
  {
  }

  /** The never-purging store holds exactly the deliveries that no later call removed. */
  lemma {:induction false} NeverPurgedIsHistory(calls: seq<Call>, pid: u32)
    ensures NeverPurged(calls, pid) == KeptDeliveries(calls, pid, |calls|)
  {
    if calls == [] {
    } else {
      var n := |calls| - 1;
      var before, call := calls[..n], calls[n];
      assert calls == before + [call];
      NeverPurgedIsHistory(before, pid);
      OneMoreCall(before, calls, call, pid, n);
      if call.op.Add? {
        FilterAll(KeptDeliveries(before, pid, n), Spared(call.op, pid));
      }
    }
  }

  /**
   * In every run with a monotone clock, a query answers with exactly the deliveries to its recipient that are
   * unexpired, asked for, and not removed by a call since: no removed message comes back and no other one is lost.
   */
  lemma AnswersAreHistory(calls: seq<Call>, query: Call)
    requires Monotone(calls + [query]) && IsQuery(query.op)
    ensures Answer(After(calls), query)
         == Messages(Filter(KeptDeliveries(calls, query.op.pid, |calls|), Wanted(query)))
  {
    AnswersAreExact(calls, query);
    NeverPurgedIsHistory(calls, query.op.pid);
  }

  /** The kept deliveries stand at these indices of the run. */
  ghost predicate DeliveredAt(kept: seq<Stored>, calls: seq<Call>, pid: u32, idx: seq<nat>, n: nat) {
    && Ascending(idx, n)
    && (forall i: nat {:trigger i in idx} :: i in idx <==> i < n && DeliveredAndKept(calls, pid, i))
    && |kept| == |idx|
    && forall j :: 0 <= j < |idx| ==>
         idx[j] < |calls| && calls[idx[j]].op.Add? && kept[j] == Arriving(calls[idx[j]])
  }

  lemma OneMoreIndex(kept: seq<Stored>, calls: seq<Call>, pid: u32, idx: seq<nat>, n: nat, longer: seq<Stored>)
    returns (next: seq<nat>)
    requires DeliveredAt(kept, calls, pid, idx, n) && n < |calls| && longer == kept + DeliveryAt(calls, pid, n)
    ensures DeliveredAt(longer, calls, pid, next, n + 1)
  {
    AscendsWith(idx, n);
    assert forall i: nat :: i in idx + [n] <==> i in idx || i == n;
    next := if DeliveredAndKept(calls, pid, n) then idx + [n] else idx;
  }

  lemma {:induction false} KeptIndices(calls: seq<Call>, pid: u32, n: nat) returns (idx: seq<nat>)
    requires n <= |calls|
    ensures DeliveredAt(KeptDeliveries(calls, pid, n), calls, pid, idx, n)
  {
    if n == 0 {
      idx := [];
    } else {
      var m := n - 1;
      var before := KeptIndices(calls, pid, m);
      idx := OneMoreIndex(KeptDeliveries(calls, pid, m), calls, pid, before, m, KeptDeliveries(calls, pid, n));
    }
  }

  /** Those of the kept deliveries that a filter picks, by their indices in the run. */
  lemma PickedIndices(kept: seq<Stored>, calls: seq<Call>, pid: u32, at: seq<nat>, p: Stored -> bool)
    returns (idx: seq<nat>)
    requires DeliveredAt(kept, calls, pid, at, |calls|)
    ensures forall i, j :: 0 <= i < j < |idx| ==> idx[i] < idx[j]
    ensures forall i: nat {:trigger i in idx} ::
              i in idx <==> i < |calls| && DeliveredAndKept(calls, pid, i) && p(Arriving(calls[i]))
    ensures |Filter(kept, p)| == |idx|
    ensures forall j :: 0 <= j < |idx| ==>
              idx[j] < |calls| && calls[idx[j]].op.Add? && Filter(kept, p)[j] == Arriving(calls[idx[j]])
  {
    var picked := FilterIndices(kept, p);
    assert forall j :: 0 <= j < |picked| ==> picked[j] in picked;
    idx := seq(|picked|, j requires 0 <= j < |picked| => at[picked[j]]);
    forall i: nat
      ensures i in idx <==> i < |calls| && DeliveredAndKept(calls, pid, i) && p(Arriving(calls[i]))
    {
      PickedIff(kept, calls, pid, at, p, picked, idx, i);
    }
  }

  lemma PickedIff(kept: seq<Stored>, calls: seq<Call>, pid: u32, at: seq<nat>, p: Stored -> bool, picked: seq<nat>,
                  idx: seq<nat>, i: nat)
    requires DeliveredAt(kept, calls, pid, at, |calls|) && Picks(picked, kept, p, Filter(kept, p))
    requires |idx| == |picked| && forall j :: 0 <= j < |picked| ==> picked[j] < |at| && idx[j] == at[picked[j]]
    ensures i in idx <==> i < |calls| && DeliveredAndKept(calls, pid, i) && p(Arriving(calls[i]))
  {
    if i in idx {
      var j :| 0 <= j < |idx| && idx[j] == i;
      assert picked[j] in picked && at[picked[j]] in at;
    }
    if i < |calls| && DeliveredAndKept(calls, pid, i) && p(Arriving(calls[i])) {
      assert i in at;
      var m :| 0 <= m < |at| && at[m] == i;
      assert kept[m] == Arriving(calls[i]);
      assert m in picked;
      var j :| 0 <= j < |picked| && picked[j] == m;
      assert idx[j] == i;
    }
  }

  /** When a delivery answers a query: in seconds, and with the three calls that remove. */
  lemma AnsweredIff(calls: seq<Call>, query: Call, i: nat)
    requires IsQuery(query.op) && i < |calls|
    ensures DeliveredAndKept(calls, query.op.pid, i) && Wanted(query)(Arriving(calls[i]))
            <==> && calls[i].op.Add? && calls[i].op.pid == query.op.pid
                 && query.now < calls[i].now + calls[i].op.message.lifeTime * 1_000_000_000
                 && (query.op.GetByIDs? ==> calls[i].op.message.id in query.op.ids)
                 && forall k :: i < k < |calls| && !calls[k].op.Purge? && calls[k].op.pid == query.op.pid ==>
                      && !calls[k].op.GetAndClear?
                      && (calls[k].op.Delete? || (calls[k].op.GetByIDs? && calls[k].op.deleteAfter) ==>
                            calls[i].op.message.id !in calls[k].op.ids)
  {
    if calls[i].op.Add? {
      KeptIff(calls, query.op.pid, i);
    }
  }

  lemma KeptIff(calls: seq<Call>, pid: u32, i: nat)
    requires i < |calls| && calls[i].op.Add?
    ensures DeliveredAndKept(calls, pid, i)
            <==> && calls[i].op.pid == pid
                 && forall k :: i < k < |calls| && !calls[k].op.Purge? && calls[k].op.pid == pid ==>
                      && !calls[k].op.GetAndClear?
                      && (calls[k].op.Delete? || (calls[k].op.GetByIDs? && calls[k].op.deleteAfter) ==>
                            calls[i].op.message.id !in calls[k].op.ids)
  {
    forall k | i < k < |calls|
      ensures Removes(calls[k].op, pid, calls[i].op.message.id)
              <==> !calls[k].op.Purge? && calls[k].op.pid == pid
                   && (calls[k].op.GetAndClear?
                       || ((calls[k].op.Delete? || (calls[k].op.GetByIDs? && calls[k].op.deleteAfter))
                           && calls[i].op.message.id in calls[k].op.ids))
    {
    }
  }

  /** The wanted ones of the kept deliveries, by their indices in the run. */
  lemma WantedIndices(calls: seq<Call>, query: Call) returns (idx: seq<nat>)
    requires IsQuery(query.op)
    ensures forall i, j :: 0 <= i < j < |idx| ==> idx[i] < idx[j]
    ensures forall i: nat {:trigger i in idx} ::
              i in idx <==> i < |calls| && DeliveredAndKept(calls, query.op.pid, i) && Wanted(query)(Arriving(calls[i]))
    ensures AreMessages(Messages(Filter(KeptDeliveries(calls, query.op.pid, |calls|), Wanted(query))), calls, idx)
  {
    var at := KeptIndices(calls, query.op.pid, |calls|);
    idx := PickedIndices(KeptDeliveries(calls, query.op.pid, |calls|), calls, query.op.pid, at, Wanted(query));
  }

  /** These are the messages delivered by the calls at these indices. */
  predicate AreMessages(messages: seq<TextMessage>, calls: seq<Call>, idx: seq<nat>) {
    && |messages| == |idx|
    && forall j :: 0 <= j < |idx| ==>
         idx[j] < |calls| && calls[idx[j]].op.Add? && messages[j] == calls[idx[j]].op.message
  }

  /**
   * In every run with a monotone clock, a query answers with exactly these messages, in the order of their arrival: the
   * delivered ones of its recipient whose lifetime in seconds has not passed since, that it asks for, and whose removal
   * no call asked for since.
   */
  lemma AnswersAreDeliveries(calls: seq<Call>, query: Call) returns (idx: seq<nat>)
    requires Monotone(calls + [query]) && (query.op.Get? || query.op.GetAndClear? || query.op.GetByIDs?)
    ensures forall i, j :: 0 <= i < j < |idx| ==> idx[i] < idx[j]
    ensures forall i: nat :: i in idx
              <==> && i < |calls| && calls[i].op.Add? && calls[i].op.pid == query.op.pid
                   && query.now < calls[i].now + calls[i].op.message.lifeTime * 1_000_000_000
                   && (query.op.GetByIDs? ==> calls[i].op.message.id in query.op.ids)
                   && forall k :: i < k < |calls| && !calls[k].op.Purge? && calls[k].op.pid == query.op.pid ==>
                        && !calls[k].op.GetAndClear?
                        && (calls[k].op.Delete? || (calls[k].op.GetByIDs? && calls[k].op.deleteAfter) ==>
                              calls[i].op.message.id !in calls[k].op.ids)
    ensures AreMessages(Answer(After(calls), query), calls, idx)
  {
    AnswersAreHistory(calls, query);
    idx := WantedIndices(calls, query);
    forall i: nat | i < |calls|
      ensures i in idx
              <==> && calls[i].op.Add? && calls[i].op.pid == query.op.pid
                   && query.now < calls[i].now + calls[i].op.message.lifeTime * 1_000_000_000
                   && (query.op.GetByIDs? ==> calls[i].op.message.id in query.op.ids)
                   && forall k :: i < k < |calls| && !calls[k].op.Purge? && calls[k].op.pid == query.op.pid ==>
                        && !calls[k].op.GetAndClear?
                        && (calls[k].op.Delete? || (calls[k].op.GetByIDs? && calls[k].op.deleteAfter) ==>
                              calls[i].op.message.id !in calls[k].op.ids)
    {
      AnsweredIff(calls, query, i);
    }
  }
}
