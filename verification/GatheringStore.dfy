/** The gatherings collection and the handlers that write it. */
module GatheringStore {
  import opened Bytes
  import opened Options
  import opened Seqs
  import opened GatheringCodec

  /** A stored gathering; `machine` is the optional created_by_machine_id field. */
  datatype Doc = Doc(
    id: int, creator: string, contents: seq<byte>, state: u32, lastUpdated: int,
    consoleType: int, public: u32, machine: Option<int>)

  /** A connected client: `playerName` is the user name the database has for its PID. */
  datatype Client = Client(username: string, platform: int, machineID: int, playerName: string, isMaster: bool)

  /** The ids of the registered machines, by the names of their master users. */
  type Machines = map<string, int>

  function MachineOf(machines: Machines, name: string): int {
    if name in machines then machines[name] else 0
  }

  datatype Outcome = Done | Malformed | NotFound | NotOwner | OutOfRange

  const WII := 2
  const SESSION_LIFETIME := 3600

  // ---------- queries ----------

  function ByCreator(name: string): Doc -> bool {
    (d: Doc) => d.creator == name
  }

  function ByMachine(machineID: int): Doc -> bool {
    (d: Doc) => d.machine == Some(machineID)
  }

  /** The first gathering with an id, or the number of gatherings. */
  function IndexOf(docs: seq<Doc>, id: int): (k: nat)
    ensures k <= |docs|
    ensures k < |docs| ==> docs[k].id == id
    ensures forall i :: 0 <= i < k ==> docs[i].id != id
  {
    if docs == [] then 0
    else if docs[0].id == id then 0
    else
      var k := IndexOf(docs[1..], id);
      assert forall i :: 1 <= i < k + 1 ==> docs[i] == docs[1..][i - 1];
      k + 1
  }

  /** A client owns what it created, what its machine registered, and what its machine's master user created. */
  predicate Owns(client: Client, d: Doc, machines: Machines) {
    || d.creator == client.playerName
    || (d.machine.Some? && d.machine.value != 0 && d.machine.value == client.machineID)
    || (MachineOf(machines, d.creator) != 0 && MachineOf(machines, d.creator) == client.machineID)
  }

  predicate RegistersMachine(client: Client) {
    client.platform == WII && client.machineID != 0
  }

  function StaleFor(client: Client): Doc -> bool {
    (d: Doc) => d.creator == client.username || (RegistersMachine(client) && d.machine == Some(client.machineID))
  }

  function Not(p: Doc -> bool): Doc -> bool {
    (d: Doc) => !p(d)
  }

  function Transferred(d: Doc, machineID: int, username: string): Doc {
    if d.machine == Some(machineID) then d.(creator := username, machine := None) else d
  }

  function FreshAt(now: int): Doc -> bool {
    (d: Doc) => d.lastUpdated >= now - SESSION_LIFETIME
  }

  // ---------- one step of every handler ----------

  datatype Op =
    | Register(client: Client, newID: int, contents: seq<byte>, now: int)
    | Update(client: Client, id: int, contents: seq<byte>, now: int, machines: Machines)
    | SetState(client: Client, id: int, state: u32, now: int, machines: Machines)
    | Terminate(client: Client, id: int, machines: Machines)
    | Lookup(client: Client, username: string)
    | Prune(now: int)

  function Registered(client: Client, newID: int, contents: seq<byte>, now: int): Doc {
    Doc(newID, client.username, contents, 0, now, client.platform, 0,
        if RegistersMachine(client) then Some(client.machineID) else None)
  }

  function Updated(d: Doc, client: Client, contents: seq<byte>, now: int): Doc
    requires |contents| >= SIZE
  {
    d.(contents := contents, public := contents[PUBLIC_OFFSET], lastUpdated := now, creator := client.username,
       machine := if client.isMaster then d.machine else None)
  }

  function OutcomeOf(docs: seq<Doc>, op: Op): Outcome {
    if op.Update? && |op.contents| < SIZE then Malformed
    else if !op.Update? && !op.SetState? && !op.Terminate? then Done
    else
      var k := IndexOf(docs, op.id);
      if k == |docs| then NotFound
      else if !Owns(op.client, docs[k], op.machines) then NotOwner
      else if op.SetState? && |docs[k].contents| < STATE_OFFSET + 4 then OutOfRange
      else Done
  }

  function Step(docs: seq<Doc>, op: Op): seq<Doc> {
    if OutcomeOf(docs, op) != Done then docs
    else
      match op
      case Register(client, newID, contents, now) =>
        Filter(docs, Not(StaleFor(client))) + [Registered(client, newID, contents, now)]
      case Update(client, id, contents, now, _) =>
        var k := IndexOf(docs, id);
        docs[k := Updated(docs[k], client, contents, now)]
      case SetState(client, id, state, now, _) =>
        var k := IndexOf(docs, id);
        docs[k := docs[k].(contents := WithState(docs[k].contents, state), state := state, lastUpdated := now)]
      case Terminate(client, id, _) =>
        var k := IndexOf(docs, id);
        docs[..k] + docs[k + 1..]
      case Lookup(client, username) =>
        if client.platform != WII then docs
        else
          var kept := Filter(docs, Not(ByCreator(username)));
          seq(|kept|, i requires 0 <= i < |kept| => Transferred(kept[i], client.machineID, username))
      case Prune(now) =>
        Filter(docs, FreshAt(now))
  }

  // ---------- the handlers ----------

  class Gatherings {
    var docs: seq<Doc>

    constructor ()
      ensures docs == []
    {
      docs := [];
    }

    method RegisterGathering(client: Client, newID: int, contents: seq<byte>, now: int)
      modifies this
      ensures docs == Step(old(docs), Register(client, newID, contents, now))
    {
      docs := Filter(docs, Not(StaleFor(client)));
      var doc := Doc(newID, client.username, contents, 0, now, client.platform, 0, None);
      if client.platform == WII && client.machineID != 0 {
        doc := doc.(machine := Some(client.machineID));
      }
      docs := docs + [doc];
    }

    method FindGathering(id: int) returns (k: nat)
      ensures k == IndexOf(docs, id)
    {
      k := 0;
      while k < |docs| && docs[k].id != id
        invariant k <= |docs| && IndexOf(docs, id) == k + IndexOf(docs[k..], id)
      {
        assert docs[k..][1..] == docs[k + 1..];
        k := k + 1;
      }
    }

    method UpdateGathering(client: Client, id: int, contents: seq<byte>, now: int, machines: Machines)
      returns (outcome: Outcome)
      modifies this
      ensures outcome == OutcomeOf(old(docs), Update(client, id, contents, now, machines))
      ensures docs == Step(old(docs), Update(client, id, contents, now, machines))
    {
      var g := Deserialize(contents);
      if g.Err? { return Malformed; }
      var k := FindGathering(id);
      if k == |docs| { return NotFound; }
      var d := docs[k];
      if d.creator != client.playerName {
        var machineID := MachineOf(machines, d.creator);
        var machineOwned := (d.machine.Some? && d.machine.value != 0 && d.machine.value == client.machineID)
                            || (machineID != 0 && machineID == client.machineID);
        if !machineOwned { return NotOwner; }
      }
      d := d.(contents := contents, public := g.value.harmonix.public, lastUpdated := now, creator := client.username);
      if !client.isMaster {
        d := d.(machine := None);
      }
      docs := docs[k := d];
      outcome := Done;
    }

    method SetGatheringState(client: Client, id: int, state: u32, now: int, machines: Machines)
      returns (outcome: Outcome)
      modifies this
      ensures outcome == OutcomeOf(old(docs), SetState(client, id, state, now, machines))
      ensures docs == Step(old(docs), SetState(client, id, state, now, machines))
    {
      var k := FindGathering(id);
      if k == |docs| { return NotFound; }
      var d := docs[k];
      if !Owns(client, d, machines) { return NotOwner; }
      if |d.contents| < STATE_OFFSET + 4 { return OutOfRange; } // the index panics before anything is written
      var contents := new byte[|d.contents|](i requires 0 <= i < |d.contents| => d.contents[i]);
      assert contents[..] == d.contents;
      PatchState(contents, state);
      docs := docs[k := d.(contents := contents[..], state := state, lastUpdated := now)];
      outcome := Done;
    }

    method TerminateGathering(client: Client, id: int, machines: Machines) returns (outcome: Outcome)
      modifies this
      ensures outcome == OutcomeOf(old(docs), Terminate(client, id, machines))
      ensures docs == Step(old(docs), Terminate(client, id, machines))
    {
      var k := FindGathering(id);
      if k == |docs| { return NotFound; }
      if !Owns(client, docs[k], machines) { return NotOwner; }
      docs := docs[..k] + docs[k + 1..];
      outcome := Done;
    }

    /** The part of an account lookup that touches gatherings: clear, then transfer. */
    method TransferOnLookup(client: Client, username: string)
      modifies this
      ensures docs == Step(old(docs), Lookup(client, username))
    {
      if client.platform == WII {
        docs := Filter(docs, Not(ByCreator(username)));
        var kept := docs;
        var i := 0;
        while i < |docs|
          invariant 0 <= i <= |docs| == |kept|
          invariant forall j :: 0 <= j < i ==> docs[j] == Transferred(kept[j], client.machineID, username)
          invariant forall j :: i <= j < |kept| ==> docs[j] == kept[j]
        {
          if docs[i].machine == Some(client.machineID) {
            docs := docs[i := docs[i].(creator := username, machine := None)];
          }
          i := i + 1;
        }
      }
    }

    method PruneOldSessions(now: int)
      modifies this
      ensures docs == Step(old(docs), Prune(now))
    {
      var cutoff := now - SESSION_LIFETIME;
      docs := Filter(docs, (d: Doc) => d.lastUpdated >= cutoff);
      FilterAgree(old(docs), (d: Doc) => d.lastUpdated >= cutoff, FreshAt(now));
    }
  }

  // ---------- what every run keeps ----------

  /** The collection after a run of handler calls that starts from an empty one. */
  function After(ops: seq<Op>): seq<Doc> {
    if ops == [] then [] else Step(After(ops[..|ops| - 1]), ops[|ops| - 1])
  }

  /** A public gathering has parseable bytes, and their public byte is the public column. */
  predicate PublicAgrees(d: Doc) {
    d.public != 0 ==> |d.contents| >= SIZE && d.contents[PUBLIC_OFFSET] == d.public
  }

  predicate AllPublicAgree(docs: seq<Doc>) {
    forall i :: 0 <= i < |docs| ==> PublicAgrees(docs[i])
  }

  /** No machine has two gatherings, and machine 0 has none. */
  ghost predicate MachinesUnique(docs: seq<Doc>) {
    && (forall m: int :: Count(docs, ByMachine(m)) <= 1)
    && Count(docs, ByMachine(0)) == 0
  }

  lemma FilterKeepsPublic(docs: seq<Doc>, p: Doc -> bool)
    requires AllPublicAgree(docs)
    ensures AllPublicAgree(Filter(docs, p))
  {
    var kept := Filter(docs, p);
    FilterMembers(docs, p);
    forall i | 0 <= i < |kept|
      ensures PublicAgrees(kept[i])
    {
      assert kept[i] in docs;
    }
  }

  lemma StepKeepsPublic(docs: seq<Doc>, op: Op)
    requires AllPublicAgree(docs)
    ensures AllPublicAgree(Step(docs, op))
  {
    if OutcomeOf(docs, op) == Done {
      match op
      case Register(client, newID, contents, now) => FilterKeepsPublic(docs, Not(StaleFor(client)));
      case Update(client, id, contents, now, _) =>
      case SetState(client, id, state, now, _) =>
      case Terminate(client, id, _) =>
      case Lookup(client, username) => FilterKeepsPublic(docs, Not(ByCreator(username)));
      case Prune(now) => FilterKeepsPublic(docs, FreshAt(now));
    }
  }

  lemma ReplacementKeepsMachines(docs: seq<Doc>, k: nat, d: Doc)
    requires MachinesUnique(docs) && k < |docs|
    requires d.machine.Some? ==> d.machine == docs[k].machine
    ensures MachinesUnique(docs[k := d])
  {
    forall m: int
      ensures Count(docs[k := d], ByMachine(m)) <= Count(docs, ByMachine(m))
    {
      CountPointwise(docs[k := d], docs, ByMachine(m), ByMachine(m));
    }
  }

  lemma FilterKeepsMachines(docs: seq<Doc>, p: Doc -> bool)
    requires MachinesUnique(docs)
    ensures MachinesUnique(Filter(docs, p))
  {
    forall m: int
      ensures Count(Filter(docs, p), ByMachine(m)) <= Count(docs, ByMachine(m))
    {
      CountFilter(docs, p, ByMachine(m));
    }
  }

  lemma RegisterKeepsMachines(docs: seq<Doc>, client: Client, d: Doc)
    requires MachinesUnique(docs)
    requires d.machine == if RegistersMachine(client) then Some(client.machineID) else None
    ensures MachinesUnique(Filter(docs, Not(StaleFor(client))) + [d])
  {
    var kept := Filter(docs, Not(StaleFor(client)));
    FilterKeepsMachines(docs, Not(StaleFor(client)));
    FilterMembers(docs, Not(StaleFor(client)));
    forall m: int
      ensures Count(kept + [d], ByMachine(m)) <= if m == 0 then 0 else 1
    {
      CountConcat(kept, [d], ByMachine(m));
      if d.machine == Some(m) {
        CountNone(kept, ByMachine(m));
      }
    }
  }

  lemma DeletionKeepsMachines(docs: seq<Doc>, k: nat)
    requires MachinesUnique(docs) && k < |docs|
    ensures MachinesUnique(docs[..k] + docs[k + 1..])
  {
    forall m: int
      ensures Count(docs[..k] + docs[k + 1..], ByMachine(m)) <= Count(docs, ByMachine(m))
    {
      CountConcat(docs[..k], docs[k + 1..], ByMachine(m));
      CountConcat(docs[..k], docs[k..], ByMachine(m));
      CountConcat([docs[k]], docs[k + 1..], ByMachine(m));
      assert docs == docs[..k] + docs[k..] && docs[k..] == [docs[k]] + docs[k + 1..];
    }
  }

  lemma TransferKeepsMachines(docs: seq<Doc>, op: Op)
    requires MachinesUnique(docs) && op.Lookup? && op.client.platform == WII
    ensures MachinesUnique(Step(docs, op))
  {
    var kept := Filter(docs, Not(ByCreator(op.username)));
    FilterKeepsMachines(docs, Not(ByCreator(op.username)));
    forall m: int
      ensures Count(Step(docs, op), ByMachine(m)) <= Count(kept, ByMachine(m))
    {
      CountPointwise(Step(docs, op), kept, ByMachine(m), ByMachine(m));
    }
  }

  lemma UpdateKeepsMachines(docs: seq<Doc>, op: Op)
    requires MachinesUnique(docs) && op.Update? && OutcomeOf(docs, op) == Done
    ensures MachinesUnique(Step(docs, op))
  {
    var k := IndexOf(docs, op.id);
    ReplacementKeepsMachines(docs, k, Updated(docs[k], op.client, op.contents, op.now));
  }

  lemma SetStateKeepsMachines(docs: seq<Doc>, op: Op)
    requires MachinesUnique(docs) && op.SetState? && OutcomeOf(docs, op) == Done
    ensures MachinesUnique(Step(docs, op))
  {
    var k := IndexOf(docs, op.id);
    ReplacementKeepsMachines(docs, k,
      docs[k].(contents := WithState(docs[k].contents, op.state), state := op.state, lastUpdated := op.now));
  }

  lemma StepKeepsMachines(docs: seq<Doc>, op: Op)
    requires MachinesUnique(docs)
    ensures MachinesUnique(Step(docs, op))
  {
    if OutcomeOf(docs, op) == Done {
      match op
      case Register(client, newID, contents, now) =>
        RegisterKeepsMachines(docs, client, Registered(client, newID, contents, now));
      case Update(_, _, _, _, _) =>
        UpdateKeepsMachines(docs, op);
      case SetState(_, _, _, _, _) =>
        SetStateKeepsMachines(docs, op);
      case Terminate(_, id, _) => DeletionKeepsMachines(docs, IndexOf(docs, id));
      case Lookup(client, _) => if client.platform == WII { TransferKeepsMachines(docs, op); }
      case Prune(now) => FilterKeepsMachines(docs, FreshAt(now));
    }
  }

  /** In every run: public gatherings agree with their bytes, and machines own at most one gathering each. */
  lemma {:induction false} EveryRunIsSound(ops: seq<Op>)
    ensures AllPublicAgree(After(ops)) && MachinesUnique(After(ops))
  {
    if ops == [] {
    } else {
      var before := After(ops[..|ops| - 1]);
      EveryRunIsSound(ops[..|ops| - 1]);
      StepKeepsPublic(before, ops[|ops| - 1]);
      StepKeepsMachines(before, ops[|ops| - 1]);
    }
  }

  /** Registering leaves the client exactly one gathering, and its machine at most that one. */
  lemma RegisterLeavesOne(ops: seq<Op>, op: Op)
    requires op.Register?
    ensures Count(After(ops + [op]), ByCreator(op.client.username)) == 1
    ensures RegistersMachine(op.client) ==> Count(After(ops + [op]), ByMachine(op.client.machineID)) == 1
  {
    assert (ops + [op])[..|ops|] == ops;
    var kept := Filter(After(ops), Not(StaleFor(op.client)));
    var d := Registered(op.client, op.newID, op.contents, op.now);
    FilterMembers(After(ops), Not(StaleFor(op.client)));
    CountConcat(kept, [d], ByCreator(op.client.username));
    CountConcat(kept, [d], ByMachine(op.client.machineID));
    CountNone(kept, ByCreator(op.client.username));
    if RegistersMachine(op.client) {
      CountNone(kept, ByMachine(op.client.machineID));
    }
  }

  /** After a Wii account lookup the account has its machine's gathering if there was one, and no other. */
  lemma LookupLeavesAtMostOne(ops: seq<Op>, op: Op)
    requires op.Lookup? && op.client.platform == WII
    ensures Count(After(ops + [op]), ByCreator(op.username)) <= 1
    ensures Count(After(ops + [op]), ByMachine(op.client.machineID)) == 0
  {
    assert (ops + [op])[..|ops|] == ops;
    var before := After(ops);
    var kept := Filter(before, Not(ByCreator(op.username)));
    var after := After(ops + [op]);
    EveryRunIsSound(ops);
    FilterKeepsMachines(before, Not(ByCreator(op.username)));
    FilterMembers(before, Not(ByCreator(op.username)));
    forall i | 0 <= i < |kept| && after[i].creator == op.username
      ensures kept[i].machine == Some(op.client.machineID)
    {
      assert kept[i] in kept;
    }
    CountPointwise(after, kept, ByCreator(op.username), ByMachine(op.client.machineID));
    CountNone(after, ByMachine(op.client.machineID));
  }

  // ---------- the state column ----------

  /** The state in raw bytes, if they parse. */
  function ParsedState(contents: seq<byte>): Option<u32> {
    match Deserialize(contents)
    case Ok(g) => Some(g.state)
    case Err(_) => None
  }

  /** The state column says what the bytes say. */
  predicate StateAgrees(d: Doc) {
    ParsedState(d.contents) == Some(d.state)
  }

  /** The elements of a parallel list whose gatherings a filter keeps. */
  function KeptWith(docs: seq<Doc>, steps: seq<nat>, p: Doc -> bool): (kept: seq<nat>)
    requires |steps| == |docs|
    ensures |kept| == |Filter(docs, p)|
  {
    if docs == [] then []
    else
      var k := |docs| - 1;
      KeptWith(docs[..k], steps[..k], p) + if p(docs[k]) then [steps[k]] else []
  }

  function NextSteps(docs: seq<Doc>, steps: seq<nat>, op: Op, n: nat): (next: seq<nat>)
    requires |steps| == |docs|
    ensures |next| == |Step(docs, op)|
  {
    if OutcomeOf(docs, op) != Done then steps
    else
      match op
      case Register(client, _, _, _) => KeptWith(docs, steps, Not(StaleFor(client))) + [n]
      case Terminate(_, id, _) =>
        var k := IndexOf(docs, id);
        steps[..k] + steps[k + 1..]
      case Lookup(client, username) =>
        if client.platform == WII then KeptWith(docs, steps, Not(ByCreator(username))) else steps
      case Prune(now) => KeptWith(docs, steps, FreshAt(now))
      case _ => steps
  }

  /** For every gathering after a run, the step that registered it; ids may repeat, these do not. */
  function Steps(ops: seq<Op>): (steps: seq<nat>)
    ensures |steps| == |After(ops)|
  {
    if ops == [] then []
    else
      var n := |ops| - 1;
      NextSteps(After(ops[..n]), Steps(ops[..n]), ops[n], n)
  }

  /** An accepted call that writes the gathering registered by this step. */
  predicate Reaches(docs: seq<Doc>, steps: seq<nat>, op: Op, step: nat)
    requires |steps| == |docs|
  {
    (op.SetState? || op.Update?) && OutcomeOf(docs, op) == Done && steps[IndexOf(docs, op.id)] == step
  }

  /** The state of the last SetState that reached the gathering registered by this step, or 0. */
  function LastSet(ops: seq<Op>, step: nat): u32 {
    if ops == [] then 0
    else
      var n := |ops| - 1;
      if ops[n].SetState? && Reaches(After(ops[..n]), Steps(ops[..n]), ops[n], step) then ops[n].state
      else LastSet(ops[..n], step)
  }

  /** The state in the bytes of its registration or last update, or of a SetState that reached it since. */
  function LastSent(ops: seq<Op>, step: nat): Option<u32> {
    if ops == [] then None
    else
      var n := |ops| - 1;
      var op, sent := ops[n], LastSent(ops[..n], step);
      if op.Register? && n == step then ParsedState(op.contents)
      else if !Reaches(After(ops[..n]), Steps(ops[..n]), op, step) then sent
      else if op.Update? then ParsedState(op.contents)
      else if sent.Some? then Some(op.state)
      else None
  }

  lemma SetStateParses(contents: seq<byte>, state: u32)
    requires |contents| >= STATE_OFFSET + 4
    ensures ParsedState(WithState(contents, state)) == if ParsedState(contents).Some? then Some(state) else None
  {
    if |contents| >= SIZE {
      PatchCommutesWithParse(contents, state);
    }
  }

  lemma {:induction false} KeptAscends(docs: seq<Doc>, steps: seq<nat>, p: Doc -> bool, n: nat)
    requires |steps| == |docs| && Ascending(steps, n)
    ensures Ascending(KeptWith(docs, steps, p), n)
  {
    if docs == [] {
    } else {
      var k := |docs| - 1;
      var kept := KeptWith(docs[..k], steps[..k], p);
      KeptAscends(docs[..k], steps[..k], p, steps[k]);
      AscendsWith(kept, steps[k]);
      assert KeptWith(docs, steps, p) == kept || KeptWith(docs, steps, p) == kept + [steps[k]];
    }
  }

  /** Where a kept gathering was before. */
  lemma {:induction false} KeptFrom(docs: seq<Doc>, steps: seq<nat>, p: Doc -> bool, i: nat) returns (j: nat)
    requires |steps| == |docs| && i < |Filter(docs, p)|
    ensures j < |docs| && Filter(docs, p)[i] == docs[j] && KeptWith(docs, steps, p)[i] == steps[j]
  {
    var k := |docs| - 1;
    if i < |Filter(docs[..k], p)| {
      j := KeptFrom(docs[..k], steps[..k], p, i);
    } else {
      j := k;
    }
  }

  lemma NextAscends(docs: seq<Doc>, steps: seq<nat>, op: Op, n: nat)
    requires |steps| == |docs| && Ascending(steps, n)
    ensures Ascending(NextSteps(docs, steps, op, n), n + 1)
  {
    if OutcomeOf(docs, op) == Done {
      match op
      case Register(client, _, _, _) =>
        KeptAscends(docs, steps, Not(StaleFor(client)), n);
        AscendsWith(KeptWith(docs, steps, Not(StaleFor(client))), n);
      case Terminate(_, id, _) => AscendsWithout(steps, IndexOf(docs, id), n);
      case Lookup(_, username) => KeptAscends(docs, steps, Not(ByCreator(username)), n);
      case Prune(now) => KeptAscends(docs, steps, FreshAt(now), n);
      case _ =>
    }
  }

  /** No two gatherings have the same step, whatever ids they drew. */
  lemma {:induction false} StepsAscend(ops: seq<Op>)
    ensures Ascending(Steps(ops), |ops|)
  {
    if ops == [] {
    } else {
      var n := |ops| - 1;
      StepsAscend(ops[..n]);
      NextAscends(After(ops[..n]), Steps(ops[..n]), ops[n], n);
    }
  }

  /** What a step makes of the state column and of the bytes' state of a gathering. */
  predicate Becomes(e: Doc, d: Doc, op: Op, reached: bool) {
    && d.state == (if reached && op.SetState? then op.state else e.state)
    && ParsedState(d.contents) ==
       if !reached then ParsedState(e.contents)
       else if op.Update? then ParsedState(op.contents)
       else if op.SetState? && ParsedState(e.contents).Some? then Some(op.state)
       else None
  }

  lemma Untouched(docs: seq<Doc>, steps: seq<nat>, op: Op, j: nat)
    requires |steps| == |docs| && j < |docs| && !op.Update? && !op.SetState?
    ensures Becomes(docs[j], docs[j], op, Reaches(docs, steps, op, steps[j]))
  {
  }

  /** The two calls that write a gathering write the one at its index, and no other has its step. */
  lemma Written(docs: seq<Doc>, steps: seq<nat>, op: Op, n: nat, i: nat)
    requires |steps| == |docs| && Ascending(steps, n) && (op.Update? || op.SetState?) && i < |Step(docs, op)|
    ensures |Step(docs, op)| == |docs|
    ensures Becomes(docs[i], Step(docs, op)[i], op, Reaches(docs, steps, op, steps[i]))
  {
    if OutcomeOf(docs, op) == Done {
      var k := IndexOf(docs, op.id);
      assert steps[k] == steps[i] <==> k == i;
      if op.SetState? {
        SetStateParses(docs[k].contents, op.state);
      }
    }
  }

  /** Every gathering after a step was there before, or is the one the step registers. */
  lemma Predecessor(docs: seq<Doc>, steps: seq<nat>, op: Op, n: nat, i: nat) returns (j: nat)
    requires |steps| == |docs| && Ascending(steps, n) && i < |Step(docs, op)|
    requires NextSteps(docs, steps, op, n)[i] != n
    ensures j < |docs| && NextSteps(docs, steps, op, n)[i] == steps[j]
    ensures Becomes(docs[j], Step(docs, op)[i], op, Reaches(docs, steps, op, steps[j]))
  {
    if op.Update? || op.SetState? {
      Written(docs, steps, op, n, i);
      j := i;
    } else {
      j := Mover(docs, steps, op, n, i);
      Untouched(docs, steps, op, j);
    }
  }

  lemma AfterRemoval(docs: seq<Doc>, steps: seq<nat>, k: nat, i: nat) returns (j: nat)
    requires |steps| == |docs| && k < |docs| && i < |docs| - 1
    ensures j < |docs|
    ensures (docs[..k] + docs[k + 1..])[i] == docs[j] && (steps[..k] + steps[k + 1..])[i] == steps[j]
  {
    j := if i < k then i else i + 1;
  }

  lemma TransferredFrom(docs: seq<Doc>, steps: seq<nat>, op: Op, n: nat, i: nat) returns (j: nat)
    requires |steps| == |docs| && op.Lookup? && i < |Step(docs, op)|
    ensures j < |docs| && NextSteps(docs, steps, op, n)[i] == steps[j]
    ensures Step(docs, op)[i].state == docs[j].state && Step(docs, op)[i].contents == docs[j].contents
  {
    j := i;
    if op.client.platform == WII {
      j := KeptFrom(docs, steps, Not(ByCreator(op.username)), i);
    }
  }

  /** The other calls move gatherings, and change neither their state nor their bytes. */
  lemma Mover(docs: seq<Doc>, steps: seq<nat>, op: Op, n: nat, i: nat) returns (j: nat)
    requires |steps| == |docs| && !op.Update? && !op.SetState? && i < |Step(docs, op)|
    requires NextSteps(docs, steps, op, n)[i] != n
    ensures j < |docs| && NextSteps(docs, steps, op, n)[i] == steps[j]
    ensures Step(docs, op)[i].state == docs[j].state && Step(docs, op)[i].contents == docs[j].contents
  {
    j := i;
    if OutcomeOf(docs, op) == Done {
      match op
      case Register(client, _, _, _) => j := KeptFrom(docs, steps, Not(StaleFor(client)), i);
      case Terminate(_, id, _) => j := AfterRemoval(docs, steps, IndexOf(docs, id), i);
      case Lookup(client, username) => j := TransferredFrom(docs, steps, op, n, i);
      case Prune(now) => j := KeptFrom(docs, steps, FreshAt(now), i);
      case _ =>
    }
  }

  lemma JustRegistered(docs: seq<Doc>, steps: seq<nat>, op: Op, n: nat, i: nat)
    requires |steps| == |docs| && Ascending(steps, n) && i < |Step(docs, op)|
    requires NextSteps(docs, steps, op, n)[i] == n
    ensures op.Register? && Step(docs, op)[i] == Registered(op.client, op.newID, op.contents, op.now)
  {
    match op
    case Register(client, _, _, _) => KeptAscends(docs, steps, Not(StaleFor(client)), n);
    case Lookup(_, username) => KeptAscends(docs, steps, Not(ByCreator(username)), n);
    case Prune(now) => KeptAscends(docs, steps, FreshAt(now), n);
    case _ =>
  }

  lemma {:induction false} NeverReached(ops: seq<Op>, step: nat)
    requires |ops| <= step
    ensures LastSet(ops, step) == 0
  {
    if ops == [] {
    } else {
      var n := |ops| - 1;
      StepsAscend(ops[..n]);
      NeverReached(ops[..n], step);
    }
  }

  /**
   * In every run, the state column is what was last set since registration, and the bytes have what was last sent,
   * whatever else happened in between.
   */
  lemma {:induction false} ColumnAndBytes(ops: seq<Op>, i: nat)
    requires i < |After(ops)|
    ensures After(ops)[i].state == LastSet(ops, Steps(ops)[i])
    ensures ParsedState(After(ops)[i].contents) == LastSent(ops, Steps(ops)[i])
  {
    var n := |ops| - 1;
    var docs, steps, op := After(ops[..n]), Steps(ops[..n]), ops[n];
    StepsAscend(ops[..n]);
    if Steps(ops)[i] == n {
      JustRegistered(docs, steps, op, n, i);
      NeverReached(ops[..n], n);
    } else {
      var j := Predecessor(docs, steps, op, n, i);
      ColumnAndBytes(ops[..n], j);
    }
  }

  /** So column and bytes agree exactly when the state last sent is the state last set. */
  lemma StateAgreesIff(ops: seq<Op>, i: nat)
    requires i < |After(ops)|
    ensures StateAgrees(After(ops)[i]) <==> LastSent(ops, Steps(ops)[i]) == Some(LastSet(ops, Steps(ops)[i]))
  {
    ColumnAndBytes(ops, i);
  }

  /**
   * So there can be a public gathering whose bytes are in the "in song" state 2 while its state column is 0: its
   * client registered it, and later published it during a song.
   */
  lemma StateColumnCanLag(client: Client, now: int) returns (ops: seq<Op>, d: Doc)
    requires client.username == client.playerName || RegistersMachine(client)
    ensures After(ops) == [d]
    ensures d.public == 1 && d.state == 0 && ParsedState(d.contents) == Some(2)
    ensures d.creator == client.username && d.consoleType == client.platform && d.lastUpdated == now
  {
    var zeros: seq<byte> := seq(SIZE, _ => 0);
    var bytes := zeros[28 := 2][PUBLIC_OFFSET := 1];
    var op0 := Register(client, 500, zeros, now);
    var d0 := Registered(client, 500, zeros, now);
    ops := [op0, Update(client, 500, bytes, now, map[])];
    d := Updated(d0, client, bytes, now);
    assert ops[..1] == [op0] && [op0][..0] == [];
    assert After([op0]) == [d0];
    assert [d0][0 := d] == [d];
    assert bytes[28..32] == PutLittleEndian(2, 4) by { Put32(2); }
    ReadPut32(2);
  }
}
