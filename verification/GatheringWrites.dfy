/** Who may write which gathering, and what every handler writes, field by field. */
module GatheringWrites {
  import opened Bytes
  import opened Options
  import opened Seqs
  import opened GatheringCodec
  import opened GatheringStore

  /** `k` is the first gathering with an id. */
  predicate IsFirst(docs: seq<Doc>, id: int, k: nat) {
    k < |docs| && docs[k].id == id && forall i :: 0 <= i < k ==> docs[i].id != id
  }

  lemma FirstIsIndex(docs: seq<Doc>, id: int, k: nat)
    requires IsFirst(docs, id, k)
    ensures IndexOf(docs, id) == k
  {
    var j := IndexOf(docs, id);
    assert docs[k].id == id;
  }

  // ---------- who may write ----------

  /**
   * A client may write the gathering it created; one that has a machine may also write those which that machine
   * registered or its master user created. For a client without a machine no missing machine counts as its own.
   */
  lemma OwnerIff(docs: seq<Doc>, op: Op, k: nat)
    requires op.SetState? || op.Terminate? || (op.Update? && Deserialize(op.contents).Ok?)
    requires IsFirst(docs, op.id, k)
    ensures var d := docs[k];
            OutcomeOf(docs, op) != NotOwner
            <==> d.creator == op.client.playerName
                 || (op.client.machineID != 0
                     && (d.machine == Some(op.client.machineID)
                         || (d.creator in op.machines && op.machines[d.creator] == op.client.machineID)))
    ensures OutcomeOf(docs, op) == OutOfRange
            <==> OutcomeOf(docs, op) != NotOwner && op.SetState? && |docs[k].contents| < 32
  {
    FirstIsIndex(docs, op.id, k);
  }

  /** The other refusals: bytes of an update that are too short, and an id that no gathering has. */
  lemma OtherOutcomes(docs: seq<Doc>, op: Op)
    ensures OutcomeOf(docs, op) == Malformed <==> op.Update? && |op.contents| < 86
    ensures OutcomeOf(docs, op) == NotFound
            <==> (op.SetState? || op.Terminate? || (op.Update? && |op.contents| >= 86))
                 && forall d :: d in docs ==> d.id != op.id
    ensures OutcomeOf(docs, op) != Done ==> Step(docs, op) == docs
  {
    if op.Update? || op.SetState? || op.Terminate? {
      var k := IndexOf(docs, op.id);
      if k < |docs| {
        assert docs[k] in docs;
      }
    }
  }

  /** Without a machine, a client's calls leave every gathering of another creator in its place and as it was. */
  lemma OthersStay(docs: seq<Doc>, op: Op)
    requires (op.Update? || op.SetState? || op.Terminate?) && op.client.machineID == 0
    ensures !op.Terminate? ==> |Step(docs, op)| == |docs|
    ensures !op.Terminate? ==>
      forall i :: 0 <= i < |docs| && docs[i].creator != op.client.playerName ==> Step(docs, op)[i] == docs[i]
    ensures op.Terminate? && Step(docs, op) != docs ==>
      exists k :: 0 <= k < |docs| && docs[k].creator == op.client.playerName && docs[k].id == op.id
                  && Step(docs, op) == docs[..k] + docs[k + 1..]
  {
    if OutcomeOf(docs, op) == Done {
      var k := IndexOf(docs, op.id);
      assert docs[k].creator == op.client.playerName;
    }
  }

  // ---------- what is written ----------

  /** An accepted update replaces bytes, public flag, time and creator; only a master user's keeps the machine. */
  lemma UpdateWrites(docs: seq<Doc>, op: Op, k: nat)
    requires op.Update? && OutcomeOf(docs, op) == Done && IsFirst(docs, op.id, k)
    ensures |Step(docs, op)| == |docs| && |op.contents| >= 86
    ensures forall i :: 0 <= i < |docs| && i != k ==> Step(docs, op)[i] == docs[i]
    ensures var d, e := docs[k], Step(docs, op)[k];
            && e.contents == op.contents && e.public == op.contents[37] && e.lastUpdated == op.now
            && e.creator == op.client.username && e.machine == (if op.client.isMaster then d.machine else None)
            && e.id == d.id && e.state == d.state && e.consoleType == d.consoleType
  {
    FirstIsIndex(docs, op.id, k);
  }

  /** An accepted SetState replaces the state, bytes 28 to 31 and the time. */
  lemma SetStateWrites(docs: seq<Doc>, op: Op, k: nat)
    requires op.SetState? && OutcomeOf(docs, op) == Done && IsFirst(docs, op.id, k)
    ensures |Step(docs, op)| == |docs|
    ensures forall i :: 0 <= i < |docs| && i != k ==> Step(docs, op)[i] == docs[i]
    ensures var d, e, state := docs[k], Step(docs, op)[k], op.state;
            && e.state == state && e.lastUpdated == op.now
            && e.id == d.id && e.creator == d.creator && e.machine == d.machine && e.public == d.public
            && e.consoleType == d.consoleType && |e.contents| == |d.contents| >= 32
            && e.contents == d.contents[..28]
                             + [state % 256, state / 256 % 256, state / 65536 % 256, state / 16777216 % 256]
                             + d.contents[32..]
  {
    FirstIsIndex(docs, op.id, k);
    Put32(op.state);
  }

  /** An accepted termination removes that one gathering. */
  lemma TerminateRemoves(docs: seq<Doc>, op: Op, k: nat)
    requires op.Terminate? && OutcomeOf(docs, op) == Done && IsFirst(docs, op.id, k)
    ensures Step(docs, op) == docs[..k] + docs[k + 1..]
  {
    FirstIsIndex(docs, op.id, k);
  }

  /** A registration keeps, in order, exactly the gatherings of others, and adds a private one of the client's. */
  lemma RegisterWrites(docs: seq<Doc>, op: Op)
    requires op.Register?
    ensures var c := op.client;
            Step(docs, op)
            == Filter(docs, (d: Doc) => d.creator != c.username
                                        && !(c.platform == 2 && c.machineID != 0 && d.machine == Some(c.machineID)))
               + [Doc(op.newID, c.username, op.contents, 0, op.now, c.platform, 0,
                      if c.platform == 2 && c.machineID != 0 then Some(c.machineID) else None)]
  {
    var c := op.client;
    FilterAgree(docs, Not(StaleFor(c)),
      (d: Doc) => d.creator != c.username
                  && !(c.platform == 2 && c.machineID != 0 && d.machine == Some(c.machineID)));
  }

  /**
   * A Wii account lookup drops the account's gatherings; of the others, in order, exactly those of the machine become
   * the account's and lose the machine. Other consoles' lookups change nothing.
   */
  lemma LookupWrites(docs: seq<Doc>, op: Op)
    requires op.Lookup?
    ensures op.client.platform != 2 ==> Step(docs, op) == docs
    ensures op.client.platform == 2 ==>
      var others := Filter(docs, (d: Doc) => d.creator != op.username);
      && |Step(docs, op)| == |others|
      && forall i {:trigger Step(docs, op)[i]} :: 0 <= i < |others| ==>
           if others[i].machine == Some(op.client.machineID)
           then Step(docs, op)[i] == others[i].(creator := op.username, machine := None)
           else Step(docs, op)[i] == others[i]
  {
    FilterAgree(docs, Not(ByCreator(op.username)), (d: Doc) => d.creator != op.username);
  }

  /** Pruning keeps, in order, exactly the gatherings that were updated within the hour. */
  lemma PruneKeeps(docs: seq<Doc>, now: int)
    ensures Step(docs, Prune(now)) == Filter(docs, (d: Doc) => now - d.lastUpdated <= 3600)
  {
    FilterAgree(docs, FreshAt(now), (d: Doc) => now - d.lastUpdated <= 3600);
  }

  // ---------- runs ----------

  /**
   * In every run a public gathering has at least 86 bytes whose byte 37 is its public column, and no machine has two
   * gatherings; a gathering never belongs to machine 0.
   */
  lemma PublicBytesAndMachines(ops: seq<Op>)
    ensures forall d :: d in After(ops) && d.public != 0 ==> |d.contents| >= 86 && d.contents[37] == d.public
    ensures forall d :: d in After(ops) ==> d.machine != Some(0)
    ensures forall i, j :: 0 <= i < j < |After(ops)| && After(ops)[i].machine == After(ops)[j].machine
              ==> After(ops)[i].machine == None
  {
    var docs := After(ops);
    EveryRunIsSound(ops);
    forall d | d in docs && d.public != 0
      ensures |d.contents| >= 86 && d.contents[37] == d.public
    {
      var i :| 0 <= i < |docs| && docs[i] == d;
      assert PublicAgrees(docs[i]);
    }
    CountNone(docs, ByMachine(0));
    assert forall d :: d in docs ==> !ByMachine(0)(d);
    forall i, j | 0 <= i < j < |docs| && docs[i].machine == docs[j].machine
      ensures docs[i].machine == None
    {
      if docs[i].machine.Some? {
        CountTwo(docs, ByMachine(docs[i].machine.value), i, j);
      }
    }
  }

  /** A call that neither comes from the gathering's owners nor finds it stale. */
  predicate Spares(op: Op, d: Doc) {
    match op
    case Register(c, _, _, _) =>
      d.creator != c.username && !(c.platform == 2 && c.machineID != 0 && d.machine == Some(c.machineID))
    case Lookup(c, username) => c.platform == 2 ==> d.creator != username && d.machine != Some(c.machineID)
    case Prune(now) => now - d.lastUpdated <= 3600
    case _ =>
      && d.creator != op.client.playerName
      && (op.client.machineID != 0 ==>
            d.machine != Some(op.client.machineID)
            && !(d.creator in op.machines && op.machines[d.creator] == op.client.machineID))
  }

  lemma SparedStays(docs: seq<Doc>, op: Op, d: Doc)
    requires d in docs && Spares(op, d)
    ensures d in Step(docs, op)
  {
    match op
    case Register(client, _, _, _) => FilterMembers(docs, Not(StaleFor(client)));
    case Prune(now) => FilterMembers(docs, FreshAt(now));
    case Lookup(client, username) =>
      if client.platform == 2 {
        var kept := Filter(docs, Not(ByCreator(username)));
        FilterMembers(docs, Not(ByCreator(username)));
        var i :| 0 <= i < |kept| && kept[i] == d;
        assert Step(docs, op)[i] == d;
      }
    case _ =>
      if OutcomeOf(docs, op) == Done {
        var j :| 0 <= j < |docs| && docs[j] == d;
        assert j != IndexOf(docs, op.id);
        KeptBeside(docs, op, j);
      }
  }

  lemma KeptBeside(docs: seq<Doc>, op: Op, j: nat)
    requires (op.Update? || op.SetState? || op.Terminate?) && OutcomeOf(docs, op) == Done
    requires j < |docs| && j != IndexOf(docs, op.id)
    ensures docs[j] in Step(docs, op)
  {
    var k := IndexOf(docs, op.id);
    if op.Terminate? {
      TerminateRemoves(docs, op, k);
      assert docs[..k] + docs[k + 1..] == Step(docs, op);
      if j < k {
        assert docs[..k][j] == docs[j];
      } else {
        assert docs[k + 1..][j - k - 1] == docs[j];
      }
    } else {
      StaysBeside(docs, op, j);
    }
  }

  lemma StaysBeside(docs: seq<Doc>, op: Op, j: nat)
    requires (op.Update? || op.SetState?) && OutcomeOf(docs, op) == Done
    requires j < |docs| && j != IndexOf(docs, op.id)
    ensures |Step(docs, op)| == |docs| && Step(docs, op)[j] == docs[j]
  {
  }

  lemma AfterOneMore(ops: seq<Op>, op: Op)
    ensures After(ops + [op]) == Step(After(ops), op)
  {
    assert (ops + [op])[..|ops|] == ops;
  }

  /**
   * No run of calls by strangers changes or removes a gathering: whatever was registered stays, byte for byte, until
   * its creator, its machine or that machine's owner calls, its account is looked up, or it is an hour old.
   */
  lemma {:induction false} StrangersCannotTouch(ops: seq<Op>, more: seq<Op>, d: Doc)
    requires d in After(ops) && forall op :: op in more ==> Spares(op, d)
    ensures d in After(ops + more)
  {
    if more == [] {
      assert ops + more == ops;
    } else {
      var n := |more| - 1;
      StrangersCannotTouch(ops, more[..n], d);
      AfterOneMore(ops + more[..n], more[n]);
      SparedStays(After(ops + more[..n]), more[n], d);
      assert ops + more == ops + more[..n] + [more[n]];
    }
  }
}
