/** The clients known to the server and the PIDs each may act as. */
module ClientStore {
  import opened Bytes
  import opened Options
  import opened PidStack

  class ClientInfo {
    const ip: string
    const slots: array<u32>
    var len: nat

    constructor (ip: string)
      ensures Valid() && Stack() == [] && fresh(slots)
    {
      this.ip := ip;
      slots := new u32[MAX_STACK];
      len := 0;
    }

    ghost predicate Valid()
      reads this
    {
      slots.Length == MAX_STACK && len <= MAX_STACK
    }

    ghost function Stack(): (s: seq<u32>)
      requires Valid()
      reads this, slots
      ensures |s| <= MAX_STACK
    {
      slots[..len]
    }

    /** Drop the PID at `i` by moving the later ones down. */
    method RemoveAt(i: nat)
      requires Valid() && i < len
      modifies this`len, slots
      ensures Valid() && Stack() == old(Stack())[..i] + old(Stack())[i + 1..]
    {
      var j := i;
      while j + 1 < len
        invariant i <= j < len == old(len) && slots.Length == MAX_STACK
        invariant len <= MAX_STACK
        invariant forall k :: 0 <= k < i ==> slots[k] == old(slots[k])
        invariant forall k :: i <= k < j ==> slots[k] == old(slots[k + 1])
        invariant forall k :: j < k < len ==> slots[k] == old(slots[k])
      {
        slots[j] := slots[j + 1];
        j := j + 1;
      }
      len := len - 1;
    }

    method Append(pid: u32)
      requires Valid() && len < MAX_STACK
      modifies this`len, slots
      ensures Valid() && Stack() == old(Stack()) + [pid]
    {
      slots[len] := pid;
      len := len + 1;
    }

    method Push(pid: u32)
      requires Valid()
      modifies this`len, slots
      ensures Valid() && Stack() == Pushed(old(Stack()), pid)
    {
      var i := Find(pid);
      if i < len {
        RemoveAt(i);
        Append(pid);
        return;
      }
      if len >= MAX_STACK {
        RemoveAt(0);
      }
      Append(pid);
    }

    method Find(pid: u32) returns (i: nat)
      requires Valid()
      ensures i == IndexOf(Stack(), pid)
    {
      i := 0;
      while i < len && slots[i] != pid
        invariant i <= len && forall k :: 0 <= k < i ==> slots[k] != pid
      {
        i := i + 1;
      }
    }
  }

  class ClientStore {
    var clients: map<string, ClientInfo>

    constructor ()
      ensures Valid() && View() == map[]
    {
      clients := map[];
    }

    ghost function Footprint(): set<object>
      reads this
    {
      (set ip | ip in clients :: clients[ip] as object) + (set ip | ip in clients :: clients[ip].slots as object)
    }

    /** Every client has a stack of its own. */
    ghost predicate Valid()
      reads this, Footprint()
    {
      && (forall ip :: ip in clients ==> clients[ip].Valid())
      && (forall a, b :: a in clients && b in clients && a != b ==>
            clients[a] != clients[b] && clients[a].slots != clients[b].slots)
    }

    ghost function View(): map<string, seq<u32>>
      requires Valid()
      reads this, Footprint()
    {
      map ip | ip in clients :: clients[ip].Stack()
    }

    method AddClient(ip: string)
      requires Valid()
      modifies this
      ensures Valid()
      ensures View() == if ip in old(View()) then old(View()) else old(View())[ip := []]
    {
      if ip !in clients {
        var client := new ClientInfo(ip);
        clients := clients[ip := client];
      }
    }

    method PushPID(ip: string, pid: u32) returns (found: bool)
      requires Valid()
      modifies if ip in clients then {clients[ip], clients[ip].slots} else {}
      ensures Valid() && found == (ip in old(View()))
      ensures View() == if found then old(View())[ip := Pushed(old(View())[ip], pid)] else old(View())
    {
      if ip !in clients {
        return false;
      }
      var client := clients[ip];
      client.Push(pid);
      found := true;
      forall a | a in clients && a != ip
        ensures clients[a].Valid() && clients[a].Stack() == old(clients[a].Stack())
      {
        assert clients[a] != client && clients[a].slots != client.slots;
      }
    }

    method IsValidPID(ip: string, pid: u32) returns (r: Option<bool>)
      requires Valid()
      ensures r == if ip in View() then Some(pid in View()[ip]) else None
    {
      if ip !in clients {
        return None;
      }
      var i := clients[ip].Find(pid);
      r := Some(i < clients[ip].len);
    }

    method RemoveClient(ip: string)
      requires Valid()
      modifies this
      ensures Valid() && View() == old(View()) - {ip}
    {
      clients := clients - {ip};
    }
  }

  // ---------- runs ----------

  datatype Op = Add(ip: string) | Push(ip: string, pid: u32) | Remove(ip: string)

  ghost predicate Bounded(view: map<string, seq<u32>>) {
    forall ip :: ip in view ==> |view[ip]| <= MAX_STACK
  }

  ghost function Step(view: map<string, seq<u32>>, op: Op): (view': map<string, seq<u32>>)
    requires Bounded(view)
    ensures Bounded(view')
  {
    match op
    case Add(ip) => if ip in view then view else view[ip := []]
    case Push(ip, pid) => if ip in view then view[ip := Pushed(view[ip], pid)] else view
    case Remove(ip) => view - {ip}
  }

  ghost function After(ops: seq<Op>): (view: map<string, seq<u32>>)
    ensures Bounded(view)
  {
    if ops == [] then map[] else Step(After(ops[..|ops| - 1]), ops[|ops| - 1])
  }

  /** The PIDs pushed for an address since it was last added afresh, if it is a client now. */
  function History(ops: seq<Op>, ip: string): Option<seq<u32>> {
    if ops == [] then None
    else
      var h := History(ops[..|ops| - 1], ip);
      match ops[|ops| - 1]
      case Add(a) => if a == ip && h.None? then Some([]) else h
      case Push(a, pid) => if a == ip && h.Some? then Some(h.value + [pid]) else h
      case Remove(a) => if a == ip then None else h
  }

  lemma {:induction false} ViewIsHistory(ops: seq<Op>, ip: string)
    ensures ip in After(ops) <==> History(ops, ip).Some?
    ensures ip in After(ops) ==> After(ops)[ip] == AfterPushes(History(ops, ip).value)
  {
    if ops == [] {
    } else {
      var n := |ops| - 1;
      ViewIsHistory(ops[..n], ip);
      var h := History(ops[..n], ip);
      if ops[n].Push? && ops[n].ip == ip && h.Some? {
        assert (h.value + [ops[n].pid])[..|h.value|] == h.value;
      }
    }
  }

  /** In every run a PID is valid for an address exactly when fewer than eight other PIDs were pushed for it since. */
  lemma ValidIff(ops: seq<Op>, ip: string, pid: u32)
    requires ip in After(ops)
    ensures History(ops, ip).Some?
    ensures pid in After(ops)[ip]
            <==> var h := History(ops, ip).value;
                 pid in h && |PushedSince(h, pid)| < 8
  {
    ViewIsHistory(ops, ip);
    OnStackIff(History(ops, ip).value, pid);
  }
}
