/** The WebSocket server's client list: broadcasting with removal through a pointer to the previous link. */
module Clients {
  import opened Basics
  import opened Transport
  import opened FrameSpec
  import opened Frames

  class Client {
    const fd: Socket
    var alive: bool
    var closed: nat      // how often its descriptor has been closed
    var next: Client?

    constructor (fd: Socket)
      ensures this.fd == fd && alive && closed == 0 && next == null
    {
      this.fd, alive, closed, next := fd, true, 0, null;
    }
  }

  function At(cs: seq<Client>, i: nat): Client? { if i < |cs| then cs[i] else null }

  /** The chain that starts at head runs through exactly cs and ends. */
  ghost predicate Chain(head: Client?, cs: seq<Client>)
    reads cs
  {
    && head == At(cs, 0)
    && (forall i {:trigger cs[i].next} :: 0 <= i < |cs| ==> cs[i].next == At(cs, i + 1))
    && Distinct(cs)
  }

  /** The clients whose flag is set, in their order. */
  function Keep(cs: seq<Client>, flags: seq<bool>): seq<Client>
    requires |cs| == |flags|
  {
    if cs == [] then []
    else Keep(cs[..|cs| - 1], flags[..|cs| - 1]) + if flags[|cs| - 1] then [cs[|cs| - 1]] else []
  }

  /** A filter: what is kept of two lists is what is kept of each. */
  lemma {:induction false} KeepJoin(a: seq<Client>, b: seq<Client>, fa: seq<bool>, fb: seq<bool>)
    requires |a| == |fa| && |b| == |fb|
    ensures Keep(a + b, fa + fb) == Keep(a, fa) + Keep(b, fb)
  {
    if b == [] {
      assert a + b == a && fa + fb == fa;
    } else {
      var n := |b| - 1;
      KeepJoin(a, b[..n], fa, fb[..n]);
      InitOfSum(a, b);
      InitOfSum(fa, fb);
      KeepInit(a + b, fa + fb);
      KeepInit(b, fb);
      hide Keep;
      SumsAssociate(Keep(a, fa), Keep(b[..n], fb[..n]), if fb[n] then [b[n]] else []);
    }
  }

  lemma KeepInit(cs: seq<Client>, flags: seq<bool>)
    requires |cs| == |flags| && cs != []
    ensures var n := |cs| - 1; Keep(cs, flags) == Keep(cs[..n], flags[..n]) + if flags[n] then [cs[n]] else []
  {
  }

  /** And of one client it is all or nothing, by its flag. */
  lemma KeepOne(c: Client)
    ensures Keep([c], [true]) == [c] && Keep([c], [false]) == []
  {
  }

  function Without(cs: seq<Client>, c: Client): seq<Client> {
    if cs == [] then [] else if cs[0] == c then cs[1..] else [cs[0]] + Without(cs[1..], c)
  }

  predicate Within(cs: seq<Client>, repr: set<object>) {
    forall i :: 0 <= i < |cs| ==> cs[i] in repr && cs[i].fd in repr
  }

  /** cs without element k. */
  function Cut(cs: seq<Client>, k: nat): (r: seq<Client>)
    requires k < |cs|
    ensures |r| == |cs| - 1 && forall i :: 0 <= i < |r| ==> r[i] == if i < k then cs[i] else cs[i + 1]
  {
    cs[..k] + cs[k + 1..]
  }

  lemma CutFacts(cs: seq<Client>, k: nat, repr: set<object>)
    requires k < |cs| && Distinct(cs) && Within(cs, repr)
    ensures Distinct(Cut(cs, k)) && Within(Cut(cs, k), repr) && (0 < k ==> cs[k - 1] in repr)
    ensures forall i :: 0 <= i < |cs| - 1 && i + 1 != k && 0 < k ==> Cut(cs, k)[i] != cs[k - 1]
  {
  }

  class Server {
    var clients: Client?
    ghost var list: seq<Client>
    ghost var repr: set<object>   // the clients ever linked and their sockets

    ghost predicate Valid()
      reads this, list
    {
      && Chain(clients, list)
      && Within(list, repr)
    }

    constructor ()
      ensures Valid() && list == [] && repr == {}
    {
      clients, list, repr := null, [], {};
    }

    /** accept_thread links a new client in front. */
    method Add(c: Client)
      requires Valid() && forall i :: 0 <= i < |list| ==> list[i] != c && list[i].fd != c.fd
      modifies this, c`next
      ensures Valid() && list == [c] + old(list) && repr == old(repr) + {c, c.fd}
    {
      c.next := clients;
      clients := c;
      list, repr := [c] + list, repr + {c, c.fd};
    }

    // *pp = c->next, for pp the head of the list or the link in prev.

    method UnlinkHead()
      requires Valid() && clients != null
      modifies this
      ensures Valid() && list == Cut(old(list), 0) && repr == old(repr)
    {
      hide Within, Distinct;
      CutFacts(list, 0, repr);
      clients := clients.next;
      list := Cut(list, 0);
    }

    method UnlinkAfter(prev: Client, ghost k: nat)
      requires Valid() && 0 < k < |list| && prev == list[k - 1]
      modifies this, prev`next
      ensures Valid() && list == Cut(old(list), k) && repr == old(repr)
    {
      hide Within, Distinct;
      CutFacts(list, k, repr);
      ghost var cs := list;
      assert prev.next == cs[k] && cs[k].next == At(cs, k + 1);
      prev.next := prev.next.next;
      list := Cut(cs, k);
    }

    /** Removes node k, given the node before it. */
    method Unlink(prev: Client?, ghost k: nat, ghost all: seq<Client>)
      requires Valid() && k < |list| && prev == LastOf(list[..k])
      modifies this, repr
      ensures Valid() && list == old(list)[..k] + old(list)[k + 1..] && repr == old(repr)
      ensures Statuses(all) == old(Statuses(all))
    {
      hide Within, Chain;
      ListAt();
      CutFacts(list, k, repr);
      if prev == null {
        UnlinkHead();
      } else {
        UnlinkAfter(prev, k);
      }
    }

    lemma WithinAt()
      requires Valid()
      ensures Within(list, repr)
    {
    }

    lemma ListAt()
      requires Valid()
      ensures clients == At(list, 0) && Distinct(list)
    {
    }

    /** client_remove: the node is unlinked, or the list stays as it is. */
    method Remove(c: Client)
      requires Valid()
      modifies this, repr
      ensures Valid() && list == Without(old(list), c) && repr == old(repr)
    {
      var prev: Client? := null;
      var cur := clients;
      ghost var k := 0;
      while cur != null
        invariant Valid() && list == old(list) && repr == old(repr) && k <= |list| && cur == At(list, k)
        invariant prev == if k == 0 then null else list[k - 1]
        invariant c !in list[..k]
        decreases |list| - k
      {
        if cur == c {
          WithoutAt(list, k);
          Unlink(prev, k, []);
          return;
        }
        prev, cur, k := cur, cur.next, k + 1;
      }
      WithoutAbsent(list, c);
    }

    /** One client of a broadcast: whether it stays in the list. */
    method Serve(c: Client, msg: Text, ghost all: seq<Client>, ghost i: nat) returns (keep: bool)
      requires Valid() && Distinct(all) && i < |all| && all[i] == c
      modifies c`alive, c`closed, c.fd`sent, c.fd`sendPlan
      ensures Served(old(StatusOf(c)), StatusOf(c), msg) && keep == StatusOf(c).alive
      ensures Statuses(all) == old(Statuses(all))[i := StatusOf(c)]
      ensures Valid()
    {
      hide TextFrame;
      if !c.alive {
        c.closed := c.closed + 1;
        return false;
      }
      keep := SendText(c.fd, msg);
      if !keep {
        c.alive := false;
        c.closed := c.closed + 1;
      }
    }

    /** One round of the loop of ws_server_broadcast: done are the clients served and kept, c is the next one. */
    method ServeNext(prev: Client?, c: Client, msg: Text, ghost done: seq<Client>, ghost rest: seq<Client>,
                     ghost all: seq<Client>, ghost i: nat)
      returns (keep: bool)
      requires Valid() && list == done + ([c] + rest) && prev == LastOf(done)
      requires Distinct(all) && i < |all| && all[i] == c
      modifies this, repr
      ensures repr == old(repr)
      ensures Valid() && list == if keep then done + ([c] + rest) else done + rest
      ensures exists after :: Served(old(StatusOf(c)), after, msg) && keep == after.alive
                           && Statuses(all) == old(Statuses(all))[i := after]
    {
      hide Valid, Served, Statuses, StatusOf, Distinct;
      assert list[|done|] == c && list[..|done|] == done && list[|done| + 1..] == rest;
      WithinAt();
      keep := Serve(c, msg, all, i);
      if !keep {
        Unlink(prev, |done|, all);
      }
    }

    /** ws_server_broadcast: afterwards the list holds the clients that are still alive, in their old order, and every
        client has fared as Served says. */
    method Broadcast(msg: Text)
      requires Valid()
      modifies this, repr
      ensures repr == old(repr)
      ensures Valid() && list == Keep(old(list), Flags(Statuses(old(list))))
      ensures ServedAll(old(Statuses(list)), Statuses(old(list)), |old(list)|, msg)
    {
      hide Keep, Served, Distinct, Statuses, Flags;
      ghost var all, before := list, Statuses(list);
      var prev: Client? := null;
      var c := clients;
      ghost var i, done: seq<Client> := 0, [];
      KeepNone(Statuses(all));
      while c != null
        invariant Valid() && Distinct(all) && i <= |all| && c == At(all, i)
        invariant |Statuses(all)| == |all|
        invariant done == Keep(all[..i], Flags(Statuses(all)[..i])) && list == done + all[i..] && prev == LastOf(done)
        invariant repr == old(repr)
        invariant ServedAll(before, Statuses(all), i, msg) && Statuses(all)[i..] == before[i..]
        decreases |all| - i
      {
        var next := c.next;
        ghost var was, rest := Statuses(all), all[i + 1..];
        Split(done, all, i);
        NextOf(c, done, rest);
        StatusAt(all, i);
        var keep := ServeNext(prev, c, msg, done, rest, all, i);
        OneServed(all, before, was, Statuses(all), i, msg);
        if keep {
          prev, done := c, done + [c];
        }
        c, i := next, i + 1;
      }
      assert all[..i] == all && Statuses(all)[..i] == Statuses(all);
    }

    lemma NextOf(c: Client, done: seq<Client>, rest: seq<Client>)
      requires Valid() && list == done + ([c] + rest)
      ensures c.next == At(rest, 0)
    {
      assert list[|done|] == c;
      assert At(list, |done| + 1) == At(rest, 0);
    }
  }

  type Text = t: seq<byte> | |t| < 0x8000_0000_0000_0000 witness []

  /** What a broadcast can observe or change of a client. */
  datatype Status = Status(alive: bool, closed: nat, sent: seq<byte>, smooth: bool)

  ghost function StatusOf(c: Client): Status
    reads c, c.fd
  {
    Status(c.alive, c.closed, c.fd.sent, Smooth(c.fd.sendPlan))
  }

  ghost function Statuses(cs: seq<Client>): (r: seq<Status>)
    reads cs, set c | c in cs :: c.fd
    ensures |r| == |cs|
  {
    seq(|cs|, i requires 0 <= i < |cs| reads cs, set c | c in cs :: c.fd => StatusOf(cs[i]))
  }

  lemma Split(done: seq<Client>, all: seq<Client>, i: nat)
    requires i < |all|
    ensures done + all[i..] == done + ([all[i]] + all[i + 1..]) == (done + [all[i]]) + all[i + 1..]
  {
    assert all[i..] == [all[i]] + all[i + 1..];
  }

  lemma StatusAt(cs: seq<Client>, i: nat)
    requires i < |cs|
    ensures Statuses(cs)[i] == StatusOf(cs[i])
  {
  }

  function Flags(ss: seq<Status>): (r: seq<bool>)
    ensures |r| == |ss|
  {
    seq(|ss|, i requires 0 <= i < |ss| => ss[i].alive)
  }

  /** How a client fares in a broadcast. A survivor has got exactly one whole frame and is not closed; a client that
      was dead before gets nothing and is closed once; one whose send fails gets part of the frame, is marked dead
      and closed once. A send over a socket without faults does not fail. */
  ghost predicate Served(before: Status, after: Status, msg: Text) {
    if !before.alive then !after.alive && after.closed == before.closed + 1 && after.sent == before.sent
    else if after.alive then after.closed == before.closed && after.sent == before.sent + TextFrame(msg)
    else !before.smooth && after.closed == before.closed + 1 && SentSome(before.sent, TextFrame(msg), after.sent)
  }

  ghost predicate ServedAll(before: seq<Status>, after: seq<Status>, n: nat, msg: Text) {
    n <= |before| == |after| && forall j :: 0 <= j < n ==> Served(before[j], after[j], msg)
  }

  lemma OneServed(all: seq<Client>, before: seq<Status>, was: seq<Status>, now: seq<Status>, i: nat, msg: Text)
    requires |all| == |was| && i < |all| && ServedAll(before, was, i, msg) && was[i..] == before[i..]
    requires exists after :: Served(was[i], after, msg) && now == was[i := after]
    ensures ServedAll(before, now, i + 1, msg) && now[i + 1..] == before[i + 1..]
    ensures Keep(all[..i + 1], Flags(now[..i + 1]))
         == Keep(all[..i], Flags(was[..i])) + if now[i].alive then [all[i]] else []
  {
    hide Served;
    assert was[i] == was[i..][0] == before[i];
    assert now[i + 1..] == was[i..][1..];
    assert all[..i + 1][..i] == all[..i] && Flags(now[..i + 1])[..i] == Flags(was[..i]);
  }

  function LastOf(cs: seq<Client>): Client? { if |cs| == 0 then null else cs[|cs| - 1] }

  predicate Distinct(cs: seq<Client>) {
    forall i, j :: 0 <= i < j < |cs| ==> cs[i] != cs[j] && cs[i].fd != cs[j].fd
  }

  lemma KeepNone(ss: seq<Status>)
    ensures Keep([], Flags(ss[..0])) == []
  {
  }

  lemma {:induction false} WithoutAt(cs: seq<Client>, k: nat)
    requires k < |cs| && cs[k] !in cs[..k]
    ensures Without(cs, cs[k]) == cs[..k] + cs[k + 1..]
  {
    if k > 0 {
      assert cs[1..][..k - 1] == cs[1..k];
      WithoutAt(cs[1..], k - 1);
    }
  }

  lemma {:induction false} WithoutAbsent(cs: seq<Client>, c: Client)
    requires c !in cs
    ensures Without(cs, c) == cs
  {
    if cs != [] { WithoutAbsent(cs[1..], c); }
  }
}
