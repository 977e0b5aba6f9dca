/**
 * The node operations that drive the delivery protocol, as they loop over peers and records
 * (ops.mjs, store.mjs), each proved to be a run of the protocol's steps. A `Link` holds all nodes, so
 * that a request can change the node it reaches and, through a relay, the recipient; what a call says
 * about its own node is stated beside the run.
 */
module DeliveryNode {
  import opened Options
  import opened Delivery
  import opened DeliverySafety

  /** What happens to one request: the request itself, and the one a relay makes for it. */
  datatype Luck = Luck(fault: Fault, next: Fault)

  function LuckAt(lucks: seq<Luck>, i: nat): Luck {
    if i < |lucks| then lucks[i] else Luck(Clean, Clean)
  }

  function LucksAt(lucks: seq<seq<Luck>>, i: nat): seq<Luck> {
    if i < |lucks| then lucks[i] else []
  }

  // ---------------------------------------------------------------- the runs

  /** Try the peers from the i-th on, until one accepts. */
  function TryRun(net: Net, a: Name, id: Id, peers: seq<Peer>, lucks: seq<Luck>, i: nat): seq<Action>
    requires a in net.nodes && HasId(net.nodes[a].outbox, id)
    decreases |peers| - i
  {
    if i >= |peers| then [GiveUp(a, id)]
    else if !CanCall(net.nodes[a], a, peers[i].name) || !peers[i].hasToken then TryRun(net, a, id, peers, lucks, i + 1)
    else
      var luck := LuckAt(lucks, i);
      var step := Push(a, id, peers[i].name, luck.fault, luck.next);
      var (net', ok) := Request(net, peers[i].name, Find(net.nodes[a].outbox, id).msg, luck.fault, luck.next);
      if ok || a !in net'.nodes || !HasId(net'.nodes[a].outbox, id) then [step]
      else [step] + TryRun(net', a, id, peers, lucks, i + 1)
  }

  function DeliverRun(net: Net, a: Name, id: Id, lucks: seq<Luck>): seq<Action>
    requires a in net.nodes && HasId(net.nodes[a].outbox, id)
  {
    var to := Find(net.nodes[a].outbox, id).msg.to;
    if IsSelf(a, to) then [Append(a, id), Confirm(a, id)] else TryRun(net, a, id, Candidates(net.nodes[a], a, to), lucks, 0)
  }

  /** pendingOutbox, and the recipient filter of flush. */
  function Waiting(node: Node, items: seq<Item>, to: Option<Name>): (r: seq<Item>)
    ensures forall x :: x in r <==> x in items && State(node, x.msg.id) == Pending && (to.Some? ==> x.msg.to == to.value)
  {
    if items == [] then []
    else
      (if State(node, items[0].msg.id) == Pending && (to.Some? ==> items[0].msg.to == to.value) then [items[0]] else []) +
      Waiting(node, items[1..], to)
  }

  /** Deliver the targets from the k-th on, one after another. */
  function FlushRun(net: Net, a: Name, targets: seq<Item>, lucks: seq<seq<Luck>>, k: nat): seq<Action>
    decreases |targets| - k
  {
    if k >= |targets| || a !in net.nodes || !HasId(net.nodes[a].outbox, targets[k].msg.id) then []
    else
      var run := DeliverRun(net, a, targets[k].msg.id, LucksAt(lucks, k));
      run + FlushRun(Exec(net, run), a, targets, lucks, k + 1)
  }

  /** How many of the targets from the k-th on end delivered. */
  function Wins(net: Net, a: Name, targets: seq<Item>, lucks: seq<seq<Luck>>, k: nat): nat
    decreases |targets| - k
  {
    if k >= |targets| || a !in net.nodes || !HasId(net.nodes[a].outbox, targets[k].msg.id) then 0
    else
      var net' := Exec(net, DeliverRun(net, a, targets[k].msg.id, LucksAt(lucks, k)));
      (if a in net'.nodes && State(net'.nodes[a], targets[k].msg.id) == Delivered then 1 else 0) + Wins(net', a, targets, lucks, k + 1)
  }

  /** The targets of dropOutbox: by id when ids are given, else by recipient. */
  function Doomed(node: Node, items: seq<Item>, wanted: set<Id>, to: Option<Name>): (r: seq<Item>)
    ensures forall x :: x in r <==>
              (x in items && State(node, x.msg.id) == Pending && (if wanted != {} then x.msg.id in wanted else Some(x.msg.to) == to))
  {
    if items == [] then []
    else
      var x := items[0];
      (if State(node, x.msg.id) == Pending && (if wanted != {} then x.msg.id in wanted else Some(x.msg.to) == to) then [x] else []) +
      Doomed(node, items[1..], wanted, to)
  }

  function DropRun(a: Name, targets: seq<Item>, k: nat): seq<Action>
    decreases |targets| - k
  {
    if k >= |targets| then [] else [Drop(a, targets[k].msg.id)] + DropRun(a, targets, k + 1)
  }

  function TokenPeers(peers: seq<Peer>): (r: seq<Peer>)
    ensures forall p :: p in r <==> p in peers && p.hasToken
  {
    if peers == [] then [] else (if peers[0].hasToken then [peers[0]] else []) + TokenPeers(peers[1..])
  }

  function SyncRun(a: Name, targets: seq<Peer>, since: Option<Id>, limit: int, faults: seq<Fault>, k: nat): seq<Action>
    decreases |targets| - k
  {
    if k >= |targets| then []
    else
      [Pull(a, targets[k].name, since, limit, FaultAt(faults, k))] +
      SyncRun(a, targets, since, limit, faults, k + 1)
  }

  /** The answer to a pull reaches the node. */
  predicate Answers(net: Net, a: Name, peer: Name, fault: Fault)
    requires a in net.nodes
  {
    fault == Clean && CanCall(net.nodes[a], a, peer) && peer in net.nodes
  }

  function FaultAt(faults: seq<Fault>, k: nat): Fault {
    if k < |faults| then faults[k] else Clean
  }

  /** A pull from this peer gets its answer. */
  ghost predicate Reaches(net: Net, a: Name, peer: Name, fault: Fault) {
    a in net.nodes && fault == Clean && peer !in ["", a, "self", "local"] && HasToken(net.nodes[a], peer) && peer in net.nodes
  }

  /** Of the first k targets: how many records for this node their pages show, and how many targets give no answer. */
  ghost function Shown(net: Net, a: Name, targets: seq<Peer>, since: Option<Id>, limit: int, faults: seq<Fault>, k: nat): (nat, nat)
    requires k <= |targets|
  {
    if k == 0 then (0, 0)
    else
      var (shown, failed) := Shown(net, a, targets, since, limit, faults, k - 1);
      var peer := targets[k - 1].name;
      if Reaches(net, a, peer, FaultAt(faults, k - 1)) then (shown + |AddressedTo(Page(net.nodes[peer].outbox, since, limit), a)|, failed)
      else (shown, failed + 1)
  }

  ghost predicate Shows(net: Net, a: Name, peer: Name, since: Option<Id>, limit: int, fault: Fault, x: Item) {
    Reaches(net, a, peer, fault) && x in AddressedTo(Page(net.nodes[peer].outbox, since, limit), a) && x.msg.id != ""
  }

  /** After the first k pulls the inbox also holds what their pages show for this node; nothing else changed. */
  ghost predicate Brings(start: Net, end: Net, a: Name, targets: seq<Peer>, since: Option<Id>, limit: int, faults: seq<Fault>, k: nat)
    requires k <= |targets|
  {
    && a in start.nodes && a in end.nodes && start.nodes[a].inbox <= end.nodes[a].inbox
    && end == start.(nodes := start.nodes[a := start.nodes[a].(inbox := end.nodes[a].inbox)])
    && forall i, x :: 0 <= i < k && Shows(start, a, targets[i].name, since, limit, FaultAt(faults, i), x) ==> HasId(end.nodes[a].inbox, x.msg.id)
  }

  // ---------------------------------------------------------------- what a request leaves alone

  /** A request changes the node it is sent to and the recipient, and nobody else. */
  lemma {:induction false} AcceptSpares(net: Net, b: Name, msg: Msg, next: Fault, n: Name)
    requires n in net.nodes && n != b && n != msg.to
    ensures var net' := Accept(net, b, msg, next).0; n in net'.nodes && net'.nodes[n] == net.nodes[n]
    decreases if msg.to == b then 0 else 2
  {
    if b in net.nodes && msg.to != b && CanCall(net.nodes[b], b, msg.to) {
      RequestSpares(net, msg.to, msg, next, Clean, n);
    }
  }

  lemma {:induction false} RequestSpares(net: Net, b: Name, msg: Msg, fault: Fault, next: Fault, n: Name)
    requires n in net.nodes && n != b && n != msg.to
    ensures var net' := Request(net, b, msg, fault, next).0; n in net'.nodes && net'.nodes[n] == net.nodes[n]
    decreases if msg.to == b then 1 else 3
  {
    hide Accept;
    AcceptSpares(net, b, msg, next, n);
  }

  /** At the sender, trying to deliver one record changes nothing but that record's mark (and its own inbox). */
  ghost predicate OnlyMarks(node: Node, node': Node, id: Id) {
    && node'.peers == node.peers && node'.relay == node.relay && node'.outbox == node.outbox
    && forall other :: other != id ==> State(node', other) == State(node, other)
  }

  /** Messages to oneself that flush has still to come to are still waiting. */
  ghost predicate SelfWaiting(node: Node, a: Name, targets: seq<Item>, k: nat) {
    forall j :: k <= j < |targets| && targets[j].msg.to == a ==> State(node, targets[j].msg.id) == Pending
  }

  /** What was delivered or dropped stays so; what waited is not dropped. */
  ghost predicate SettledStay(node: Node, node': Node) {
    forall id :: if State(node, id) == Pending then State(node', id) != Dropped else State(node', id) == State(node, id)
  }

  /** Only the marks of node `a` differ, and exactly the given records are dropped. */
  ghost predicate Dropping(net: Net, net': Net, a: Name, dropped: seq<Item>)
    requires a in net.nodes
  {
    && a in net'.nodes
    && net' == net.(nodes := net.nodes[a := net.nodes[a].(delivery := net'.nodes[a].delivery)])
    && forall id :: State(net'.nodes[a], id) == if HasId(dropped, id) then Dropped else State(net.nodes[a], id)
  }

  /**
   * No id is in the inbox twice, and a message to oneself that is there does not wait any more: what a
   * node looks like when its processes deliver one after the other and none dies half-way.
   */
  ghost predicate Settled(node: Node, a: Name) {
    UniqueIds(node.inbox) && forall id :: IsOwn(node, a, id) && HasId(node.inbox, id) ==> State(node, id) != Pending
  }

  // ---------------------------------------------------------------- what a delivery does

  ghost predicate Calls(node: Node, a: Name, peer: Peer) {
    peer.hasToken && peer.name !in ["", a, "self", "local"] && HasToken(node, peer.name)
  }

  /** `nets` are the states of the network while the first k peers are posted to, in turn, and none answers. */
  ghost predicate Unanswered(nets: seq<Net>, a: Name, msg: Msg, peers: seq<Peer>, lucks: seq<Luck>, k: nat) {
    && |nets| == k + 1 && k <= |peers| && a in nets[0].nodes
    && forall i :: 0 <= i < k ==>
         if Calls(nets[0].nodes[a], a, peers[i]) then
           Request(nets[i], peers[i].name, msg, LuckAt(lucks, i).fault, LuckAt(lucks, i).next) == (nets[i + 1], false)
         else nets[i + 1] == nets[i]
  }

  /** Every peer with a token was posted to and none answered, or the last one posted to answered. */
  ghost predicate Tried(start: Net, end: Net, a: Name, msg: Msg, peers: seq<Peer>, lucks: seq<Luck>, state: Progress) {
    exists nets: seq<Net>, k: nat :: Unanswered(nets, a, msg, peers, lucks, k) && nets[0] == start && a in nets[k].nodes &&
      if state == Pending then k == |peers| && end == SetDelivery(nets[k], a, msg.id, Pending)
      else Answered(nets[k], start, end, a, msg, peers, lucks, k)
  }

  ghost predicate Answered(net: Net, start: Net, end: Net, a: Name, msg: Msg, peers: seq<Peer>, lucks: seq<Luck>, k: nat) {
    && k < |peers| && a in start.nodes && Calls(start.nodes[a], a, peers[k])
    && var (net', ok) := Request(net, peers[k].name, msg, LuckAt(lucks, k).fault, LuckAt(lucks, k).next);
       ok && a in net'.nodes && end == SetDelivery(net', a, msg.id, Delivered)
  }

  /** A record for a node with a token of its own: delivered exactly if the answer comes back from there. */
  ghost predicate SentDirectly(start: Net, end: Net, msg: Msg, fault: Fault, state: Progress) {
    && (state == Delivered <==> fault == Clean && msg.to in start.nodes)
    && (Arrived(end, msg) <==> Arrived(start, msg) || (fault != LostRequest && msg.to in start.nodes))
  }

  /** What deliver does with a record for another node: post it there, or around if this node relays, or nothing. */
  ghost predicate DeliversTo(start: Net, end: Net, a: Name, msg: Msg, lucks: seq<Luck>, state: Progress) {
    a in start.nodes &&
    var node := start.nodes[a];
    if HasToken(node, msg.to) then SentDirectly(start, end, msg, LuckAt(lucks, 0).fault, state)
    else if node.relay && forall p :: p in node.peers ==> p.name != msg.to then Tried(start, end, a, msg, node.peers, lucks, state)
    else state == Pending && end == SetDelivery(start, a, msg.id, Pending)
  }

  lemma {:induction false} TriedDelivers(start: Net, end: Net, a: Name, msg: Msg, lucks: seq<Luck>, state: Progress)
    requires Inv(start) && Genuine(start.sent, msg) && a in start.nodes && Named(msg.to) && msg.to != a && (state == Pending || state == Delivered)
    requires Tried(start, end, a, msg, Candidates(start.nodes[a], a, msg.to), lucks, state)
    ensures DeliversTo(start, end, a, msg, lucks, state)
  {
    hide Inv, Genuine, Request, SetDelivery, HasToken, Candidates, Arrived;
    var node := start.nodes[a];
    CandidatesAre(node, a, msg.to);
    SentHasId(start, msg);
    AcceptHere(start, msg, LuckAt(lucks, 0).next);
    var nets: seq<Net>, k: nat :| Unanswered(nets, a, msg, Candidates(node, a, msg.to), lucks, k) && nets[0] == start && a in nets[k].nodes &&
      if state == Pending then k == |Candidates(node, a, msg.to)| && end == SetDelivery(nets[k], a, msg.id, Pending)
      else Answered(nets[k], start, end, a, msg, Candidates(node, a, msg.to), lucks, k);
    if HasToken(node, msg.to) {
      var luck := LuckAt(lucks, 0);
      var (net', ok) := Request(start, msg.to, msg, luck.fault, luck.next);
      RequestHere(start, msg, luck.fault, luck.next);
      if state == Delivered { MarkSparesInboxes(net', a, msg, Delivered); } else { MarkSparesInboxes(net', a, msg, Pending); }
    } else if exists p :: p in node.peers && p.name == msg.to {
      assert !Calls(node, a, Peer(msg.to, false));
    }
  }

  /** Whether the outcome for a record does not depend on a relay, and whether it is then delivered. */
  ghost predicate IsSure(net: Net, a: Name, msg: Msg)
    requires a in net.nodes
  {
    msg.to == a || HasToken(net.nodes[a], msg.to)
  }

  ghost predicate SurelyDelivered(net: Net, a: Name, msg: Msg, lucks: seq<Luck>)
    requires a in net.nodes
  {
    IsSure(net, a, msg) && (msg.to == a || (LuckAt(lucks, 0).fault == Clean && msg.to in net.nodes))
  }

  /** Of the first k targets, how many are surely delivered, and of how many a relay decides. */
  ghost function SureCount(net: Net, a: Name, targets: seq<Item>, lucks: seq<seq<Luck>>, k: nat): (r: (nat, nat))
    requires a in net.nodes && k <= |targets|
    ensures r.0 + r.1 <= k
  {
    if k == 0 then (0, 0)
    else
      var (sure, open) := SureCount(net, a, targets, lucks, k - 1);
      var msg := targets[k - 1].msg;
      if !IsSure(net, a, msg) then (sure, open + 1)
      else if SurelyDelivered(net, a, msg, LucksAt(lucks, k - 1)) then (sure + 1, open) else (sure, open)
  }

  lemma SameSure(net: Net, now: Net, a: Name, msg: Msg, lucks: seq<Luck>)
    requires a in net.nodes && a in now.nodes && now.nodes[a].peers == net.nodes[a].peers && now.nodes.Keys == net.nodes.Keys
    ensures IsSure(net, a, msg) <==> IsSure(now, a, msg)
    ensures SurelyDelivered(net, a, msg, lucks) <==> SurelyDelivered(now, a, msg, lucks)
  {
  }

  lemma SureOutcome(start: Net, end: Net, a: Name, msg: Msg, lucks: seq<Luck>, state: Progress)
    requires a in start.nodes && if msg.to == a then state == Delivered else DeliversTo(start, end, a, msg, lucks, state)
    ensures IsSure(start, a, msg) ==> (state == Delivered <==> SurelyDelivered(start, a, msg, lucks))
  {
    hide HasToken, Tried;
  }

  lemma SentHasId(net: Net, msg: Msg)
    requires Inv(net) && Genuine(net.sent, msg)
    ensures msg.id != ""
  {
  }

  lemma MarkSparesInboxes(net: Net, a: Name, msg: Msg, progress: Progress)
    requires a in net.nodes
    ensures Arrived(SetDelivery(net, a, msg.id, progress), msg) <==> Arrived(net, msg)
  {
  }

  lemma RequestHere(net: Net, msg: Msg, fault: Fault, next: Fault)
    requires Accepted(net, msg, next)
    ensures var (net', ok) := Request(net, msg.to, msg, fault, next);
            && (ok <==> fault == Clean && msg.to in net.nodes)
            && (Arrived(net', msg) <==> Arrived(net, msg) || (fault != LostRequest && msg.to in net.nodes))
            && net'.nodes.Keys == net.nodes.Keys
  {
    hide Accept;
  }

  class Link {
    var net: Net

    constructor (net: Net)
      ensures this.net == net
    {
      this.net := net;
    }

    /** importMessages at node `a`. */
    method ImportMessages(a: Name, records: seq<Item>, via: Name) returns (imported: nat, skipped: nat)
      requires a in net.nodes
      modifies this
      ensures net == old(net).(nodes := old(net).nodes[a := old(net).nodes[a].(inbox := Import(old(net).nodes[a].inbox, records, via))])
      ensures imported + skipped == |records| && |net.nodes[a].inbox| == |old(net).nodes[a].inbox| + imported
    {
      var inbox := net.nodes[a].inbox;
      var existing: set<Id> := set x | x in inbox :: x.msg.id;
      imported := 0;
      assert forall id :: id in existing <==> HasId(inbox, id);
      for k := 0 to |records|
        invariant forall id :: id in existing <==> HasId(inbox, id)
        invariant Import(net.nodes[a].inbox, records, via) == Import(inbox, records[k..], via)
        invariant imported <= k && |inbox| == |net.nodes[a].inbox| + imported
        invariant net == old(net)
      {
        var record := records[k];
        assert records[k..][0] == record && records[k..][1..] == records[k + 1..];
        if record.msg.id != "" && record.msg.id !in existing {
          forall id
            ensures HasId(inbox + [Item(record.msg, via)], id) <==> HasId(inbox, id) || record.msg.id == id
          {
            HasIdAppend(inbox, Item(record.msg, via), id);
          }
          inbox := inbox + [Item(record.msg, via)];
          existing := existing + {record.msg.id};
          imported := imported + 1;
        }
      }
      skipped := |records| - imported;
      net := net.(nodes := net.nodes[a := net.nodes[a].(inbox := inbox)]);
    }

    /** deliver: to oneself, or to the peers in turn until one accepts. */
    method Deliver(a: Name, id: Id, lucks: seq<Luck>) returns (state: Progress)
      requires Inv(net) && a in net.nodes && HasId(net.nodes[a].outbox, id)
      modifies this
      ensures net == Exec(old(net), DeliverRun(old(net), a, id, lucks)) && Inv(net)
      ensures a in net.nodes && OnlyMarks(old(net).nodes[a], net.nodes[a], id) && State(net.nodes[a], id) == state
      ensures state == Pending || (state == Delivered && Arrived(net, Find(old(net).nodes[a].outbox, id).msg))
      ensures old(Settled(net.nodes[a], a) && (IsOwn(net.nodes[a], a, id) ==> State(net.nodes[a], id) == Pending)) ==> Settled(net.nodes[a], a)
      ensures var msg := Find(old(net).nodes[a].outbox, id).msg;
              if msg.to == a then state == Delivered else DeliversTo(old(net), net, a, msg, lucks, state)
    {
      hide Inv, Request, Exec, SetDelivery, PutInbox, Candidates, CanCall, Settled, Tried, DeliversTo, HasToken, Unanswered;
      var record := Find(net.nodes[a].outbox, id).msg;
      FoundIsGenuine(net, a, id);
      if IsSelf(a, record.to) {
        state := DeliverToSelf(a, id);
        return;
      }
      var candidates := Candidates(net.nodes[a], a, record.to);
      ghost var run: seq<Action> := [];
      ghost var nets := [net];
      NobodyPosted(net, a, record, candidates, lucks);
      ExecNothing(net);
      assert [] + TryRun(net, a, id, candidates, lucks, 0) == TryRun(net, a, id, candidates, lucks, 0);
      for i := 0 to |candidates|
        invariant Inv(net) && a in net.nodes && net.nodes[a] == old(net).nodes[a] && net.sent == old(net).sent
        invariant net == Exec(old(net), run)
        invariant DeliverRun(old(net), a, id, lucks) == run + TryRun(net, a, id, candidates, lucks, i)
        invariant |nets| == i + 1 && nets[0] == old(net) && nets[i] == net && Unanswered(nets, a, record, candidates, lucks, i)
      {
        var peer := candidates[i];
        CanCallIff(net.nodes[a], a, peer.name);
        if peer.hasToken && CanCall(net.nodes[a], a, peer.name) {
          var luck := LuckAt(lucks, i);
          ghost var step := Push(a, id, peer.name, luck.fault, luck.next);
          ghost var before := net;
          assert peer == Peer(peer.name, true) && peer.name != a by { CallsOthers(net.nodes[a], a, peer.name); }
          RequestKeeps(net, peer.name, record, luck.fault, luck.next);
          RequestSpares(net, peer.name, record, luck.fault, luck.next, a);
          PushIs(before, step, record);
          ExecConcat(old(net), run, [step]);
          ExecOne(before, step);
          var (net', accepted) := Request(net, peer.name, record, luck.fault, luck.next);
          net := net';
          if accepted {
            OneAnswers(nets, old(net), SetDelivery(net', a, id, Delivered), a, record, candidates, lucks, i);
            TriedDelivers(old(net), SetDelivery(net', a, id, Delivered), a, record, lucks, Delivered);
            net := SetDelivery(net, a, id, Delivered);
            run := run + [step];
            state := Delivered;
            AcceptedArrives(before, net', record, a);
            MarkSettles(net', a, id, Delivered);
            return;
          }
          assert run + ([step] + TryRun(net', a, id, candidates, lucks, i + 1)) == (run + [step]) + TryRun(net', a, id, candidates, lucks, i + 1);
          run := run + [step];
        }
        OneMoreIsSilent(nets, net, a, record, candidates, lucks, i);
        nets := nets + [net];
      }
      NobodyAnswers(nets, old(net), a, record, candidates, lucks);
      TriedDelivers(old(net), SetDelivery(net, a, id, Pending), a, record, lucks, Pending);
      ghost var before := net;
      MarkKeeps(net, a, id, Pending);
      GiveUpIs(before, a, id, record);
      ExecConcat(old(net), run, [GiveUp(a, id)]);
      ExecOne(before, GiveUp(a, id));
      net := SetDelivery(net, a, id, Pending);
      MarksOnly(before, a, id, Pending);
      MarkSettles(before, a, id, Pending);
      state := Pending;
    }

    method DeliverToSelf(a: Name, id: Id) returns (state: Progress)
      requires Inv(net) && a in net.nodes && IsOwn(net.nodes[a], a, id)
      modifies this
      ensures net == Exec(old(net), DeliverRun(old(net), a, id, [])) && Inv(net)
      ensures state == Delivered && a in net.nodes && OnlyMarks(old(net).nodes[a], net.nodes[a], id)
      ensures State(net.nodes[a], id) == Delivered && Arrived(net, Find(old(net).nodes[a].outbox, id).msg)
      ensures old(UniqueIds(net.nodes[a].inbox)) ==> (UniqueIds(net.nodes[a].inbox) <==> !old(HasId(net.nodes[a].inbox, id)))
      ensures old(Settled(net.nodes[a], a) && State(net.nodes[a], id) == Pending) ==> Settled(net.nodes[a], a)
    {
      hide Inv;
      var record := Find(net.nodes[a].outbox, id).msg;
      FoundIsGenuine(net, a, id);
      AppendKeeps(net, a, id);
      HasIdAppend(net.nodes[a].inbox, Item(record, "local"), id);
      SelfSettles(net, a, id, record);
      ghost var before := net;
      net := PutInbox(net, a, Item(record, "local"));
      ConfirmKeeps(net, a, id);
      ExecTwo(before, Append(a, id), Confirm(a, id));
      net := SetDelivery(net, a, id, Delivered);
      state := Delivered;
    }

    /** sendMessage: refused without a recipient or a body; otherwise queued, then delivered. */
    method SendMessage(a: Name, id: Id, to: Name, body: string, lucks: seq<Luck>) returns (state: Option<Progress>)
      requires Inv(net) && a in net.nodes && id != "" && id !in net.sent && (to != "" ==> Named(to))
      modifies this
      ensures state == None <==> to == "" || body == ""
      ensures state == None ==> net == old(net)
      ensures Inv(net) && Grown(old(net), net)
      ensures state.Some? ==>
                var msg := Msg(id, a, to, body);
                var queued := Apply(old(net), Send(a, msg));
                && a in queued.nodes && HasId(queued.nodes[a].outbox, id)
                && net == Exec(queued, DeliverRun(queued, a, id, lucks))
                && (state.value == Delivered ==> Arrived(net, msg))
                && if to == a then state.value == Delivered else DeliversTo(queued, net, a, msg, lucks, state.value)
      ensures a in net.nodes && (old(Settled(net.nodes[a], a)) ==> Settled(net.nodes[a], a))
    {
      GrownReflexive(net);
      if to == "" || body == "" {
        return None;
      }
      var msg := Msg(id, a, to, body);
      SendKeeps(net, a, msg);
      ghost var before := net;
      net := net.(sent := net.sent[id := msg]);
      net := PutOutbox(net, a, Item(msg, ""));
      net := SetDelivery(net, a, id, Pending);
      SentIsQueued(before, a, msg);
      QueuedIsSettled(before, a, msg);
      ghost var queued := net;
      var s := Deliver(a, id, lucks);
      state := Some(s);
      assert Grown(before, net) by { RunGrows(queued, a, id, lucks); GrownTransitive(before, queued, net); }
    }

    /** flush: everything that was pending at the start is tried once, in outbox order. */
    method Flush(a: Name, to: Option<Name>, lucks: seq<seq<Luck>>) returns (attempted: nat, delivered: nat, pending: nat)
      requires Inv(net) && a in net.nodes
      modifies this
      ensures var targets := Waiting(old(net).nodes[a], old(net).nodes[a].outbox, to);
              && attempted == |targets| && delivered + pending == attempted
              && delivered == Wins(old(net), a, targets, lucks, 0)
              && net == Exec(old(net), FlushRun(old(net), a, targets, lucks, 0))
      ensures Inv(net) && a in net.nodes && net.nodes[a].outbox == old(net).nodes[a].outbox
      ensures SettledStay(old(net).nodes[a], net.nodes[a])
      ensures old(Settled(net.nodes[a], a)) ==> Settled(net.nodes[a], a)
      ensures var targets := Waiting(old(net).nodes[a], old(net).nodes[a].outbox, to);
              var (sure, open) := SureCount(old(net), a, targets, lucks, |targets|);
              sure <= delivered <= sure + open
    {
      hide Inv, Settled, DeliversTo, IsSure, SurelyDelivered, Exec, DeliverRun, FlushRun, Wins, Waiting, OnlyMarks, HasId, Find;
      var targets := Waiting(net.nodes[a], net.nodes[a].outbox, to);
      attempted, delivered := |targets|, 0;
      ghost var run: seq<Action> := [];
      ghost var start := net.nodes[a];
      ExecNothing(net);
      TargetsAreDistinct(net, a, to);
      for k := 0 to |targets|
        invariant Inv(net) && a in net.nodes && net.nodes[a].outbox == start.outbox && delivered <= k
        invariant SelfWaiting(net.nodes[a], a, targets, k) && SettledStay(start, net.nodes[a])
        invariant old(Settled(net.nodes[a], a)) ==> Settled(net.nodes[a], a)
        invariant net.nodes.Keys == old(net).nodes.Keys && net.nodes[a].peers == start.peers
        invariant var (sure, open) := SureCount(old(net), a, targets, lucks, k); sure <= delivered <= sure + open
        invariant net == Exec(old(net), run)
        invariant FlushRun(old(net), a, targets, lucks, 0) == run + FlushRun(net, a, targets, lucks, k)
        invariant Wins(old(net), a, targets, lucks, 0) == delivered + Wins(net, a, targets, lucks, k)
      {
        var record := targets[k];
        assert record in targets;
        ItemHasId(start.outbox, record);
        FoundIsTheRecord(net, a, record);
        ghost var before := net;
        ghost var step := DeliverRun(net, a, record.msg.id, LucksAt(lucks, k));
        FlushUnfold(net, a, targets, lucks, k);
        OwnTargetWaits(net, a, targets, k);
        RunGrows(net, a, record.msg.id, LucksAt(lucks, k));
        SameSure(old(net), net, a, record.msg, LucksAt(lucks, k));
        var state := Deliver(a, record.msg.id, LucksAt(lucks, k));
        SureOutcome(before, net, a, record.msg, LucksAt(lucks, k), state);
        OnlyMarksPeers(before.nodes[a], net.nodes[a], record.msg.id);
        if state == Delivered {
          delivered := delivered + 1;
        }
        OthersStay(start, before.nodes[a], net.nodes[a], a, targets, k);
        ExecConcat(old(net), run, step);
        assert run + (step + FlushRun(net, a, targets, lucks, k + 1)) == (run + step) + FlushRun(net, a, targets, lucks, k + 1);
        run := run + step;
      }
      FlushEnds(net, a, targets, lucks);
      assert run + [] == run;
      pending := attempted - delivered;
    }

    /** dropOutbox: exactly the chosen pending records are given up, and nothing else changes. */
    method DropOutbox(a: Name, wanted: set<Id>, to: Option<Name>) returns (dropped: Option<nat>)
      requires a in net.nodes
      modifies this
      ensures dropped == None <==> wanted == {} && to == None
      ensures dropped == None ==> net == old(net)
      ensures dropped.Some? ==>
                var targets := Doomed(old(net).nodes[a], old(net).nodes[a].outbox, wanted, to);
                && dropped.value == |targets|
                && net == Exec(old(net), DropRun(a, targets, 0))
                && Dropping(old(net), net, a, targets)
    {
      if wanted == {} && to == None {
        return None;
      }
      hide Exec, Dropping, DropRun;
      var targets := Doomed(net.nodes[a], net.nodes[a].outbox, wanted, to);
      DropAll(a, targets);
      dropped := Some(|targets|);
    }

    method DropAll(a: Name, targets: seq<Item>)
      requires a in net.nodes && forall x :: x in targets ==> x in net.nodes[a].outbox && State(net.nodes[a], x.msg.id) == Pending
      modifies this
      ensures net == Exec(old(net), DropRun(a, targets, 0)) && Dropping(old(net), net, a, targets)
    {
      hide Exec, HasId, SetDelivery, Apply, State;
      NothingDropped(net, a);
      for k := 0 to |targets|
        invariant Dropping(old(net), net, a, targets[..k])
        invariant Exec(net, DropRun(a, targets, k)) == Exec(old(net), DropRun(a, targets, 0))
      {
        var x := targets[k];
        assert x in targets;
        ItemHasId(old(net).nodes[a].outbox, x);
        assert targets[..k + 1] == targets[..k] + [x];
        DropOneMore(old(net), net, a, targets[..k], x);
        ExecFirst(net, Drop(a, x.msg.id), DropRun(a, targets, k + 1));
        net := SetDelivery(net, a, x.msg.id, Dropped);
      }
      assert targets[..|targets|] == targets;
      ExecNothing(net);
    }

    /** sync: pull from one named peer, or from every peer with a token; an unknown name is an error. */
    method Sync(a: Name, peer: Option<Name>, since: Option<Id>, limit: int, faults: seq<Fault>)
      returns (ok: bool, imported: nat, skipped: nat, failed: nat)
      requires a in net.nodes
      modifies this
      ensures ok <==> peer == None || PeerFor(old(net).nodes[a], a, peer.value).Some?
      ensures !ok ==> net == old(net) && imported == skipped == failed == 0
      ensures ok ==>
                var node := old(net).nodes[a];
                var targets := if peer == None then TokenPeers(node.peers) else [PeerFor(node, a, peer.value).value];
                && net == Exec(old(net), SyncRun(a, targets, since, limit, faults, 0))
                && (imported + skipped, failed) == Shown(old(net), a, targets, since, limit, faults, |targets|)
                && Brings(old(net), net, a, targets, since, limit, faults, |targets|)
      ensures a in net.nodes && |net.nodes[a].inbox| == |old(net).nodes[a].inbox| + imported
    {
      hide Exec, SyncRun, Shown, Brings, TokenPeers;
      imported, skipped, failed := 0, 0, 0;
      ok := true;
      var targets := TokenPeers(net.nodes[a].peers);
      if peer.Some? {
        match PeerFor(net.nodes[a], a, peer.value) {
          case None => return false, 0, 0, 0;
          case Some(p) => targets := [p];
        }
      }
      imported, skipped, failed := PullAll(a, targets, since, limit, faults);
    }

    method PullAll(a: Name, targets: seq<Peer>, since: Option<Id>, limit: int, faults: seq<Fault>) returns (imported: nat, skipped: nat, failed: nat)
      requires a in net.nodes
      modifies this
      ensures net == Exec(old(net), SyncRun(a, targets, since, limit, faults, 0))
      ensures (imported + skipped, failed) == Shown(old(net), a, targets, since, limit, faults, |targets|)
      ensures Brings(old(net), net, a, targets, since, limit, faults, |targets|)
      ensures a in net.nodes && |net.nodes[a].inbox| == |old(net).nodes[a].inbox| + imported
    {
      hide Exec, Import, Page, AddressedTo, CanCall, Apply, Reaches, Brings;
      imported, skipped, failed := 0, 0, 0;
      NothingBrought(net, a, targets, since, limit, faults);
      for k := 0 to |targets|
        invariant a in net.nodes && |net.nodes[a].inbox| == |old(net).nodes[a].inbox| + imported
        invariant Exec(net, SyncRun(a, targets, since, limit, faults, k)) == Exec(old(net), SyncRun(a, targets, since, limit, faults, 0))
        invariant (imported + skipped, failed) == Shown(old(net), a, targets, since, limit, faults, k)
        invariant Brings(old(net), net, a, targets, since, limit, faults, k)
      {
        var target := targets[k].name;
        var fault := FaultAt(faults, k);
        PullIs(net, a, target, since, limit, fault);
        ExecFirst(net, Pull(a, target, since, limit, fault), SyncRun(a, targets, since, limit, faults, k + 1));
        AnswersIff(old(net), net, a, targets, since, limit, faults, k);
        BringsMore(old(net), net, a, targets, since, limit, faults, k);
        if Answers(net, a, target, fault) {
          var fetched := AddressedTo(Page(net.nodes[target].outbox, since, limit), a);
          var more, less := ImportMessages(a, fetched, target);
          imported, skipped := imported + more, skipped + less;
        } else {
          failed := failed + 1;
        }
      }
      ExecNothing(net);
    }

    /** acceptMessage: without an error the recipient holds the message, whoever was asked. */
    method AcceptMessage(b: Name, msg: Msg, next: Fault) returns (ok: bool)
      modifies this
      ensures (net, ok) == Accept(old(net), b, msg, next)
      ensures Inv(old(net)) && Genuine(old(net).sent, msg) && msg.to != msg.origin ==> Handled(old(net), msg, (net, ok))
      decreases if msg.to == b then 0 else 2
    {
      hide Handled;
      if Inv(net) && Genuine(net.sent, msg) && msg.to != msg.origin {
        AcceptKeeps(net, b, msg, next);
      }
      if b !in net.nodes || msg.id == "" {
        return false;
      }
      if HasId(net.nodes[b].inbox, msg.id) {
        return true;
      }
      if IsSelf(b, msg.to) || msg.to == "*" {
        net := PutInbox(net, b, Item(msg.(to := if msg.to == "" then b else msg.to), "push"));
        return true;
      }
      if !net.nodes[b].relay {
        return false;
      }
      match PeerFor(net.nodes[b], b, msg.to) {
        case None => return false;
        case Some(p) =>
          if !CanCall(net.nodes[b], b, p.name) {
            return false;
          }
          ok := Post(p.name, msg, next, Clean);
          ok := ok && b in net.nodes;
          if ok {
            net := PutOutbox(net, b, Item(msg, p.name));
          }
      }
    }

    /** One POST of a message to node `b`. */
    method Post(b: Name, msg: Msg, fault: Fault, next: Fault) returns (ok: bool)
      modifies this
      ensures (net, ok) == Request(old(net), b, msg, fault, next)
      ensures ok ==> fault == Clean
      ensures Inv(old(net)) && Genuine(old(net).sent, msg) && msg.to != msg.origin ==> Handled(old(net), msg, (net, ok))
      decreases if msg.to == b then 1 else 3
    {
      hide Handled;
      if Inv(net) && Genuine(net.sent, msg) && msg.to != msg.origin {
        RequestKeeps(net, b, msg, fault, next);
      }
      if fault == LostRequest {
        return false;
      }
      ok := AcceptMessage(b, msg, next);
      ok := ok && fault == Clean;
    }
  }

  lemma NobodyPosted(net: Net, a: Name, msg: Msg, peers: seq<Peer>, lucks: seq<Luck>)
    requires a in net.nodes
    ensures Unanswered([net], a, msg, peers, lucks, 0)
  {
  }

  lemma {:induction false} OneMoreIsSilent(nets: seq<Net>, net: Net, a: Name, msg: Msg, peers: seq<Peer>, lucks: seq<Luck>, k: nat)
    requires Unanswered(nets, a, msg, peers, lucks, k) && k < |peers|
    requires if Calls(nets[0].nodes[a], a, peers[k]) then
               Request(nets[k], peers[k].name, msg, LuckAt(lucks, k).fault, LuckAt(lucks, k).next) == (net, false)
             else net == nets[k]
    ensures Unanswered(nets + [net], a, msg, peers, lucks, k + 1)
  {
    hide Request, Calls;
    var longer := nets + [net];
    assert forall i :: 0 <= i <= k ==> longer[i] == nets[i];
  }

  lemma OneAnswers(nets: seq<Net>, start: Net, end: Net, a: Name, msg: Msg, peers: seq<Peer>, lucks: seq<Luck>, k: nat)
    requires Unanswered(nets, a, msg, peers, lucks, k) && nets[0] == start && a in nets[k].nodes
    requires Answered(nets[k], start, end, a, msg, peers, lucks, k)
    ensures Tried(start, end, a, msg, peers, lucks, Delivered)
  {
    hide Unanswered, Answered;
  }

  lemma NobodyAnswers(nets: seq<Net>, start: Net, a: Name, msg: Msg, peers: seq<Peer>, lucks: seq<Luck>)
    requires Unanswered(nets, a, msg, peers, lucks, |peers|) && nets[0] == start && a in nets[|peers|].nodes
    ensures Tried(start, SetDelivery(nets[|peers|], a, msg.id, Pending), a, msg, peers, lucks, Pending)
  {
    hide Unanswered, SetDelivery;
  }

  lemma {:induction false} MarkSettles(net: Net, a: Name, id: Id, progress: Progress)
    requires a in net.nodes && !IsOwn(net.nodes[a], a, id)
    ensures Settled(net.nodes[a], a) ==> Settled(SetDelivery(net, a, id, progress).nodes[a], a)
  {
    hide UniqueIds, HasId, Find;
    var node, node' := net.nodes[a], SetDelivery(net, a, id, progress).nodes[a];
    assert forall other :: other != id ==> State(node', other) == State(node, other) && (IsOwn(node', a, other) <==> IsOwn(node, a, other));
  }

  lemma {:induction false} SelfSettles(net: Net, a: Name, id: Id, record: Msg)
    requires a in net.nodes && IsOwn(net.nodes[a], a, id) && record == Find(net.nodes[a].outbox, id).msg
    ensures var node' := SetDelivery(PutInbox(net, a, Item(record, "local")), a, id, Delivered).nodes[a];
            && (UniqueIds(net.nodes[a].inbox) ==> (UniqueIds(node'.inbox) <==> !HasId(net.nodes[a].inbox, id)))
            && (Settled(net.nodes[a], a) && State(net.nodes[a], id) == Pending ==> Settled(node', a))
  {
    var item := Item(record, "local");
    var node := net.nodes[a];
    var node' := SetDelivery(PutInbox(net, a, item), a, id, Delivered).nodes[a];
    hide UniqueIds, HasId;
    if UniqueIds(node.inbox) { UniqueAppend(node.inbox, item); }
    if Settled(node, a) && State(node, id) == Pending {
      forall other | IsOwn(node', a, other) && HasId(node'.inbox, other)
        ensures State(node', other) != Pending
      {
        HasIdAppend(node.inbox, item, other);
        assert IsOwn(node, a, other);
      }
    }
  }

  lemma {:induction false} QueuedIsSettled(net: Net, a: Name, msg: Msg)
    requires Inv(net) && a in net.nodes && Named(msg.to) && msg.origin == a && msg.id != "" && msg.id !in net.sent
    ensures var queued := Apply(net, Send(a, msg));
            a in queued.nodes && (Settled(net.nodes[a], a) ==> Settled(queued.nodes[a], a))
  {
    var node, queued := net.nodes[a], Apply(net, Send(a, msg));
    assert forall x :: x in node.inbox ==> x.msg.id in net.sent;
    assert !HasId(node.inbox, msg.id);
    if Settled(node, a) {
      forall id | IsOwn(queued.nodes[a], a, id) && HasId(node.inbox, id)
        ensures State(queued.nodes[a], id) != Pending
      {
        OwnBefore(node.outbox, Item(msg, ""), id);
      }
    }
  }

  lemma {:induction false} OwnBefore(items: seq<Item>, item: Item, id: Id)
    requires id != item.msg.id && HasId(items + [item], id)
    ensures HasId(items, id) && Find(items + [item], id) == Find(items, id)
  {
    HasIdAppend(items, item, id);
    FindAppend(items, item, id);
  }

  lemma {:induction false} FindAppend(items: seq<Item>, item: Item, id: Id)
    requires HasId(items, id) && HasId(items + [item], id)
    ensures Find(items + [item], id) == Find(items, id)
  {
    if items[0].msg.id != id {
      assert (items + [item])[1..] == items[1..] + [item];
      HasIdSplit(items, id);
      HasIdSplit(items + [item], id);
      FindAppend(items[1..], item, id);
    }
  }

  lemma ExecTwo(net: Net, one: Action, two: Action)
    ensures Exec(net, [one, two]) == Apply(Apply(net, one), two)
  {
    hide Apply;
    assert [one, two][1..] == [two] && [two][1..] == [];
    assert Exec(net, [one, two]) == Exec(Apply(net, one), [two]);
    assert Exec(Apply(net, one), [two]) == Exec(Apply(Apply(net, one), two), []);
  }

  lemma {:induction false} SentIsQueued(net: Net, a: Name, msg: Msg)
    requires a in net.nodes && msg.origin == a && msg.id != "" && msg.id !in net.sent && msg.to != "" && Inv(net)
    ensures var queued := Apply(net, Send(a, msg));
            && a in queued.nodes && HasId(queued.nodes[a].outbox, msg.id) && Find(queued.nodes[a].outbox, msg.id).msg == msg
            && State(queued.nodes[a], msg.id) == Pending
  {
    var outbox := net.nodes[a].outbox;
    HasIdAppend(outbox, Item(msg, ""), msg.id);
    assert forall x :: x in outbox ==> x.msg.id in net.sent;
    assert forall i :: 0 <= i < |outbox| ==> outbox[i] in outbox;
  }

  lemma {:induction false} RunGrows(net: Net, a: Name, id: Id, lucks: seq<Luck>)
    requires Inv(net) && a in net.nodes && HasId(net.nodes[a].outbox, id)
    ensures Grown(net, Exec(net, DeliverRun(net, a, id, lucks)))
  {
    hide Inv, Grown;
    DeliverRunIsNamed(net, a, id, lucks);
    RunKeeps(net, DeliverRun(net, a, id, lucks));
  }

  lemma {:induction false} DeliverRunIsNamed(net: Net, a: Name, id: Id, lucks: seq<Luck>)
    requires a in net.nodes && HasId(net.nodes[a].outbox, id)
    ensures NamedRun(DeliverRun(net, a, id, lucks))
  {
    hide Request, CanCall;
    TryRunIsNamed(net, a, id, Candidates(net.nodes[a], a, Find(net.nodes[a].outbox, id).msg.to), lucks, 0);
  }

  lemma {:induction false} TryRunIsNamed(net: Net, a: Name, id: Id, peers: seq<Peer>, lucks: seq<Luck>, i: nat)
    requires a in net.nodes && HasId(net.nodes[a].outbox, id)
    ensures NamedRun(TryRun(net, a, id, peers, lucks, i))
    decreases |peers| - i
  {
    hide Request, CanCall;
    if i < |peers| {
      if !CanCall(net.nodes[a], a, peers[i].name) || !peers[i].hasToken {
        TryRunIsNamed(net, a, id, peers, lucks, i + 1);
      } else {
        var luck := LuckAt(lucks, i);
        var net' := Request(net, peers[i].name, Find(net.nodes[a].outbox, id).msg, luck.fault, luck.next).0;
        if a in net'.nodes && HasId(net'.nodes[a].outbox, id) {
          TryRunIsNamed(net', a, id, peers, lucks, i + 1);
        }
      }
    }
  }

  lemma {:induction false} ItemHasId(items: seq<Item>, item: Item)
    requires item in items
    ensures HasId(items, item.msg.id)
  {
    var i :| 0 <= i < |items| && items[i] == item;
    assert items[i].msg.id == item.msg.id;
  }

  /** The record found by a target's id is the target's message: ids name messages. */
  lemma {:induction false} FoundIsTheRecord(net: Net, a: Name, record: Item)
    requires Inv(net) && a in net.nodes && record in net.nodes[a].outbox && HasId(net.nodes[a].outbox, record.msg.id)
    ensures Find(net.nodes[a].outbox, record.msg.id).msg == record.msg
  {
    FoundIsGenuine(net, a, record.msg.id);
    assert Genuine(net.sent, record.msg);
  }

  ghost predicate SelfOnce(a: Name, items: seq<Item>) {
    forall i, j :: 0 <= i < j < |items| && items[i].msg.to == a ==> items[i].msg.id != items[j].msg.id
  }

  /** No other record has the id of a record to oneself. */
  ghost predicate SelfApart(a: Name, items: seq<Item>) {
    forall i, j :: 0 <= i < |items| && 0 <= j < |items| && i != j && items[j].msg.to == a ==> items[i].msg.id != items[j].msg.id
  }

  lemma {:induction false} TargetsAreDistinct(net: Net, a: Name, to: Option<Name>)
    requires Inv(net) && a in net.nodes
    ensures SelfApart(a, Waiting(net.nodes[a], net.nodes[a].outbox, to))
  {
    var targets := Waiting(net.nodes[a], net.nodes[a].outbox, to);
    FilterKeepsOnce(net.nodes[a], a, net.nodes[a].outbox, to);
    forall i, j | 0 <= i < |targets| && 0 <= j < |targets| && i != j && targets[j].msg.to == a
      ensures targets[i].msg.id != targets[j].msg.id
    {
      assert targets[i] in net.nodes[a].outbox && targets[j] in net.nodes[a].outbox;
      assert Genuine(net.sent, targets[i].msg) && Genuine(net.sent, targets[j].msg);
    }
  }

  lemma {:induction false} FilterKeepsOnce(node: Node, a: Name, items: seq<Item>, to: Option<Name>)
    requires SelfOnce(a, items)
    ensures SelfOnce(a, Waiting(node, items, to))
  {
    if items == [] {
    } else {
      var rest := Waiting(node, items[1..], to);
      FilterKeepsOnce(node, a, items[1..], to);
      if items[0].msg.to == a {
        forall j | 0 <= j < |rest|
          ensures rest[j].msg.id != items[0].msg.id
        {
          assert rest[j] in items[1..];
        }
      }
    }
  }

  lemma {:induction false} OthersStay(start: Node, node: Node, node': Node, a: Name, targets: seq<Item>, k: nat)
    requires k < |targets| && OnlyMarks(node, node', targets[k].msg.id) && State(node', targets[k].msg.id) != Dropped
    requires SettledStay(start, node) && State(start, targets[k].msg.id) == Pending && SelfWaiting(node, a, targets, k)
    requires SelfApart(a, targets)
    ensures SettledStay(start, node') && SelfWaiting(node', a, targets, k + 1) && node'.outbox == node.outbox
  {
    hide State;
    forall j | k + 1 <= j < |targets| && targets[j].msg.to == a
      ensures State(node', targets[j].msg.id) == Pending
    {
      assert targets[k].msg.id != targets[j].msg.id;
    }
  }

  lemma OnlyMarksPeers(node: Node, node': Node, id: Id)
    requires OnlyMarks(node, node', id)
    ensures node'.peers == node.peers
  {
  }

  lemma {:induction false} OwnTargetWaits(net: Net, a: Name, targets: seq<Item>, k: nat)
    requires Inv(net) && a in net.nodes && k < |targets| && targets[k] in net.nodes[a].outbox && HasId(net.nodes[a].outbox, targets[k].msg.id)
    requires SelfWaiting(net.nodes[a], a, targets, k)
    ensures IsOwn(net.nodes[a], a, targets[k].msg.id) ==> State(net.nodes[a], targets[k].msg.id) == Pending
  {
    FoundIsGenuine(net, a, targets[k].msg.id);
    FoundIsTheRecord(net, a, targets[k]);
  }

  lemma FlushUnfold(net: Net, a: Name, targets: seq<Item>, lucks: seq<seq<Luck>>, k: nat)
    requires k < |targets| && a in net.nodes && HasId(net.nodes[a].outbox, targets[k].msg.id)
    ensures var run := DeliverRun(net, a, targets[k].msg.id, LucksAt(lucks, k));
            var net' := Exec(net, run);
            && FlushRun(net, a, targets, lucks, k) == run + FlushRun(net', a, targets, lucks, k + 1)
            && Wins(net, a, targets, lucks, k) ==
                 (if a in net'.nodes && State(net'.nodes[a], targets[k].msg.id) == Delivered then 1 else 0) +
                 Wins(net', a, targets, lucks, k + 1)
  {
    hide Exec, DeliverRun, HasId;
  }

  lemma FlushEnds(net: Net, a: Name, targets: seq<Item>, lucks: seq<seq<Luck>>)
    ensures FlushRun(net, a, targets, lucks, |targets|) == [] && Wins(net, a, targets, lucks, |targets|) == 0
  {
  }

  lemma NothingBrought(net: Net, a: Name, targets: seq<Peer>, since: Option<Id>, limit: int, faults: seq<Fault>)
    requires a in net.nodes
    ensures Brings(net, net, a, targets, since, limit, faults, 0)
  {
    assert net.nodes[a := net.nodes[a]] == net.nodes;
  }

  /** A pull changes no outbox and no peer entry, so it does not matter for the next one. */
  lemma AnswersIff(start: Net, net: Net, a: Name, targets: seq<Peer>, since: Option<Id>, limit: int, faults: seq<Fault>, k: nat)
    requires k < |targets| && Brings(start, net, a, targets, since, limit, faults, k)
    ensures Answers(net, a, targets[k].name, FaultAt(faults, k)) <==> Reaches(start, a, targets[k].name, FaultAt(faults, k))
    ensures targets[k].name in start.nodes && targets[k].name != a ==>
              targets[k].name in net.nodes && net.nodes[targets[k].name] == start.nodes[targets[k].name]
    ensures Reaches(start, a, targets[k].name, FaultAt(faults, k)) ==> targets[k].name != a && targets[k].name in start.nodes
  {
    hide CanCall, HasToken;
    CanCallIff(net.nodes[a], a, targets[k].name);
    assert start.nodes[a].peers == net.nodes[a].peers;
    CanCallIff(start.nodes[a], a, targets[k].name);
    SamePeers(start.nodes[a], net.nodes[a], targets[k].name);
  }

  lemma SamePeers(node: Node, node': Node, name: Name)
    requires node.peers == node'.peers
    ensures HasToken(node, name) <==> HasToken(node', name)
  {
  }

  lemma {:induction false} BringsMore(start: Net, net: Net, a: Name, targets: seq<Peer>, since: Option<Id>, limit: int, faults: seq<Fault>, k: nat)
    requires k < |targets| && Brings(start, net, a, targets, since, limit, faults, k)
    ensures a in net.nodes &&
            var target := targets[k].name;
            if Reaches(start, a, target, FaultAt(faults, k)) then
              target in net.nodes &&
              var fetched := AddressedTo(Page(net.nodes[target].outbox, since, limit), a);
              Brings(start, net.(nodes := net.nodes[a := net.nodes[a].(inbox := Import(net.nodes[a].inbox, fetched, target))]), a, targets, since, limit, faults, k + 1)
            else Brings(start, net, a, targets, since, limit, faults, k + 1)
  {
    hide Page, AddressedTo, HasToken, Import;
    AnswersIff(start, net, a, targets, since, limit, faults, k);
    var target := targets[k].name;
    if Reaches(start, a, target, FaultAt(faults, k)) {
      var fetched := AddressedTo(Page(net.nodes[target].outbox, since, limit), a);
      var inbox := Import(net.nodes[a].inbox, fetched, target);
      ImportAdds(net.nodes[a].inbox, fetched, target);
      forall i, x | 0 <= i <= k && Shows(start, a, targets[i].name, since, limit, FaultAt(faults, i), x)
        ensures HasId(inbox, x.msg.id)
      {
        ImportHolds(net.nodes[a].inbox, fetched, target, x.msg.id);
        if i == k { ItemHasId(fetched, x); }
      }
    }
  }

  lemma PullIs(net: Net, a: Name, peer: Name, since: Option<Id>, limit: int, fault: Fault)
    requires a in net.nodes
    ensures Apply(net, Pull(a, peer, since, limit, fault)) ==
              if Answers(net, a, peer, fault) then
                var fetched := AddressedTo(Page(net.nodes[peer].outbox, since, limit), a);
                net.(nodes := net.nodes[a := net.nodes[a].(inbox := Import(net.nodes[a].inbox, fetched, peer))])
              else net
  {
    hide CanCall, AddressedTo, Page, Import;
  }

  lemma NothingDropped(net: Net, a: Name)
    requires a in net.nodes
    ensures Dropping(net, net, a, [])
  {
    assert net.nodes[a := net.nodes[a]] == net.nodes;
  }

  lemma {:induction false} DropOneMore(start: Net, net: Net, a: Name, dropped: seq<Item>, x: Item)
    requires a in start.nodes && Dropping(start, net, a, dropped) && HasId(start.nodes[a].outbox, x.msg.id)
    requires State(start.nodes[a], x.msg.id) == Pending
    ensures var net' := SetDelivery(net, a, x.msg.id, Dropped);
            Dropping(start, net', a, dropped + [x]) && net' == Apply(net, Drop(a, x.msg.id))
  {
    hide HasId;
    var net' := SetDelivery(net, a, x.msg.id, Dropped);
    forall id
      ensures State(net'.nodes[a], id) == if HasId(dropped + [x], id) then Dropped else State(start.nodes[a], id)
    {
      HasIdAppend(dropped, x, id);
    }
    if State(net.nodes[a], x.msg.id) == Dropped {
      assert net.nodes[a].delivery[x.msg.id := Dropped] == net.nodes[a].delivery;
      assert net.nodes[a := net.nodes[a]] == net.nodes;
    }
  }

  lemma ExecNothing(net: Net)
    ensures Exec(net, []) == net
  {
  }

  lemma ExecFirst(net: Net, step: Action, rest: seq<Action>)
    ensures Exec(net, [step] + rest) == Exec(Apply(net, step), rest)
  {
    hide Apply;
    assert ([step] + rest)[1..] == rest;
  }

  lemma ExecOne(net: Net, step: Action)
    ensures Exec(net, [step]) == Apply(net, step)
  {
    hide Apply;
    assert Exec(net, [step]) == Exec(Apply(net, step), []);
  }

  lemma CallsOthers(node: Node, a: Name, name: Name)
    requires CanCall(node, a, name)
    ensures name != a
  {
  }

  /** What a Push step amounts to once its guards hold. */
  lemma PushIs(net: Net, step: Action, msg: Msg)
    requires step.Push? && step.a in net.nodes && HasId(net.nodes[step.a].outbox, step.id)
    requires msg == Find(net.nodes[step.a].outbox, step.id).msg && !IsSelf(step.a, msg.to)
    requires Peer(step.peer, true) in Candidates(net.nodes[step.a], step.a, msg.to) && CanCall(net.nodes[step.a], step.a, step.peer)
    ensures var (net', ok) := Request(net, step.peer, msg, step.fault, step.next);
            Apply(net, step) == if ok && step.a in net'.nodes then SetDelivery(net', step.a, step.id, Delivered) else net'
  {
    hide Request, SetDelivery, Candidates, CanCall;
  }

  lemma GiveUpIs(net: Net, a: Name, id: Id, msg: Msg)
    requires a in net.nodes && HasId(net.nodes[a].outbox, id) && msg == Find(net.nodes[a].outbox, id).msg && !IsSelf(a, msg.to)
    ensures Apply(net, GiveUp(a, id)) == SetDelivery(net, a, id, Pending)
  {
    hide SetDelivery;
  }

  lemma MarksOnly(net: Net, a: Name, id: Id, progress: Progress)
    requires a in net.nodes
    ensures var net' := SetDelivery(net, a, id, progress);
            a in net'.nodes && OnlyMarks(net.nodes[a], net'.nodes[a], id) && State(net'.nodes[a], id) == progress
  {
  }

  lemma {:induction false} AcceptedArrives(net: Net, net': Net, msg: Msg, a: Name)
    requires Handled(net, msg, (net', true)) && Genuine(net.sent, msg) && a in net.nodes && a in net'.nodes && net'.nodes[a] == net.nodes[a]
    ensures var end := SetDelivery(net', a, msg.id, Delivered);
            && Inv(end) && a in end.nodes && OnlyMarks(net.nodes[a], end.nodes[a], msg.id)
            && State(end.nodes[a], msg.id) == Delivered && Arrived(end, msg)
  {
    MarkKeeps(net', a, msg.id, Delivered);
    ArrivedStays(net', SetDelivery(net', a, msg.id, Delivered), msg);
  }

  // ---------------------------------------------------------------- deliveries to oneself that overlap

  /** A node with one message to itself that waits. */
  function OneWaiting(msg: Msg): Net {
    Apply(Net(map[msg.to := Node([], false, [], [], map[])], map[]), Send(msg.to, msg))
  }

  /**
   * Two processes flush at once: both find the message waiting, and each appends it. Afterwards it is
   * in the inbox twice and marked delivered.
   */
  lemma {:induction false} OverlappingFlushesDuplicate(msg: Msg)
    requires Named(msg.to) && msg.origin == msg.to && msg.id != ""
    ensures var n, id := msg.to, msg.id;
            var listed := OneWaiting(msg);
            var end := Exec(listed, [Append(n, id), Append(n, id), Confirm(n, id), Confirm(n, id)]);
            && Inv(listed) && n in listed.nodes && Waiting(listed.nodes[n], listed.nodes[n].outbox, None) == [Item(msg, "")]
            && DeliverRun(listed, n, id, []) == [Append(n, id), Confirm(n, id)]
            && Inv(end) && n in end.nodes && State(end.nodes[n], id) == Delivered
            && end.nodes[n].inbox == [Item(msg, "local"), Item(msg, "local")] && !UniqueIds(end.nodes[n].inbox)
  {
    var n, id := msg.to, msg.id;
    var listed := OneWaiting(msg);
    OneIsWaiting(msg);
    OneIsListed(listed, msg);
    hide OneWaiting, Apply, Inv, Waiting, DeliverRun, IsOwn, HasId, Find, UniqueIds, NamedRun;
    TwiceAppended(listed, msg);
    TwiceIsNotUnique(Item(msg, "local"));
    NothingIsSent(n, id);
    var appends, confirms := [Append(n, id), Append(n, id)], [Confirm(n, id), Confirm(n, id)];
    assert appends + confirms == [Append(n, id), Append(n, id), Confirm(n, id), Confirm(n, id)];
    ExecConcat(listed, appends, confirms);
    var twice := Exec(listed, appends);
    BothConfirm(twice, n, id);
    RunKeeps(listed, appends + confirms);
  }

  lemma TwiceIsNotUnique(item: Item)
    ensures !UniqueIds([item, item])
  {
    assert [item, item][0].msg.id == [item, item][1].msg.id;
  }

  lemma NothingIsSent(n: Name, id: Id)
    ensures NamedRun([Append(n, id), Append(n, id), Confirm(n, id), Confirm(n, id)])
  {
  }

  /** What a flush would do with it. */
  lemma OneIsListed(listed: Net, msg: Msg)
    requires msg.to in listed.nodes && IsOwn(listed.nodes[msg.to], msg.to, msg.id) && State(listed.nodes[msg.to], msg.id) == Pending
    requires listed.nodes[msg.to].outbox == [Item(msg, "")]
    ensures Waiting(listed.nodes[msg.to], listed.nodes[msg.to].outbox, None) == [Item(msg, "")]
    ensures DeliverRun(listed, msg.to, msg.id, []) == [Append(msg.to, msg.id), Confirm(msg.to, msg.id)]
  {
    assert listed.nodes[msg.to].outbox[1..] == [] && Waiting(listed.nodes[msg.to], [], None) == [];
  }

  lemma {:induction false} BothConfirm(net: Net, n: Name, id: Id)
    requires n in net.nodes && IsOwn(net.nodes[n], n, id) && HasId(net.nodes[n].inbox, id)
    ensures var end := Exec(net, [Confirm(n, id), Confirm(n, id)]);
            n in end.nodes && end.nodes[n].inbox == net.nodes[n].inbox && State(end.nodes[n], id) == Delivered
  {
    ExecTwo(net, Confirm(n, id), Confirm(n, id));
  }

  /** A process dies between the append and the mark: the message still waits, and the next flush appends it again. */
  lemma {:induction false} DeathBeforeTheMarkDuplicates(msg: Msg)
    requires Named(msg.to) && msg.origin == msg.to && msg.id != ""
    ensures var n, id := msg.to, msg.id;
            var died := Exec(OneWaiting(msg), [Append(n, id)]);
            n in died.nodes &&
            var targets := Waiting(died.nodes[n], died.nodes[n].outbox, None);
            var end := Exec(died, FlushRun(died, n, targets, [], 0));
            && Inv(died) && targets == [Item(msg, "")] && UniqueIds(died.nodes[n].inbox)
            && n in end.nodes && end.nodes[n].inbox == [Item(msg, "local"), Item(msg, "local")]
  {
    var n, id := msg.to, msg.id;
    var listed := OneWaiting(msg);
    OneIsWaiting(msg);
    hide OneWaiting, Inv;
    OnceAppended(listed, msg);
    AppendKeeps(listed, n, id);
    ExecOne(listed, Append(n, id));
    FlushAppends(Apply(listed, Append(n, id)), msg);
  }

  lemma {:induction false} OnceAppended(listed: Net, msg: Msg)
    requires msg.to in listed.nodes && listed.nodes[msg.to].inbox == [] && listed.nodes[msg.to].outbox == [Item(msg, "")]
    requires IsOwn(listed.nodes[msg.to], msg.to, msg.id) && Find(listed.nodes[msg.to].outbox, msg.id) == Item(msg, "")
    ensures var n, id := msg.to, msg.id;
            var once := Apply(listed, Append(n, id));
            && n in once.nodes && once.nodes[n] == listed.nodes[n].(inbox := [Item(msg, "local")]) && IsOwn(once.nodes[n], n, id)
  {
  }

  lemma {:induction false} FlushAppends(died: Net, msg: Msg)
    requires msg.to in died.nodes && IsOwn(died.nodes[msg.to], msg.to, msg.id) && died.nodes[msg.to].outbox == [Item(msg, "")]
    requires State(died.nodes[msg.to], msg.id) == Pending && died.nodes[msg.to].inbox == [Item(msg, "local")]
    ensures var n, id := msg.to, msg.id;
            var targets := Waiting(died.nodes[n], died.nodes[n].outbox, None);
            var end := Exec(died, FlushRun(died, n, targets, [], 0));
            targets == [Item(msg, "")] && n in end.nodes && end.nodes[n].inbox == [Item(msg, "local"), Item(msg, "local")]
  {
    var n, id := msg.to, msg.id;
    var targets := Waiting(died.nodes[n], died.nodes[n].outbox, None);
    assert died.nodes[n].outbox[1..] == [] && Waiting(died.nodes[n], [], None) == [];
    assert targets == [Item(msg, "")];
    hide Apply, FlushRun, Waiting;
    var run := [Append(n, id), Confirm(n, id)];
    assert DeliverRun(died, n, id, []) == run;
    var end := Exec(died, run);
    FlushUnfold(died, n, targets, [], 0);
    FlushEnds(end, n, targets, []);
    assert run + [] == run;
    ExecTwo(died, Append(n, id), Confirm(n, id));
    AppendsAgain(died, msg);
  }

  lemma {:induction false} AppendsAgain(died: Net, msg: Msg)
    requires msg.to in died.nodes && IsOwn(died.nodes[msg.to], msg.to, msg.id) && died.nodes[msg.to].outbox == [Item(msg, "")]
    requires died.nodes[msg.to].inbox == [Item(msg, "local")]
    ensures var end := Apply(Apply(died, Append(msg.to, msg.id)), Confirm(msg.to, msg.id));
            msg.to in end.nodes && end.nodes[msg.to].inbox == [Item(msg, "local"), Item(msg, "local")]
  {
    assert Find(died.nodes[msg.to].outbox, msg.id) in died.nodes[msg.to].outbox;
  }

  lemma {:induction false} OneIsWaiting(msg: Msg)
    requires Named(msg.to) && msg.origin == msg.to && msg.id != ""
    ensures var listed := OneWaiting(msg);
            && Inv(listed) && msg.to in listed.nodes && IsOwn(listed.nodes[msg.to], msg.to, msg.id)
            && listed.nodes[msg.to].outbox == [Item(msg, "")] && listed.nodes[msg.to].inbox == []
            && State(listed.nodes[msg.to], msg.id) == Pending
            && Find(listed.nodes[msg.to].outbox, msg.id) == Item(msg, "")
  {
    var start := Net(map[msg.to := Node([], false, [], [], map[])], map[]);
    SendKeeps(start, msg.to, msg);
    HasIdAppend([], Item(msg, ""), msg.id);
    assert [] + [Item(msg, "")] == [Item(msg, "")];
    assert start.nodes[msg.to].outbox == [];
    assert OneWaiting(msg).nodes[msg.to].outbox == [Item(msg, "")];
  }

  lemma {:induction false} TwiceAppended(listed: Net, msg: Msg)
    requires msg.to in listed.nodes && listed.nodes[msg.to].inbox == [] && listed.nodes[msg.to].outbox == [Item(msg, "")]
    requires IsOwn(listed.nodes[msg.to], msg.to, msg.id) && Find(listed.nodes[msg.to].outbox, msg.id) == Item(msg, "")
    ensures var n, id := msg.to, msg.id;
            var twice := Exec(listed, [Append(n, id), Append(n, id)]);
            && n in twice.nodes && twice.nodes[n] == listed.nodes[n].(inbox := [Item(msg, "local"), Item(msg, "local")])
            && IsOwn(twice.nodes[n], n, id) && HasId(twice.nodes[n].inbox, id)
  {
    var n, id := msg.to, msg.id;
    ExecTwo(listed, Append(n, id), Append(n, id));
    var once := Apply(listed, Append(n, id));
    assert once.nodes[n] == listed.nodes[n].(inbox := [Item(msg, "local")]);
    assert [Item(msg, "local"), Item(msg, "local")][0].msg.id == id;
  }
}
