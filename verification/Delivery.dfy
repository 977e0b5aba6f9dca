/** Messages between nodes (ops.mjs, store.mjs, server.mjs). */
module Delivery {
  // Outbox, push, lost requests and replies, retry, pull (sync) and one-hop relay, with dedupe by id. A node is
  // known by its name, and a peer entry carries the name of the node it points at.

  import opened Options
  import TextOrder

  type Name = string
  type Id = string

  datatype Msg = Msg(id: Id, origin: Name, to: Name, body: string)

  /** A stored message and how it came here. */
  datatype Item = Item(msg: Msg, via: string)

  datatype Progress = Pending | Delivered | Dropped

  datatype Peer = Peer(name: Name, hasToken: bool)

  datatype Node = Node(peers: seq<Peer>, relay: bool, inbox: seq<Item>, outbox: seq<Item>, delivery: map<Id, Progress>)

  /** All nodes, and every message some sender created. */
  datatype Net = Net(nodes: map<Name, Node>, sent: map<Id, Msg>)

  datatype Fault = Clean | LostRequest | LostReply

  predicate IsSelf(self: Name, to: Name) {
    to == "" || to == self || to == "self" || to == "local"
  }

  /** A recipient that names a node. */
  predicate Named(to: Name) {
    to !in ["", "self", "local", "*"]
  }

  function FindPeer(peers: seq<Peer>, name: Name): (r: Option<Peer>)
    ensures r.Some? ==> r.value in peers && r.value.name == name
    ensures r.None? <==> forall p :: p in peers ==> p.name != name
  {
    if peers == [] then None
    else if peers[0].name == name then Some(peers[0])
    else FindPeer(peers[1..], name)
  }

  /** peerOrNull. */
  function PeerFor(node: Node, self: Name, to: Name): (r: Option<Peer>)
    ensures r.Some? ==> r.value in node.peers && r.value.name == to
  {
    if IsSelf(self, to) then None else FindPeer(node.peers, to)
  }

  /** clientFor: the peer entry found under this name carries a token. */
  predicate CanCall(node: Node, self: Name, name: Name) {
    PeerFor(node, self, name) == Some(Peer(name, true))
  }

  predicate HasId(items: seq<Item>, id: Id) {
    exists i :: 0 <= i < |items| && items[i].msg.id == id
  }

  // ---------------------------------------------------------------- changes to one node

  function PutInbox(net: Net, n: Name, item: Item): Net
    requires n in net.nodes
  {
    net.(nodes := net.nodes[n := net.nodes[n].(inbox := net.nodes[n].inbox + [item])])
  }

  function PutOutbox(net: Net, n: Name, item: Item): Net
    requires n in net.nodes
  {
    net.(nodes := net.nodes[n := net.nodes[n].(outbox := net.nodes[n].outbox + [item])])
  }

  function SetDelivery(net: Net, n: Name, id: Id, progress: Progress): Net
    requires n in net.nodes
  {
    net.(nodes := net.nodes[n := net.nodes[n].(delivery := net.nodes[n].delivery[id := progress])])
  }

  // ---------------------------------------------------------------- one request

  /** acceptMessage at node `b`, and whether it answered without an error. A relay asks the recipient first. */
  function Accept(net: Net, b: Name, msg: Msg, next: Fault): (Net, bool)
    decreases if msg.to == b then 0 else 2
  {
    if b !in net.nodes || msg.id == "" then (net, false)
    else if HasId(net.nodes[b].inbox, msg.id) then (net, true)
    else if IsSelf(b, msg.to) || msg.to == "*" then
      (PutInbox(net, b, Item(msg.(to := if msg.to == "" then b else msg.to), "push")), true)
    else if !net.nodes[b].relay then (net, false)
    else
      match PeerFor(net.nodes[b], b, msg.to)
      case None => (net, false)
      case Some(p) =>
        if !CanCall(net.nodes[b], b, p.name) then (net, false)
        else
          var (net', ok) := Request(net, p.name, msg, next, Clean);
          if ok && b in net'.nodes then (PutOutbox(net', b, Item(msg, p.name)), true) else (net', false)
  }

  /** One HTTP request to node `b`: it may be lost, or its answer may be. */
  function Request(net: Net, b: Name, msg: Msg, fault: Fault, next: Fault): (Net, bool)
    decreases if msg.to == b then 1 else 3
  {
    match fault
    case LostRequest => (net, false)
    case LostReply => (Accept(net, b, msg, next).0, false)
    case Clean => Accept(net, b, msg, next)
  }

  /** Whom `a` tries for a recipient: the peer of that name, or every peer when relaying. */
  function Candidates(node: Node, self: Name, to: Name): (r: seq<Peer>)
    ensures forall p :: p in r ==> p in node.peers
  {
    match PeerFor(node, self, to)
    case Some(p) => [p]
    case None => if node.relay then node.peers else []
  }

  // ---------------------------------------------------------------- pull

  function Newer(items: seq<Item>, since: Option<Id>): (r: seq<Item>)
    ensures forall x :: x in r ==> x in items
  {
    if items == [] then []
    else (if since.Some? && !TextOrder.Less(since.value, items[0].msg.id) then [] else [items[0]]) + Newer(items[1..], since)
  }

  function Insert(item: Item, sorted: seq<Item>): (r: seq<Item>)
    ensures multiset(r) == multiset(sorted) + multiset{item}
  {
    if sorted == [] then [item]
    else if TextOrder.Less(sorted[0].msg.id, item.msg.id) then
      assert sorted == [sorted[0]] + sorted[1..];
      [sorted[0]] + Insert(item, sorted[1..])
    else [item] + sorted
  }

  function SortById(items: seq<Item>): (r: seq<Item>)
    ensures multiset(r) == multiset(items)
  {
    if items == [] then []
    else
      assert items == [items[0]] + items[1..];
      Insert(items[0], SortById(items[1..]))
  }

  /** The page a node serves from its outbox: the first records by id, before any recipient filter. */
  function Page(outbox: seq<Item>, since: Option<Id>, limit: int): seq<Item> {
    var n := if limit < 1 then 1 else if limit > 1000 then 1000 else limit;
    var sorted := SortById(Newer(outbox, since));
    if |sorted| <= n then sorted else sorted[..n]
  }

  function AddressedTo(items: seq<Item>, name: Name): (r: seq<Item>)
    ensures forall x :: x in r <==> x in items && (x.msg.to == name || x.msg.to == "*")
  {
    if items == [] then []
    else (if items[0].msg.to == name || items[0].msg.to == "*" then [items[0]] else []) + AddressedTo(items[1..], name)
  }

  /** importMessages: append what the inbox does not hold yet. */
  function Import(inbox: seq<Item>, records: seq<Item>, via: Name): seq<Item>
    decreases |records|
  {
    if records == [] then inbox
    else if records[0].msg.id == "" || HasId(inbox, records[0].msg.id) then Import(inbox, records[1..], via)
    else Import(inbox + [Item(records[0].msg, via)], records[1..], via)
  }

  // ---------------------------------------------------------------- the steps of a run

  datatype Action =
    | Send(a: Name, msg: Msg)
    | Append(a: Name, id: Id)
    | Confirm(a: Name, id: Id)
    | Push(a: Name, id: Id, peer: Name, fault: Fault, next: Fault)
    | GiveUp(a: Name, id: Id)
    | Drop(a: Name, id: Id)
    | Pull(a: Name, peer: Name, since: Option<Id>, limit: int, fault: Fault)

  function State(node: Node, id: Id): Progress {
    if id in node.delivery then node.delivery[id] else Pending
  }

  /** pendingOutbox holds the records with this id. */
  predicate IsPending(node: Node, id: Id) {
    HasId(node.outbox, id) && State(node, id) == Pending
  }

  function Find(items: seq<Item>, id: Id): (r: Item)
    requires HasId(items, id)
    ensures r in items && r.msg.id == id
  {
    if items[0].msg.id == id then items[0] else assert HasId(items[1..], id); Find(items[1..], id)
  }

  /** The outbox holds a message to oneself with this id. */
  predicate IsOwn(node: Node, a: Name, id: Id) {
    HasId(node.outbox, id) && IsSelf(a, Find(node.outbox, id).msg.to)
  }

  /**
   * A step whose guard fails changes nothing. The message of a Send is a new one. Append and Confirm
   * are the two halves of delivering a message to oneself; a process confirms what it appended, so the
   * inbox holds it. The list of pending records may be old when a step is taken, so no step asks for it.
   */
  function Apply(net: Net, action: Action): Net {
    var a := action.a;
    if a !in net.nodes then net
    else
      var node := net.nodes[a];
      match action
      case Send(_, msg) =>
        if msg.id in net.sent || msg.id == "" || msg.to == "" || msg.origin != a then net
        else SetDelivery(PutOutbox(net.(sent := net.sent[msg.id := msg]), a, Item(msg, "")), a, msg.id, Pending)
      case Append(_, id) =>
        if !IsOwn(node, a, id) then net else PutInbox(net, a, Item(Find(node.outbox, id).msg, "local"))
      case Confirm(_, id) =>
        if !IsOwn(node, a, id) || !HasId(node.inbox, id) then net else SetDelivery(net, a, id, Delivered)
      case Push(_, id, peer, fault, next) =>
        if !HasId(node.outbox, id) then net
        else
          var msg := Find(node.outbox, id).msg;
          if IsSelf(a, msg.to) || Peer(peer, true) !in Candidates(node, a, msg.to) || !CanCall(node, a, peer) then net
          else
            var (net', ok) := Request(net, peer, msg, fault, next);
            if ok && a in net'.nodes then SetDelivery(net', a, id, Delivered) else net'
      case GiveUp(_, id) =>
        if !HasId(node.outbox, id) || IsSelf(a, Find(node.outbox, id).msg.to) then net else SetDelivery(net, a, id, Pending)
      case Drop(_, id) =>
        if !HasId(node.outbox, id) then net else SetDelivery(net, a, id, Dropped)
      case Pull(_, peer, since, limit, fault) =>
        if fault != Clean || !CanCall(node, a, peer) || peer !in net.nodes then net
        else
          var fetched := AddressedTo(Page(net.nodes[peer].outbox, since, limit), a);
          net.(nodes := net.nodes[a := node.(inbox := Import(node.inbox, fetched, peer))])
  }

  function Exec(net: Net, run: seq<Action>): Net
    decreases |run|
  {
    if run == [] then net else Exec(Apply(net, run[0]), run[1..])
  }

  lemma {:induction false} ExecConcat(net: Net, left: seq<Action>, right: seq<Action>)
    ensures Exec(net, left + right) == Exec(Exec(net, left), right)
    decreases |left|
  {
    hide Apply;
    if left == [] {
      assert left + right == right;
    } else {
      assert (left + right)[1..] == left[1..] + right;
      ExecConcat(Apply(net, left[0]), left[1..], right);
    }
  }
}
