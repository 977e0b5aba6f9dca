/** What every run of the delivery protocol keeps, whatever is lost and however often it is retried. */
module DeliverySafety {
  import opened Options
  import opened Delivery
  import TextOrder

  ghost predicate UniqueIds(items: seq<Item>) {
    forall i, j :: 0 <= i < j < |items| ==> items[i].msg.id != items[j].msg.id
  }

  /** The message was created by a sender, and this is still its text. */
  predicate Genuine(sent: map<Id, Msg>, msg: Msg) {
    msg.id in sent && sent[msg.id] == msg
  }

  /** The node it is addressed to holds it. */
  predicate Arrived(net: Net, msg: Msg) {
    msg.to in net.nodes && HasId(net.nodes[msg.to].inbox, msg.id)
  }

  /** Only a message of the node to itself can be there twice. */
  ghost predicate OthersOnce(n: Name, inbox: seq<Item>) {
    forall i, j :: 0 <= i < j < |inbox| && inbox[i].msg.id == inbox[j].msg.id ==> inbox[i].msg.origin == n
  }

  ghost predicate GoodInbox(sent: map<Id, Msg>, n: Name, inbox: seq<Item>) {
    && OthersOnce(n, inbox)
    && forall x :: x in inbox ==> Genuine(sent, x.msg) && x.msg.to == n
  }

  /** Only its own sender keeps a message to itself in an outbox; everything else there is for another node. */
  ghost predicate GoodOutbox(sent: map<Id, Msg>, n: Name, outbox: seq<Item>) {
    && (forall x :: x in outbox ==> Genuine(sent, x.msg) && (x.msg.to == n <==> x.msg.to == x.msg.origin))
    && forall i, j :: 0 <= i < j < |outbox| && outbox[i].msg.to == n ==> outbox[i].msg.id != outbox[j].msg.id
  }

  ghost predicate GoodMarks(net: Net, delivery: map<Id, Progress>) {
    forall id :: id in delivery && delivery[id] == Delivered ==> id in net.sent && Arrived(net, net.sent[id])
  }

  ghost predicate GoodSent(sent: map<Id, Msg>) {
    forall id :: id in sent ==> id != "" && sent[id].id == id && Named(sent[id].to)
  }

  ghost predicate Inv(net: Net) {
    && GoodSent(net.sent)
    && (forall n :: n in net.nodes ==> GoodInbox(net.sent, n, net.nodes[n].inbox))
    && (forall n :: n in net.nodes ==> GoodOutbox(net.sent, n, net.nodes[n].outbox))
    && (forall n :: n in net.nodes ==> GoodMarks(net, net.nodes[n].delivery))
  }

  /** Later: inboxes and the record of sent messages only grow. */
  ghost predicate Grown(net: Net, net': Net) {
    && net'.nodes.Keys == net.nodes.Keys
    && (forall n :: n in net.nodes ==> net.nodes[n].inbox <= net'.nodes[n].inbox)
    && (forall id :: id in net.sent ==> id in net'.sent && net'.sent[id] == net.sent[id])
  }

  lemma GrownTransitive(a: Net, b: Net, c: Net)
    requires Grown(a, b) && Grown(b, c)
    ensures Grown(a, c)
  {
  }

  lemma {:induction false} ArrivedStays(net: Net, net': Net, msg: Msg)
    requires Grown(net, net') && Arrived(net, msg)
    ensures Arrived(net', msg)
  {
    var i :| 0 <= i < |net.nodes[msg.to].inbox| && net.nodes[msg.to].inbox[i].msg.id == msg.id;
    assert net'.nodes[msg.to].inbox[i].msg.id == msg.id;
  }

  lemma {:induction false} MarksStay(net: Net, net': Net, delivery: map<Id, Progress>)
    requires Grown(net, net') && GoodMarks(net, delivery)
    ensures GoodMarks(net', delivery)
  {
    hide Arrived, Grown;
    forall id | id in delivery && delivery[id] == Delivered
      ensures id in net'.sent && Arrived(net', net'.sent[id])
    {
      assert id in net'.sent && net'.sent[id] == net.sent[id] by { SentStays(net, net', id); }
      ArrivedStays(net, net', net.sent[id]);
    }
  }

  lemma SentStays(net: Net, net': Net, id: Id)
    requires Grown(net, net') && id in net.sent
    ensures id in net'.sent && net'.sent[id] == net.sent[id]
  {
  }

  // ---------------------------------------------------------------- changes to one node

  lemma {:induction false} GoodInboxGrows(sent: map<Id, Msg>, n: Name, inbox: seq<Item>, item: Item)
    requires GoodInbox(sent, n, inbox) && Genuine(sent, item.msg) && item.msg.to == n
    requires item.msg.origin == n || !HasId(inbox, item.msg.id)
    ensures GoodInbox(sent, n, inbox + [item]) && HasId(inbox + [item], item.msg.id)
  {
    var longer := inbox + [item];
    assert longer[|inbox|] == item;
    forall i, j | 0 <= i < j < |longer| && longer[i].msg.id == longer[j].msg.id
      ensures longer[i].msg.origin == n
    {
      assert inbox[i] in inbox;
    }
  }

  lemma {:induction false} PutInboxKeeps(net: Net, n: Name, item: Item)
    requires Inv(net) && n in net.nodes && Genuine(net.sent, item.msg) && item.msg.to == n
    requires item.msg.origin == n || !HasId(net.nodes[n].inbox, item.msg.id)
    ensures Inv(PutInbox(net, n, item)) && Grown(net, PutInbox(net, n, item)) && Arrived(PutInbox(net, n, item), item.msg)
  {
    hide GoodMarks, GoodOutbox, GoodSent, GoodInbox;
    var net' := PutInbox(net, n, item);
    GoodInboxGrows(net.sent, n, net.nodes[n].inbox, item);
    forall m | m in net'.nodes
      ensures GoodMarks(net', net'.nodes[m].delivery)
    {
      MarksStay(net, net', net.nodes[m].delivery);
    }
  }

  lemma {:induction false} PutOutboxKeeps(net: Net, n: Name, item: Item)
    requires Inv(net) && n in net.nodes && Genuine(net.sent, item.msg) && (item.msg.to == n <==> item.msg.to == item.msg.origin)
    requires item.msg.to == n ==> !HasId(net.nodes[n].outbox, item.msg.id)
    ensures Inv(PutOutbox(net, n, item)) && Grown(net, PutOutbox(net, n, item))
  {
    hide GoodMarks, GoodInbox, GoodSent;
    var net' := PutOutbox(net, n, item);
    forall m | m in net'.nodes
      ensures GoodMarks(net', net'.nodes[m].delivery)
    {
      MarksStay(net, net', net.nodes[m].delivery);
    }
  }

  lemma {:induction false} SetDeliveryKeeps(net: Net, n: Name, id: Id, progress: Progress)
    requires Inv(net) && n in net.nodes && (progress == Delivered ==> id in net.sent && Arrived(net, net.sent[id]))
    ensures Inv(SetDelivery(net, n, id, progress)) && Grown(net, SetDelivery(net, n, id, progress))
  {
    hide GoodOutbox, GoodInbox, GoodSent, Arrived;
    var net' := SetDelivery(net, n, id, progress);
    forall m | m in net'.nodes
      ensures GoodMarks(net', net'.nodes[m].delivery)
    {
      MarksStay(net, net', net.nodes[m].delivery);
      if progress == Delivered { ArrivedStays(net, net', net.sent[id]); }
      if m == n { MarksStay(net, net', net.nodes[n].delivery); }
    }
  }

  lemma SentIds(net: Net, msg: Msg)
    requires Inv(net) && Genuine(net.sent, msg)
    ensures forall id :: id in net.sent ==> net.sent[id].id == id && (id == msg.id ==> net.sent[id] == msg)
  {
  }

  // ---------------------------------------------------------------- one request

  /** A request that is answered without an error has reached the recipient, through a hub or not. */
  ghost predicate Handled(net: Net, msg: Msg, result: (Net, bool)) {
    Inv(result.0) && Grown(net, result.0) && result.0.sent == net.sent && (result.1 ==> Arrived(result.0, msg))
  }

  lemma {:induction false} AcceptKeeps(net: Net, b: Name, msg: Msg, next: Fault)
    requires Inv(net) && Genuine(net.sent, msg) && msg.to != msg.origin
    ensures Handled(net, msg, Accept(net, b, msg, next))
    decreases if msg.to == b then 0 else 2
  {
    hide Inv, Grown, GoodInbox, PutInbox, PutOutbox;
    assert Grown(net, net) by { GrownReflexive(net); }
    if b in net.nodes && msg.id != "" {
      assert Named(msg.to) by { SentIsNamed(net, msg); }
      if HasId(net.nodes[b].inbox, msg.id) {
        HeldIsAddressed(net, b, msg);
      } else if IsSelf(b, msg.to) || msg.to == "*" {
        PutInboxKeeps(net, b, Item(msg, "push"));
        PutsKeepSent(net, b, Item(msg, "push"));
      } else if net.nodes[b].relay && CanCall(net.nodes[b], b, msg.to) {
        RequestKeeps(net, msg.to, msg, next, Clean);
        if Request(net, msg.to, msg, next, Clean).1 {
          RelayKeeps(net, b, msg, Request(net, msg.to, msg, next, Clean));
        }
      }
    }
  }

  lemma {:induction false} RelayKeeps(net: Net, b: Name, msg: Msg, result: (Net, bool))
    requires Inv(net) && Genuine(net.sent, msg) && msg.to != msg.origin && b in net.nodes && msg.to != b
    requires Handled(net, msg, result) && result.1
    ensures b in result.0.nodes && Handled(net, msg, (PutOutbox(result.0, b, Item(msg, msg.to)), true))
  {
    hide Inv, Grown, PutOutbox, Arrived;
    var net', item := result.0, Item(msg, msg.to);
    SameNodes(net, net', b);
    PutOutboxKeeps(net', b, item);
    PutsKeepSent(net', b, item);
    GrownTransitive(net, net', PutOutbox(net', b, item));
    ArrivedStays(net', PutOutbox(net', b, item), msg);
  }

  lemma {:induction false} RequestKeeps(net: Net, b: Name, msg: Msg, fault: Fault, next: Fault)
    requires Inv(net) && Genuine(net.sent, msg) && msg.to != msg.origin
    ensures Handled(net, msg, Request(net, b, msg, fault, next))
    decreases if msg.to == b then 1 else 3
  {
    hide Inv, Grown, Accept;
    GrownReflexive(net);
    AcceptKeeps(net, b, msg, next);
  }

  lemma GrownReflexive(net: Net)
    ensures Grown(net, net)
  {
  }

  lemma SameNodes(net: Net, net': Net, n: Name)
    requires Grown(net, net')
    ensures n in net.nodes <==> n in net'.nodes
  {
  }

  lemma PutsKeepSent(net: Net, n: Name, item: Item)
    requires n in net.nodes
    ensures PutInbox(net, n, item).sent == net.sent && PutOutbox(net, n, item).sent == net.sent
  {
  }

  lemma SentIsNamed(net: Net, msg: Msg)
    requires Inv(net) && Genuine(net.sent, msg)
    ensures Named(msg.to) && msg.id != ""
  {
  }

  /** A node that holds a record with the message's id is its recipient. */
  lemma {:induction false} HeldIsAddressed(net: Net, b: Name, msg: Msg)
    requires Inv(net) && Genuine(net.sent, msg) && b in net.nodes && HasId(net.nodes[b].inbox, msg.id)
    ensures Arrived(net, msg)
  {
    var inbox := net.nodes[b].inbox;
    var i :| 0 <= i < |inbox| && inbox[i].msg.id == msg.id;
    assert inbox[i] in inbox;
  }

  // ---------------------------------------------------------------- pull

  lemma {:induction false} ImportKeeps(sent: map<Id, Msg>, n: Name, inbox: seq<Item>, records: seq<Item>, via: Name)
    requires GoodInbox(sent, n, inbox) && forall x :: x in records ==> Genuine(sent, x.msg) && x.msg.to == n
    ensures GoodInbox(sent, n, Import(inbox, records, via)) && inbox <= Import(inbox, records, via)
    decreases |records|
  {
    if records == [] {
    } else {
      var x := records[0];
      if x.msg.id == "" || HasId(inbox, x.msg.id) {
        ImportKeeps(sent, n, inbox, records[1..], via);
      } else {
        var inbox' := inbox + [Item(x.msg, via)];
        assert OthersOnce(n, inbox');
        ImportKeeps(sent, n, inbox', records[1..], via);
      }
    }
  }

  /** Every record of the page with an id is in the inbox afterwards. */
  lemma {:induction false} ImportHolds(inbox: seq<Item>, records: seq<Item>, via: Name, id: Id)
    ensures HasId(Import(inbox, records, via), id) <==> HasId(inbox, id) || (id != "" && HasId(records, id))
    decreases |records|
  {
    if records == [] {
    } else {
      var x := records[0];
      assert HasId(records, id) <==> x.msg.id == id || HasId(records[1..], id) by { HasIdSplit(records, id); }
      if x.msg.id == "" || HasId(inbox, x.msg.id) {
        ImportHolds(inbox, records[1..], via, id);
      } else {
        HasIdAppend(inbox, Item(x.msg, via), id);
        ImportHolds(inbox + [Item(x.msg, via)], records[1..], via, id);
      }
    }
  }

  lemma {:induction false} HasIdSplit(items: seq<Item>, id: Id)
    requires items != []
    ensures HasId(items, id) <==> items[0].msg.id == id || HasId(items[1..], id)
  {
    if HasId(items, id) {
      var i :| 0 <= i < |items| && items[i].msg.id == id;
      if i > 0 { assert items[1..][i - 1].msg.id == id; }
    }
    if HasId(items[1..], id) {
      var i :| 0 <= i < |items[1..]| && items[1..][i].msg.id == id;
      assert items[i + 1].msg.id == id;
    }
  }

  lemma {:induction false} HasIdAppend(items: seq<Item>, item: Item, id: Id)
    ensures HasId(items + [item], id) <==> HasId(items, id) || item.msg.id == id
  {
    var longer := items + [item];
    assert longer[|items|] == item;
    if HasId(items, id) {
      var i :| 0 <= i < |items| && items[i].msg.id == id;
      assert longer[i].msg.id == id;
    }
  }

  lemma {:induction false} PageIsFromOutbox(outbox: seq<Item>, since: Option<Id>, limit: int)
    ensures forall x :: x in Page(outbox, since, limit) ==> x in outbox
  {
    forall x | x in Page(outbox, since, limit)
      ensures x in outbox
    {
      var newer := Newer(outbox, since);
      assert x in SortById(newer);
      assert x in multiset(SortById(newer));
    }
  }

  /** The limit is applied before the recipient filter: a page shows everything new exactly when it all fits. */
  lemma {:induction false} PageIsWholeIff(outbox: seq<Item>, since: Option<Id>, limit: int)
    requires 1 <= limit <= 1000
    ensures multiset(Page(outbox, since, limit)) == multiset(Newer(outbox, since)) <==> |Newer(outbox, since)| <= limit
  {
    var newer := Newer(outbox, since);
    assert |SortById(newer)| == |multiset(SortById(newer))| == |multiset(newer)| == |newer|;
    if |newer| > limit {
      assert |multiset(Page(outbox, since, limit))| == limit;
    }
  }

  // ---------------------------------------------------------------- every step

  /** Sends name their recipient. */
  ghost predicate NamedRun(run: seq<Action>) {
    forall i :: 0 <= i < |run| && run[i].Send? ==> Named(run[i].msg.to)
  }

  predicate NamedAction(action: Action) {
    action.Send? ==> Named(action.msg.to)
  }

  lemma {:induction false} StepKeeps(net: Net, action: Action)
    requires Inv(net) && NamedAction(action)
    ensures Inv(Apply(net, action)) && Grown(net, Apply(net, action))
  {
    hide Inv, Grown, Request, Candidates, CanCall, PutInbox, PutOutbox, SetDelivery;
    GrownReflexive(net);
    var a := action.a;
    if a in net.nodes {
      match action
      case Send(_, msg) => SendKeeps(net, a, msg);
      case Append(_, id) => AppendKeeps(net, a, id);
      case Confirm(_, id) => ConfirmKeeps(net, a, id);
      case Push(_, id, peer, fault, next) => PushKeeps(net, a, id, peer, fault, next);
      case GiveUp(_, id) =>
        if HasId(net.nodes[a].outbox, id) && !IsSelf(a, Find(net.nodes[a].outbox, id).msg.to) {
          FoundIsGenuine(net, a, id);
          MarkKeeps(net, a, id, Pending);
        }
      case Drop(_, id) =>
        if HasId(net.nodes[a].outbox, id) {
          FoundIsGenuine(net, a, id);
          MarkKeeps(net, a, id, Dropped);
        }
      case Pull(_, peer, since, limit, fault) => PullKeeps(net, a, peer, since, limit, fault);
    }
  }

  lemma {:induction false} FoundIsGenuine(net: Net, a: Name, id: Id)
    requires Inv(net) && a in net.nodes && HasId(net.nodes[a].outbox, id)
    ensures var msg := Find(net.nodes[a].outbox, id).msg;
            Genuine(net.sent, msg) && msg.id == id && Named(msg.to) && (msg.to == a <==> msg.to == msg.origin)
  {
  }

  lemma {:induction false} MarkKeeps(net: Net, a: Name, id: Id, progress: Progress)
    requires Inv(net) && a in net.nodes && id in net.sent
    requires progress == Delivered ==> Arrived(net, net.sent[id])
    ensures Inv(SetDelivery(net, a, id, progress)) && Grown(net, SetDelivery(net, a, id, progress))
  {
    SetDeliveryKeeps(net, a, id, progress);
  }

  lemma {:induction false} SendKeeps(net: Net, a: Name, msg: Msg)
    requires Inv(net) && a in net.nodes && Named(msg.to)
    ensures var net' := Apply(net, Send(a, msg)); Inv(net') && Grown(net, net')
  {
    GrownReflexive(net);
    if msg.id !in net.sent && msg.id != "" && msg.origin == a {
      var one := net.(sent := net.sent[msg.id := msg]);
      SentGrows(net, msg);
      SendPuts(net, one, a, msg);
    }
  }

  lemma {:induction false} SentGrows(net: Net, msg: Msg)
    requires Inv(net) && Named(msg.to) && msg.id !in net.sent && msg.id != ""
    ensures var one := net.(sent := net.sent[msg.id := msg]);
            Inv(one) && Grown(net, one) && !Arrived(one, msg)
  {
    var one := net.(sent := net.sent[msg.id := msg]);
    assert Grown(net, one);
    assert !Arrived(one, msg);
    assert Inv(one) by {
      hide GoodMarks;
      forall n | n in net.nodes
        ensures GoodMarks(one, net.nodes[n].delivery)
      {
        MarksStay(net, one, net.nodes[n].delivery);
      }
    }
  }

  lemma {:induction false} SendPuts(net: Net, one: Net, a: Name, msg: Msg)
    requires Inv(one) && Grown(net, one) && a in one.nodes && Genuine(one.sent, msg) && msg.origin == a && !Arrived(one, msg)
    requires !HasId(one.nodes[a].outbox, msg.id)
    ensures var net' := SetDelivery(PutOutbox(one, a, Item(msg, "")), a, msg.id, Pending); Inv(net') && Grown(net, net')
  {
    hide Inv, Grown;
    var two := PutOutbox(one, a, Item(msg, ""));
    PutOutboxKeeps(one, a, Item(msg, ""));
    MarkKeeps(two, a, msg.id, Pending);
    GrownTransitive(net, one, two);
    GrownTransitive(net, two, SetDelivery(two, a, msg.id, Pending));
  }

  lemma {:induction false} AppendKeeps(net: Net, a: Name, id: Id)
    requires Inv(net) && a in net.nodes
    ensures var net' := Apply(net, Append(a, id)); Inv(net') && Grown(net, net')
  {
    hide Inv, Grown, PutInbox;
    GrownReflexive(net);
    var node := net.nodes[a];
    if IsOwn(node, a, id) {
      FoundIsGenuine(net, a, id);
      PutInboxKeeps(net, a, Item(Find(node.outbox, id).msg, "local"));
    }
  }

  lemma {:induction false} ConfirmKeeps(net: Net, a: Name, id: Id)
    requires Inv(net) && a in net.nodes
    ensures var net' := Apply(net, Confirm(a, id)); Inv(net') && Grown(net, net')
  {
    hide Inv, Grown, SetDelivery;
    GrownReflexive(net);
    var node := net.nodes[a];
    if IsOwn(node, a, id) && HasId(node.inbox, id) {
      FoundIsGenuine(net, a, id);
      MarkKeeps(net, a, id, Delivered);
    }
  }

  lemma {:induction false} PushKeeps(net: Net, a: Name, id: Id, peer: Name, fault: Fault, next: Fault)
    requires Inv(net) && a in net.nodes
    ensures var net' := Apply(net, Push(a, id, peer, fault, next)); Inv(net') && Grown(net, net')
  {
    hide Inv, Grown, Request, SetDelivery, Arrived;
    GrownReflexive(net);
    var node := net.nodes[a];
    if HasId(node.outbox, id) && !IsSelf(a, Find(node.outbox, id).msg.to) {
      var msg := Find(node.outbox, id).msg;
      FoundIsGenuine(net, a, id);
      RequestKeeps(net, peer, msg, fault, next);
      var (net', ok) := Request(net, peer, msg, fault, next);
      SameNodes(net, net', a);
      if ok {
        assert net'.sent[id] == msg;
        MarkKeeps(net', a, id, Delivered);
        GrownTransitive(net, net', SetDelivery(net', a, id, Delivered));
      }
    }
  }

  lemma {:induction false} FetchedIsGood(net: Net, a: Name, peer: Name, since: Option<Id>, limit: int)
    requires Inv(net) && peer in net.nodes && peer != a
    ensures forall x :: x in AddressedTo(Page(net.nodes[peer].outbox, since, limit), a) ==>
        Genuine(net.sent, x.msg) && x.msg.to == a && x.msg.to != x.msg.origin
  {
    PageIsFromOutbox(net.nodes[peer].outbox, since, limit);
    forall x | x in AddressedTo(Page(net.nodes[peer].outbox, since, limit), a)
      ensures Genuine(net.sent, x.msg) && x.msg.to == a && x.msg.to != x.msg.origin
    {
      assert x in net.nodes[peer].outbox;
      SentIsNamed(net, x.msg);
    }
  }

  lemma {:induction false} PullKeeps(net: Net, a: Name, peer: Name, since: Option<Id>, limit: int, fault: Fault)
    requires Inv(net) && a in net.nodes
    ensures var net' := Apply(net, Pull(a, peer, since, limit, fault)); Inv(net') && Grown(net, net')
  {
    GrownReflexive(net);
    if fault == Clean && CanCall(net.nodes[a], a, peer) && peer in net.nodes {
      var fetched := AddressedTo(Page(net.nodes[peer].outbox, since, limit), a);
      FetchedIsGood(net, a, peer, since, limit);
      hide Inv, Grown, Import, Page, AddressedTo, Genuine;
      ImportedKeeps(net, a, fetched, peer);
    }
  }

  lemma {:induction false} ImportedKeeps(net: Net, a: Name, records: seq<Item>, via: Name)
    requires Inv(net) && a in net.nodes
    requires forall x :: x in records ==> Genuine(net.sent, x.msg) && x.msg.to == a && x.msg.to != x.msg.origin
    ensures var net' := net.(nodes := net.nodes[a := net.nodes[a].(inbox := Import(net.nodes[a].inbox, records, via))]);
            Inv(net') && Grown(net, net')
  {
    var inbox := Import(net.nodes[a].inbox, records, via);
    var net' := net.(nodes := net.nodes[a := net.nodes[a].(inbox := inbox)]);
    ImportKeeps(net.sent, a, net.nodes[a].inbox, records, via);
    assert Grown(net, net');
    assert Inv(net') by {
      hide GoodMarks, GoodInbox;
      forall n | n in net.nodes
        ensures GoodMarks(net', net'.nodes[n].delivery)
      {
        MarksStay(net, net', net.nodes[n].delivery);
      }
    }
  }

  // ---------------------------------------------------------------- every run

  lemma {:induction false} RunKeeps(net: Net, run: seq<Action>)
    requires Inv(net) && NamedRun(run)
    ensures Inv(Exec(net, run)) && Grown(net, Exec(net, run))
    decreases |run|
  {
    hide Inv, Grown, Apply;
    if run == [] {
      GrownReflexive(net);
    } else {
      StepKeeps(net, run[0]);
      RunKeeps(Apply(net, run[0]), run[1..]);
      GrownTransitive(net, Apply(net, run[0]), Exec(net, run));
    }
  }

  /** Nodes before any message: only the peer lists and the relay switches differ. */
  ghost predicate Quiet(net: Net) {
    net.sent == map[] && forall n :: n in net.nodes ==>
      net.nodes[n].inbox == [] && net.nodes[n].outbox == [] && net.nodes[n].delivery == map[]
  }

  /** The senders' own record: a message that exists was created by a Send of this run. */
  lemma {:induction false} OnlySendsCreate(net: Net, run: seq<Action>, id: Id)
    requires id in Exec(net, run).sent && id !in net.sent
    ensures var msg := Exec(net, run).sent[id]; msg.id == id && Send(msg.origin, msg) in run
    decreases |run|
  {
    hide Apply;
    if run == [] {
    } else {
      StepCreates(net, run[0], id);
      if id in Apply(net, run[0]).sent {
        SentStaysPut(Apply(net, run[0]), run[1..], id);
      } else {
        OnlySendsCreate(Apply(net, run[0]), run[1..], id);
      }
    }
  }

  lemma {:induction false} StepCreates(net: Net, action: Action, id: Id)
    ensures id in net.sent ==> id in Apply(net, action).sent && Apply(net, action).sent[id] == net.sent[id]
    ensures id !in net.sent && id in Apply(net, action).sent ==>
              var msg := Apply(net, action).sent[id]; action == Send(msg.origin, msg) && msg.id == id
  {
    match action
    case Push(a, mid, peer, fault, next) =>
      if a in net.nodes && HasId(net.nodes[a].outbox, mid) {
        RequestKeepsSent(net, peer, Find(net.nodes[a].outbox, mid).msg, fault, next);
      }
    case _ =>
  }

  lemma {:induction false} AcceptKeepsSent(net: Net, b: Name, msg: Msg, next: Fault)
    ensures Accept(net, b, msg, next).0.sent == net.sent
    decreases if msg.to == b then 0 else 2
  {
    if b in net.nodes && msg.to != b && CanCall(net.nodes[b], b, msg.to) {
      RequestKeepsSent(net, msg.to, msg, next, Clean);
    }
  }

  lemma {:induction false} RequestKeepsSent(net: Net, b: Name, msg: Msg, fault: Fault, next: Fault)
    ensures Request(net, b, msg, fault, next).0.sent == net.sent
    decreases if msg.to == b then 1 else 3
  {
    hide Accept;
    AcceptKeepsSent(net, b, msg, next);
  }

  lemma {:induction false} SentStaysPut(net: Net, run: seq<Action>, id: Id)
    requires id in net.sent
    ensures id in Exec(net, run).sent && Exec(net, run).sent[id] == net.sent[id]
    decreases |run|
  {
    hide Apply;
    if run == [] {
    } else {
      StepCreates(net, run[0], id);
      SentStaysPut(Apply(net, run[0]), run[1..], id);
    }
  }

  // ---------------------------------------------------------------- no id twice

  /** The append of a message to oneself finds it not yet in the inbox. */
  predicate FreshAppend(net: Net, action: Action, n: Name) {
    action.Append? && action.a == n && n in net.nodes && IsOwn(net.nodes[n], n, action.id) ==> !HasId(net.nodes[n].inbox, action.id)
  }

  predicate FreshAppends(net: Net, run: seq<Action>, n: Name)
    decreases |run|
  {
    run == [] || (FreshAppend(net, run[0], n) && FreshAppends(Apply(net, run[0]), run[1..], n))
  }

  lemma {:induction false} UniqueAppend(items: seq<Item>, item: Item)
    requires UniqueIds(items)
    ensures UniqueIds(items + [item]) <==> !HasId(items, item.msg.id)
  {
    var longer := items + [item];
    assert longer[|items|] == item && forall i :: 0 <= i < |items| ==> longer[i] == items[i];
  }

  lemma {:induction false} AcceptKeepsUnique(net: Net, b: Name, msg: Msg, next: Fault, n: Name)
    requires n in net.nodes && UniqueIds(net.nodes[n].inbox)
    ensures var net' := Accept(net, b, msg, next).0; n in net'.nodes && UniqueIds(net'.nodes[n].inbox)
    decreases if msg.to == b then 0 else 2
  {
    hide UniqueIds, HasId;
    if b in net.nodes {
      if IsSelf(b, msg.to) || msg.to == "*" {
        if b == n { UniqueAppend(net.nodes[b].inbox, Item(msg.(to := if msg.to == "" then b else msg.to), "push")); }
      } else if CanCall(net.nodes[b], b, msg.to) {
        RequestKeepsUnique(net, msg.to, msg, next, Clean, n);
      }
    }
  }

  lemma {:induction false} RequestKeepsUnique(net: Net, b: Name, msg: Msg, fault: Fault, next: Fault, n: Name)
    requires n in net.nodes && UniqueIds(net.nodes[n].inbox)
    ensures var net' := Request(net, b, msg, fault, next).0; n in net'.nodes && UniqueIds(net'.nodes[n].inbox)
    decreases if msg.to == b then 1 else 3
  {
    hide Accept, UniqueIds;
    AcceptKeepsUnique(net, b, msg, next, n);
  }

  lemma {:induction false} ImportKeepsUnique(inbox: seq<Item>, records: seq<Item>, via: Name)
    requires UniqueIds(inbox)
    ensures UniqueIds(Import(inbox, records, via))
    decreases |records|
  {
    hide UniqueIds, HasId;
    if records != [] {
      var x := records[0];
      if x.msg.id == "" || HasId(inbox, x.msg.id) {
        ImportKeepsUnique(inbox, records[1..], via);
      } else {
        UniqueAppend(inbox, Item(x.msg, via));
        ImportKeepsUnique(inbox + [Item(x.msg, via)], records[1..], via);
      }
    }
  }

  /** One step puts an id into an inbox twice if and only if it appends a message to oneself that is there. */
  lemma {:induction false} StepUniqueIff(net: Net, action: Action, n: Name)
    requires n in net.nodes && UniqueIds(net.nodes[n].inbox)
    ensures n in Apply(net, action).nodes
    ensures UniqueIds(Apply(net, action).nodes[n].inbox) <==> FreshAppend(net, action, n)
  {
    hide UniqueIds, HasId, Request, Page, AddressedTo, Import, CanCall, Candidates;
    var a := action.a;
    if a in net.nodes {
      match action
      case Append(_, id) =>
        if a == n && IsOwn(net.nodes[a], a, id) {
          UniqueAppend(net.nodes[a].inbox, Item(Find(net.nodes[a].outbox, id).msg, "local"));
        }
      case Push(_, id, peer, fault, next) =>
        if HasId(net.nodes[a].outbox, id) {
          RequestKeepsUnique(net, peer, Find(net.nodes[a].outbox, id).msg, fault, next, n);
        }
      case Pull(_, peer, since, limit, _) =>
        if a == n && peer in net.nodes {
          ImportKeepsUnique(net.nodes[a].inbox, AddressedTo(Page(net.nodes[peer].outbox, since, limit), a), peer);
        }
      case _ =>
    }
  }

  lemma {:induction false} DuplicatesStay(net: Net, net': Net, n: Name)
    requires Grown(net, net') && n in net.nodes && !UniqueIds(net.nodes[n].inbox)
    ensures n in net'.nodes && !UniqueIds(net'.nodes[n].inbox)
  {
    var inbox, inbox' := net.nodes[n].inbox, net'.nodes[n].inbox;
    var i, j :| 0 <= i < j < |inbox| && inbox[i].msg.id == inbox[j].msg.id;
    assert inbox'[i] == inbox[i] && inbox'[j] == inbox[j];
  }

  lemma {:induction false} RunUniqueIff(net: Net, run: seq<Action>, n: Name)
    requires Inv(net) && NamedRun(run) && n in net.nodes && UniqueIds(net.nodes[n].inbox)
    ensures n in Exec(net, run).nodes && (UniqueIds(Exec(net, run).nodes[n].inbox) <==> FreshAppends(net, run, n))
    decreases |run|
  {
    hide Inv, Grown, Apply, UniqueIds, FreshAppend;
    if run != [] {
      var next := Apply(net, run[0]);
      StepKeeps(net, run[0]);
      StepUniqueIff(net, run[0], n);
      RunKeeps(next, run[1..]);
      if FreshAppend(net, run[0], n) {
        RunUniqueIff(next, run[1..], n);
      } else {
        DuplicatesStay(next, Exec(next, run[1..]), n);
      }
    }
  }

  /**
   * In every run from quiet nodes, with any losses and however the steps of several processes of a node
   * interleave: what an inbox holds was sent to this node by a Send of the run, only the node's own
   * messages to itself can be there twice, and no id is there twice if and only if every append of such
   * a message found it not there.
   */
  lemma {:induction false} InboxesAreSound(net: Net, run: seq<Action>, n: Name)
    requires Quiet(net) && NamedRun(run) && n in Exec(net, run).nodes
    ensures var inbox := Exec(net, run).nodes[n].inbox;
            && (forall x :: x in inbox ==> x.msg.to == n && Send(x.msg.origin, x.msg) in run)
            && OthersOnce(n, inbox)
            && (UniqueIds(inbox) <==> FreshAppends(net, run, n))
  {
    RunKeeps(net, run);
    var end := Exec(net, run);
    RunUniqueIff(net, run, n);
    forall x | x in end.nodes[n].inbox
      ensures x.msg.to == n && Send(x.msg.origin, x.msg) in run
    {
      assert Genuine(end.sent, x.msg);
      OnlySendsCreate(net, run, x.msg.id);
    }
  }

  /** A message that any node marks delivered is in its recipient's inbox, then and ever after. */
  lemma {:induction false} DeliveredMeansArrived(net: Net, run: seq<Action>, more: seq<Action>, n: Name, id: Id)
    requires Quiet(net) && NamedRun(run) && NamedRun(more)
    requires n in Exec(net, run).nodes && State(Exec(net, run).nodes[n], id) == Delivered
    ensures id in Exec(net, run).sent
    ensures Arrived(Exec(Exec(net, run), more), Exec(net, run).sent[id])
  {
    RunKeeps(net, run);
    var end := Exec(net, run);
    RunKeeps(end, more);
    assert GoodMarks(end, end.nodes[n].delivery);
    ArrivedStays(end, Exec(end, more), end.sent[id]);
  }

  // ---------------------------------------------------------------- what gets through

  /**
   * A push straight to its recipient is marked delivered exactly when the answer comes back from a
   * node that is there, and it leaves one record at the recipient however often it is repeated.
   */
  lemma {:induction false} DirectPush(net: Net, a: Name, id: Id, fault: Fault, next: Fault)
    requires Inv(net) && a in net.nodes && HasId(net.nodes[a].outbox, id)
    requires var msg := Find(net.nodes[a].outbox, id).msg; msg.to != a && CanCall(net.nodes[a], a, msg.to)
    requires State(net.nodes[a], id) != Delivered
    ensures var msg := Find(net.nodes[a].outbox, id).msg;
            var net' := Apply(net, Push(a, id, msg.to, fault, next));
            && a in net'.nodes
            && (State(net'.nodes[a], id) == Delivered <==> fault == Clean && msg.to in net.nodes)
            && (Arrived(net', msg) <==> Arrived(net, msg) || (fault != LostRequest && msg.to in net.nodes))
  {
    var msg := Find(net.nodes[a].outbox, id).msg;
    FoundIsGenuine(net, a, id);
    assert Candidates(net.nodes[a], a, msg.to) == [Peer(msg.to, true)];
    AcceptHere(net, msg, next);
    PushedTo(net, a, msg, fault, next);
  }

  lemma {:induction false} PushedTo(net: Net, a: Name, msg: Msg, fault: Fault, next: Fault)
    requires a in net.nodes && HasId(net.nodes[a].outbox, msg.id) && Find(net.nodes[a].outbox, msg.id).msg == msg
    requires !IsSelf(a, msg.to) && CanCall(net.nodes[a], a, msg.to) && Peer(msg.to, true) in Candidates(net.nodes[a], a, msg.to)
    requires State(net.nodes[a], msg.id) != Delivered
    requires Accepted(net, msg, next)
    ensures var net' := Apply(net, Push(a, msg.id, msg.to, fault, next));
            && a in net'.nodes
            && (State(net'.nodes[a], msg.id) == Delivered <==> fault == Clean && msg.to in net.nodes)
            && (Arrived(net', msg) <==> Arrived(net, msg) || (fault != LostRequest && msg.to in net.nodes))
  {
    hide Accept, Candidates, PeerFor, HasId, Find;
    var result := Request(net, msg.to, msg, fault, next);
    assert result.1 <==> fault == Clean && msg.to in net.nodes;
    assert a in result.0.nodes && result.0.nodes[a] == net.nodes[a];
    assert Arrived(result.0, msg) <==> Arrived(net, msg) || (fault != LostRequest && msg.to in net.nodes);
  }

  /** What the recipient does with a request that reaches it. */
  ghost predicate Accepted(net: Net, msg: Msg, next: Fault) {
    var (net', ok) := Accept(net, msg.to, msg, next);
    && (ok <==> msg.to in net.nodes)
    && (ok ==> Arrived(net', msg))
    && (!ok ==> net' == net)
    && net'.nodes.Keys == net.nodes.Keys
    && (forall n :: n in net.nodes && n != msg.to ==> net'.nodes[n] == net.nodes[n])
    && (ok ==> net'.nodes[msg.to] == net.nodes[msg.to].(inbox :=
          net.nodes[msg.to].inbox + if HasId(net.nodes[msg.to].inbox, msg.id) then [] else [Item(msg, "push")]))
  }

  lemma {:induction false} AcceptHere(net: Net, msg: Msg, next: Fault)
    requires Named(msg.to) && msg.id != ""
    ensures Accepted(net, msg, next)
  {
    if msg.to in net.nodes {
      HasIdAppend(net.nodes[msg.to].inbox, Item(msg, "push"), msg.id);
    }
  }

  /** A pull brings what the page shows for this node; a page that is whole leaves nothing behind. */
  lemma {:induction false} PullBrings(net: Net, a: Name, peer: Name, limit: int, x: Item)
    requires Inv(net) && a in net.nodes && peer in net.nodes && CanCall(net.nodes[a], a, peer)
    requires x in net.nodes[peer].outbox && x.msg.to == a
    requires 1 <= limit <= 1000 && |net.nodes[peer].outbox| <= limit
    ensures Arrived(Apply(net, Pull(a, peer, None, limit, Clean)), x.msg)
  {
    hide Page, CanCall, Import, Inv;
    var outbox := net.nodes[peer].outbox;
    WholePageShows(outbox, limit, x);
    var fetched := AddressedTo(Page(outbox, None, limit), a);
    var i :| 0 <= i < |fetched| && fetched[i] == x;
    OutboxHasIds(net, peer, x);
    ImportHolds(net.nodes[a].inbox, fetched, peer, x.msg.id);
  }

  lemma OutboxHasIds(net: Net, n: Name, x: Item)
    requires Inv(net) && n in net.nodes && x in net.nodes[n].outbox
    ensures x.msg.id != ""
  {
  }

  lemma {:induction false} WholePageShows(outbox: seq<Item>, limit: int, x: Item)
    requires x in outbox && 1 <= limit <= 1000 && |outbox| <= limit
    ensures x in Page(outbox, None, limit)
  {
    NewerThanNone(outbox);
    PageIsWholeIff(outbox, None, limit);
    assert x in multiset(Page(outbox, None, limit));
  }

  lemma {:induction false} NewerThanNone(items: seq<Item>)
    ensures Newer(items, None) == items
  {
    if items != [] {
      NewerThanNone(items[1..]);
    }
  }

  // ---------------------------------------------------------------- whom a node can reach

  /** The entry that is found under this name carries a token. */
  ghost predicate HasToken(node: Node, name: Name) {
    exists i: nat :: IsFirst(node.peers, name, i) && node.peers[i].hasToken
  }

  predicate IsFirst(peers: seq<Peer>, name: Name, i: nat) {
    i < |peers| && peers[i].name == name && forall j :: 0 <= j < i ==> peers[j].name != name
  }

  lemma {:induction false} FoundIsFirst(peers: seq<Peer>, name: Name) returns (i: nat)
    ensures FindPeer(peers, name).Some? ==> IsFirst(peers, name, i) && FindPeer(peers, name) == Some(peers[i])
    ensures FindPeer(peers, name).None? ==> forall j :: 0 <= j < |peers| ==> peers[j].name != name
  {
    i := 0;
    if peers != [] && peers[0].name != name {
      var j := FoundIsFirst(peers[1..], name);
      i := j + 1;
      if FindPeer(peers, name).Some? {
        assert peers[i] == peers[1..][j];
        assert forall k :: 1 <= k < i ==> peers[k] == peers[1..][k - 1];
      }
    }
  }

  /** A node calls whom it has a token for, and nobody under its own names. */
  lemma {:induction false} CanCallIff(node: Node, self: Name, name: Name)
    ensures CanCall(node, self, name) <==> name !in ["", self, "self", "local"] && HasToken(node, name)
  {
    var i := FoundIsFirst(node.peers, name);
    if HasToken(node, name) {
      var j: nat :| IsFirst(node.peers, name, j) && node.peers[j].hasToken;
      assert FindPeer(node.peers, name).Some? && i == j && node.peers[j] == Peer(name, true);
    }
  }

  /** Whom deliver tries: the entry of that name, or every peer of a relay, or nobody. */
  lemma {:induction false} CandidatesAre(node: Node, self: Name, to: Name)
    requires to !in ["", self, "self", "local"]
    ensures HasToken(node, to) ==> Candidates(node, self, to) == [Peer(to, true)]
    ensures !HasToken(node, to) && (exists p :: p in node.peers && p.name == to) ==> Candidates(node, self, to) == [Peer(to, false)]
    ensures (forall p :: p in node.peers ==> p.name != to) ==> Candidates(node, self, to) == if node.relay then node.peers else []
  {
    var i := FoundIsFirst(node.peers, to);
    CanCallIff(node, self, to);
    if FindPeer(node.peers, to).Some? {
      assert node.peers[i] in node.peers;
      assert node.peers[i] == Peer(to, node.peers[i].hasToken);
    }
  }

  /**
   * Through a hub: the answer comes back exactly if both requests got through and were answered and the
   * hub relays, has a token for the recipient, and the recipient is there; the message arrives exactly
   * if it was there or both requests got through; the hub keeps a record of what it relayed.
   */
  lemma {:induction false} RelayedArrives(net: Net, h: Name, msg: Msg, fault: Fault, next: Fault)
    requires Inv(net) && Genuine(net.sent, msg) && msg.to != msg.origin && msg.to != h
    ensures var (net', ok) := Request(net, h, msg, fault, next);
            var passes := h in net.nodes && net.nodes[h].relay && HasToken(net.nodes[h], msg.to) && msg.to in net.nodes;
            && (ok <==> passes && fault == Clean && next == Clean)
            && (Arrived(net', msg) <==> Arrived(net, msg) || (passes && fault != LostRequest && next != LostRequest))
            && (h in net.nodes ==>
                  var kept := if passes && fault != LostRequest && next == Clean then [Item(msg, msg.to)] else [];
                  h in net'.nodes && net'.nodes[h].outbox == net.nodes[h].outbox + kept)
  {
    SentIsNamed(net, msg);
    if h in net.nodes {
      NotHeld(net, h, msg);
      CanCallIff(net.nodes[h], h, msg.to);
      AcceptHere(net, msg, Clean);
      HubAnswers(net, h, msg, fault, next);
    }
  }

  /** Only its recipient holds a message. */
  lemma {:induction false} NotHeld(net: Net, h: Name, msg: Msg)
    requires Inv(net) && Genuine(net.sent, msg) && h in net.nodes && msg.to != h
    ensures !HasId(net.nodes[h].inbox, msg.id)
  {
    forall i | 0 <= i < |net.nodes[h].inbox|
      ensures net.nodes[h].inbox[i].msg.id != msg.id
    {
      assert net.nodes[h].inbox[i] in net.nodes[h].inbox;
    }
  }

  lemma {:induction false} HubAnswers(net: Net, h: Name, msg: Msg, fault: Fault, next: Fault)
    requires h in net.nodes && msg.to != h && Named(msg.to) && msg.id != "" && !HasId(net.nodes[h].inbox, msg.id)
    requires CanCall(net.nodes[h], h, msg.to) <==> HasToken(net.nodes[h], msg.to)
    requires Accepted(net, msg, Clean)
    ensures var (net', ok) := Request(net, h, msg, fault, next);
            var passes := net.nodes[h].relay && HasToken(net.nodes[h], msg.to) && msg.to in net.nodes;
            && (ok <==> passes && fault == Clean && next == Clean)
            && (Arrived(net', msg) <==> Arrived(net, msg) || (passes && fault != LostRequest && next != LostRequest))
            && var kept := if passes && fault != LostRequest && next == Clean then [Item(msg, msg.to)] else [];
               h in net'.nodes && net'.nodes[h].outbox == net.nodes[h].outbox + kept
  {
    hide HasToken, HasId;
    var node := net.nodes[h];
    if node.relay && CanCall(node, h, msg.to) {
      var (net1, ok1) := Request(net, msg.to, msg, next, Clean);
      assert Accept(net, msg.to, msg, Clean) == Accept(net, msg.to, msg, Clean);
      assert h in net1.nodes && net1.nodes[h] == node;
    }
  }

  // ---------------------------------------------------------------- what a page holds

  predicate IsAfter(x: Item, since: Option<Id>) {
    since == None || (since.Some? && TextOrder.Less(since.value, x.msg.id))
  }

  /** `since` keeps exactly the records with a later id, as often as they are there. */
  lemma {:induction false} NewerIff(items: seq<Item>, since: Option<Id>, x: Item)
    ensures multiset(Newer(items, since))[x] == if IsAfter(x, since) then multiset(items)[x] else 0
  {
    if items != [] {
      NewerIff(items[1..], since, x);
      assert items == [items[0]] + items[1..];
    }
  }

  /** No id is lower than one before it. */
  ghost predicate ByIds(items: seq<Item>) {
    forall i, j :: 0 <= i < j < |items| ==> !TextOrder.Less(items[j].msg.id, items[i].msg.id)
  }

  lemma {:induction false} InsertKeepsOrder(item: Item, sorted: seq<Item>)
    requires ByIds(sorted)
    ensures ByIds(Insert(item, sorted))
  {
    if sorted != [] {
      var first, rest := sorted[0], sorted[1..];
      if TextOrder.Less(first.msg.id, item.msg.id) {
        InsertKeepsOrder(item, rest);
        hide TextOrder.Less;
        forall y | y in Insert(item, rest)
          ensures !TextOrder.Less(y.msg.id, first.msg.id)
        {
          InsertHolds(item, rest, y);
          if y == item {
            TextOrder.LessAsymmetric(first.msg.id, item.msg.id);
          } else {
            var k :| 0 <= k < |rest| && rest[k] == y;
            assert sorted[k + 1] == y;
          }
        }
      } else {
        NotLessThanAll(item, sorted);
      }
    }
  }

  lemma InsertHolds(item: Item, sorted: seq<Item>, y: Item)
    requires y in Insert(item, sorted)
    ensures y == item || y in sorted
  {
    hide Insert;
    assert y in multiset(Insert(item, sorted));
  }

  lemma {:induction false} NotLessThanAll(item: Item, sorted: seq<Item>)
    requires ByIds(sorted) && sorted != [] && !TextOrder.Less(sorted[0].msg.id, item.msg.id)
    ensures forall j :: 0 <= j < |sorted| ==> !TextOrder.Less(sorted[j].msg.id, item.msg.id)
  {
    forall j | 0 <= j < |sorted|
      ensures !TextOrder.Less(sorted[j].msg.id, item.msg.id)
    {
      if TextOrder.Less(sorted[j].msg.id, item.msg.id) {
        NotLessChains(item.msg.id, sorted[0].msg.id, sorted[j].msg.id);
      }
    }
  }

  lemma {:induction false} NotLessChains(a: Id, b: Id, c: Id)
    requires !TextOrder.Less(b, a) && !TextOrder.Less(c, b)
    ensures !TextOrder.Less(c, a)
  {
    TextOrder.LessTotal(a, b);
    TextOrder.LessTotal(b, c);
    if TextOrder.Less(c, a) {
      if TextOrder.Less(b, c) { TextOrder.LessTransitive(b, c, a); }
    }
  }

  lemma {:induction false} SortedByIds(items: seq<Item>)
    ensures ByIds(SortById(items))
  {
    if items != [] {
      SortedByIds(items[1..]);
      InsertKeepsOrder(items[0], SortById(items[1..]));
    }
  }

  lemma SortHolds(items: seq<Item>, x: Item)
    ensures x in SortById(items) <==> x in items
  {
    hide SortById;
    assert x in SortById(items) <==> x in multiset(SortById(items));
    assert x in items <==> x in multiset(items);
  }

  lemma AfterIff(items: seq<Item>, since: Option<Id>, x: Item)
    ensures x in Newer(items, since) <==> x in items && IsAfter(x, since)
  {
    hide Newer, IsAfter;
    NewerIff(items, since, x);
    assert x in Newer(items, since) <==> x in multiset(Newer(items, since));
    assert x in items <==> x in multiset(items);
  }

  /** What a prefix of ordered records leaves out is no lower than what it holds. */
  lemma {:induction false} FirstAreLowest(sorted: seq<Item>, n: nat, x: Item, y: Item)
    requires ByIds(sorted) && n <= |sorted| && x in sorted && x !in sorted[..n] && y in sorted[..n]
    ensures !TextOrder.Less(x.msg.id, y.msg.id)
  {
    hide TextOrder.Less;
    var j :| 0 <= j < n && sorted[..n][j] == y;
    var k :| 0 <= k < |sorted| && sorted[k] == x;
    assert forall i :: 0 <= i < n ==> sorted[..n][i] == sorted[i];
  }

  lemma {:induction false} PageIsFirst(outbox: seq<Item>, since: Option<Id>, limit: int) returns (n: nat)
    ensures var sorted := SortById(Newer(outbox, since));
            var size := if limit < 1 then 1 else if limit > 1000 then 1000 else limit;
            n <= |sorted| && n <= size && Page(outbox, since, limit) == sorted[..n] && (n < |sorted| ==> n == size)
  {
    hide SortById, Newer;
    n := |Page(outbox, since, limit)|;
    var sorted := SortById(Newer(outbox, since));
    assert sorted == sorted[..|sorted|];
  }

  /**
   * The page holds, in order of ids, records of the outbox later than `since`; it is full or holds all
   * of them, and what it leaves out has no lower id than what it shows.
   */
  lemma {:induction false} PageMeans(outbox: seq<Item>, since: Option<Id>, limit: int)
    ensures var page := Page(outbox, since, limit);
            var size := if limit < 1 then 1 else if limit > 1000 then 1000 else limit;
            && (forall x :: x in page ==> x in outbox && IsAfter(x, since)) && ByIds(page) && |page| <= size
            && forall x :: x in outbox && IsAfter(x, since) && x !in page ==>
                 |page| == size && forall y :: y in page ==> !TextOrder.Less(x.msg.id, y.msg.id)
  {
    var n := PageIsFirst(outbox, since, limit);
    hide Page, SortById, Newer, IsAfter, TextOrder.Less;
    var newer := Newer(outbox, since);
    var sorted := SortById(newer);
    SortedByIds(newer);
    forall x
      ensures x in sorted <==> x in outbox && IsAfter(x, since)
    {
      SortHolds(newer, x);
      AfterIff(outbox, since, x);
    }
    assert n == |sorted| ==> sorted[..n] == sorted;
    forall x, y | x in sorted && x !in sorted[..n] && y in sorted[..n]
      ensures !TextOrder.Less(x.msg.id, y.msg.id)
    {
      FirstAreLowest(sorted, n, x, y);
    }
  }

  /** What an import adds comes from the page, in its order, and says where it came from. */
  lemma {:induction false} ImportAdds(inbox: seq<Item>, records: seq<Item>, via: Name)
    ensures inbox <= Import(inbox, records, via)
    ensures forall k :: |inbox| <= k < |Import(inbox, records, via)| ==>
              Import(inbox, records, via)[k].via == via && exists x :: x in records && x.msg == Import(inbox, records, via)[k].msg
    decreases |records|
  {
    if records != [] {
      var x := records[0];
      var next := if x.msg.id == "" || HasId(inbox, x.msg.id) then inbox else inbox + [Item(x.msg, via)];
      ImportAdds(next, records[1..], via);
      forall k | |inbox| <= k < |Import(inbox, records, via)|
        ensures Import(inbox, records, via)[k].via == via && exists x :: x in records && x.msg == Import(inbox, records, via)[k].msg
      {
        if k < |next| { assert next[k] == Item(x.msg, via) && x in records; }
      }
    }
  }
}
