/** The transport between Hub processes: a publisher feeds its own subject at once and notifies the
    database channel; every process forwards what it hears except its own messages. */
module Transport {
  import opened Basics
  import opened Indexing

  /** A payload on the database channel. */
  datatype Payload = Payload(origin: string, message: Notice)

  class OwnableTransportService {
    const instanceId: string
    /** Everything pushed into the public-event subject, oldest first. */
    var subject: seq<Notice>
    /** Everything handed to the database channel, oldest first. */
    var notified: seq<Payload>

    constructor (instanceId: string)
      ensures this.instanceId == instanceId && subject == [] && notified == []
    {
      this.instanceId := instanceId;
      subject, notified := [], [];
    }

    method PublishPublicEvent(message: Notice)
      modifies this
      ensures subject == old(subject) + [message]
      ensures notified == old(notified) + [Payload(instanceId, message)]
    {
      subject := subject + [message];
      notified := notified + [Payload(instanceId, message)];
    }

    /** The listener: messages of this very process were already pushed when they were published. */
    method OnNotification(payload: Payload)
      modifies this
      ensures subject == Forward(instanceId, old(subject), payload) && notified == old(notified)
    {
      if payload.origin == instanceId {
        return;
      }
      subject := subject + [payload.message];
    }
  }

  function Payloads(origin: string, messages: seq<Notice>): seq<Payload> {
    seq(|messages|, k requires 0 <= k < |messages| => Payload(origin, messages[k]))
  }

  function Forward(process: string, subject: seq<Notice>, payload: Payload): seq<Notice> {
    if payload.origin == process then subject else subject + [payload.message]
  }

  // ---------------------------------------------------------------- any number of processes

  /** Per process, what its subject received and which notifications are still on their way to it. */
  datatype Network = Network(heard: map<string, seq<Notice>>, inbox: map<string, seq<Payload>>, published: seq<Notice>)

  datatype Move = Send(process: string, message: Notice) | Deliver(process: string, index: nat)

  function Start(processes: set<string>): Network {
    Network(map p | p in processes :: [], map p | p in processes :: [], [])
  }

  function Make(net: Network, m: Move): Network {
    match m
    case Send(process, message) =>
      if process !in net.heard then net
      else
        Network(
          net.heard[process := net.heard[process] + [message]],
          map p | p in net.inbox :: net.inbox[p] + [Payload(process, message)],
          net.published + [message])
    case Deliver(process, index) =>
      if process !in net.inbox || process !in net.heard || index >= |net.inbox[process]| then net
      else
        var box := net.inbox[process];
        net.(heard := net.heard[process := Forward(process, net.heard[process], box[index])],
             inbox := net.inbox[process := box[..index] + box[index + 1..]])
  }

  function AfterMoves(processes: set<string>, run: seq<Move>): Network {
    if run == [] then Start(processes) else Make(AfterMoves(processes, run[..|run| - 1]), run[|run| - 1])
  }

  /** The messages of an inbox that its process will not suppress. */
  function Awaited(process: string, inbox: seq<Payload>): multiset<Notice> {
    if inbox == [] then multiset{}
    else
      var init, last := Awaited(process, inbox[..|inbox| - 1]), inbox[|inbox| - 1];
      if last.origin == process then init else init + multiset{last.message}
  }

  lemma {:induction false} AwaitedConcat(process: string, a: seq<Payload>, b: seq<Payload>)
    ensures Awaited(process, a + b) == Awaited(process, a) + Awaited(process, b)
  {
    if b == [] {
      assert a + b == a;
    } else {
      assert (a + b)[..|a + b| - 1] == a + b[..|b| - 1];
      AwaitedConcat(process, a, b[..|b| - 1]);
    }
  }

  lemma {:induction false} AwaitedWithout(process: string, box: seq<Payload>, index: nat)
    requires index < |box|
    ensures Awaited(process, box) == Awaited(process, box[..index] + box[index + 1..]) + Awaited(process, [box[index]])
  {
    assert box == box[..index] + ([box[index]] + box[index + 1..]);
    AwaitedConcat(process, box[..index], [box[index]] + box[index + 1..]);
    AwaitedConcat(process, [box[index]], box[index + 1..]);
    AwaitedConcat(process, box[..index], box[index + 1..]);
  }

  lemma {:induction false} AwaitedOne(process: string, p: Payload)
    ensures Awaited(process, [p]) == if p.origin == process then multiset{} else multiset{p.message}
  {
    assert [p][..0] == [];
  }

  ghost predicate Conserves(net: Network, p: string) {
    && p in net.heard && p in net.inbox
    && multiset(net.heard[p]) + Awaited(p, net.inbox[p]) == multiset(net.published)
  }

  lemma {:induction false} SendConserves(net: Network, process: string, message: Notice, p: string)
    requires Conserves(net, p) && process in net.heard
    ensures Conserves(Make(net, Send(process, message)), p)
  {
    hide Awaited;
    var after := Make(net, Send(process, message));
    AwaitedConcat(p, net.inbox[p], [Payload(process, message)]);
    AwaitedOne(p, Payload(process, message));
    assert after.inbox[p] == net.inbox[p] + [Payload(process, message)];
    assert multiset(net.published + [message]) == multiset(net.published) + multiset{message};
    if p == process {
      assert multiset(after.heard[p]) == multiset(net.heard[p]) + multiset{message};
    } else {
      assert after.heard[p] == net.heard[p];
    }
  }

  lemma {:induction false} DeliverConserves(net: Network, process: string, index: nat, p: string)
    requires Conserves(net, p)
    ensures Conserves(Make(net, Deliver(process, index)), p)
  {
    hide Awaited;
    if process == p && index < |net.inbox[p]| {
      var item := net.inbox[p][index];
      AwaitedWithout(p, net.inbox[p], index);
      AwaitedOne(p, item);
      assert multiset(net.heard[p] + [item.message]) == multiset(net.heard[p]) + multiset{item.message};
    }
  }

  lemma {:induction false} MakeKeepsProcesses(net: Network, m: Move)
    ensures Make(net, m).heard.Keys == net.heard.Keys && Make(net, m).inbox.Keys == net.inbox.Keys
  {
  }

  /** Conservation: in every process, what its subject has received together with what is still on
      its way is exactly what was published, with multiplicity. Origin suppression neither loses a
      message nor delivers the publisher's own a second time. */
  lemma {:induction false} EveryProcessHearsEachMessageOnce(processes: set<string>, run: seq<Move>, p: string)
    requires p in processes
    ensures var net := AfterMoves(processes, run);
      && net.heard.Keys == net.inbox.Keys == processes
      && multiset(net.heard[p]) + Awaited(p, net.inbox[p]) == multiset(net.published)
  {
    if run != [] {
      var net, last := AfterMoves(processes, run[..|run| - 1]), run[|run| - 1];
      EveryProcessHearsEachMessageOnce(processes, run[..|run| - 1], p);
      MakeKeepsProcesses(net, last);
      if last.Deliver? {
        DeliverConserves(net, last.process, last.index, p);
      } else if last.process in net.heard {
        SendConserves(net, last.process, last.message, p);
      }
    }
  }
}
