/** Publishing to subscribers while tasks are created, subscribed to, completed, cancelled and cleaned up
    (internal/task/manager.go). */
module TaskManager {
  import opened Basics
  import opened Task

  datatype Event = Event(task: string, kind: string, message: string)

  /** A publication that has entered the task's read lock: its event, the subscribers it found, those it
      has not reached yet, and the publications of the same task that were inside when it entered. */
  datatype Pub = Pub(event: Event, subs: set<nat>, pending: set<nat>, overlaps: set<nat>)

  /** One non-blocking send: by which publication, whether the channel took it, and how many events had
      been received from the channel by then. */
  datatype Offer = Offer(pub: nat, accepted: bool, taken: nat)

  /** A bounded channel: what waits in it, and the history of sends and receives. */
  datatype Channel = Channel(cap: nat, buf: seq<Event>, sent: seq<Event>, offers: seq<Offer>, received: nat)

  /** A call that has looked its task up and not yet taken the task's lock. */
  datatype Flight =
    | Subscribing(task: string, ch: nat)
    | Unsubscribing(task: string, ch: nat)
    | Publishing(event: Event)
    | Completing(task: string, err: Option<string>)
    | Announcing(task: string, kind: string)
    | Landed

  datatype State = State(now: nat, tasks: map<string, Record>, registered: set<string>, chans: seq<Channel>,
                         pubs: seq<Pub>, flights: seq<Flight>)

  datatype Step =
    | Tick
    | Create(task: string)
    | NewChannel(cap: nat)
    | LookUp(f: Flight)
    | Subscribe(k: nat)
    | Unsubscribe(k: nat)
    | Enter(k: nat)
    | Send(p: nat, ch: nat)
    | Receive(ch: nat)
    | Complete(k: nat)
    | Announce(k: nat)
    | Cancel(task: string)
    | Cleanup(task: string)

  /** Some publication holds the task's read lock. */
  predicate Inside(pubs: seq<Pub>, task: string) {
    exists p :: 0 <= p < |pubs| && pubs[p].event.task == task && pubs[p].pending != {}
  }

  function TaskOf(f: Flight): string {
    match f
    case Subscribing(t, _) => t
    case Unsubscribing(t, _) => t
    case Publishing(e) => e.task
    case Completing(t, _) => t
    case Announcing(t, _) => t
    case Landed => ""
  }

  function Land(s: State, k: nat): State
    requires k < |s.flights|
  {
    s.(flights := s.flights[k := Landed])
  }

  function WithTask(s: State, t: string, r: Record): State {
    s.(tasks := s.tasks[t := r])
  }

  function Sent(c: Channel, e: Event, p: nat): Channel {
    if |c.buf| < c.cap then
      c.(buf := c.buf + [e], sent := c.sent + [e], offers := c.offers + [Offer(p, true, c.received)])
    else c.(offers := c.offers + [Offer(p, false, c.received)])
  }

  /** A flight that takes the task's write lock: nobody may be inside. */
  predicate CanLock(s: State, t: string) {
    t in s.tasks && !Inside(s.pubs, t)
  }

  function Apply(s: State, keep: nat, step: Step): Option<State> {
    match step
    case Tick => Some(s.(now := s.now + 1))
    case Create(t) =>
      if t in s.tasks then None else Some(WithTask(s, t, New()).(registered := s.registered + {t}))
    case NewChannel(cap) => Some(s.(chans := s.chans + [Channel(cap, [], [], [], 0)]))
    case LookUp(f) =>
      if f.Announcing? || f.Landed? || TaskOf(f) !in s.registered then None else Some(s.(flights := s.flights + [f]))
    case Subscribe(k) =>
      if k < |s.flights| && s.flights[k].Subscribing? && CanLock(s, s.flights[k].task)
          && s.flights[k].ch < |s.chans| then
        var t, r := s.flights[k].task, s.tasks[s.flights[k].task];
        Some(WithTask(Land(s, k), t, r.(subs := r.subs + {s.flights[k].ch})))
      else None
    case Unsubscribe(k) =>
      if k < |s.flights| && s.flights[k].Unsubscribing? && CanLock(s, s.flights[k].task) then
        var t, r := s.flights[k].task, s.tasks[s.flights[k].task];
        Some(WithTask(Land(s, k), t, r.(subs := r.subs - {s.flights[k].ch})))
      else None
    case Enter(k) =>
      if k < |s.flights| && s.flights[k].Publishing? && s.flights[k].event.task in s.tasks then
        var e := s.flights[k].event;
        var subs := s.tasks[e.task].subs;
        var overlaps := set p | 0 <= p < |s.pubs| && s.pubs[p].event.task == e.task && s.pubs[p].pending != {};
        Some(Land(s, k).(pubs := s.pubs + [Pub(e, subs, subs, overlaps)]))
      else None
    case Send(p, ch) =>
      if p < |s.pubs| && ch in s.pubs[p].pending && ch < |s.chans| then
        Some(s.(chans := s.chans[ch := Sent(s.chans[ch], s.pubs[p].event, p)],
                pubs := s.pubs[p := s.pubs[p].(pending := s.pubs[p].pending - {ch})]))
      else None
    case Receive(ch) =>
      if ch < |s.chans| && s.chans[ch].buf != [] then
        var c := s.chans[ch];
        Some(s.(chans := s.chans[ch := c.(buf := c.buf[1..], received := c.received + 1)]))
      else None
    case Complete(k) =>
      if k < |s.flights| && s.flights[k].Completing? && CanLock(s, s.flights[k].task) then
        var t, err := s.flights[k].task, s.flights[k].err;
        Some(WithTask(s, t, Finished(s.tasks[t], s.now, err))
             .(flights := s.flights[k := Announcing(t, if err.Some? then "error" else "complete")]))
      else None
    case Announce(k) =>
      if k < |s.flights| && s.flights[k].Announcing? && s.flights[k].task in s.tasks then
        var t := s.flights[k].task;
        if t in s.registered then
          Some(s.(flights := s.flights[k := Publishing(Event(t, s.flights[k].kind, s.tasks[t].error))]))
        else Some(Land(s, k))
      else None
    case Cancel(t) => if CanLock(s, t) then Some(WithTask(s, t, Cancelled(s.tasks[t]))) else None
    case Cleanup(t) =>
      if t in s.registered && t in s.tasks && Expired(s.tasks[t], s.now, keep) then
        Some(s.(registered := s.registered - {t}))
      else None
  }

  function Run(s: State, keep: nat, steps: seq<Step>): Option<State>
    decreases |steps|
  {
    if steps == [] then Some(s)
    else
      var next := Apply(s, keep, steps[0]);
      if next.None? then None else Run(next.value, keep, steps[1..])
  }

  function Start(): State {
    State(0, map[], {}, [], [], [])
  }

  // ----- one channel

  /** The events of the accepted offers, in order. */
  function Accepted(offers: seq<Offer>, pubs: seq<Pub>): seq<Event> {
    if offers == [] then []
    else
      var front, last := Accepted(offers[..|offers| - 1], pubs), offers[|offers| - 1];
      if last.accepted && last.pub < |pubs| then front + [pubs[last.pub].event] else front
  }

  /** How many offers the channel took. */
  function Accepts(offers: seq<Offer>): nat {
    if offers == [] then 0 else Accepts(offers[..|offers| - 1]) + if offers[|offers| - 1].accepted then 1 else 0
  }

  /** An offer is taken exactly when fewer events wait than the channel holds: those it took before, less
      those received before. */
  ghost predicate RoomDecides(cap: nat, offers: seq<Offer>) {
    forall i :: 0 <= i < |offers| ==> (offers[i].accepted <==> Accepts(offers[..i]) - offers[i].taken < cap)
  }

  /** Whether publication `p` has been offered to the channel. */
  predicate OfferedTo(offers: seq<Offer>, p: nat) {
    exists i :: 0 <= i < |offers| && offers[i].pub == p
  }

  /** The channel's buffer and history against its offers. */
  ghost predicate BufferInv(pubs: seq<Pub>, c: Channel) {
    && |c.buf| <= c.cap && |c.buf| <= |c.sent| <= |c.offers|
    && c.buf == c.sent[|c.sent| - |c.buf|..]
    && c.sent == Accepted(c.offers, pubs)
    && (forall i :: 0 <= i < |c.offers| ==> c.offers[i].pub < |pubs|)
    && c.received + |c.buf| == |c.sent|
    && RoomDecides(c.cap, c.offers)
  }

  /** Every publication reaches the channel once if it found it subscribed, and not otherwise. */
  ghost predicate ReachInv(pubs: seq<Pub>, ch: nat, offers: seq<Offer>) {
    && (forall p: nat :: p < |pubs| ==> (OfferedTo(offers, p) <==> ch in pubs[p].subs && ch !in pubs[p].pending))
    && (forall i, j :: 0 <= i < j < |offers| ==> offers[i].pub != offers[j].pub)
  }

  /** Offers of one task leave the order of entry only where the publications overlapped. */
  ghost predicate OrderInv(pubs: seq<Pub>, offers: seq<Offer>)
    requires forall i :: 0 <= i < |offers| ==> offers[i].pub < |pubs|
  {
    forall i, j :: 0 <= i < j < |offers| && offers[j].pub < offers[i].pub ==>
          MayOvertake(pubs, offers[j].pub, offers[i].pub)
  }

  /** `late` entered while `early` was still inside, or they belong to different tasks. */
  predicate MayOvertake(pubs: seq<Pub>, early: nat, late: nat)
    requires early < |pubs| && late < |pubs|
  {
    pubs[early].event.task == pubs[late].event.task ==> early in pubs[late].overlaps
  }

  ghost predicate ChannelInv(pubs: seq<Pub>, ch: nat, c: Channel) {
    BufferInv(pubs, c) && ReachInv(pubs, ch, c.offers) && OrderInv(pubs, c.offers)
  }

  ghost predicate PubsInv(s: State) {
    forall p :: 0 <= p < |s.pubs| ==>
      && s.pubs[p].pending <= s.pubs[p].subs
      && (forall ch :: ch in s.pubs[p].subs ==> ch < |s.chans|)
      // whoever was inside when a later publication entered overlaps it
      && (forall q :: p < q < |s.pubs| && s.pubs[p].event.task == s.pubs[q].event.task && s.pubs[p].pending != {}
            ==> p in s.pubs[q].overlaps)
  }

  ghost predicate TasksInv(s: State) {
    && s.registered <= s.tasks.Keys
    && (forall t :: t in s.tasks ==> Consistent(s.tasks[t]))
    && (forall t :: t in s.tasks ==> forall ch :: ch in s.tasks[t].subs ==> ch < |s.chans|)
  }

  ghost predicate Inv(s: State) {
    && TasksInv(s) && PubsInv(s)
    && forall ch: nat :: ch < |s.chans| ==> ChannelInv(s.pubs, ch, s.chans[ch])
  }

  // ----- preservation

  lemma {:induction false} AcceptedFrame(offers: seq<Offer>, a: seq<Pub>, b: seq<Pub>)
    requires forall i :: 0 <= i < |offers| ==>
               offers[i].pub < |a| && offers[i].pub < |b| && a[offers[i].pub].event == b[offers[i].pub].event
    ensures Accepted(offers, a) == Accepted(offers, b)
  {
    if offers != [] {
      AcceptedFrame(offers[..|offers| - 1], a, b);
    }
  }

  /** A new publication, not yet offered anywhere. */
  lemma EnterKeepsChannel(pubs: seq<Pub>, ch: nat, c: Channel, p: Pub)
    requires ChannelInv(pubs, ch, c) && p.pending == p.subs
    ensures ChannelInv(pubs + [p], ch, c)
  {
    AcceptedFrame(c.offers, pubs, pubs + [p]);
  }

  /** A publication reaches another channel. */
  lemma SendKeepsOthers(pubs: seq<Pub>, ch: nat, c: Channel, p: nat, other: nat)
    requires ChannelInv(pubs, ch, c) && p < |pubs| && other != ch
    ensures ChannelInv(pubs[p := pubs[p].(pending := pubs[p].pending - {other})], ch, c)
  {
    AcceptedFrame(c.offers, pubs, pubs[p := pubs[p].(pending := pubs[p].pending - {other})]);
  }

  lemma OfferedAppend(offers: seq<Offer>, o: Offer, p: nat)
    ensures OfferedTo(offers + [o], p) <==> OfferedTo(offers, p) || o.pub == p
  {
    if OfferedTo(offers, p) {
      var i :| 0 <= i < |offers| && offers[i].pub == p;
      assert (offers + [o])[i].pub == p;
    }
    assert (offers + [o])[|offers|] == o;
  }

  /** The publication's own channel: history, reach and order after the send. */
  lemma SendKeepsBuffer(pubs: seq<Pub>, c: Channel, p: nat)
    requires BufferInv(pubs, c) && p < |pubs|
    ensures BufferInv(pubs, Sent(c, pubs[p].event, p))
  {
    hide Accepted;
    var o := Offer(p, |c.buf| < c.cap, c.received);
    AcceptedAppend(c.offers, o, pubs);
    AcceptsMeans(c.offers, pubs);
    RoomAppend(c.cap, c.offers, o);
    SuffixGrows(c.sent, c.buf, pubs[p].event);
  }

  lemma {:induction false} AcceptsMeans(offers: seq<Offer>, pubs: seq<Pub>)
    requires forall i :: 0 <= i < |offers| ==> offers[i].pub < |pubs|
    ensures Accepts(offers) == |Accepted(offers, pubs)|
  {
    if offers != [] {
      AcceptsMeans(offers[..|offers| - 1], pubs);
    }
  }

  lemma RoomAppend(cap: nat, offers: seq<Offer>, o: Offer)
    requires RoomDecides(cap, offers) && (o.accepted <==> Accepts(offers) - o.taken < cap)
    ensures RoomDecides(cap, offers + [o])
  {
    forall i | 0 <= i < |offers + [o]|
      ensures (offers + [o])[i].accepted <==> Accepts((offers + [o])[..i]) - (offers + [o])[i].taken < cap
    {
      assert (offers + [o])[..i] == offers[..i];
      assert offers[..|offers|] == offers;
    }
  }

  lemma SuffixGrows(sent: seq<Event>, buf: seq<Event>, e: Event)
    requires |buf| <= |sent| && buf == sent[|sent| - |buf|..]
    ensures buf + [e] == (sent + [e])[|sent| - |buf|..]
  {
  }

  lemma AcceptedAppend(offers: seq<Offer>, o: Offer, pubs: seq<Pub>)
    requires o.pub < |pubs|
    ensures Accepted(offers + [o], pubs) ==
            if o.accepted then Accepted(offers, pubs) + [pubs[o.pub].event] else Accepted(offers, pubs)
  {
    assert (offers + [o])[..|offers|] == offers;
  }

  lemma SendKeepsReach(pubs: seq<Pub>, ch: nat, offers: seq<Offer>, p: nat, accepted: bool, taken: nat)
    requires ReachInv(pubs, ch, offers) && p < |pubs| && ch in pubs[p].pending && pubs[p].pending <= pubs[p].subs
    ensures ReachInv(pubs[p := pubs[p].(pending := pubs[p].pending - {ch})], ch, offers + [Offer(p, accepted, taken)])
  {
    var pubs' := pubs[p := pubs[p].(pending := pubs[p].pending - {ch})];
    forall q: nat | q < |pubs|
      ensures OfferedTo(offers + [Offer(p, accepted, taken)], q) <==> ch in pubs'[q].subs && ch !in pubs'[q].pending {
      OfferedAppend(offers, Offer(p, accepted, taken), q);
    }
    forall i | 0 <= i < |offers| ensures offers[i].pub != p {
      assert offers[i].pub == p ==> OfferedTo(offers, p);
    }
  }

  lemma BufferFrame(a: seq<Pub>, b: seq<Pub>, c: Channel)
    requires BufferInv(a, c) && |a| == |b| && forall p :: 0 <= p < |a| ==> b[p].event == a[p].event
    ensures BufferInv(b, c)
  {
    AcceptedFrame(c.offers, a, b);
  }

  lemma SendKeepsOrder(s: State, offers: seq<Offer>, p: nat, ch: nat, o: Offer)
    requires PubsInv(s) && p < |s.pubs| && s.pubs[p].pending != {} && o.pub == p
    requires (forall i :: 0 <= i < |offers| ==> offers[i].pub < |s.pubs|) && OrderInv(s.pubs, offers)
    ensures OrderInv(s.pubs[p := s.pubs[p].(pending := s.pubs[p].pending - {ch})], offers + [o])
  {
    forall i | 0 <= i < |offers| && p < offers[i].pub ensures MayOvertake(s.pubs, p, offers[i].pub) {
    }
  }

  lemma SendKeepsChannel(s: State, p: nat, ch: nat)
    requires PubsInv(s) && p < |s.pubs| && ch in s.pubs[p].pending && ch < |s.chans|
             && ChannelInv(s.pubs, ch, s.chans[ch])
    ensures ChannelInv(s.pubs[p := s.pubs[p].(pending := s.pubs[p].pending - {ch})], ch,
                       Sent(s.chans[ch], s.pubs[p].event, p))
  {
    var c := s.chans[ch];
    var d := Sent(c, s.pubs[p].event, p);
    var pubs' := s.pubs[p := s.pubs[p].(pending := s.pubs[p].pending - {ch})];
    SendKeepsBuffer(s.pubs, c, p);
    BufferFrame(s.pubs, pubs', d);
    SendKeepsReach(s.pubs, ch, c.offers, p, |c.buf| < c.cap, c.received);
    hide BufferInv, ReachInv, Sent;
    SendKeepsOrder(s, c.offers, p, ch, Offer(p, |c.buf| < c.cap, c.received));
  }

  lemma SendEffect(s: State, keep: nat, p: nat, ch: nat)
    requires Apply(s, keep, Send(p, ch)).Some?
    ensures p < |s.pubs| && ch in s.pubs[p].pending && ch < |s.chans|
    ensures Apply(s, keep, Send(p, ch)).value ==
            s.(pubs := s.pubs[p := s.pubs[p].(pending := s.pubs[p].pending - {ch})],
               chans := s.chans[ch := Sent(s.chans[ch], s.pubs[p].event, p)])
  {
  }

  lemma SendStep(s: State, keep: nat, p: nat, ch: nat)
    requires Inv(s) && Apply(s, keep, Send(p, ch)).Some?
    ensures Inv(Apply(s, keep, Send(p, ch)).value)
  {
    var t := Apply(s, keep, Send(p, ch)).value;
    forall c: nat | c < |t.chans| ensures ChannelInv(t.pubs, c, t.chans[c]) {
      if c == ch {
        SendKeepsChannel(s, p, ch);
      } else {
        SendKeepsOthers(s.pubs, c, s.chans[c], p, ch);
      }
    }
    assert PubsInv(t);
  }

  lemma EnterStep(s: State, keep: nat, k: nat)
    requires Inv(s) && Apply(s, keep, Enter(k)).Some?
    ensures Inv(Apply(s, keep, Enter(k)).value)
  {
    var t := Apply(s, keep, Enter(k)).value;
    forall c: nat | c < |t.chans| ensures ChannelInv(t.pubs, c, t.chans[c]) {
      EnterKeepsChannel(s.pubs, c, s.chans[c], t.pubs[|s.pubs|]);
    }
  }

  lemma FreshChannel(pubs: seq<Pub>, ch: nat, cap: nat)
    requires forall p: nat :: p < |pubs| ==> ch !in pubs[p].subs
    ensures ChannelInv(pubs, ch, Channel(cap, [], [], [], 0))
  {
  }

  lemma NewChannelStep(s: State, keep: nat, cap: nat)
    requires Inv(s)
    ensures Inv(Apply(s, keep, NewChannel(cap)).value)
  {
    var t := Apply(s, keep, NewChannel(cap)).value;
    FreshChannel(s.pubs, |s.chans|, cap);
    hide ChannelInv, Consistent, Inside, Accepted;
    forall c: nat | c < |t.chans| ensures ChannelInv(t.pubs, c, t.chans[c]) {
      assert c < |s.chans| ==> ChannelInv(s.pubs, c, s.chans[c]);
    }
  }

  lemma ReceiveKeepsBuffer(pubs: seq<Pub>, c: Channel)
    requires BufferInv(pubs, c) && c.buf != []
    ensures BufferInv(pubs, c.(buf := c.buf[1..], received := c.received + 1))
  {
    hide Accepted, RoomDecides;
  }

  lemma ReceiveEffect(s: State, keep: nat, ch: nat)
    requires Apply(s, keep, Receive(ch)).Some?
    ensures ch < |s.chans| && s.chans[ch].buf != []
    ensures var c := s.chans[ch];
            Apply(s, keep, Receive(ch)).value ==
            s.(chans := s.chans[ch := c.(buf := c.buf[1..], received := c.received + 1)])
  {
  }

  lemma ReceiveStep(s: State, keep: nat, ch: nat)
    requires Inv(s) && Apply(s, keep, Receive(ch)).Some?
    ensures Inv(Apply(s, keep, Receive(ch)).value)
  {
    hide Apply, BufferInv, ReachInv, OrderInv, Consistent;
    ReceiveEffect(s, keep, ch);
    var t := Apply(s, keep, Receive(ch)).value;
    assert ChannelInv(s.pubs, ch, s.chans[ch]);
    ReceiveKeepsBuffer(s.pubs, s.chans[ch]);
    forall c: nat | c < |t.chans| ensures ChannelInv(t.pubs, c, t.chans[c]) {
      assert ChannelInv(s.pubs, c, s.chans[c]);
    }
  }

  /** The other steps touch neither channels nor publications. */
  lemma TaskStep(s: State, keep: nat, step: Step)
    requires Inv(s) && Apply(s, keep, step).Some?
    requires !step.Send? && !step.Enter? && !step.NewChannel? && !step.Receive?
    ensures var t := Apply(s, keep, step).value; t.chans == s.chans && t.pubs == s.pubs && TasksInv(t)
  {
  }

  lemma StepInv(s: State, keep: nat, step: Step)
    requires Inv(s) && Apply(s, keep, step).Some?
    ensures Inv(Apply(s, keep, step).value)
  {
    match step
    case Send(p, ch) => SendStep(s, keep, p, ch);
    case Enter(k) => EnterStep(s, keep, k);
    case NewChannel(cap) => NewChannelStep(s, keep, cap);
    case Receive(ch) => ReceiveStep(s, keep, ch);
    case _ => TaskStep(s, keep, step);
  }

  lemma {:induction false} RunInv(s: State, keep: nat, steps: seq<Step>)
    requires Inv(s) && Run(s, keep, steps).Some?
    ensures Inv(Run(s, keep, steps).value)
    decreases |steps|
  {
    if steps != [] {
      StepInv(s, keep, steps[0]);
      RunInv(Apply(s, keep, steps[0]).value, keep, steps[1..]);
    }
  }

  // ----- what the invariant buys

  /** Delivery. Over every interleaving, whatever a channel ever received is, in order, the events of the
      offers it accepted; each publication was offered to exactly the subscribers it found, once; offers
      keep the order in which publications of a task entered, except between publications that overlapped;
      and an offer was refused exactly when the channel was full. */
  lemma Delivery(keep: nat, steps: seq<Step>, ch: nat)
    requires Run(Start(), keep, steps).Some? && ch < |Run(Start(), keep, steps).value.chans|
    ensures var r := Run(Start(), keep, steps).value;
            && BufferInv(r.pubs, r.chans[ch]) && ReachInv(r.pubs, ch, r.chans[ch].offers)
            && OrderInv(r.pubs, r.chans[ch].offers)
  {
    RunInv(Start(), keep, steps);
  }

  /** A subscription that is offered no more events than its channel holds loses none. */
  lemma NothingLostWithinCapacity(keep: nat, steps: seq<Step>, ch: nat)
    requires Run(Start(), keep, steps).Some? && ch < |Run(Start(), keep, steps).value.chans|
    requires var c := Run(Start(), keep, steps).value.chans[ch]; |c.offers| <= c.cap
    ensures var r := Run(Start(), keep, steps).value;
            var c := r.chans[ch];
            && |c.sent| == |c.offers|
            && (forall i :: 0 <= i < |c.sent| ==> c.offers[i].pub < |r.pubs|)
            && (forall i :: 0 <= i < |c.sent| ==> c.sent[i] == r.pubs[c.offers[i].pub].event)
  {
    RunInv(Start(), keep, steps);
    var r := Run(Start(), keep, steps).value;
    assert ChannelInv(r.pubs, ch, r.chans[ch]);
    var offers := r.chans[ch].offers;
    forall i | 0 <= i < |offers| ensures offers[i].accepted {
      AcceptsAtMost(offers[..i]);
    }
    AllAccepted(offers, r.pubs);
  }

  lemma {:induction false} AcceptsAtMost(offers: seq<Offer>)
    ensures Accepts(offers) <= |offers|
  {
    if offers != [] {
      AcceptsAtMost(offers[..|offers| - 1]);
    }
  }

  /** How many events a run receives from a channel. */
  function Receives(steps: seq<Step>, ch: nat): nat {
    if steps == [] then 0 else (if steps[0] == Receive(ch) then 1 else 0) + Receives(steps[1..], ch)
  }

  function ReceivedOf(s: State, ch: nat): nat {
    if ch < |s.chans| then s.chans[ch].received else 0
  }

  /** Channels keep their capacity and their history. */
  lemma ChannelStep(s: State, keep: nat, step: Step, ch: nat)
    requires Apply(s, keep, step).Some?
    ensures var t := Apply(s, keep, step).value;
            && ReceivedOf(t, ch) == ReceivedOf(s, ch) + (if step == Receive(ch) then 1 else 0)
            && (ch < |s.chans| ==>
                  ch < |t.chans| && t.chans[ch].cap == s.chans[ch].cap && s.chans[ch].offers <= t.chans[ch].offers)
  {
  }

  lemma {:induction false} ChannelRun(s: State, keep: nat, steps: seq<Step>, ch: nat)
    requires Run(s, keep, steps).Some?
    ensures var t := Run(s, keep, steps).value;
            && ReceivedOf(t, ch) == ReceivedOf(s, ch) + Receives(steps, ch)
            && (ch < |s.chans| ==>
                  ch < |t.chans| && t.chans[ch].cap == s.chans[ch].cap && s.chans[ch].offers <= t.chans[ch].offers)
    decreases |steps|
  {
    if steps != [] {
      ChannelStep(s, keep, steps[0], ch);
      hide Apply;
      ChannelRun(Apply(s, keep, steps[0]).value, keep, steps[1..], ch);
    }
  }

  /** In every run, a send is taken exactly when the events the channel took before it, less the receives of
      the run before it, are fewer than its capacity; otherwise, and only then, the event is dropped for it.
      Nothing that happens later changes that record. */
  lemma DroppedExactlyWhenFull(keep: nat, before: seq<Step>, p: nat, ch: nat, after: seq<Step>)
    requires Run(Start(), keep, before).Some?
    requires var s := Run(Start(), keep, before).value;
             Apply(s, keep, Send(p, ch)).Some? && Run(Apply(s, keep, Send(p, ch)).value, keep, after).Some?
    ensures var s := Run(Start(), keep, before).value;
            var t := Apply(s, keep, Send(p, ch)).value;
            var r := Run(t, keep, after).value;
            && ch < |s.chans| && ch < |t.chans| && ch < |r.chans|
            && var c := s.chans[ch];
               var taken := Accepts(c.offers) - Receives(before, ch) < c.cap;
               && c.offers + [Offer(p, taken, Receives(before, ch))] <= r.chans[ch].offers
               && t.chans[ch].sent == if taken then c.sent + [s.pubs[p].event] else c.sent
  {
    hide Inv, Apply, Run, Receives, Accepts;
    StartInv();
    RunInv(Start(), keep, before);
    ChannelRun(Start(), keep, before, ch);
    var s := Run(Start(), keep, before).value;
    var t := Apply(s, keep, Send(p, ch)).value;
    SendRecords(s, keep, p, ch);
    ChannelRun(t, keep, after, ch);
  }

  lemma StartInv()
    ensures Inv(Start())
  {
  }

  /** What one send does to its channel. */
  lemma SendRecords(s: State, keep: nat, p: nat, ch: nat)
    requires Inv(s) && Apply(s, keep, Send(p, ch)).Some?
    ensures ch < |s.chans| && p < |s.pubs|
    ensures var t, c := Apply(s, keep, Send(p, ch)).value, s.chans[ch];
            var taken := Accepts(c.offers) - c.received < c.cap;
            && ch < |t.chans| && t.chans[ch].offers == c.offers + [Offer(p, taken, c.received)]
            && t.chans[ch].sent == if taken then c.sent + [s.pubs[p].event] else c.sent
  {
    assert ChannelInv(s.pubs, ch, s.chans[ch]);
    AcceptsMeans(s.chans[ch].offers, s.pubs);
    hide PubsInv, TasksInv, ReachInv, OrderInv, RoomDecides, Accepts, Accepted;
  }

  lemma {:induction false} AllAccepted(offers: seq<Offer>, pubs: seq<Pub>)
    requires forall i :: 0 <= i < |offers| ==> offers[i].accepted && offers[i].pub < |pubs|
    ensures |Accepted(offers, pubs)| == |offers|
    ensures forall i :: 0 <= i < |offers| ==> Accepted(offers, pubs)[i] == pubs[offers[i].pub].event
  {
    if offers != [] {
      AllAccepted(offers[..|offers| - 1], pubs);
    }
  }

  /** Status and context agree in every state; in particular a task that ever left "running" stays cancelled. */
  lemma ContextFollowsStatus(keep: nat, steps: seq<Step>, t: string)
    requires Run(Start(), keep, steps).Some? && t in Run(Start(), keep, steps).value.tasks
    ensures var r := Run(Start(), keep, steps).value.tasks[t]; r.done <==> r.status != Running
  {
    RunInv(Start(), keep, steps);
  }

  lemma RunCons(s: State, keep: nat, step: Step, steps: seq<Step>)
    requires Apply(s, keep, step).Some?
    ensures Run(s, keep, [step] + steps) == Run(Apply(s, keep, step).value, keep, steps)
  {
    assert ([step] + steps)[1..] == steps;
  }

  /** The exception is real: two overlapping publications of one task can reach two subscribers in opposite
      orders, so there is no one order of publication that all subscribers see. */
  lemma OverlapReorders(s: State, keep: nat, k1: nat, k2: nat, a: nat, b: nat)
    requires k1 < |s.flights| && k2 < |s.flights| && k1 != k2 && s.flights[k1].Publishing? && s.flights[k2].Publishing?
    requires s.flights[k1].event.task == s.flights[k2].event.task && s.flights[k1].event.task in s.tasks
    requires a != b && a < |s.chans| && b < |s.chans| && {a, b} <= s.tasks[s.flights[k1].event.task].subs
    requires |s.chans[a].buf| + 2 <= s.chans[a].cap && |s.chans[b].buf| + 2 <= s.chans[b].cap
    ensures var p, e1, e2 := |s.pubs|, s.flights[k1].event, s.flights[k2].event;
            var steps := [Enter(k1)] + ([Enter(k2)] + ([Send(p, a)] + ([Send(p + 1, a)]
                         + ([Send(p + 1, b)] + ([Send(p, b)] + [])))));
            && Run(s, keep, steps).Some?
            && var r := Run(s, keep, steps).value;
               && |r.chans| == |s.chans| && r.chans[a].sent == s.chans[a].sent + [e1] + [e2]
               && r.chans[b].sent == s.chans[b].sent + [e2] + [e1]
  {
    var p := |s.pubs|;
    var s1 := Apply(s, keep, Enter(k1)).value;
    var s2 := Apply(s1, keep, Enter(k2)).value;
    var s3 := Apply(s2, keep, Send(p, a)).value;
    var s4 := Apply(s3, keep, Send(p + 1, a)).value;
    var s5 := Apply(s4, keep, Send(p + 1, b)).value;
    var s6 := Apply(s5, keep, Send(p, b)).value;
    RunCons(s5, keep, Send(p, b), []);
    RunCons(s4, keep, Send(p + 1, b), [Send(p, b)] + []);
    RunCons(s3, keep, Send(p + 1, a), [Send(p + 1, b)] + ([Send(p, b)] + []));
    RunCons(s2, keep, Send(p, a), [Send(p + 1, a)] + ([Send(p + 1, b)] + ([Send(p, b)] + [])));
    RunCons(s1, keep, Enter(k2), [Send(p, a)] + ([Send(p + 1, a)] + ([Send(p + 1, b)] + ([Send(p, b)] + []))));
    RunCons(s, keep, Enter(k1),
            [Enter(k2)] + ([Send(p, a)] + ([Send(p + 1, a)] + ([Send(p + 1, b)] + ([Send(p, b)] + [])))));
  }

  // ----- unsubscribing

  /** How many offers a task's publications have made to a channel. */
  function OffersOf(offers: seq<Offer>, pubs: seq<Pub>, t: string): nat {
    if offers == [] then 0
    else
      var last := offers[|offers| - 1];
      OffersOf(offers[..|offers| - 1], pubs, t) + if last.pub < |pubs| && pubs[last.pub].event.task == t then 1 else 0
  }

  lemma {:induction false} OffersFrame(offers: seq<Offer>, a: seq<Pub>, b: seq<Pub>, t: string)
    requires forall i :: 0 <= i < |offers| ==>
               offers[i].pub < |a| && offers[i].pub < |b| && a[offers[i].pub].event == b[offers[i].pub].event
    ensures OffersOf(offers, a, t) == OffersOf(offers, b, t)
  {
    if offers != [] {
      OffersFrame(offers[..|offers| - 1], a, b, t);
    }
  }

  lemma OffersKept(a: seq<Pub>, b: seq<Pub>, c: Channel, t: string)
    requires BufferInv(a, c) && |a| <= |b| && forall p :: 0 <= p < |a| ==> b[p].event == a[p].event
    ensures OffersOf(c.offers, b, t) == OffersOf(c.offers, a, t)
  {
    OffersFrame(c.offers, a, b, t);
  }

  lemma OneMoreOffer(offers: seq<Offer>, o: Offer, pubs: seq<Pub>, t: string)
    requires o.pub < |pubs| && pubs[o.pub].event.task != t
    ensures OffersOf(offers + [o], pubs, t) == OffersOf(offers, pubs, t)
  {
    assert (offers + [o])[..|offers|] == offers;
  }

  /** The task has neither the channel as a subscriber nor a publication still on its way to it. */
  ghost predicate Silent(s: State, t: string, ch: nat) {
    && t in s.tasks && ch !in s.tasks[t].subs
    && forall p: nat :: p < |s.pubs| && s.pubs[p].event.task == t ==> ch !in s.pubs[p].pending
  }

  /** No step of the run puts the channel back. */
  ghost predicate NoResubscribe(s: State, keep: nat, steps: seq<Step>, t: string, ch: nat)
    decreases |steps|
  {
    steps == [] ||
    (!(steps[0].Subscribe? && steps[0].k < |s.flights| && s.flights[steps[0].k] == Subscribing(t, ch)) &&
     (Apply(s, keep, steps[0]).Some? ==> NoResubscribe(Apply(s, keep, steps[0]).value, keep, steps[1..], t, ch)))
  }

  lemma UnsubscribeSilences(s: State, keep: nat, k: nat)
    requires Inv(s) && Apply(s, keep, Unsubscribe(k)).Some?
    ensures Silent(Apply(s, keep, Unsubscribe(k)).value, s.flights[k].task, s.flights[k].ch)
  {
    var t, ch := s.flights[k].task, s.flights[k].ch;
    forall p: nat | p < |s.pubs| && s.pubs[p].event.task == t ensures ch !in s.pubs[p].pending {
      assert !Inside(s.pubs, t);
    }
  }

  /** Silence survives a send, which only takes something off a publication's way. */
  lemma SilenceKept(s: State, t: string, ch: nat, p: nat, to: nat, chans: seq<Channel>)
    requires Silent(s, t, ch) && p < |s.pubs|
    ensures Silent(s.(pubs := s.pubs[p := s.pubs[p].(pending := s.pubs[p].pending - {to})], chans := chans), t, ch)
  {
  }

  lemma SilentSend(s: State, keep: nat, p: nat, to: nat, t: string, ch: nat)
    requires Inv(s) && Silent(s, t, ch) && ch < |s.chans| && Apply(s, keep, Send(p, to)).Some?
    ensures var r := Apply(s, keep, Send(p, to)).value;
            Silent(r, t, ch) && OffersOf(r.chans[ch].offers, r.pubs, t) == OffersOf(s.chans[ch].offers, s.pubs, t)
  {
    hide Apply, PubsInv, TasksInv, ReachInv, OrderInv, BufferInv, OffersOf;
    SendEffect(s, keep, p, to);
    var r := Apply(s, keep, Send(p, to)).value;
    assert ChannelInv(s.pubs, ch, s.chans[ch]);
    hide Inv, ChannelInv;
    OffersKept(s.pubs, r.pubs, s.chans[ch], t);
    if to == ch {
      assert s.pubs[p].event.task != t;
      OneMoreOffer(s.chans[ch].offers, Offer(p, |s.chans[ch].buf| < s.chans[ch].cap, s.chans[ch].received), r.pubs, t);
    }
    SilenceKept(s, t, ch, p, to, r.chans);
    hide Silent;
  }

  lemma SilentEnter(s: State, keep: nat, k: nat, t: string, ch: nat)
    requires Inv(s) && Silent(s, t, ch) && ch < |s.chans| && Apply(s, keep, Enter(k)).Some?
    ensures var r := Apply(s, keep, Enter(k)).value;
            Silent(r, t, ch) && OffersOf(r.chans[ch].offers, r.pubs, t) == OffersOf(s.chans[ch].offers, s.pubs, t)
  {
    var r := Apply(s, keep, Enter(k)).value;
    assert ChannelInv(s.pubs, ch, s.chans[ch]);
    hide PubsInv, TasksInv, ReachInv, OrderInv, Accepted, Inside;
    OffersKept(s.pubs, r.pubs, s.chans[ch], t);
  }

  lemma SilentStep(s: State, keep: nat, step: Step, t: string, ch: nat)
    requires Inv(s) && Silent(s, t, ch) && ch < |s.chans| && Apply(s, keep, step).Some?
    requires !(step.Subscribe? && step.k < |s.flights| && s.flights[step.k] == Subscribing(t, ch))
    ensures var r := Apply(s, keep, step).value;
            && Silent(r, t, ch) && ch < |r.chans|
            && OffersOf(r.chans[ch].offers, r.pubs, t) == OffersOf(s.chans[ch].offers, s.pubs, t)
  {
    match step
    case Send(p, to) => SilentSend(s, keep, p, to, t, ch);
    case Enter(k) => SilentEnter(s, keep, k, t, ch);
    case _ => QuietOffers(s, keep, step, ch);
  }

  lemma QuietOffers(s: State, keep: nat, step: Step, ch: nat)
    requires ch < |s.chans| && !step.Send? && !step.Enter? && Apply(s, keep, step).Some?
    ensures var r := Apply(s, keep, step).value;
            r.pubs == s.pubs && ch < |r.chans| && r.chans[ch].offers == s.chans[ch].offers
  {
  }

  lemma {:induction false} SilentRun(s: State, keep: nat, steps: seq<Step>, t: string, ch: nat)
    requires Inv(s) && Silent(s, t, ch) && ch < |s.chans| && Run(s, keep, steps).Some?
             && NoResubscribe(s, keep, steps, t, ch)
    ensures var r := Run(s, keep, steps).value;
            ch < |r.chans| && OffersOf(r.chans[ch].offers, r.pubs, t) == OffersOf(s.chans[ch].offers, s.pubs, t)
    decreases |steps|
  {
    if steps != [] {
      SilentStep(s, keep, steps[0], t, ch);
      StepInv(s, keep, steps[0]);
      SilentRun(Apply(s, keep, steps[0]).value, keep, steps[1..], t, ch);
    }
  }

  /** Once Unsubscribe has taken effect (its lookup found the task registered), no publication of that task
      makes another offer to the channel, unless it is subscribed again. */
  lemma UnsubscribedHearsNothing(keep: nat, before: seq<Step>, k: nat, after: seq<Step>)
    requires Run(Start(), keep, before).Some?
    requires var s := Run(Start(), keep, before).value;
             && Apply(s, keep, Unsubscribe(k)).Some? && s.flights[k].ch < |s.chans|
             && var u := Apply(s, keep, Unsubscribe(k)).value;
                Run(u, keep, after).Some? && NoResubscribe(u, keep, after, s.flights[k].task, s.flights[k].ch)
    ensures var s := Run(Start(), keep, before).value;
            var t, ch := s.flights[k].task, s.flights[k].ch;
            var r := Run(Apply(s, keep, Unsubscribe(k)).value, keep, after).value;
            ch < |r.chans| && OffersOf(r.chans[ch].offers, r.pubs, t) == OffersOf(s.chans[ch].offers, s.pubs, t)
  {
    RunInv(Start(), keep, before);
    var s := Run(Start(), keep, before).value;
    UnsubscribeSilences(s, keep, k);
    StepInv(s, keep, Unsubscribe(k));
    SilentRun(Apply(s, keep, Unsubscribe(k)).value, keep, after, s.flights[k].task, s.flights[k].ch);
  }

  /** After cleanup Unsubscribe finds no task and does nothing, and a publication that looked the task up
      before still reaches the channel. */
  lemma UnregisteredStillHears(s: State, keep: nat, k: nat, ch: nat)
    requires Inv(s) && k < |s.flights| && s.flights[k].Publishing? && ch < |s.chans|
    requires var t := s.flights[k].event.task; t !in s.registered && t in s.tasks && ch in s.tasks[t].subs
    requires |s.chans[ch].buf| < s.chans[ch].cap
    ensures var t := s.flights[k].event.task;
            && Apply(s, keep, LookUp(Unsubscribing(t, ch))).None?
            && Run(s, keep, [Enter(k), Send(|s.pubs|, ch)]).Some?
            && var r := Run(s, keep, [Enter(k), Send(|s.pubs|, ch)]).value;
               ch < |r.chans| && r.chans[ch].sent == s.chans[ch].sent + [s.flights[k].event]
  {
    hide Inv;
    var s1 := Apply(s, keep, Enter(k)).value;
    var s2 := Apply(s1, keep, Send(|s.pubs|, ch)).value;
    assert [Enter(k), Send(|s.pubs|, ch)][1..] == [Send(|s.pubs|, ch)] && [Send(|s.pubs|, ch)][1..] == [];
    assert Run(s1, keep, [Send(|s.pubs|, ch)]) == Run(s2, keep, []);
  }

  function Ticks(n: nat): seq<Step> {
    if n == 0 then [] else [Tick] + Ticks(n - 1)
  }

  lemma {:induction false} TimePasses(s: State, keep: nat, n: nat, rest: seq<Step>)
    ensures Run(s, keep, Ticks(n) + rest) == Run(s.(now := s.now + n), keep, rest)
    decreases n
  {
    if n == 0 {
      assert Ticks(0) + rest == rest;
      assert s.(now := s.now + 0) == s;
    } else {
      assert Ticks(n) + rest == [Tick] + (Ticks(n - 1) + rest);
      RunCons(s, keep, Tick, Ticks(n - 1) + rest);
      TimePasses(s.(now := s.now + 1), keep, n - 1, rest);
    }
  }

  /** The state after a subscription, with a publication and a completion that have looked the task up. */
  function LookedUp(e: Event, cap: nat): State {
    State(0, map[e.task := New().(subs := {0})], {e.task}, [Channel(cap, [], [], [], 0)], [],
          [Landed, Publishing(e), Completing(e.task, None)])
  }

  /** Six steps lead there, and `rest` goes on from there. */
  lemma LookUps(keep: nat, e: Event, cap: nat, rest: seq<Step>) returns (steps: seq<Step>)
    ensures Run(Start(), keep, steps) == Run(LookedUp(e, cap), keep, rest)
  {
    var t := e.task;
    var s1 := Apply(Start(), keep, NewChannel(cap)).value;
    var s2 := Apply(s1, keep, Create(t)).value;
    var s3 := Apply(s2, keep, LookUp(Subscribing(t, 0))).value;
    var s4 := Apply(s3, keep, Subscribe(0)).value;
    var s5 := Apply(s4, keep, LookUp(Publishing(e))).value;
    var s6 := Apply(s5, keep, LookUp(Completing(t, None))).value;
    assert s2.registered == {t} && s2.chans == [Channel(cap, [], [], [], 0)];
    assert New().subs + {0} == {0};
    assert s4.tasks == map[t := New().(subs := New().subs + {0})] && s4.flights == [Landed];
    assert s6.flights == [Landed, Publishing(e), Completing(t, None)];
    RunCons(s5, keep, LookUp(Completing(t, None)), rest);
    steps := [LookUp(Completing(t, None))] + rest;
    RunCons(s4, keep, LookUp(Publishing(e)), steps);
    steps := [LookUp(Publishing(e))] + steps;
    RunCons(s3, keep, Subscribe(0), steps);
    steps := [Subscribe(0)] + steps;
    RunCons(s2, keep, LookUp(Subscribing(t, 0)), steps);
    steps := [LookUp(Subscribing(t, 0))] + steps;
    RunCons(s1, keep, Create(t), steps);
    steps := [Create(t)] + steps;
    RunCons(Start(), keep, NewChannel(cap), steps);
    steps := [NewChannel(cap)] + steps;
  }

  /** A run that gets there from the start, for every retention, event and capacity: the task is completed and
      dropped while a publication that has looked it up is still on its way. */
  lemma UnregisteredIsReached(keep: nat, e: Event, cap: nat) returns (steps: seq<Step>)
    requires cap > 0
    ensures Run(Start(), keep, steps).Some?
    ensures var s := Run(Start(), keep, steps).value;
            && Inv(s) && |s.flights| == 3 && s.flights[1] == Publishing(e)
            && e.task !in s.registered && e.task in s.tasks && 0 in s.tasks[e.task].subs
            && |s.chans| == 1 && |s.chans[0].buf| < s.chans[0].cap
  {
    var t, s6 := e.task, LookedUp(e, cap);
    var s7 := Apply(s6, keep, Complete(2)).value;
    var s8 := s7.(now := s7.now + keep + 1);
    var s9 := Apply(s8, keep, Cleanup(t)).value;
    RunCons(s8, keep, Cleanup(t), []);
    TimePasses(s7, keep, keep + 1, [Cleanup(t)] + []);
    RunCons(s6, keep, Complete(2), Ticks(keep + 1) + ([Cleanup(t)] + []));
    steps := LookUps(keep, e, cap, [Complete(2)] + (Ticks(keep + 1) + ([Cleanup(t)] + [])));
    assert Run(s9, keep, []) == Some(s9);
    StartInv();
    RunInv(Start(), keep, steps);
  }

  // ----- status over runs

  /** Some step of the run completes the task. */
  ghost predicate Completes(s: State, keep: nat, steps: seq<Step>, t: string)
    decreases |steps|
  {
    steps != [] &&
    ((steps[0].Complete? && steps[0].k < |s.flights|
      && s.flights[steps[0].k].Completing? && s.flights[steps[0].k].task == t) ||
     (Apply(s, keep, steps[0]).Some? && Completes(Apply(s, keep, steps[0]).value, keep, steps[1..], t)))
  }

  /** How one step changes a task's status. */
  lemma StatusStep(s: State, keep: nat, step: Step, t: string)
    requires t in s.tasks && Apply(s, keep, step).Some?
    ensures t in Apply(s, keep, step).value.tasks
    ensures var before, after := s.tasks[t], Apply(s, keep, step).value.tasks[t];
            if step.Complete? && s.flights[step.k].task == t then
              && after.status == (if s.flights[step.k].err.Some? then Failed else Completed)
              && after.endTime == Some(s.now)
            else after.endTime == before.endTime
                 && after.status == if step == Cancel(t) && before.status == Running then Canceled else before.status
    ensures t in s.registered && t !in Apply(s, keep, step).value.registered ==> s.tasks[t].endTime.Some?
  {
  }

  /** No run takes a task back to "running". */
  lemma {:induction false} NeverRunsAgain(s: State, keep: nat, steps: seq<Step>, t: string)
    requires t in s.tasks && s.tasks[t].status != Running && Run(s, keep, steps).Some?
    ensures t in Run(s, keep, steps).value.tasks && Run(s, keep, steps).value.tasks[t].status != Running
    decreases |steps|
  {
    if steps != [] {
      StatusStep(s, keep, steps[0], t);
      NeverRunsAgain(Apply(s, keep, steps[0]).value, keep, steps[1..], t);
    }
  }

  lemma {:induction false} EndedStaysEnded(s: State, keep: nat, steps: seq<Step>, t: string)
    requires t in s.tasks && (s.tasks[t].status == Completed || s.tasks[t].status == Failed)
             && Run(s, keep, steps).Some?
    ensures var r := Run(s, keep, steps).value;
            t in r.tasks && (r.tasks[t].status == Completed || r.tasks[t].status == Failed)
    decreases |steps|
  {
    if steps != [] {
      StatusStep(s, keep, steps[0], t);
      EndedStaysEnded(Apply(s, keep, steps[0]).value, keep, steps[1..], t);
    }
  }

  /** "canceled" is not final: a cancelled task stays cancelled exactly until a completion is recorded,
      which overwrites it whatever its outcome. */
  lemma {:induction false} CanceledUntilCompleted(s: State, keep: nat, steps: seq<Step>, t: string)
    requires t in s.tasks && s.tasks[t].status == Canceled && Run(s, keep, steps).Some?
    ensures t in Run(s, keep, steps).value.tasks
    ensures Run(s, keep, steps).value.tasks[t].status == Canceled <==> !Completes(s, keep, steps, t)
    decreases |steps|
  {
    if steps != [] {
      var next := Apply(s, keep, steps[0]).value;
      StatusStep(s, keep, steps[0], t);
      if steps[0].Complete? && s.flights[steps[0].k].task == t {
        EndedStaysEnded(next, keep, steps[1..], t);
      } else {
        CanceledUntilCompleted(next, keep, steps[1..], t);
      }
    }
  }

  /** Cleanup only drops completed tasks: a task that is never completed, cancelled or not, stays registered. */
  lemma {:induction false} OnlyCompletedAreDropped(s: State, keep: nat, steps: seq<Step>, t: string)
    requires t in s.tasks && t in s.registered && s.tasks[t].endTime.None? && Run(s, keep, steps).Some?
    requires !Completes(s, keep, steps, t)
    ensures t in Run(s, keep, steps).value.registered
    decreases |steps|
  {
    if steps != [] {
      StatusStep(s, keep, steps[0], t);
      OnlyCompletedAreDropped(Apply(s, keep, steps[0]).value, keep, steps[1..], t);
    }
  }

  // ----- retention

  /** A finished task is kept for its retention: registered, and not completed again, it is still registered in every
      state up to `keep` after its end. */
  lemma {:induction false} KeptForRetention(s: State, keep: nat, steps: seq<Step>, t: string)
    requires t in s.tasks && t in s.registered && s.tasks[t].endTime.Some? && Run(s, keep, steps).Some?
    requires !Completes(s, keep, steps, t)
    requires Run(s, keep, steps).value.now <= s.tasks[t].endTime.value + keep
    ensures var r := Run(s, keep, steps).value;
            t in r.registered && t in r.tasks && r.tasks[t].endTime == s.tasks[t].endTime
    decreases |steps|
  {
    if steps != [] {
      var next := Apply(s, keep, steps[0]).value;
      StatusStep(s, keep, steps[0], t);
      TimeGoesOn(s, keep, steps);
      TimeGoesOn(next, keep, steps[1..]);
      KeptAtLeast(s, keep, steps[0], t);
      hide Apply;
      KeptForRetention(next, keep, steps[1..], t);
    }
  }

  lemma KeptAtLeast(s: State, keep: nat, step: Step, t: string)
    requires t in s.tasks && t in s.registered && s.tasks[t].endTime.Some? && Apply(s, keep, step).Some?
    requires s.now <= s.tasks[t].endTime.value + keep
    ensures t in Apply(s, keep, step).value.registered
  {
  }

  lemma {:induction false} TimeGoesOn(s: State, keep: nat, steps: seq<Step>)
    requires Run(s, keep, steps).Some?
    ensures s.now <= Run(s, keep, steps).value.now
    decreases |steps|
  {
    if steps != [] {
      TimeGoesOn(Apply(s, keep, steps[0]).value, keep, steps[1..]);
    }
  }

  /** And no longer: in every state of every run a cleanup of the task is possible exactly from then on, and drops
      that task alone. */
  lemma CleanupExactly(keep: nat, steps: seq<Step>, t: string)
    requires Run(Start(), keep, steps).Some?
    ensures var s := Run(Start(), keep, steps).value;
            && (Apply(s, keep, Cleanup(t)).Some? <==>
                  && t in s.registered && t in s.tasks
                  && s.tasks[t].endTime.Some? && s.now > s.tasks[t].endTime.value + keep)
            && (Apply(s, keep, Cleanup(t)).Some? ==>
                  Apply(s, keep, Cleanup(t)).value == s.(registered := s.registered - {t}))
  {
    StartInv();
    RunInv(Start(), keep, steps);
  }

  // ----- the manager's methods, one call at a time

  /** Every subscriber has been offered the event, and no other channel. */
  ghost predicate SentTo(before: seq<Channel>, after: seq<Channel>, subs: set<nat>, e: Event, p: nat) {
    |after| == |before| && forall c :: 0 <= c < |before| ==>
          after[c] == if c in subs then Sent(before[c], e, p) else before[c]
  }

  class Manager {
    const keep: nat
    var tasks: map<string, Record>
    var chans: seq<Channel>
    var published: nat

    ghost predicate Valid()
      reads this
    {
      forall t :: t in tasks ==> Consistent(tasks[t]) && forall ch :: ch in tasks[t].subs ==> ch < |chans|
    }

    constructor (keep: nat, chans: seq<Channel>)
      ensures Valid() && tasks == map[] && this.keep == keep && this.chans == chans && published == 0
    {
      this.keep, tasks, this.chans, published := keep, map[], chans, 0;
    }

    method CreateTask(id: string)
      requires Valid() && id !in tasks
      modifies this`tasks
      ensures Valid() && tasks == old(tasks)[id := New()]
    {
      tasks := tasks[id := New()];
    }

    method Subscribe(id: string, ch: nat) returns (ok: bool)
      requires Valid() && ch < |chans|
      modifies this`tasks
      ensures Valid() && (ok <==> id in old(tasks))
      ensures tasks == if ok then old(tasks)[id := old(tasks)[id].(subs := old(tasks)[id].subs + {ch})] else old(tasks)
    {
      if id !in tasks {
        return false;
      }
      tasks := tasks[id := tasks[id].(subs := tasks[id].subs + {ch})];
      return true;
    }

    method Unsubscribe(id: string, ch: nat)
      requires Valid()
      modifies this`tasks
      ensures Valid() && tasks.Keys == old(tasks).Keys
      ensures forall t :: t in tasks ==>
                tasks[t] == if t == id then old(tasks)[t].(subs := old(tasks)[t].subs - {ch}) else old(tasks)[t]
    {
      if id in tasks {
        tasks := tasks[id := tasks[id].(subs := tasks[id].subs - {ch})];
      }
    }

    /** The loop over the subscribers, in whatever order the map yields them. */
    method PublishEvent(e: Event)
      requires Valid()
      modifies this`chans, this`published
      ensures Valid()
      ensures if e.task in tasks then SentTo(old(chans), chans, tasks[e.task].subs, e, old(published))
              else chans == old(chans)
      ensures published == old(published) + if e.task in tasks then 1 else 0
    {
      if e.task !in tasks {
        return;
      }
      var subs := tasks[e.task].subs;
      var rest := subs;
      while rest != {}
        invariant rest <= subs && published == old(published)
        invariant SentTo(old(chans), chans, subs - rest, e, published)
        decreases rest
      {
        var ch :| ch in rest;
        chans := chans[ch := Sent(chans[ch], e, published)];
        rest := rest - {ch};
      }
      assert subs - rest == subs;
      published := published + 1;
    }

    method CompleteTask(id: string, now: nat, err: Option<string>)
      requires Valid()
      modifies this`tasks, this`chans, this`published
      ensures Valid()
      ensures id !in old(tasks) ==> tasks == old(tasks) && chans == old(chans)
      ensures id in old(tasks) ==>
                && tasks == old(tasks)[id := Finished(old(tasks)[id], now, err)]
                && SentTo(old(chans), chans, old(tasks)[id].subs,
                          Event(id, if err.Some? then "error" else "complete", tasks[id].error), old(published))
                && tasks[id].error == (if err.Some? then err.value else old(tasks)[id].error)
                && tasks[id].status == (if err.Some? then Failed else Completed) && tasks[id].endTime == Some(now)
    {
      if id !in tasks {
        return;
      }
      tasks := tasks[id := Finished(tasks[id], now, err)];
      var kind := "complete";
      if err.Some? {
        kind := "error";
      }
      PublishEvent(Event(id, kind, tasks[id].error));
    }

    /** One round of the cleanup loop. */
    method Cleanup(now: nat)
      requires Valid()
      modifies this`tasks
      ensures Valid()
      ensures tasks == map id | id in old(tasks) && !Expired(old(tasks)[id], now, keep) :: old(tasks)[id]
      ensures forall id :: id in tasks <==>
                id in old(tasks) && (old(tasks)[id].endTime.None? || now <= old(tasks)[id].endTime.value + keep)
    {
      var all := tasks;
      var ids := all.Keys;
      while ids != {}
        invariant ids <= all.Keys && all == old(tasks)
        invariant tasks == map id | id in all && (id in ids || !Expired(all[id], now, keep)) :: all[id]
        decreases ids
      {
        var id :| id in ids;
        ids := ids - {id};
        if Expired(all[id], now, keep) {
          tasks := tasks - {id};
        }
      }
    }
  }

  lemma {:induction false} SendAll(s: State, keep: nat, p: nat) returns (steps: seq<Step>)
    requires Inv(s) && p < |s.pubs|
    ensures Run(s, keep, steps).Some?
    ensures var r := Run(s, keep, steps).value;
            && SentTo(s.chans, r.chans, s.pubs[p].pending, s.pubs[p].event, p)
            && p < |r.pubs| && r.pubs[p].pending == {} && r.tasks == s.tasks && r.registered == s.registered
    decreases s.pubs[p].pending
  {
    hide Inv, Apply, Run, SentTo;
    if s.pubs[p].pending == {} {
      steps := [];
      NobodyLeft(s, keep, p);
    } else {
      var ch :| ch in s.pubs[p].pending;
      OneSend(s, keep, p, ch);
      SendStep(s, keep, p, ch);
      var t := Apply(s, keep, Send(p, ch)).value;
      var rest := SendAll(t, keep, p);
      RunCons(s, keep, Send(p, ch), rest);
      steps := [Send(p, ch)] + rest;
      SentAlso(s.chans, t.chans, Run(t, keep, rest).value.chans, ch, t.pubs[p].pending, s.pubs[p].event, p);
      assert t.pubs[p].pending + {ch} == s.pubs[p].pending;
    }
  }

  lemma NobodyLeft(s: State, keep: nat, p: nat)
    requires p < |s.pubs| && s.pubs[p].pending == {}
    ensures Run(s, keep, []) == Some(s) && SentTo(s.chans, s.chans, s.pubs[p].pending, s.pubs[p].event, p)
  {
  }

  lemma OneSend(s: State, keep: nat, p: nat, ch: nat)
    requires Inv(s) && p < |s.pubs| && ch in s.pubs[p].pending
    ensures Apply(s, keep, Send(p, ch)).Some?
    ensures var t := Apply(s, keep, Send(p, ch)).value;
            && SentTo(s.chans, t.chans, {ch}, s.pubs[p].event, p)
            && |t.pubs| == |s.pubs| && t.pubs[p] == s.pubs[p].(pending := s.pubs[p].pending - {ch})
            && t.tasks == s.tasks && t.registered == s.registered
  {
    assert ch < |s.chans|;
    assert Apply(s, keep, Send(p, ch)).Some?;
    SendEffect(s, keep, p, ch);
    hide Apply, Inv, Sent;
  }

  lemma SentAlso(a: seq<Channel>, b: seq<Channel>, c: seq<Channel>, ch: nat, rest: set<nat>, e: Event, p: nat)
    requires SentTo(a, b, {ch}, e, p) && SentTo(b, c, rest, e, p) && ch !in rest
    ensures SentTo(a, c, rest + {ch}, e, p)
  {
  }

  /** The sequential PublishEvent is one run of the interleaved machine: entering, then one send to each
      subscriber, leaves every channel as the method does. */
  lemma PublishRuns(s: State, keep: nat, k: nat) returns (steps: seq<Step>)
    requires Inv(s) && k < |s.flights| && s.flights[k].Publishing? && s.flights[k].event.task in s.tasks
    ensures Run(s, keep, steps).Some?
    ensures var e, r := s.flights[k].event, Run(s, keep, steps).value;
            && SentTo(s.chans, r.chans, s.tasks[e.task].subs, e, |s.pubs|)
            && r.tasks == s.tasks && r.registered == s.registered
  {
    EnterStep(s, keep, k);
    var t := Apply(s, keep, Enter(k)).value;
    var rest := SendAll(t, keep, |s.pubs|);
    RunCons(s, keep, Enter(k), rest);
    steps := [Enter(k)] + rest;
  }

  /** So is CompleteTask, when nobody is publishing for the task: the outcome is recorded, and every subscriber is
      offered its announcement. A failure announces the error's text; a success announces the text of an earlier
      failure, if there was one. */
  lemma CompleteRuns(s: State, keep: nat, k: nat) returns (steps: seq<Step>)
    requires Inv(s) && k < |s.flights| && s.flights[k].Completing?
    requires s.flights[k].task in s.registered && CanLock(s, s.flights[k].task)
    ensures Run(s, keep, steps).Some?
    ensures var t, err, r := s.flights[k].task, s.flights[k].err, Run(s, keep, steps).value;
            var before, text := s.tasks[t], if err.Some? then err.value else s.tasks[t].error;
            && r.tasks == s.tasks[t := Record(if err.Some? then Failed else Completed, Some(s.now), text, true,
                                              before.subs)]
            && r.registered == s.registered
            && SentTo(s.chans, r.chans, before.subs, Event(t, if err.Some? then "error" else "complete", text),
                      |s.pubs|)
  {
    var s1 := Apply(s, keep, Complete(k)).value;
    StepInv(s, keep, Complete(k));
    var s2 := Apply(s1, keep, Announce(k)).value;
    StepInv(s1, keep, Announce(k));
    var rest := PublishRuns(s2, keep, k);
    RunCons(s1, keep, Announce(k), rest);
    RunCons(s, keep, Complete(k), [Announce(k)] + rest);
    steps := [Complete(k)] + ([Announce(k)] + rest);
  }
}
