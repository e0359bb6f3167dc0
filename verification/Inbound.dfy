/**
 The inbound ring as a state machine: any number of producers claim, fill and publish slots while one
 consumer polls, reads and releases them.  Every load, store and compare-and-swap is a step of its own,
 and steps of different threads interleave freely.
 */
module Inbound {
  import opened Book
  import opened Rings

  datatype Op = NEW | CANCEL | MODIFY

  /** What a gateway hands over: the event, who sent it, and whether it wants an ack. */
  datatype Submission = Submission(event: Event, gid: nat, silent: bool)

  /** One slot.  The fields keep what earlier tickets left in them. */
  datatype Entry = Entry(op: Op, price: int, side: bool, volume: int, time: int, id: int,
                         gid: nat, silent: bool, ready: bool)

  /** The submission a slot stands for: which fields count depends on `op`. */
  function Decode(e: Entry): Submission {
    var req := match e.op
      case NEW => New(e.price, e.volume, e.side, e.id)
      case CANCEL => CancelReq(e.id)
      case MODIFY => ModifyReq(e.id, e.volume);
    Submission(Event(req, e.time), e.gid, e.silent)
  }

  function Fields(s: Submission): nat {
    match s.event.req
    case New(_, _, _, _) => 8
    case CancelReq(_) => 5
    case ModifyReq(_, _) => 6
  }

  /** Stores the field that comes `k`-th in the gateway's code. */
  function StoreField(e: Entry, s: Submission, k: nat): Entry {
    match s.event.req
    case New(price, volume, sell, id) =>
      (match k
       case 0 => e.(op := NEW)
       case 1 => e.(id := id)
       case 2 => e.(price := price)
       case 3 => e.(volume := volume)
       case 4 => e.(time := s.event.time)
       case 5 => e.(side := sell)
       case 6 => e.(gid := s.gid)
       case _ => e.(silent := s.silent))
    case CancelReq(id) =>
      (match k
       case 0 => e.(op := CANCEL)
       case 1 => e.(id := id)
       case 2 => e.(gid := s.gid)
       case 3 => e.(time := s.event.time)
       case _ => e.(silent := s.silent))
    case ModifyReq(id, size) =>
      (match k
       case 0 => e.(op := MODIFY)
       case 1 => e.(id := id)
       case 2 => e.(volume := size)
       case 3 => e.(gid := s.gid)
       case 4 => e.(time := s.event.time)
       case _ => e.(silent := s.silent))
  }

  /** The first `k` stores of `s` have been made to `e`, on top of whatever was there. */
  ghost predicate FilledTo(e: Entry, s: Submission, k: nat) {
    && (k > 0 ==> e.op == match s.event.req
          case New(_, _, _, _) => NEW
          case CancelReq(_) => CANCEL
          case ModifyReq(_, _) => MODIFY)
    && match s.event.req
       case New(price, volume, sell, id) =>
         && (k > 1 ==> e.id == id) && (k > 2 ==> e.price == price) && (k > 3 ==> e.volume == volume)
         && (k > 4 ==> e.time == s.event.time) && (k > 5 ==> e.side == sell)
         && (k > 6 ==> e.gid == s.gid) && (k > 7 ==> e.silent == s.silent)
       case CancelReq(id) =>
         && (k > 1 ==> e.id == id) && (k > 2 ==> e.gid == s.gid)
         && (k > 3 ==> e.time == s.event.time) && (k > 4 ==> e.silent == s.silent)
       case ModifyReq(id, size) =>
         && (k > 1 ==> e.id == id) && (k > 2 ==> e.volume == size) && (k > 3 ==> e.gid == s.gid)
         && (k > 4 ==> e.time == s.event.time) && (k > 5 ==> e.silent == s.silent)
  }

  lemma StoreExtends(e: Entry, s: Submission, k: nat)
    requires k < Fields(s) && FilledTo(e, s, k)
    ensures FilledTo(StoreField(e, s, k), s, k + 1) && StoreField(e, s, k).ready == e.ready
  {
  }

  /** A slot that has been filled stands for the submission, whatever was in it before: the fields that
      a cancel or modify leaves stale do not matter. */
  lemma FilledDecodes(e: Entry, s: Submission)
    requires FilledTo(e, s, Fields(s))
    ensures Decode(e) == s
  {
  }

  /** Where a producer stands in its claim-fill-publish round. */
  datatype Producer =
    | Idle
    | Wanting(sub: Submission)
    | Loaded(sub: Submission, target: nat)
    | Checked(sub: Submission, target: nat)
    | Filling(sub: Submission, ticket: nat, stored: nat)

  datatype Consumer = Polling | Holding | Bumping

  /** `log`, `published`, `released` and `taken` are history: the submissions in ticket order, the tickets
      that have been published, how many have been released, and what the consumer found in its slots. */
  datatype State = State(slots: seq<Entry>, wp: nat, producers: seq<Producer>, rp: nat, consumer: Consumer,
                         log: seq<Submission>, published: set<nat>, released: nat, taken: seq<Submission>)

  const BLANK := Entry(NEW, 0, true, 0, 0, 0, 0, false, false)

  function Init(size: nat, producers: nat): State {
    State(seq(size, _ => BLANK), 0, seq(producers, _ => Idle), 0, Polling, [], {}, 0, [])
  }

  /** One step of one thread.  A compare-and-swap may fail for no reason; `spurious` says that it does. */
  datatype Action =
    | Want(p: nat, sub: Submission)
    | Load(p: nat)
    | Check(p: nat)
    | Cas(p: nat, spurious: bool)
    | Store(p: nat)
    | Publish(p: nat)
    | Poll
    | Release
    | Advance

  function Held(s: State, ticket: nat): Entry
    requires s.slots != []
  {
    s.slots[Slot(ticket, |s.slots|)]
  }

  function Put(s: State, ticket: nat, e: Entry): State
    requires s.slots != []
  {
    s.(slots := s.slots[Slot(ticket, |s.slots|) := e])
  }

  function Turn(s: State, p: nat, producer: Producer): State
    requires p < |s.producers|
  {
    s.(producers := s.producers[p := producer])
  }

  /** An action whose thread is not at that point of its code changes nothing. */
  function Step(s: State, a: Action): (s': State)
    requires s.slots != []
    ensures |s'.slots| == |s.slots| && |s'.producers| == |s.producers|
  {
    match a
    case Poll =>
      if s.consumer == Polling && Held(s, s.rp).ready then s.(consumer := Holding) else s
    case Release =>
      if s.consumer == Holding then
        Put(s, s.rp, Held(s, s.rp).(ready := false))
          .(consumer := Bumping, released := s.released + 1, taken := s.taken + [Decode(Held(s, s.rp))])
      else s
    case Advance =>
      if s.consumer == Bumping then s.(consumer := Polling, rp := s.rp + 1) else s
    case _ => if a.p < |s.producers| then ProducerStep(s, a) else s
  }

  function ProducerStep(s: State, a: Action): State
    requires s.slots != [] && !a.Poll? && !a.Release? && !a.Advance? && a.p < |s.producers|
  {
    match (s.producers[a.p], a)
    case (Idle, Want(p, sub)) => Turn(s, p, Wanting(sub))
    case (Wanting(sub), Load(p)) => Turn(s, p, Loaded(sub, s.wp))
    case (Loaded(sub, target), Check(p)) =>
      Turn(s, p, if Held(s, target).ready then Wanting(sub) else Checked(sub, target))
    case (Checked(sub, target), Cas(p, spurious)) =>
      if s.wp == target && !spurious then
        Turn(s, p, Filling(sub, target, 0)).(wp := s.wp + 1, log := s.log + [sub])
      else
        Turn(s, p, Wanting(sub))
    case (Filling(sub, ticket, stored), Store(p)) =>
      if stored < Fields(sub) then
        Turn(Put(s, ticket, StoreField(Held(s, ticket), sub, stored)), p, Filling(sub, ticket, stored + 1))
      else s
    case (Filling(sub, ticket, stored), Publish(p)) =>
      if stored == Fields(sub) then
        Turn(Put(s, ticket, Held(s, ticket).(ready := true)), p, Idle).(published := s.published + {ticket})
      else s
    case _ => s
  }

  function Run(s: State, actions: seq<Action>): State
    requires s.slots != []
    ensures |Run(s, actions).slots| == |s.slots| && |Run(s, actions).producers| == |s.producers|
  {
    if actions == [] then s
    else Step(Run(s, actions[..|actions| - 1]), actions[|actions| - 1])
  }

  // ---------- What holds in every state ----------

  /** Published tickets have been claimed, and released tickets have been published. */
  ghost predicate Counted(s: State) {
    && |s.log| == s.wp && s.released <= s.wp <= s.released + |s.slots|
    && (forall q :: q in s.published ==> q < s.wp)
    && (forall q :: 0 <= q < s.released ==> q in s.published)
  }

  /** A slot in use is ready exactly when its ticket is published, and it then holds that submission. */
  ghost predicate SlotsHold(s: State)
    requires s.slots != [] && Counted(s)
  {
    && (forall q: nat :: s.released <= q < s.released + |s.slots| ==> (Held(s, q).ready <==> q in s.published))
    && (forall q: nat :: s.released <= q < s.wp && q in s.published ==> Decode(Held(s, q)) == s.log[q])
  }

  /** What a producer believes is so: a slot it checked is within the window, and a slot it fills is its
      own, with the fields it has stored. */
  ghost predicate ProducerHolds(s: State, p: Producer)
    requires s.slots != [] && Counted(s)
  {
    match p
    case Idle => true
    case Wanting(_) => true
    case Loaded(_, target) => target <= s.wp
    case Checked(_, target) => target <= s.wp && target < s.released + |s.slots|
    case Filling(sub, ticket, stored) =>
      && s.released <= ticket < s.wp && ticket !in s.published && s.log[ticket] == sub
      && stored <= Fields(sub) && FilledTo(Held(s, ticket), sub, stored)
  }

  ghost predicate Fills(p: Producer, ticket: nat) {
    p.Filling? && p.ticket == ticket
  }

  /** Each claimed and unpublished ticket is being filled, by one producer. */
  ghost predicate Owned(s: State) {
    && (forall p, p' :: 0 <= p < p' < |s.producers| && s.producers[p].Filling? && s.producers[p'].Filling? ==>
          s.producers[p].ticket != s.producers[p'].ticket)
    && (forall q: nat :: q < s.wp && q !in s.published ==>
          exists p :: 0 <= p < |s.producers| && Fills(s.producers[p], q))
  }

  ghost predicate ConsumerHolds(s: State)
    requires Counted(s)
  {
    && (s.consumer == Bumping ==> s.rp + 1 == s.released)
    && (s.consumer != Bumping ==> s.rp == s.released)
    && (s.consumer == Holding ==> s.released in s.published)
    && s.taken == s.log[..s.released]
  }

  ghost predicate Inv(s: State) {
    && PowerOfTwo(|s.slots|) && Counted(s) && SlotsHold(s) && Owned(s)
    && (forall p :: 0 <= p < |s.producers| ==> ProducerHolds(s, s.producers[p]))
    && ConsumerHolds(s)
  }

  /** The no-lap hypothesis: nobody checks the slot for ticket q + size while ticket q is claimed and
      not yet published.  (The slot then looks free, though it is not.) */
  ghost predicate NoLap(s: State, a: Action) {
    a.Check? && a.p < |s.producers| && s.producers[a.p].Loaded? && s.producers[a.p].target >= |s.slots| ==>
      s.producers[a.p].target - |s.slots| in s.published
  }

  ghost predicate NoLaps(s: State, actions: seq<Action>)
    requires s.slots != []
  {
    actions != [] ==>
      && NoLaps(s, actions[..|actions| - 1])
      && NoLap(Run(s, actions[..|actions| - 1]), actions[|actions| - 1])
  }

  lemma {:induction false} InitHolds(size: nat, producers: nat)
    requires PowerOfTwo(size)
    ensures Inv(Init(size, producers))
  {
  }

  /** A step by which a producer neither starts nor stops filling. */
  lemma TurnKeeps(s: State, p: nat, producer: Producer)
    requires Inv(s) && p < |s.producers| && !s.producers[p].Filling? && !producer.Filling?
    requires ProducerHolds(s, producer)
    ensures Inv(Turn(s, p, producer))
  {
    var s' := Turn(s, p, producer);
    forall q: nat | q < s'.wp && q !in s'.published
      ensures exists i :: 0 <= i < |s'.producers| && Fills(s'.producers[i], q)
    {
      var i :| 0 <= i < |s.producers| && Fills(s.producers[i], q);
      assert Fills(s'.producers[i], q);
    }
    forall i | 0 <= i < |s'.producers| ensures ProducerHolds(s', s'.producers[i]) {
      assert i != p ==> ProducerHolds(s, s.producers[i]);
    }
  }

  /** The heart of the claim: a ticket whose slot was seen free, and whose predecessor in the slot was
      published, lies within the window. */
  lemma CheckKeeps(s: State, p: nat)
    requires Inv(s) && NoLap(s, Check(p)) && p < |s.producers| && s.producers[p].Loaded?
    ensures Inv(Step(s, Check(p)))
  {
    var sub, target, size := s.producers[p].sub, s.producers[p].target, |s.slots|;
    assert ProducerHolds(s, s.producers[p]);
    if Held(s, target).ready {
      TurnKeeps(s, p, Wanting(sub));
    } else {
      SlotWraps(s.released, size);
      assert s.released in s.published ==> Held(s, s.released).ready;
      assert target < s.released + size;
      TurnKeeps(s, p, Checked(sub, target));
    }
  }

  lemma CasKeeps(s: State, p: nat)
    requires Inv(s) && p < |s.producers| && s.producers[p].Checked? && s.producers[p].target == s.wp
    ensures Inv(Step(s, Cas(p, false)))
  {
    var sub, t, s' := s.producers[p].sub, s.wp, Step(s, Cas(p, false));
    assert ProducerHolds(s, s.producers[p]);
    assert t !in s.published;
    assert s'.log[t] == sub && s'.log[..s.released] == s.log[..s.released];
    assert Fills(s'.producers[p], t);
    forall q: nat | q < s'.wp && q !in s'.published
      ensures exists i :: 0 <= i < |s'.producers| && Fills(s'.producers[i], q)
    {
      if q < s.wp {
        var i :| 0 <= i < |s.producers| && Fills(s.producers[i], q);
        assert Fills(s'.producers[i], q);
      }
    }
    forall i | 0 <= i < |s'.producers| ensures ProducerHolds(s', s'.producers[i]) {
      assert i != p ==> ProducerHolds(s, s.producers[i]);
    }
  }

  /** Changing one slot of the window leaves the others alone. */
  lemma PutInWindow(s: State, from: nat, t: nat, e: Entry)
    requires s.slots != [] && PowerOfTwo(|s.slots|) && from <= t < from + |s.slots|
    ensures forall q: nat :: from <= q < from + |s.slots| ==> Held(Put(s, t, e), q) == if q == t then e else Held(s, q)
  {
    forall q: nat | from <= q < from + |s.slots|
      ensures Held(Put(s, t, e), q) == if q == t then e else Held(s, q)
    {
      SlotsApart(t, q, |s.slots|);
    }
  }

  lemma OwnersKept(s: State, s': State)
    requires Owned(s) && s'.wp == s.wp && |s'.producers| == |s.producers|
    requires forall q: nat :: q !in s'.published ==> q !in s.published
    requires forall i, q: nat :: 0 <= i < |s.producers| && q !in s'.published ==>
      (Fills(s'.producers[i], q) <==> Fills(s.producers[i], q))
    requires forall i :: 0 <= i < |s.producers| && s'.producers[i].Filling? ==>
      Fills(s.producers[i], s'.producers[i].ticket)
    ensures Owned(s')
  {
    forall q: nat | q < s'.wp && q !in s'.published
      ensures exists i :: 0 <= i < |s'.producers| && Fills(s'.producers[i], q)
    {
      var i :| 0 <= i < |s.producers| && Fills(s.producers[i], q);
      assert Fills(s'.producers[i], q);
    }
  }

  /** Storing a field changes no other slot, and not whether this one is ready. */
  lemma StoreShows(s: State, p: nat)
    requires Inv(s) && p < |s.producers| && s.producers[p].Filling?
    requires s.producers[p].stored < Fields(s.producers[p].sub)
    ensures Counted(Step(s, Store(p))) && SlotsHold(Step(s, Store(p)))
  {
    var me := s.producers[p];
    assert ProducerHolds(s, me);
    PutInWindow(s, s.released, me.ticket, StoreField(Held(s, me.ticket), me.sub, me.stored));
  }

  lemma StoreKeeps(s: State, p: nat)
    requires Inv(s) && p < |s.producers| && s.producers[p].Filling?
    requires s.producers[p].stored < Fields(s.producers[p].sub)
    ensures Inv(Step(s, Store(p)))
  {
    var me, s' := s.producers[p], Step(s, Store(p));
    var t := me.ticket;
    StoreShows(s, p);
    assert ProducerHolds(s, me);
    StoreExtends(Held(s, t), me.sub, me.stored);
    PutInWindow(s, s.released, t, StoreField(Held(s, t), me.sub, me.stored));
    OwnersKept(s, s');
    forall i | 0 <= i < |s'.producers| ensures ProducerHolds(s', s'.producers[i]) {
      assert ProducerHolds(s, s.producers[i]);
    }
  }

  /** A slot is published with all its fields in place. */
  lemma PublishShows(s: State, p: nat)
    requires Inv(s) && p < |s.producers| && s.producers[p].Filling?
    requires s.producers[p].stored == Fields(s.producers[p].sub)
    ensures Counted(Step(s, Publish(p))) && SlotsHold(Step(s, Publish(p)))
  {
    var me := s.producers[p];
    var t, e := me.ticket, Held(s, me.ticket).(ready := true);
    assert ProducerHolds(s, me);
    FilledDecodes(e, me.sub);
    PutInWindow(s, s.released, t, e);
  }

  lemma PublishKeeps(s: State, p: nat)
    requires Inv(s) && p < |s.producers| && s.producers[p].Filling?
    requires s.producers[p].stored == Fields(s.producers[p].sub)
    ensures Inv(Step(s, Publish(p)))
  {
    var s', t := Step(s, Publish(p)), s.producers[p].ticket;
    PublishShows(s, p);
    assert ProducerHolds(s, s.producers[p]);
    PutInWindow(s, s.released, t, Held(s, t).(ready := true));
    OwnersKept(s, s');
    forall i | 0 <= i < |s'.producers| ensures ProducerHolds(s', s'.producers[i]) {
      assert ProducerHolds(s, s.producers[i]);
    }
  }

  /** The released slot is free for the ticket that is one lap ahead. */
  lemma ReleaseFrees(s: State)
    requires Inv(s) && s.consumer == Holding
    ensures Counted(Step(s, Release)) && SlotsHold(Step(s, Release))
  {
    var t, size := s.released, |s.slots|;
    PutInWindow(s, t, t, Held(s, t).(ready := false));
    SlotWraps(t, size);
    assert t < s.wp;
  }

  lemma ReleaseKeeps(s: State)
    requires Inv(s) && s.consumer == Holding
    ensures Inv(Step(s, Release))
  {
    var s', t := Step(s, Release), s.released;
    ReleaseFrees(s);
    PutInWindow(s, t, t, Held(s, t).(ready := false));
    assert s.log[..t + 1] == s.log[..t] + [s.log[t]];
    forall i | 0 <= i < |s'.producers| ensures ProducerHolds(s', s'.producers[i]) {
      assert ProducerHolds(s, s.producers[i]);
    }
  }

  lemma StepKeeps(s: State, a: Action)
    requires Inv(s) && NoLap(s, a)
    ensures Inv(Step(s, a))
  {
    match a
    case Poll =>
      assert s.consumer == Polling && Held(s, s.rp).ready ==> s.rp in s.published;
      SameButConsumer(s, Step(s, a));
    case Advance => SameButConsumer(s, Step(s, a));
    case Release => if s.consumer == Holding { ReleaseKeeps(s); }
    case _ =>
      if a.p < |s.producers| { ProducerStepKeeps(s, a); }
  }

  lemma SameButConsumer(s: State, s': State)
    requires Inv(s) && s' == s.(consumer := s'.consumer, rp := s'.rp) && ConsumerHolds(s')
    ensures Inv(s')
  {
    forall i | 0 <= i < |s'.producers| ensures ProducerHolds(s', s'.producers[i]) {
      assert ProducerHolds(s, s.producers[i]);
    }
  }

  lemma ProducerStepKeeps(s: State, a: Action)
    requires Inv(s) && NoLap(s, a) && !a.Poll? && !a.Release? && !a.Advance? && a.p < |s.producers|
    ensures Inv(Step(s, a))
  {
    match (s.producers[a.p], a)
    case (Idle, Want(p, sub)) => TurnKeeps(s, p, Wanting(sub));
    case (Wanting(sub), Load(p)) => TurnKeeps(s, p, Loaded(sub, s.wp));
    case (Loaded(sub, target), Check(p)) => CheckKeeps(s, p);
    case (Checked(sub, target), Cas(p, spurious)) =>
      if s.wp == target && !spurious { CasKeeps(s, p); } else { TurnKeeps(s, p, Wanting(sub)); }
    case (Filling(sub, ticket, stored), Store(p)) =>
      if stored < Fields(sub) { StoreKeeps(s, p); }
    case (Filling(sub, ticket, stored), Publish(p)) =>
      if stored == Fields(sub) { PublishKeeps(s, p); }
    case _ =>
  }

  /** In every run that respects the no-lap hypothesis the protocol keeps its invariant. */
  lemma {:induction false} RunKeeps(size: nat, producers: nat, actions: seq<Action>)
    requires PowerOfTwo(size) && NoLaps(Init(size, producers), actions)
    ensures Inv(Run(Init(size, producers), actions))
  {
    var s := Init(size, producers);
    if actions == [] {
      InitHolds(size, producers);
    } else {
      RunKeeps(size, producers, actions[..|actions| - 1]);
      StepKeeps(Run(s, actions[..|actions| - 1]), actions[|actions| - 1]);
    }
  }

  // ---------- What the invariant is good for ----------

  /** Tickets that are claimed and not released have slots of their own; the write pointer is at most one
      lap ahead of the releases; an unread event is in its slot, whole; and what the consumer has taken
      out is every submission once, in ticket order. */
  ghost predicate Safe(s: State)
    requires s.slots != []
  {
    && s.released <= s.wp == |s.log| && s.wp <= s.released + |s.slots|
    && (forall q, r: nat :: s.released <= q < r < s.wp ==> Slot(q, |s.slots|) != Slot(r, |s.slots|))
    && (forall q: nat :: q in s.published && s.released <= q < s.wp ==>
          Held(s, q).ready && Decode(Held(s, q)) == s.log[q])
    && s.taken == s.log[..s.released]
    && s.released == (if s.consumer == Bumping then s.rp + 1 else s.rp)
  }

  /** Two producers are filling the same slot. */
  ghost predicate Shares(s: State)
    requires s.slots != []
  {
    exists p, r :: 0 <= p < r < |s.producers| && s.producers[p].Filling? && s.producers[r].Filling?
      && Slot(s.producers[p].ticket, |s.slots|) == Slot(s.producers[r].ticket, |s.slots|)
  }

  lemma InvIsSafe(s: State)
    requires Inv(s)
    ensures Safe(s) && !Shares(s)
  {
    forall q, r: nat | s.released <= q < r < s.wp ensures Slot(q, |s.slots|) != Slot(r, |s.slots|) {
      SlotsApart(q, r, |s.slots|);
    }
    forall p, r | 0 <= p < r < |s.producers| && s.producers[p].Filling? && s.producers[r].Filling?
      ensures Slot(s.producers[p].ticket, |s.slots|) != Slot(s.producers[r].ticket, |s.slots|)
    {
      assert ProducerHolds(s, s.producers[p]) && ProducerHolds(s, s.producers[r]);
      SlotsApart(s.producers[p].ticket, s.producers[r].ticket, |s.slots|);
    }
  }

  /** In every run that respects the hypothesis the ring is safe, and no two producers fill one slot. */
  lemma {:induction false} RingIsSafe(size: nat, producers: nat, actions: seq<Action>)
    requires PowerOfTwo(size) && NoLaps(Init(size, producers), actions)
    ensures Safe(Run(Init(size, producers), actions)) && !Shares(Run(Init(size, producers), actions))
  {
    RunKeeps(size, producers, actions);
    InvIsSafe(Run(Init(size, producers), actions));
  }

  /** Nothing but its release touches the slot of a published event. */
  lemma UnreadIsLeftAlone(s: State, a: Action, q: nat)
    requires Inv(s) && NoLap(s, a) && s.released <= q < s.wp && q in s.published
    requires a.Release? ==> q != s.released
    ensures Held(Step(s, a), q) == Held(s, q)
  {
    if a.Release? {
      PutInWindow(s, s.released, s.released, Held(s, s.released).(ready := false));
    } else if (a.Store? || a.Publish?) && a.p < |s.producers| && s.producers[a.p].Filling? {
      var me := s.producers[a.p];
      assert ProducerHolds(s, me);
      SlotsApart(q, me.ticket, |s.slots|);
    }
  }

  // ---------- Exactly when the ring is safe ----------

  /** A check that laps sees a slot that is claimed and not published, a full lap ahead of the releases. */
  lemma LapIsAFullLap(s: State, p: nat)
    requires Inv(s) && p < |s.producers| && s.producers[p].Loaded? && !NoLap(s, Check(p))
    ensures s.producers[p].target == s.wp == s.released + |s.slots| && s.released !in s.published
    ensures !Held(s, s.wp).ready
  {
    assert ProducerHolds(s, s.producers[p]);
    SlotWraps(s.released, |s.slots|);
  }

  /** One compare-and-swap later the producer and the owner of that slot are filling it together. */
  lemma LapShares(s: State, p: nat)
    requires Inv(s) && p < |s.producers| && s.producers[p].Loaded? && !NoLap(s, Check(p))
    ensures var s' := Step(Step(s, Check(p)), Cas(p, false)); Shares(s') && !Safe(s')
  {
    LapIsAFullLap(s, p);
    var s1 := Step(s, Check(p));
    var s' := Step(s1, Cas(p, false));
    assert s1 == Turn(s, p, Checked(s.producers[p].sub, s.wp));
    var i :| 0 <= i < |s.producers| && Fills(s.producers[i], s.released);
    SlotWraps(s.released, |s.slots|);
    assert s'.producers[p].ticket == s.released + |s.slots| && s'.producers[i] == s.producers[i];
    if i < p {
      assert Slot(s'.producers[i].ticket, |s'.slots|) == Slot(s'.producers[p].ticket, |s'.slots|);
    } else {
      assert Slot(s'.producers[p].ticket, |s'.slots|) == Slot(s'.producers[i].ticket, |s'.slots|);
    }
  }

  /** The hypothesis is the exact condition, check by check: a producer that goes on to claim what it has
      checked comes to share a slot, and the ring ceases to be safe, if and only if the check lapped. */
  lemma SharesIffLaps(s: State, p: nat)
    requires Inv(s) && p < |s.producers| && s.producers[p].Loaded?
    ensures var s' := Step(Step(s, Check(p)), Cas(p, false));
      && (NoLap(s, Check(p)) <==> !Shares(s'))
      && (NoLap(s, Check(p)) <==> Safe(s'))
  {
    if NoLap(s, Check(p)) {
      StepKeeps(s, Check(p));
      StepKeeps(Step(s, Check(p)), Cas(p, false));
      InvIsSafe(Step(Step(s, Check(p)), Cas(p, false)));
    } else {
      LapShares(s, p);
    }
  }

  /** So a run in which some check laps can always be led to a shared slot. */
  lemma {:induction false} LapsLeadToSharing(size: nat, producers: nat, actions: seq<Action>)
    returns (other: seq<Action>)
    requires PowerOfTwo(size) && !NoLaps(Init(size, producers), actions)
    ensures Shares(Run(Init(size, producers), other)) && !Safe(Run(Init(size, producers), other))
  {
    var init, before, a := Init(size, producers), actions[..|actions| - 1], actions[|actions| - 1];
    if !NoLaps(init, before) {
      other := LapsLeadToSharing(size, producers, before);
    } else {
      RunKeeps(size, producers, before);
      LapShares(Run(init, before), a.p);
      OneMore(init, before, Check(a.p));
      OneMore(init, before + [Check(a.p)], Cas(a.p, false));
      other := before + [Check(a.p)] + [Cas(a.p, false)];
    }
  }

  lemma {:induction false} OneMore(s: State, actions: seq<Action>, a: Action)
    requires s.slots != []
    ensures Run(s, actions + [a]) == Step(Run(s, actions), a)
  {
    assert (actions + [a])[..|actions|] == actions;
  }

  /** A single producer cannot lap: when it looks at a slot it has nothing unpublished. */
  lemma AloneNeverLaps(s: State, a: Action)
    requires Inv(s) && |s.producers| <= 1
    ensures NoLap(s, a)
  {
    if a.Check? && a.p < |s.producers| && s.producers[0].Loaded? && s.producers[0].target >= |s.slots| {
      var q: nat := s.producers[0].target - |s.slots|;
      assert ProducerHolds(s, s.producers[0]);
      assert !Fills(s.producers[0], q);
      assert q in s.published;
    }
  }

  lemma {:induction false} OneProducerNeverLaps(size: nat, producers: nat, actions: seq<Action>)
    requires PowerOfTwo(size) && producers <= 1
    ensures NoLaps(Init(size, producers), actions)
  {
    if actions != [] {
      var before := actions[..|actions| - 1];
      OneProducerNeverLaps(size, producers, before);
      RunKeeps(size, producers, before);
      AloneNeverLaps(Run(Init(size, producers), before), actions[|actions| - 1]);
    }
  }

  // ---------- Two producers among any number can lap each other ----------

  const PROBE := Submission(Event(CancelReq(0), 0), 0, false)

  /** Slot 0 and the slots from `k` on look free. */
  ghost predicate LookFree(slots: seq<Entry>, k: nat) {
    slots != [] && forall t: nat :: t < |slots| && (t == 0 || k <= t) ==> !slots[Slot(t, |slots|)].ready
  }

  /** Producer 0 has claimed ticket 0 and does nothing more; producer 1 has published tickets 1 to k - 1
      and is at `p`. */
  ghost predicate Stalled(s: State, size: nat, k: nat, p: Producer) {
    && |s.slots| == size > 0 && |s.producers| >= 2 && s.producers[0] == Filling(PROBE, 0, 0) && s.producers[1] == p
    && s.wp == (if p.Filling? then k + 1 else k) && s.released == 0 && LookFree(s.slots, k)
  }

  /** A producer left alone, whose next slot looks free, claims the next ticket. */
  lemma ClaimsNext(init: State, actions: seq<Action>, p: nat, sub: Submission) returns (longer: seq<Action>)
    requires init.slots != []
    requires var s := Run(init, actions); p < |s.producers| && s.producers[p] == Idle && !Held(s, s.wp).ready
    ensures var s := Run(init, actions);
      Run(init, longer) ==
        s.(wp := s.wp + 1, log := s.log + [sub], producers := s.producers[p := Filling(sub, s.wp, 0)])
  {
    var s := Run(init, actions);
    var a1 := actions + [Want(p, sub)];
    OneMore(init, actions, Want(p, sub));
    assert Run(init, a1) == Turn(s, p, Wanting(sub));
    var a2 := a1 + [Load(p)];
    OneMore(init, a1, Load(p));
    assert Run(init, a2) == Turn(s, p, Loaded(sub, s.wp));
    var a3 := a2 + [Check(p)];
    OneMore(init, a2, Check(p));
    assert Run(init, a3) == Turn(s, p, Checked(sub, s.wp));
    OneMore(init, a3, Cas(p, false));
    longer := a3 + [Cas(p, false)];
  }

  /** Producer 1 finds the slot of ticket `k` not ready and claims it. */
  lemma Claimed(init: State, actions: seq<Action>, size: nat, k: nat) returns (longer: seq<Action>)
    requires PowerOfTwo(size) && 0 < k <= size && init.slots != [] && Stalled(Run(init, actions), size, k, Idle)
    ensures Stalled(Run(init, longer), size, k, Filling(PROBE, k, 0))
  {
    SlotWraps(0, size);
    assert k == size ==> Slot(k, size) == Slot(0, size);
    longer := ClaimsNext(init, actions, 1, PROBE);
  }

  /** It stores a field, and after the last one publishes. */
  lemma {:induction false} StoresOn(s: State, size: nat, k: nat, i: nat)
    requires PowerOfTwo(size) && 0 < k < size && i <= 5 && Stalled(s, size, k, Filling(PROBE, k, i))
    ensures i < 5 ==> Stalled(Step(s, Store(1)), size, k, Filling(PROBE, k, i + 1))
    ensures i == 5 ==> Stalled(Step(s, Publish(1)), size, k + 1, Idle)
  {
    var s' := Step(s, if i < 5 then Store(1) else Publish(1));
    forall t: nat | t < size && (t == 0 || (if i < 5 then k else k + 1) <= t) ensures !s'.slots[Slot(t, size)].ready {
      SlotsApart(t, k, size);
      assert !s.slots[Slot(t, size)].ready;
    }
  }

  /** Producer 1 claims, fills and publishes one ticket. */
  lemma FullRound(init: State, actions: seq<Action>, size: nat, k: nat) returns (longer: seq<Action>)
    requires PowerOfTwo(size) && 0 < k < size && init.slots != [] && Stalled(Run(init, actions), size, k, Idle)
    ensures Stalled(Run(init, longer), size, k + 1, Idle)
  {
    longer := Claimed(init, actions, size, k);
    var i := 0;
    while i < 5
      invariant i <= 5 && Stalled(Run(init, longer), size, k, Filling(PROBE, k, i))
    {
      StoresOn(Run(init, longer), size, k, i);
      OneMore(init, longer, Store(1));
      longer, i := longer + [Store(1)], i + 1;
    }
    StoresOn(Run(init, longer), size, k, 5);
    OneMore(init, longer, Publish(1));
    longer := longer + [Publish(1)];
  }

  lemma FirstClaim(size: nat, producers: nat) returns (actions: seq<Action>)
    requires PowerOfTwo(size) && producers >= 2
    ensures Stalled(Run(Init(size, producers), actions), size, 1, Idle)
  {
    var init := Init(size, producers);
    assert Run(init, []) == init;
    actions := ClaimsNext(init, [], 0, PROBE);
  }

  lemma LapsToStart(size: nat, producers: nat) returns (actions: seq<Action>)
    requires PowerOfTwo(size) && producers >= 2
    ensures Stalled(Run(Init(size, producers), actions), size, size, Filling(PROBE, size, 0))
  {
    var init := Init(size, producers);
    actions := FirstClaim(size, producers);
    var k := 1;
    while k < size
      invariant 1 <= k <= size && Stalled(Run(init, actions), size, k, Idle)
    {
      actions := FullRound(init, actions, size, k);
      k := k + 1;
    }
    actions := Claimed(init, actions, size, size);
  }

  /** Whatever the size and the number of producers, two of them can come to fill the same slot, with the
      write pointer more than a lap ahead of the releases. */
  lemma TwoProducersCanLap(size: nat, producers: nat) returns (actions: seq<Action>)
    requires PowerOfTwo(size) && producers >= 2
    ensures var s := Run(Init(size, producers), actions);
      && s.wp == s.released + size + 1 && Shares(s) && !Safe(s)
      && s.producers[0] == Filling(PROBE, 0, 0) && s.producers[1] == Filling(PROBE, size, 0)
  {
    actions := LapsToStart(size, producers);
    var s := Run(Init(size, producers), actions);
    SlotWraps(0, size);
    assert Slot(s.producers[0].ticket, size) == Slot(s.producers[1].ticket, size);
  }

  /** All runs are safe if and only if there is at most one producer. */
  lemma {:induction false} SafeIffAlone(size: nat, producers: nat)
    requires PowerOfTwo(size)
    ensures (forall actions :: Safe(Run(Init(size, producers), actions))) <==> producers <= 1
  {
    if producers <= 1 {
      forall actions ensures Safe(Run(Init(size, producers), actions)) {
        OneProducerNeverLaps(size, producers, actions);
        RingIsSafe(size, producers, actions);
      }
    } else {
      var actions := TwoProducersCanLap(size, producers);
    }
  }
}
