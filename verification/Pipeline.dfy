/**
 Producers, the matching engine and the gateways' readers together, one atomic access at a time, and
 what all of it comes to: the sequential order book applied to the submissions in ticket order.
 */
module Pipeline {
  import opened Book
  import opened Execution
  import opened Invariants
  import opened Rings
  import Values = Book
  import In = Inbound
  import Out = Outbound

  type Submission = In.Submission

  function Min(a: nat, b: nat): nat {
    if a <= b then a else b
  }

  /** The ack for a request and the book's response to it: at most MAX_FILLS fills fit. */
  function AckOf(req: Request, resp: Response): (ack: Out.Ack)
    ensures |ack.fills| <= Out.MAX_FILLS
  {
    match req
    case New(_, _, _, _) =>
      (match resp
       case Placed(res) =>
         Out.Ack(In.NEW, res.orderID, res.fulfilled, res.remainingQty, res.trades[..Min(|res.trades|, Out.MAX_FILLS)])
       case _ => Out.Ack(In.NEW, 0, false, 0, []))
    case CancelReq(id) => Out.Ack(In.CANCEL, id, resp.Cancelled? && resp.ok, 0, [])
    case ModifyReq(id, _) => Out.Ack(In.MODIFY, id, resp.Modified? && resp.ok, 0, [])
  }

  // ---------- The sequential reading ----------

  function Events(log: seq<Submission>): seq<Event> {
    seq(|log|, i requires 0 <= i < |log| => log[i].event)
  }

  /** The book after the submissions have been applied one after the other. */
  function BookAfter(log: seq<Submission>): Book {
    Values.Run(EMPTY, Events(log))
  }

  /** The acks gateway `g` is owed: one for each of its submissions that is not silent. */
  function AcksFor(log: seq<Submission>, g: nat): seq<Out.Ack> {
    if log == [] then []
    else
      var before, s := log[..|log| - 1], log[|log| - 1];
      AcksFor(before, g) +
      if s.gid == g && !s.silent then [AckOf(s.event.req, Apply(BookAfter(before), s.event).1)] else []
  }

  // ---------- The engine ----------

  datatype Engine = Polling | Copying | Stamping | Applying | Acking | Releasing | Advancing | Publishing | AdvancingOut

  /** `gid` and `silent` are the engine's copies; `outs` holds one outbound ring for each gateway. */
  datatype State = State(ring: In.State, engine: Engine, gid: nat, silent: bool, book: Book, outs: seq<Out.Ring>)

  datatype Action = Producer(act: In.Action) | EngineStep | Reader(g: nat)

  ghost predicate Shaped(s: State) {
    s.ring.slots != [] && forall g :: 0 <= g < |s.outs| ==> s.outs[g].slots != []
  }

  function Init(size: nat, producers: nat, outSizes: seq<nat>): (s: State)
    requires size > 0 && forall g :: 0 <= g < |outSizes| ==> outSizes[g] > 0
    ensures Shaped(s)
  {
    State(In.Init(size, producers), Polling, 0, false, EMPTY,
          seq(|outSizes|, g requires 0 <= g < |outSizes| => Out.NewRing(g, outSizes[g])))
  }

  function MoveOut(s: State, g: nat, m: Out.Move): State
    requires Shaped(s)
  {
    if g < |s.outs| then s.(outs := s.outs[g := Out.Moved(s.outs[g], m)]) else s
  }

  function MoveIn(s: State, a: In.Action): State
    requires Shaped(s)
  {
    s.(ring := In.Step(s.ring, a))
  }

  function Step(s: State, a: Action): (s': State)
    requires Shaped(s)
    ensures Shaped(s') && |s'.outs| == |s.outs|
  {
    match a
    case Producer(act) => if act.Poll? || act.Release? || act.Advance? then s else MoveIn(s, act)
    case Reader(g) => MoveOut(s, g, Out.Read)
    case EngineStep => Engined(s)
  }

  /** One step of the engine's loop.  The plain fields of the slot are read where the code reads them. */
  function Engined(s: State): (s': State)
    requires Shaped(s)
    ensures Shaped(s') && |s'.outs| == |s.outs|
  {
    var slot := In.Held(s.ring, s.ring.rp);
    match s.engine
    case Polling => if slot.ready then MoveIn(s, In.Poll).(engine := Copying) else s
    case Copying =>
      s.(gid := slot.gid, silent := slot.silent, engine := if slot.silent then Applying else Stamping)
    case Stamping => MoveOut(s, s.gid, Out.Stamp(slot.op)).(engine := Applying)
    case Applying =>
      var e := In.Decode(slot).event;
      var (b, resp) := Apply(s.book, e);
      if s.silent then s.(book := b, engine := Releasing)
      else MoveOut(s, s.gid, Out.Begin(AckOf(e.req, resp))).(book := b, engine := Acking)
    case Acking =>
      if s.gid < |s.outs| && s.outs[s.gid].writer.Writing?
         && s.outs[s.gid].writer.written < 5 + |s.outs[s.gid].writer.ack.fills|
      then MoveOut(s, s.gid, Out.Write)
      else s.(engine := Releasing)
    case Releasing => MoveIn(s, In.Release).(engine := Advancing)
    case Advancing => MoveIn(s, In.Advance).(engine := if s.silent then Polling else Publishing)
    case Publishing => MoveOut(s, s.gid, Out.PublishAck).(engine := AdvancingOut)
    case AdvancingOut => MoveOut(s, s.gid, Out.AdvanceOut).(engine := Polling)
  }

  function Run(s: State, actions: seq<Action>): (s': State)
    requires Shaped(s)
    ensures Shaped(s') && |s'.outs| == |s.outs|
  {
    if actions == [] then s
    else Step(Run(s, actions[..|actions| - 1]), actions[|actions| - 1])
  }

  // ---------- Hypotheses on runs ----------

  /** No lapping on either kind of ring, and submissions that want an ack come from a gateway there is. */
  ghost predicate Allowed(s: State, a: Action) {
    match a
    case Producer(act) => In.NoLap(s.ring, act) && (act.Want? && !act.sub.silent ==> act.sub.gid < |s.outs|)
    case Reader(_) => true
    case EngineStep =>
      s.engine == Stamping && s.gid < |s.outs| ==> s.outs[s.gid].wp < s.outs[s.gid].released + |s.outs[s.gid].slots|
  }

  ghost predicate AllAllowed(s: State, actions: seq<Action>)
    requires Shaped(s)
  {
    actions != [] ==>
      && AllAllowed(s, actions[..|actions| - 1])
      && Allowed(Run(s, actions[..|actions| - 1]), actions[|actions| - 1])
  }

  // ---------- What holds in every state ----------

  /** What the engine's progress is measured by. */
  datatype Work = Work(log: seq<Submission>, released: nat, engine: Engine, gid: nat, silent: bool) {
    /** How many submissions the book has seen. */
    function Applied(): nat {
      released + if engine == Acking || engine == Releasing then 1 else 0
    }

    /** How many submissions have had their acks published, if they want any. */
    function Acked(): int {
      released - if (engine == Advancing || engine == Publishing) && !silent then 1 else 0
    }

    predicate Busy() {
      engine != Polling && engine != Copying
    }

    /** The ticket the engine is at work on. */
    function Ticket(): int {
      released - if engine == Advancing || engine == Publishing || engine == AdvancingOut then 1 else 0
    }

    ghost predicate Valid() {
      && Applied() <= |log| && 0 <= Acked()
      && (Busy() ==> 0 <= Ticket() < |log| && gid == log[Ticket()].gid && silent == log[Ticket()].silent)
      && (engine == Stamping || engine == Acking || engine == Publishing || engine == AdvancingOut ==> !silent)
    }
  }

  function WorkOf(s: State): Work {
    Work(s.ring.log, s.ring.released, s.engine, s.gid, s.silent)
  }

  function ConsumerAt(e: Engine): In.Consumer {
    match e
    case Polling => In.Polling
    case Publishing => In.Polling
    case AdvancingOut => In.Polling
    case Advancing => In.Bumping
    case _ => In.Holding
  }

  /** Whoever wants an ack has a ring. */
  ghost predicate Known(r: In.State, gateways: nat) {
    && (forall i :: 0 <= i < |r.log| && !r.log[i].silent ==> r.log[i].gid < gateways)
    && (forall p :: 0 <= p < |r.producers| && !r.producers[p].Idle? && !r.producers[p].sub.silent ==>
          r.producers[p].sub.gid < gateways)
  }

  /** The ack for the submission with ticket `t`. */
  function AckAt(log: seq<Submission>, t: nat): (ack: Out.Ack)
    requires t < |log|
    ensures |ack.fills| <= Out.MAX_FILLS
  {
    AckOf(log[t].event.req, Apply(BookAfter(log[..t]), log[t].event).1)
  }

  /** How far the ack at work has come in the ring of its gateway; the other rings are at rest. */
  ghost predicate WriterIs(w: Work, g: nat, writer: Out.Writer)
    requires w.Valid()
  {
    if !w.Busy() || w.silent || g != w.gid || w.engine == Stamping then writer.Resting?
    else if w.engine == AdvancingOut then writer.Published?
    else if w.engine == Applying then writer.Stamped? && writer.op == AckAt(w.log, w.Ticket()).op
    else
      && writer.Writing? && writer.ack == AckAt(w.log, w.Ticket())
      && (w.engine != Acking ==> writer.written == 5 + |writer.ack.fills|)
  }

  ghost predicate OutHolds(w: Work, g: nat, r: Out.Ring)
    requires w.Valid()
  {
    && Out.RingInv(r) && r.gid == g && WriterIs(w, g, r.writer)
    && w.Acked() <= |w.log| && r.sent == AcksFor(w.log[..w.Acked()], g)
  }

  ghost predicate AllOutHold(w: Work, outs: seq<Out.Ring>)
    requires w.Valid()
  {
    forall g :: 0 <= g < |outs| ==> OutHolds(w, g, outs[g])
  }

  ghost predicate Inv(s: State) {
    && In.Inv(s.ring) && s.ring.consumer == ConsumerAt(s.engine) && Known(s.ring, |s.outs|)
    && WorkOf(s).Valid() && s.book == BookAfter(s.ring.log[..WorkOf(s).Applied()])
    && AllOutHold(WorkOf(s), s.outs)
  }

  lemma {:induction false} AcksGrow(log: seq<Submission>, n: nat, g: nat)
    requires n < |log|
    ensures AcksFor(log[..n + 1], g) ==
      AcksFor(log[..n], g) + if log[n].gid == g && !log[n].silent then [AckAt(log, n)] else []
    ensures BookAfter(log[..n + 1]) == Apply(BookAfter(log[..n]), log[n].event).0
  {
    assert log[..n + 1][..n] == log[..n];
    assert Events(log[..n + 1])[..n] == Events(log[..n]);
  }

  lemma {:induction false} InitHolds(size: nat, producers: nat, outSizes: seq<nat>)
    requires PowerOfTwo(size) && forall g :: 0 <= g < |outSizes| ==> outSizes[g] > 0 && PowerOfTwo(outSizes[g])
    ensures Inv(Init(size, producers, outSizes))
  {
    var s := Init(size, producers, outSizes);
    In.InitHolds(size, producers);
    forall g | 0 <= g < |s.outs| ensures OutHolds(WorkOf(s), g, s.outs[g]) {
      Out.NewRingHolds(g, outSizes[g]);
    }
  }

  // ---------- Producers and readers ----------

  predicate ByConsumer(a: In.Action) {
    a.Poll? || a.Release? || a.Advance?
  }

  /** A producer adds at most one submission to the log, and nothing else the engine relies on changes. */
  lemma ProducerAppends(r: In.State, a: In.Action)
    requires r.slots != [] && !ByConsumer(a)
    ensures var r' := In.Step(r, a);
      && r'.released == r.released && r'.consumer == r.consumer && r'.rp == r.rp
      && (r'.log == r.log
          || (a.Cas? && a.p < |r.producers| && r.producers[a.p].Checked? && r'.log == r.log + [r.producers[a.p].sub]))
      && forall p :: 0 <= p < |r.producers| && !r'.producers[p].Idle? ==>
           (!r.producers[p].Idle? && r'.producers[p].sub == r.producers[p].sub)
           || (a.Want? && r'.producers[p].sub == a.sub)
  {
  }

  /** What has been applied and acked does not depend on submissions that come later. */
  lemma LongerLog(w: Work, w': Work, outs: seq<Out.Ring>)
    requires w.Valid() && AllOutHold(w, outs)
    requires w' == w.(log := w'.log) && |w.log| <= |w'.log| && w'.log[..|w.log|] == w.log
    ensures w'.Valid() && AllOutHold(w', outs) && w'.log[..w.Applied()] == w.log[..w.Applied()]
  {
    hide AcksFor, BookAfter;
    assert forall i :: 0 <= i < |w.log| ==> w'.log[i] == w.log[i];
    assert forall n :: 0 <= n <= |w.log| ==> w'.log[..n] == w.log[..n];
    forall g | 0 <= g < |outs| ensures OutHolds(w', g, outs[g]) {
      assert OutHolds(w, g, outs[g]);
    }
  }

  lemma KnownKept(r: In.State, a: In.Action, gateways: nat)
    requires r.slots != [] && !ByConsumer(a) && Known(r, gateways)
    requires a.Want? && !a.sub.silent ==> a.sub.gid < gateways
    ensures Known(In.Step(r, a), gateways)
  {
    ProducerAppends(r, a);
  }

  lemma ProducerKeeps(s: State, a: In.Action)
    requires Shaped(s) && Inv(s) && !ByConsumer(a) && Allowed(s, Producer(a))
    ensures Inv(Step(s, Producer(a)))
  {
    hide AckAt, AcksFor, BookAfter;
    var s' := Step(s, Producer(a));
    In.StepKeeps(s.ring, a);
    ProducerAppends(s.ring, a);
    KnownKept(s.ring, a, |s.outs|);
    assert s'.ring.log[..|s.ring.log|] == s.ring.log;
    LongerLog(WorkOf(s), WorkOf(s'), s.outs);
  }

  /** Moving one ring on keeps the others. */
  lemma OneRingMoved(w: Work, outs: seq<Out.Ring>, g: nat, r: Out.Ring)
    requires w.Valid() && AllOutHold(w, outs) && g < |outs| && OutHolds(w, g, r)
    ensures AllOutHold(w, outs[g := r])
  {
    hide AckAt, AcksFor, BookAfter;
    var outs' := outs[g := r];
    forall h | 0 <= h < |outs'| ensures OutHolds(w, h, outs'[h]) {
      assert OutHolds(w, h, outs[h]);
    }
  }

  lemma ReadKeepsOut(w: Work, g: nat, r: Out.Ring)
    requires w.Valid() && OutHolds(w, g, r)
    ensures OutHolds(w, g, Out.ReaderMoved(r))
  {
    hide AckAt, AcksFor, BookAfter;
    Out.MoveKeeps(r, Out.Read);
    Out.ReadIs(r);
  }

  lemma ReaderKeeps(s: State, g: nat)
    requires Shaped(s) && Inv(s)
    ensures Inv(Step(s, Reader(g)))
  {
    if g < |s.outs| {
      var r' := Out.ReaderMoved(s.outs[g]);
      Out.ReadIs(s.outs[g]);
      assert Step(s, Reader(g)) == s.(outs := s.outs[g := r']);
      assert OutHolds(WorkOf(s), g, s.outs[g]);
      ReadKeepsOut(WorkOf(s), g, s.outs[g]);
      OneRingMoved(WorkOf(s), s.outs, g, r');
    }
  }

  // ---------- The engine's steps ----------

  /** The slot in the engine's hands holds the submission of the next ticket. */
  lemma HeldSlot(s: State)
    requires Shaped(s) && Inv(s) && s.ring.consumer == In.Holding
    ensures s.ring.rp == s.ring.released < |s.ring.log|
    ensures In.Decode(In.Held(s.ring, s.ring.rp)) == s.ring.log[s.ring.released]
  {
  }

  /** Steps by which the engine touches no outbound ring and no ack becomes due or published. */
  lemma NoOutMoved(w: Work, w': Work, outs: seq<Out.Ring>)
    requires w.Valid() && AllOutHold(w, outs) && w'.Valid() && w'.log == w.log && w'.Acked() <= |w.log|
    requires forall g :: 0 <= g < |outs| ==> AcksFor(w.log[..w'.Acked()], g) == AcksFor(w.log[..w.Acked()], g)
    requires forall g :: 0 <= g < |outs| ==> (WriterIs(w, g, outs[g].writer) ==> WriterIs(w', g, outs[g].writer))
    ensures AllOutHold(w', outs)
  {
    hide AckAt, AcksFor, BookAfter;
    forall g | 0 <= g < |outs| ensures OutHolds(w', g, outs[g]) {
      assert OutHolds(w, g, outs[g]);
    }
  }

  /** Steps by which the engine moves the ring of the gateway it is serving. */
  lemma OwnOutMoved(w: Work, w': Work, outs: seq<Out.Ring>, r: Out.Ring)
    requires w.Valid() && AllOutHold(w, outs) && w'.Valid() && w'.log == w.log && w'.Acked() <= |w.log|
    requires w.Busy() && w.gid == w'.gid < |outs| && OutHolds(w', w.gid, r)
    requires forall g :: 0 <= g < |outs| && g != w.gid ==>
      AcksFor(w.log[..w'.Acked()], g) == AcksFor(w.log[..w.Acked()], g)
    ensures AllOutHold(w', outs[w.gid := r])
  {
    hide AckAt, AcksFor, BookAfter;
    var outs' := outs[w.gid := r];
    forall g | 0 <= g < |outs'| ensures OutHolds(w', g, outs'[g]) {
      assert OutHolds(w, g, outs[g]);
    }
  }

  lemma PollWork(w: Work, outs: seq<Out.Ring>)
    requires w.Valid() && AllOutHold(w, outs) && w.engine == Polling && w.released < |w.log|
    ensures var w' := w.(engine := Copying); w'.Valid() && AllOutHold(w', outs)
  {
    hide AckAt, AcksFor, BookAfter;
    NoOutMoved(w, w.(engine := Copying), outs);
  }

  lemma StampedOp(w: Work, slot: In.Entry)
    requires w.Valid() && w.engine == Stamping && In.Decode(slot) == w.log[w.Ticket()]
    ensures AckAt(w.log, w.Ticket()).op == slot.op
  {
  }

  lemma StampWork(w: Work, outs: seq<Out.Ring>, op: In.Op)
    requires w.Valid() && AllOutHold(w, outs) && w.engine == Stamping && w.gid < |outs|
    requires op == AckAt(w.log, w.Ticket()).op && outs[w.gid].wp < outs[w.gid].released + |outs[w.gid].slots|
    ensures var w' := w.(engine := Applying);
      w'.Valid() && AllOutHold(w', outs[w.gid := Out.Moved(outs[w.gid], Out.Stamp(op))])
  {
    hide AckAt, AcksFor, BookAfter;
    var r := outs[w.gid];
    assert OutHolds(w, w.gid, r);
    Out.MoveKeeps(r, Out.Stamp(op));
    OwnOutMoved(w, w.(engine := Applying), outs, Out.Moved(r, Out.Stamp(op)));
  }

  lemma SilentApplyWork(w: Work, outs: seq<Out.Ring>)
    requires w.Valid() && AllOutHold(w, outs) && w.engine == Applying && w.silent
    ensures var w' := w.(engine := Releasing); w'.Valid() && AllOutHold(w', outs)
  {
    hide AckAt, AcksFor, BookAfter;
    NoOutMoved(w, w.(engine := Releasing), outs);
  }

  lemma ApplyWork(w: Work, outs: seq<Out.Ring>)
    requires w.Valid() && AllOutHold(w, outs) && w.engine == Applying && !w.silent && w.gid < |outs|
    ensures var w' := w.(engine := Acking);
      w'.Valid() && AllOutHold(w', outs[w.gid := Out.Moved(outs[w.gid], Out.Begin(AckAt(w.log, w.Ticket())))])
  {
    hide AckAt, AcksFor, BookAfter;
    var r, ack := outs[w.gid], AckAt(w.log, w.Ticket());
    assert OutHolds(w, w.gid, r);
    Out.MoveKeeps(r, Out.Begin(ack));
    OwnOutMoved(w, w.(engine := Acking), outs, Out.Moved(r, Out.Begin(ack)));
  }

  lemma WriteWork(w: Work, outs: seq<Out.Ring>)
    requires w.Valid() && AllOutHold(w, outs) && w.engine == Acking && w.gid < |outs|
    ensures var r := outs[w.gid]; var w' := w.(engine := Releasing);
      && r.writer.Writing?
      && if r.writer.written < 5 + |r.writer.ack.fills| then AllOutHold(w, outs[w.gid := Out.Moved(r, Out.Write)])
         else w'.Valid() && AllOutHold(w', outs)
  {
    hide AckAt, AcksFor, BookAfter;
    var r := outs[w.gid];
    assert OutHolds(w, w.gid, r);
    if r.writer.written < 5 + |r.writer.ack.fills| {
      Out.MoveKeeps(r, Out.Write);
      OwnOutMoved(w, w, outs, Out.Moved(r, Out.Write));
    } else {
      OwnOutMoved(w, w.(engine := Releasing), outs, r);
      assert outs[w.gid := r] == outs;
    }
  }

  /** A silent submission counts as acked on release; one that is not silent does not yet. */
  lemma ReleaseWork(w: Work, outs: seq<Out.Ring>)
    requires w.Valid() && AllOutHold(w, outs) && w.engine == Releasing
    ensures var w' := w.(released := w.released + 1, engine := Advancing);
      w'.Valid() && AllOutHold(w', outs) && w'.Applied() == w.Applied()
  {
    hide AckAt, AcksFor, BookAfter;
    var w' := w.(released := w.released + 1, engine := Advancing);
    forall g ensures AcksFor(w.log[..w'.Acked()], g) == AcksFor(w.log[..w.Acked()], g) {
      AcksGrow(w.log, w.released, g);
    }
    NoOutMoved(w, w', outs);
  }

  lemma AdvanceWork(w: Work, outs: seq<Out.Ring>)
    requires w.Valid() && AllOutHold(w, outs) && w.engine == Advancing
    ensures var w' := w.(engine := if w.silent then Polling else Publishing); w'.Valid() && AllOutHold(w', outs)
  {
    hide AckAt, AcksFor, BookAfter;
    NoOutMoved(w, w.(engine := if w.silent then Polling else Publishing), outs);
  }

  lemma PublishedWriter(w: Work, r: Out.Ring)
    requires w.Valid() && w.engine == Publishing && OutHolds(w, w.gid, r)
    ensures OutHolds(w.(engine := AdvancingOut), w.gid, Out.Moved(r, Out.PublishAck))
  {
    hide AckAt, AcksFor, BookAfter;
    Out.PublishAckKeeps(r);
    AcksGrow(w.log, w.Acked(), w.gid);
  }

  lemma PublishWork(w: Work, outs: seq<Out.Ring>)
    requires w.Valid() && AllOutHold(w, outs) && w.engine == Publishing && w.gid < |outs|
    ensures var w' := w.(engine := AdvancingOut);
      w'.Valid() && AllOutHold(w', outs[w.gid := Out.Moved(outs[w.gid], Out.PublishAck)])
  {
    hide AckAt, AcksFor, BookAfter;
    var w', r := w.(engine := AdvancingOut), outs[w.gid];
    assert OutHolds(w, w.gid, r);
    PublishedWriter(w, r);
    forall g | g != w.gid ensures AcksFor(w.log[..w'.Acked()], g) == AcksFor(w.log[..w.Acked()], g) {
      AcksGrow(w.log, w.Acked(), g);
    }
    OwnOutMoved(w, w', outs, Out.Moved(r, Out.PublishAck));
  }

  lemma AdvanceOutWork(w: Work, outs: seq<Out.Ring>)
    requires w.Valid() && AllOutHold(w, outs) && w.engine == AdvancingOut && w.gid < |outs|
    ensures var w' := w.(engine := Polling);
      w'.Valid() && AllOutHold(w', outs[w.gid := Out.Moved(outs[w.gid], Out.AdvanceOut)])
  {
    hide AckAt, AcksFor, BookAfter;
    var r := outs[w.gid];
    assert OutHolds(w, w.gid, r);
    Out.MoveKeeps(r, Out.AdvanceOut);
    OwnOutMoved(w, w.(engine := Polling), outs, Out.Moved(r, Out.AdvanceOut));
  }

  lemma PollKeeps(s: State)
    requires Shaped(s) && Inv(s) && s.engine == Polling
    ensures Inv(Engined(s))
  {
    hide AckAt, AcksFor, BookAfter;
    In.StepKeeps(s.ring, In.Poll);
    if In.Held(s.ring, s.ring.rp).ready { PollWork(WorkOf(s), s.outs); }
  }

  lemma CopyKeeps(s: State)
    requires Shaped(s) && Inv(s) && s.engine == Copying
    ensures Inv(Engined(s))
  {
    hide AckAt, AcksFor, BookAfter;
    HeldSlot(s);
    NoOutMoved(WorkOf(s), WorkOf(Engined(s)), s.outs);
  }

  lemma StampKeeps(s: State)
    requires Shaped(s) && Inv(s) && s.engine == Stamping && Allowed(s, EngineStep)
    ensures Inv(Engined(s))
  {
    hide AckAt, AcksFor, BookAfter;
    HeldSlot(s);
    StampedOp(WorkOf(s), In.Held(s.ring, s.ring.rp));
    StampWork(WorkOf(s), s.outs, In.Held(s.ring, s.ring.rp).op);
  }

  /** What the sequential reading asks of the book next, and what it answers. */
  lemma NextInLog(log: seq<Submission>, n: nat, b: Book)
    requires n < |log| && b == BookAfter(log[..n])
    ensures Apply(b, log[n].event).0 == BookAfter(log[..n + 1])
    ensures AckOf(log[n].event.req, Apply(b, log[n].event).1) == AckAt(log, n)
  {
    AcksGrow(log, n, 0);
  }

  /** The engine asks the same of the book. */
  lemma AppliesNext(s: State)
    requires Shaped(s) && Inv(s) && s.engine == Applying
    ensures s.ring.released < |s.ring.log|
    ensures In.Decode(In.Held(s.ring, s.ring.rp)) == s.ring.log[s.ring.released]
    ensures var (b, resp) := Apply(s.book, s.ring.log[s.ring.released].event);
      && b == BookAfter(s.ring.log[..s.ring.released + 1])
      && AckOf(s.ring.log[s.ring.released].event.req, resp) == AckAt(s.ring.log, s.ring.released)
  {
    HeldSlot(s);
    NextInLog(s.ring.log, s.ring.released, s.book);
  }

  lemma SilentApplyKeeps(s: State)
    requires Shaped(s) && Inv(s) && s.engine == Applying && s.silent
    ensures Inv(Engined(s))
  {
    hide AckAt, AckOf, AcksFor, BookAfter, Apply;
    AppliesNext(s);
    SilentApplyWork(WorkOf(s), s.outs);
  }

  lemma AckedApplyKeeps(s: State)
    requires Shaped(s) && Inv(s) && s.engine == Applying && !s.silent
    ensures Inv(Engined(s))
  {
    hide AckAt, AckOf, AcksFor, BookAfter, Apply, In.Inv, AllOutHold, In.Decode, Out.Moved;
    AppliesNext(s);
    ApplyWork(WorkOf(s), s.outs);
  }

  lemma AckKeeps(s: State)
    requires Shaped(s) && Inv(s) && s.engine == Acking
    ensures Inv(Engined(s))
  {
    hide AckAt, AcksFor, BookAfter;
    WriteWork(WorkOf(s), s.outs);
  }

  lemma ReleaseKeeps(s: State)
    requires Shaped(s) && Inv(s) && s.engine == Releasing
    ensures Inv(Engined(s))
  {
    hide AckAt, AcksFor, BookAfter;
    In.StepKeeps(s.ring, In.Release);
    ReleaseWork(WorkOf(s), s.outs);
  }

  lemma AdvanceKeeps(s: State)
    requires Shaped(s) && Inv(s) && s.engine == Advancing
    ensures Inv(Engined(s))
  {
    hide AckAt, AcksFor, BookAfter;
    In.StepKeeps(s.ring, In.Advance);
    AdvanceWork(WorkOf(s), s.outs);
  }

  lemma PublishKeeps(s: State)
    requires Shaped(s) && Inv(s) && s.engine == Publishing
    ensures Inv(Engined(s))
  {
    hide AckAt, AcksFor, BookAfter;
    PublishWork(WorkOf(s), s.outs);
  }

  lemma AdvanceOutKeeps(s: State)
    requires Shaped(s) && Inv(s) && s.engine == AdvancingOut
    ensures Inv(Engined(s))
  {
    hide AckAt, AcksFor, BookAfter;
    AdvanceOutWork(WorkOf(s), s.outs);
  }

  lemma StepKeeps(s: State, a: Action)
    requires Shaped(s) && Inv(s) && Allowed(s, a)
    ensures Inv(Step(s, a))
  {
    match a
    case Producer(act) => if !ByConsumer(act) { ProducerKeeps(s, act); }
    case Reader(g) => ReaderKeeps(s, g);
    case EngineStep =>
      match s.engine
      case Polling => PollKeeps(s);
      case Copying => CopyKeeps(s);
      case Stamping => StampKeeps(s);
      case Applying => if s.silent { SilentApplyKeeps(s); } else { AckedApplyKeeps(s); }
      case Acking => AckKeeps(s);
      case Releasing => ReleaseKeeps(s);
      case Advancing => AdvanceKeeps(s);
      case Publishing => PublishKeeps(s);
      case AdvancingOut => AdvanceOutKeeps(s);
  }

  lemma {:induction false} RunKeeps(s: State, actions: seq<Action>)
    requires Shaped(s) && Inv(s) && AllAllowed(s, actions)
    ensures Inv(Run(s, actions))
  {
    if actions != [] {
      RunKeeps(s, actions[..|actions| - 1]);
      StepKeeps(Run(s, actions[..|actions| - 1]), actions[|actions| - 1]);
    }
  }

  // ---------- The pipeline is the sequential book ----------

  /** How many submissions the engine's book has seen: those released, and one more while the slot just
      applied is still held. */
  function Seen(s: State): nat {
    s.ring.released + if s.engine == Acking || s.engine == Releasing then 1 else 0
  }

  function SeenLog(s: State): seq<Submission> {
    s.ring.log[..if Seen(s) <= |s.ring.log| then Seen(s) else |s.ring.log|]
  }

  /** Whatever the interleaving, as long as neither kind of ring is lapped: the engine's book is the
      sequential book after the submissions it has seen; and what each gateway has read is a prefix of the
      acks that the sequential run over the released submissions owes it, in order, without loss or
      repetition. */
  lemma {:induction false} Linearised(size: nat, producers: nat, outSizes: seq<nat>, actions: seq<Action>)
    requires PowerOfTwo(size) && forall g :: 0 <= g < |outSizes| ==> outSizes[g] > 0 && PowerOfTwo(outSizes[g])
    requires AllAllowed(Init(size, producers, outSizes), actions)
    ensures var s := Run(Init(size, producers, outSizes), actions);
      && Seen(s) <= |s.ring.log| && s.book == Values.Run(EMPTY, Events(s.ring.log[..Seen(s)])) && Wf(s.book)
      && forall g :: 0 <= g < |s.outs| ==> s.outs[g].delivered <= AcksFor(s.ring.log[..s.ring.released], g)
  {
    var s := Run(Init(size, producers, outSizes), actions);
    InitHolds(size, producers, outSizes);
    RunKeeps(Init(size, producers, outSizes), actions);
    RunKeepsWf(EMPTY, Events(s.ring.log[..Seen(s)]));
    forall g | 0 <= g < |s.outs| ensures s.outs[g].delivered <= AcksFor(s.ring.log[..s.ring.released], g) {
      DeliveredIsPrefix(WorkOf(s), g, s.outs[g]);
    }
  }

  lemma {:induction false} DeliveredIsPrefix(w: Work, g: nat, r: Out.Ring)
    requires w.Valid() && OutHolds(w, g, r) && w.released <= |w.log|
    ensures r.delivered <= AcksFor(w.log[..w.released], g)
  {
    hide AcksFor, AckAt, BookAfter, WriterIs;
    Out.DeliveredWasSent(r);
    if w.Acked() < w.released { AcksGrow(w.log, w.Acked(), g); }
    assert r.sent <= AcksFor(w.log[..w.released], g);
  }

  // ---------- Acks ----------

  /** Fills and remaining quantity on the ack of a New request account for its whole volume exactly when
      the order had at most MAX_FILLS trades: the ack has no room for more, and does not say so. */
  lemma AckAccounts(b: Book, price: int, volume: int, sell: bool, id: int, time: int)
    requires Wf(b) && volume > 0
    ensures var (b', res) := Place(b, price, volume, sell, time, id);
      var ack := AckOf(New(price, volume, sell, id), Placed(res));
      && ack.fills <= res.trades && |ack.fills| == Min(|res.trades|, Out.MAX_FILLS)
      && ack.remaining_qty == res.remainingQty && ack.fulfilled == res.fulfilled
      && (Filled(ack.fills) + ack.remaining_qty == volume <==> |res.trades| <= Out.MAX_FILLS)
  {
    var res := Place(b, price, volume, sell, time, id).1;
    var m := Min(|res.trades|, Out.MAX_FILLS);
    ResultAccounts(b, price, volume, sell, time, id);
    FillsArePositive(b, price, volume, sell, time, id);
    hide Place, Wf;
    assert res.trades == res.trades[..m] + res.trades[m..];
    FilledConcat(res.trades[..m], res.trades[m..]);
    FilledIsPositive(res.trades[m..]);
    assert m == |res.trades| ==> res.trades[..m] == res.trades;
  }

  lemma FillsArePositive(b: Book, price: int, volume: int, sell: bool, time: int, id: int)
    requires Wf(b)
    ensures var fills := Place(b, price, volume, sell, time, id).1.trades;
      forall i :: 0 <= i < |fills| ==> fills[i].volume > 0
  {
    FillPrices(b, price, volume, sell, time, id);
    hide Place, Wf;
  }

  lemma {:induction false} FilledConcat(f: seq<Fill>, h: seq<Fill>)
    ensures Filled(f + h) == Filled(f) + Filled(h)
  {
    if f == [] {
      assert f + h == h;
    } else {
      FilledConcat(f[1..], h);
      assert (f + h)[1..] == f[1..] + h;
    }
  }

  lemma {:induction false} FilledIsPositive(f: seq<Fill>)
    requires forall i :: 0 <= i < |f| ==> f[i].volume > 0
    ensures f != [] ==> Filled(f) > 0
  {
    if f != [] { FilledIsPositive(f[1..]); }
  }

  // ---------- Silence ----------

  /** The same submissions, except for who wants acks. */
  ghost predicate SameButSilence(log: seq<Submission>, other: seq<Submission>) {
    && |log| == |other|
    && forall i :: 0 <= i < |log| ==> log[i].event == other[i].event && log[i].gid == other[i].gid
  }

  ghost predicate KeepsFlags(log: seq<Submission>, other: seq<Submission>, g: nat)
    requires |log| == |other|
  {
    forall i :: 0 <= i < |log| && log[i].gid == g ==> log[i].silent == other[i].silent
  }

  lemma {:induction false} SameAcks(log: seq<Submission>, other: seq<Submission>, g: nat)
    requires SameButSilence(log, other)
    ensures BookAfter(log) == BookAfter(other)
    ensures KeepsFlags(log, other, g) ==> AcksFor(log, g) == AcksFor(other, g)
  {
    assert Events(log) == Events(other);
    if log != [] {
      SameAcks(log[..|log| - 1], other[..|other| - 1], g);
    }
  }

  lemma PrefixOf<T>(x: seq<T>, y: seq<T>, z: seq<T>)
    requires x <= y <= z
    ensures x <= z
  {
  }

  lemma {:induction false} AcksExtend(log: seq<Submission>, m: nat, n: nat, g: nat)
    requires m <= n <= |log|
    ensures AcksFor(log[..m], g) <= AcksFor(log[..n], g)
  {
    hide AckAt, AcksFor, BookAfter, Apply;
    if m < n {
      AcksExtend(log, m, n - 1, g);
      AcksGrow(log, n - 1, g);
      PrefixOf(AcksFor(log[..m], g), AcksFor(log[..n - 1], g), AcksFor(log[..n], g));
    }
  }

  ghost predicate Reachable(s: State, size: nat, producers: nat, outSizes: seq<nat>, actions: seq<Action>) {
    && PowerOfTwo(size) && (forall g :: 0 <= g < |outSizes| ==> outSizes[g] > 0 && PowerOfTwo(outSizes[g]))
    && AllAllowed(Init(size, producers, outSizes), actions) && s == Run(Init(size, producers, outSizes), actions)
  }

  /** Two systems of any sizes, after any runs, whose engines have seen the same submissions except for
      silent flags: they have the same book, and a gateway whose flags are the same in both has read the
      same acks, as far as both have read. */
  lemma SilenceDoesNotInterfere(s: State, size: nat, producers: nat, outSizes: seq<nat>, actions: seq<Action>,
                                t: State, size': nat, producers': nat, outSizes': seq<nat>, actions': seq<Action>,
                                g: nat)
    requires Reachable(s, size, producers, outSizes, actions) && Reachable(t, size', producers', outSizes', actions')
    requires SameButSilence(SeenLog(s), SeenLog(t))
    ensures s.book == t.book
    ensures g < |s.outs| && g < |t.outs| && KeepsFlags(SeenLog(s), SeenLog(t), g) ==>
      s.outs[g].delivered <= t.outs[g].delivered || t.outs[g].delivered <= s.outs[g].delivered
  {
    Linearised(size, producers, outSizes, actions);
    Linearised(size', producers', outSizes', actions');
    SameAcks(SeenLog(s), SeenLog(t), g);
    AcksExtend(s.ring.log, s.ring.released, Seen(s), g);
    AcksExtend(t.ring.log, t.ring.released, Seen(t), g);
  }
}
