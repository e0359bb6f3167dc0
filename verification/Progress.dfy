/**
 That the pipeline never gets stuck: whatever has happened, its threads can go on until every submission handed
 to a gateway has got its ticket, the engine has applied it, and every ack owed for it has been read.  Which
 thread goes next is chosen here; that the scheduler ever makes that choice is another matter.
 */
module Progress {
  import Values = Book
  import opened Rings
  import opened Pipeline
  import In = Inbound
  import Out = Outbound
  import Over = Overruns

  /** No gateway is handed anything. */
  predicate NoWants(actions: seq<Action>) {
    forall i :: 0 <= i < |actions| ==> !(actions[i].Producer? && actions[i].act.Want?)
  }

  /** From `s` the threads can go on to `s'`, within the hypotheses and with no new submissions. */
  ghost predicate Leads(s: State, actions: seq<Action>, s': State) {
    Shaped(s) && Inv(s) && AllAllowed(s, actions) && NoWants(actions) && s' == Run(s, actions) && Inv(s')
  }

  lemma {:induction false} InTwoParts(s: State, first: seq<Action>, rest: seq<Action>)
    requires Shaped(s)
    ensures Run(s, first + rest) == Run(Run(s, first), rest)
    ensures AllAllowed(s, first + rest) <==> AllAllowed(s, first) && AllAllowed(Run(s, first), rest)
  {
    hide Step, Allowed;
    if rest == [] {
      assert first + rest == first;
    } else {
      var front, all := rest[..|rest| - 1], first + rest;
      InTwoParts(s, first, front);
      assert all[..|all| - 1] == first + front && all[|all| - 1] == rest[|rest| - 1];
    }
  }

  lemma Stays(s: State)
    requires Shaped(s) && Inv(s)
    ensures Leads(s, [], s)
  {
  }

  lemma {:induction false} OneStep(s: State, a: Action)
    requires Shaped(s) && Inv(s) && Allowed(s, a) && !(a.Producer? && a.act.Want?)
    ensures Leads(s, [a], Step(s, a))
  {
    hide Step, Inv, Allowed;
    StepKeeps(s, a);
    assert [a][..0] == [] && Run(s, []) == s && AllAllowed(s, []);
  }

  lemma Then(s: State, first: seq<Action>, mid: State, rest: seq<Action>, s': State)
    requires Leads(s, first, mid) && Leads(mid, rest, s')
    ensures Leads(s, first + rest, s')
  {
    hide Run, AllAllowed, Inv;
    InTwoParts(s, first, rest);
  }

  // ---------- Producers ----------

  /** Only the inbound ring has changed. */
  ghost predicate RingOnly(s: State, s': State) {
    s' == s.(ring := s'.ring)
  }

  /** Producer `p` is now idle, its ticket published; the others are where they were. */
  ghost predicate Published(r: In.State, r': In.State, p: nat) {
    && p < |r.producers| && r'.producers == r.producers[p := In.Idle]
    && r'.log == r.log && r'.released == r.released
  }

  lemma {:induction false} Publishes(s: State, p: nat) returns (actions: seq<Action>, s': State)
    requires Shaped(s) && Inv(s) && p < |s.ring.producers| && s.ring.producers[p].Filling?
    ensures Leads(s, actions, s') && RingOnly(s, s') && Published(s.ring, s'.ring, p)
    decreases In.Fields(s.ring.producers[p].sub) - s.ring.producers[p].stored
  {
    hide Inv, Run;
    var me := s.ring.producers[p];
    FillsWithin(s, p);
    if me.stored < In.Fields(me.sub) {
      var a, next := Producer(In.Store(p)), Step(s, Producer(In.Store(p)));
      OneStep(s, a);
      var rest;
      rest, s' := Publishes(next, p);
      Then(s, [a], next, rest, s');
      actions := [a] + rest;
    } else {
      var a := Producer(In.Publish(p));
      OneStep(s, a);
      actions, s' := [a], Step(s, a);
    }
  }

  lemma FillsWithin(s: State, p: nat)
    requires Shaped(s) && Inv(s) && p < |s.ring.producers| && s.ring.producers[p].Filling?
    ensures s.ring.producers[p].stored <= In.Fields(s.ring.producers[p].sub)
  {
    assert In.ProducerHolds(s.ring, s.ring.producers[p]);
  }

  /** Producers that have claimed a ticket are done with it. */
  function AllPublished(ps: seq<In.Producer>): seq<In.Producer> {
    seq(|ps|, i requires 0 <= i < |ps| => if ps[i].Filling? then In.Idle else ps[i])
  }

  lemma {:induction false} PublishesAll(s: State, k: nat) returns (actions: seq<Action>, s': State)
    requires Shaped(s) && Inv(s) && k <= |s.ring.producers|
    requires forall i :: 0 <= i < k ==> !s.ring.producers[i].Filling?
    ensures Leads(s, actions, s') && RingOnly(s, s')
    ensures s'.ring.producers == AllPublished(s.ring.producers)
    ensures s'.ring.log == s.ring.log && s'.ring.released == s.ring.released
    decreases |s.ring.producers| - k
  {
    hide Inv, Run;
    if k == |s.ring.producers| {
      Stays(s);
      actions, s' := [], s;
    } else if !s.ring.producers[k].Filling? {
      actions, s' := PublishesAll(s, k + 1);
    } else {
      var first, mid := Publishes(s, k);
      var rest;
      rest, s' := PublishesAll(mid, k + 1);
      Then(s, first, mid, rest, s');
      actions := first + rest;
    }
  }

  // ---------- Readers ----------

  /** All that gateway `g` is sent has been read, and its reader waits; the rest is as it was. */
  ghost predicate Read(s: State, s': State, g: nat) {
    && g < |s.outs| == |s'.outs| && s' == s.(outs := s.outs[g := s'.outs[g]])
    && var (r, r') := (s.outs[g], s'.outs[g]);
       && r.slots != [] && |r'.slots| == |r.slots| && r'.sent == r.sent && r'.wp == r.wp && r'.writer == r.writer
       && r'.delivered == r'.sent && r'.released == |r'.sent| && Over.Waiting(r')
  }

  lemma {:induction false} ReadsOn(s: State, g: nat, n: nat) returns (actions: seq<Action>, s': State)
    requires Shaped(s) && Inv(s) && g < |s.outs|
    ensures Leads(s, actions, s') && s' == s.(outs := s.outs[g := Over.Reads(s.outs[g], n)])
    ensures actions == seq(n, _ => Reader(g))
    decreases n
  {
    hide Inv, Run, AllAllowed;
    if n == 0 {
      Stays(s);
      actions, s' := [], s;
    } else {
      OneStep(s, Reader(g));
      var next := Step(s, Reader(g));
      Out.ReadIs(s.outs[g]);
      var rest;
      rest, s' := ReadsOn(next, g, n - 1);
      Then(s, [Reader(g)], next, rest, s');
      actions := [Reader(g)] + rest;
    }
  }

  /** A reader left alone catches up. */
  lemma {:induction false} Drains(s: State, g: nat) returns (n: nat, actions: seq<Action>, s': State)
    requires Shaped(s) && Inv(s) && g < |s.outs|
    ensures Leads(s, actions, s') && Read(s, s', g) && actions == seq(n, _ => Reader(g))
  {
    hide Run, AllAllowed;
    assert OutHolds(WorkOf(s), g, s.outs[g]);
    n := Over.Drains(s.outs[g]);
    actions, s' := ReadsOn(s, g, n);
    assert |s'.outs[g].sent[..s'.outs[g].released]| == s'.outs[g].released;
  }

  // ---------- The engine ----------

  /** How far the engine is from its next release; writes are counted apart. */
  function Rank(e: Engine): nat {
    match e
    case Advancing => 9
    case Publishing => 8
    case AdvancingOut => 7
    case Polling => 6
    case Copying => 5
    case Stamping => 4
    case Applying => 3
    case Acking => 2
    case Releasing => 1
  }

  function Unwritten(s: State): int {
    if s.engine == Acking && s.gid < |s.outs| && s.outs[s.gid].writer.Writing? then
      5 + |s.outs[s.gid].writer.ack.fills| - s.outs[s.gid].writer.written
    else 0
  }

  function Unreleased(s: State): int {
    |s.ring.log| - s.ring.released
  }

  /** No producer is in the middle of a claimed slot. */
  ghost predicate NoneFilling(s: State) {
    forall p :: 0 <= p < |s.ring.producers| ==> !s.ring.producers[p].Filling?
  }

  /** The engine has nothing more to do. */
  ghost predicate Served(s: State) {
    s.engine == Polling && s.ring.released == |s.ring.log|
  }

  lemma CountsDown(s: State)
    requires Shaped(s) && Inv(s)
    ensures Unreleased(s) >= 0 && Unwritten(s) >= 0
  {
    if s.gid < |s.outs| { assert OutHolds(WorkOf(s), s.gid, s.outs[s.gid]); }
  }

  /** The next step brings the engine nearer to having served all. */
  ghost predicate Nearer(s: State, s': State) {
    && s'.ring.producers == s.ring.producers && s'.ring.log == s.ring.log
    && (Unreleased(s') < Unreleased(s)
        || (Unreleased(s') == Unreleased(s)
            && (Rank(s'.engine) < Rank(s.engine) || (s'.engine == s.engine && Unwritten(s') < Unwritten(s)))))
  }

  lemma Acks(s: State)
    requires Shaped(s) && Inv(s) && s.engine == Acking
    ensures Nearer(s, Engined(s))
  {
    hide AckAt, AckOf, AcksFor, BookAfter, Values.Apply;
    var r := s.outs[s.gid];
    assert OutHolds(WorkOf(s), s.gid, r);
  }

  /** With every claimed ticket published, the next slot is ready for as long as there is one. */
  lemma EngineGoesOn(s: State)
    requires Shaped(s) && Inv(s) && NoneFilling(s) && !Served(s)
    ensures Nearer(s, Engined(s))
  {
    if s.engine == Acking {
      Acks(s);
    } else if s.engine == Polling {
      Polls(s);
    } else if s.engine == Releasing || s.engine == Advancing {
      hide AckAt, AckOf, AcksFor, BookAfter, Values.Apply, Out.Moved, AllOutHold;
    } else {
      KeepsRing(s);
    }
  }

  lemma Polls(s: State)
    requires Shaped(s) && Inv(s) && NoneFilling(s) && s.engine == Polling && !Served(s)
    ensures Nearer(s, Engined(s))
  {
    hide AckAt, AckOf, AcksFor, BookAfter, Values.Apply, Out.Moved, AllOutHold;
    assert s.ring.released in s.ring.published;
  }

  lemma KeepsRing(s: State)
    requires Shaped(s) && s.engine != Polling && s.engine != Acking && s.engine != Releasing && s.engine != Advancing
    ensures Engined(s).ring == s.ring && Rank(Engined(s).engine) < Rank(s.engine)
  {
    hide AckOf, Values.Apply, Out.Moved;
  }

  /** What the engine needs before its next step: room for the ack. */
  lemma MakesRoom(s: State) returns (actions: seq<Action>, s': State)
    requires Shaped(s) && Inv(s)
    ensures Leads(s, actions, s') && Allowed(s', EngineStep) && s' == s.(outs := s'.outs)
    ensures Unwritten(s') == Unwritten(s)
  {
    if s.engine == Stamping && s.gid < |s.outs| {
      var n;
      n, actions, s' := Drains(s, s.gid);
      assert OutHolds(WorkOf(s'), s.gid, s'.outs[s.gid]);
    } else {
      Stays(s);
      actions, s' := [], s;
    }
  }

  lemma {:induction false} Serves(s: State) returns (actions: seq<Action>, s': State)
    requires Shaped(s) && Inv(s) && NoneFilling(s)
    ensures Leads(s, actions, s') && Served(s')
    ensures s'.ring.producers == s.ring.producers && s'.ring.log == s.ring.log
    decreases Unreleased(s), Rank(s.engine), Unwritten(s)
  {
    hide Inv, Run, AllAllowed, Allowed, Engined, Unwritten;
    CountsDown(s);
    if Served(s) {
      Stays(s);
      actions, s' := [], s;
    } else {
      var first, mid := MakesRoom(s);
      EngineGoesOn(mid);
      OneStep(mid, EngineStep);
      Then(s, first, mid, [EngineStep], Engined(mid));
      var rest;
      rest, s' := Serves(Engined(mid));
      Then(s, first + [EngineStep], Engined(mid), rest, s');
      actions := first + [EngineStep] + rest;
    }
  }

  // ---------- Producers that still want a slot ----------

  /** The submissions that producers `k` and up hold without a ticket. */
  function Unticketed(ps: seq<In.Producer>, k: nat): seq<Submission>
    requires k <= |ps|
    decreases |ps| - k
  {
    if k == |ps| then []
    else (if ps[k].Idle? || ps[k].Filling? then [] else [ps[k].sub]) + Unticketed(ps, k + 1)
  }

  /** All submissions with a ticket are served, so that no ticket is claimed and unpublished. */
  ghost predicate Clear(s: State) {
    NoneFilling(s) && Served(s)
  }

  /** Producer `p` has moved, and nothing else. */
  ghost predicate Turned(s: State, s': State, p: nat, to: In.Producer) {
    p < |s.ring.producers| && s' == s.(ring := s.ring.(producers := s.ring.producers[p := to]))
  }

  lemma NothingLaps(s: State, a: In.Action)
    requires Shaped(s) && Inv(s) && Clear(s)
    ensures In.NoLap(s.ring, a) && !In.Held(s.ring, s.ring.wp).ready
  {
    if a.Check? && a.p < |s.ring.producers| && s.ring.producers[a.p].Loaded? {
      assert In.ProducerHolds(s.ring, s.ring.producers[a.p]);
    }
  }

  /** Whatever it was about to do, the producer comes round to wanting a slot. */
  lemma ComesRound(s: State, p: nat) returns (actions: seq<Action>, s': State)
    requires Shaped(s) && Inv(s) && Clear(s) && p < |s.ring.producers|
    requires !s.ring.producers[p].Idle?
    ensures Leads(s, actions, s') && Turned(s, s', p, In.Wanting(s.ring.producers[p].sub))
  {
    hide Inv, Run, AllAllowed;
    var me := s.ring.producers[p];
    if me.Wanting? {
      Stays(s);
      actions, s' := [], s;
    } else if me.Loaded? {
      NothingLaps(s, In.Check(p));
      OneStep(s, Producer(In.Check(p)));
      actions, s' := [Producer(In.Check(p))], Step(s, Producer(In.Check(p)));
      if s'.ring.producers[p].Checked? {
        OneStep(s', Producer(In.Cas(p, true)));
        Then(s, actions, s', [Producer(In.Cas(p, true))], Step(s', Producer(In.Cas(p, true))));
        actions, s' := actions + [Producer(In.Cas(p, true))], Step(s', Producer(In.Cas(p, true)));
      }
    } else {
      OneStep(s, Producer(In.Cas(p, true)));
      actions, s' := [Producer(In.Cas(p, true))], Step(s, Producer(In.Cas(p, true)));
    }
  }

  /** It then gets the next ticket. */
  lemma Claims(s: State, p: nat) returns (actions: seq<Action>, s': State)
    requires Shaped(s) && Inv(s) && Clear(s) && p < |s.ring.producers| && s.ring.producers[p].Wanting?
    ensures var sub := s.ring.producers[p].sub;
      && Leads(s, actions, s') && s'.ring.producers == s.ring.producers[p := In.Filling(sub, s.ring.wp, 0)]
      && s'.ring.log == s.ring.log + [sub]
  {
    hide Inv, Run, AllAllowed;
    var load, check, cas := Producer(In.Load(p)), Producer(In.Check(p)), Producer(In.Cas(p, false));
    OneStep(s, load);
    var s1 := Step(s, load);
    NothingLaps(s1, In.Check(p));
    OneStep(s1, check);
    var s2 := Step(s1, check);
    OneStep(s2, cas);
    s' := Step(s2, cas);
    Then(s, [load], s1, [check], s2);
    Then(s, [load] + [check], s2, [cas], s');
    actions := [load] + [check] + [cas];
  }

  /** One submission gets its ticket and is served. */
  lemma Submits(s: State, p: nat) returns (actions: seq<Action>, s': State)
    requires Shaped(s) && Inv(s) && Clear(s) && p < |s.ring.producers| && !s.ring.producers[p].Idle?
    ensures Leads(s, actions, s') && Clear(s') && s'.ring.producers == s.ring.producers[p := In.Idle]
    ensures s'.ring.log == s.ring.log + [s.ring.producers[p].sub]
  {
    hide Inv, Run, AllAllowed;
    var a, s1 := ComesRound(s, p);
    var b, s2 := Claims(s1, p);
    var c, s3 := Publishes(s2, p);
    var d;
    d, s' := Serves(s3);
    Then(s, a, s1, b, s2);
    Then(s, a + b, s2, c, s3);
    Then(s, a + b + c, s3, d, s');
    actions := a + b + c + d;
  }

  lemma {:induction false} UnticketedKept(ps: seq<In.Producer>, p: nat, k: nat)
    requires p < k <= |ps|
    ensures Unticketed(ps[p := In.Idle], k) == Unticketed(ps, k)
    decreases |ps| - k
  {
    if k < |ps| { UnticketedKept(ps, p, k + 1); }
  }

  lemma {:induction false} SubmitsAll(s: State, k: nat) returns (actions: seq<Action>, s': State)
    requires Shaped(s) && Inv(s) && Clear(s) && k <= |s.ring.producers|
    requires forall i :: 0 <= i < k ==> s.ring.producers[i].Idle?
    ensures Leads(s, actions, s') && Clear(s') && |s'.ring.producers| == |s.ring.producers|
    ensures forall i :: 0 <= i < |s'.ring.producers| ==> s'.ring.producers[i].Idle?
    ensures s'.ring.log == s.ring.log + Unticketed(s.ring.producers, k)
    decreases |s.ring.producers| - k
  {
    hide Inv, Run, AllAllowed;
    if k == |s.ring.producers| {
      Stays(s);
      actions, s' := [], s;
    } else if s.ring.producers[k].Idle? {
      actions, s' := SubmitsAll(s, k + 1);
    } else {
      var first, mid := Submits(s, k);
      UnticketedKept(s.ring.producers, k, k + 1);
      var rest;
      rest, s' := SubmitsAll(mid, k + 1);
      Then(s, first, mid, rest, s');
      actions := first + rest;
    }
  }

  lemma {:induction false} DrainsAll(s: State, g: nat) returns (actions: seq<Action>, s': State)
    requires Shaped(s) && Inv(s) && g <= |s.outs|
    requires forall h :: 0 <= h < g ==> s.outs[h].delivered == s.outs[h].sent
    ensures Leads(s, actions, s') && s' == s.(outs := s'.outs) && |s'.outs| == |s.outs|
    ensures forall h :: 0 <= h < |s'.outs| ==> s'.outs[h].delivered == s'.outs[h].sent
    decreases |s.outs| - g
  {
    hide Inv, Run, AllAllowed;
    if g == |s.outs| {
      Stays(s);
      actions, s' := [], s;
    } else {
      var n, first, mid := Drains(s, g);
      var rest;
      rest, s' := DrainsAll(mid, g + 1);
      Then(s, first, mid, rest, s');
      actions := first + rest;
    }
  }

  /** Nothing is under way any more: the book is that of all submissions, and every gateway has all its acks. */
  ghost predicate Settled(s: State) {
    && s.engine == Polling && s.ring.released == |s.ring.log|
    && (forall p :: 0 <= p < |s.ring.producers| ==> s.ring.producers[p].Idle?)
    && s.book == BookAfter(s.ring.log)
    && forall g :: 0 <= g < |s.outs| ==> s.outs[g].delivered == AcksFor(s.ring.log, g)
  }

  lemma ClearIsSettled(s: State)
    requires Shaped(s) && Inv(s) && Clear(s)
    requires forall p :: 0 <= p < |s.ring.producers| ==> s.ring.producers[p].Idle?
    requires forall g :: 0 <= g < |s.outs| ==> s.outs[g].delivered == s.outs[g].sent
    ensures Settled(s)
  {
    hide BookAfter, AcksFor;
    var log := s.ring.log;
    assert log[..|log|] == log;
    forall g | 0 <= g < |s.outs| ensures s.outs[g].delivered == AcksFor(log, g) {
      assert OutHolds(WorkOf(s), g, s.outs[g]);
    }
  }

  /** From every state that the invariant allows the threads can go on to a settled one, and the submissions
      that had no ticket get one each, behind those that had. */
  lemma {:induction false} Settles(s: State) returns (actions: seq<Action>, s': State)
    requires Shaped(s) && Inv(s)
    ensures Leads(s, actions, s') && Settled(s') && |s'.ring.producers| == |s.ring.producers|
    ensures s'.ring.log == s.ring.log + Unticketed(s.ring.producers, 0)
  {
    hide Inv, Run, AllAllowed, AcksFor, BookAfter, Settled;
    var a, s1 := PublishesAll(s, 0);
    var b, s2 := Serves(s1);
    var c, s3 := SubmitsAll(s2, 0);
    var d;
    d, s' := DrainsAll(s3, 0);
    PublishedUnticketed(s.ring.producers, 0);
    Then(s, a, s1, b, s2);
    Then(s, a + b, s2, c, s3);
    Then(s, a + b + c, s3, d, s');
    actions := a + b + c + d;
    ClearIsSettled(s');
  }

  lemma {:induction false} PublishedUnticketed(ps: seq<In.Producer>, k: nat)
    requires k <= |ps|
    ensures Unticketed(AllPublished(ps), k) == Unticketed(ps, k)
    decreases |ps| - k
  {
    if k < |ps| { PublishedUnticketed(ps, k + 1); }
  }

  /** Nothing gets stuck: every run within the hypotheses can be continued, with no new submissions, to one
      after which every submission ever handed in has been applied and every ack owed has been read. */
  lemma {:induction false} NothingGetsStuck(size: nat, producers: nat, outSizes: seq<nat>, actions: seq<Action>)
    returns (more: seq<Action>)
    requires PowerOfTwo(size) && forall g :: 0 <= g < |outSizes| ==> outSizes[g] > 0 && PowerOfTwo(outSizes[g])
    requires AllAllowed(Init(size, producers, outSizes), actions)
    ensures NoWants(more) && AllAllowed(Init(size, producers, outSizes), actions + more)
    ensures var s := Run(Init(size, producers, outSizes), actions);
      var s' := Run(Init(size, producers, outSizes), actions + more);
      Settled(s') && s'.ring.log == s.ring.log + Unticketed(s.ring.producers, 0)
  {
    var init := Init(size, producers, outSizes);
    hide Inv, Run, AllAllowed, Settled;
    InitHolds(size, producers, outSizes);
    RunKeeps(init, actions);
    var s';
    more, s' := Settles(Run(init, actions));
    InTwoParts(init, actions, more);
  }

  // ---------- Readers alone ----------

  /** Whenever the engine is back at polling, a gateway whose reader polls has read all it is owed if and only
      if its next slot is not ready: nothing is withheld. */
  lemma {:induction false} NothingIsWithheld(size: nat, producers: nat, outSizes: seq<nat>, actions: seq<Action>,
                                             g: nat)
    requires PowerOfTwo(size) && forall g :: 0 <= g < |outSizes| ==> outSizes[g] > 0 && PowerOfTwo(outSizes[g])
    requires AllAllowed(Init(size, producers, outSizes), actions) && g < |outSizes|
    ensures var s := Run(Init(size, producers, outSizes), actions);
      var r := s.outs[g];
      && s.ring.released <= |s.ring.log|
      && (s.engine == Polling && r.reader.AtPoll? ==>
            (!Out.AckIn(r.slots, r.rp).ready <==> r.delivered == AcksFor(s.ring.log[..s.ring.released], g)))
  {
    hide BookAfter, AcksFor;
    InitHolds(size, producers, outSizes);
    RunKeeps(Init(size, producers, outSizes), actions);
    var s := Run(Init(size, producers, outSizes), actions);
    assert OutHolds(WorkOf(s), g, s.outs[g]);
  }

  /** And with the engine there, the reader alone can get all of it. */
  lemma {:induction false} ReaderCatchesUp(size: nat, producers: nat, outSizes: seq<nat>, actions: seq<Action>,
                                           g: nat) returns (n: nat)
    requires PowerOfTwo(size) && forall g :: 0 <= g < |outSizes| ==> outSizes[g] > 0 && PowerOfTwo(outSizes[g])
    requires AllAllowed(Init(size, producers, outSizes), actions) && g < |outSizes|
    requires Run(Init(size, producers, outSizes), actions).engine == Polling
    ensures var init, longer := Init(size, producers, outSizes), actions + seq(n, _ => Reader(g));
      var (s, s') := (Run(init, actions), Run(init, longer));
      && AllAllowed(init, longer) && s' == s.(outs := s.outs[g := s'.outs[g]])
      && s.ring.released <= |s.ring.log|
      && s'.outs[g].delivered == AcksFor(s.ring.log[..s.ring.released], g)
  {
    var init := Init(size, producers, outSizes);
    hide BookAfter, AcksFor, AllAllowed;
    InitHolds(size, producers, outSizes);
    RunKeeps(init, actions);
    var s := Run(init, actions);
    var more, s';
    n, more, s' := Drains(s, g);
    InTwoParts(init, actions, more);
    assert OutHolds(WorkOf(s'), g, s'.outs[g]);
  }
}
