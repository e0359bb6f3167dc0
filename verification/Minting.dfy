/**
 Where order ids come from: each LIVE gateway hands out its own counter's values, starting at 0, and a REPLAY
 gateway passes on whatever id its caller gives it.
 */
module Minting {
  import opened Book
  import opened Identity
  import opened Rings
  import P = Pipeline
  import In = Inbound
  import opened Progress

  /** A system: the sizes of its rings, its producer threads, and how many gateways of each mode it has. */
  datatype Setup = Setup(size: nat, producers: nat, outSizes: seq<nat>, live: nat, replay: nat)

  predicate HasRings(c: Setup) {
    c.size > 0 && forall g :: 0 <= g < |c.outSizes| ==> c.outSizes[g] > 0
  }

  predicate HasMaskedRings(c: Setup) {
    PowerOfTwo(c.size) && forall g :: 0 <= g < |c.outSizes| ==> c.outSizes[g] > 0 && PowerOfTwo(c.outSizes[g])
  }

  /** The whole pipeline, the id counters of the LIVE gateways, and the number of REPLAY gateways. */
  datatype Live = Live(sys: P.State, counters: seq<nat>, replay: nat)

  /** Placing an order settles its id and then wants a slot; all else is as for the pipeline alone. */
  datatype Turn =
    | Mint(p: nat, g: nat, price: int, volume: int, sell: bool, time: int, silent: bool)
    | Replay(p: nat, g: nat, price: int, volume: int, sell: bool, time: int, silent: bool, id: nat)
    | Other(act: P.Action)

  function Start(c: Setup): (l: Live)
    requires HasRings(c)
    ensures P.Shaped(l.sys)
  {
    Live(P.Init(c.size, c.producers, c.outSizes), seq(c.live, _ => 0), c.replay)
  }

  /** The gateway of the turn exists; REPLAY gateways are numbered after the LIVE ones. */
  predicate HasGateway(l: Live, t: Turn) {
    (t.Mint? && t.g < |l.counters|) || (t.Replay? && |l.counters| <= t.g < |l.counters| + l.replay)
  }

  function Submitted(l: Live, t: Turn): P.Submission
    requires HasGateway(l, t)
  {
    var id := if t.Mint? then l.counters[t.g] else t.id;
    In.Submission(Event(New(t.price, t.volume, t.sell, id), t.time), t.g, t.silent)
  }

  function CountersAfter(l: Live, t: Turn): seq<nat>
    requires HasGateway(l, t)
  {
    if t.Mint? then l.counters[t.g := l.counters[t.g] + 1] else l.counters
  }

  predicate CanPlace(l: Live, t: Turn) {
    HasGateway(l, t) && t.p < |l.sys.ring.producers| && l.sys.ring.producers[t.p].Idle?
  }

  /** An action that would bring in an order past all gateways. */
  predicate BringsNew(act: P.Action) {
    act.Producer? && act.act.Want? && act.act.sub.event.req.New?
  }

  function Next(l: Live, t: Turn): (l': Live)
    requires P.Shaped(l.sys)
    ensures P.Shaped(l'.sys) && |l'.counters| == |l.counters| && l'.replay == l.replay
  {
    if t.Other? then
      if BringsNew(t.act) then l else l.(sys := P.Step(l.sys, t.act))
    else if CanPlace(l, t) then
      l.(sys := P.Step(l.sys, P.Producer(In.Want(t.p, Submitted(l, t)))), counters := CountersAfter(l, t))
    else l
  }

  function Turns(l: Live, turns: seq<Turn>): (l': Live)
    requires P.Shaped(l.sys)
    ensures P.Shaped(l'.sys) && |l'.counters| == |l.counters| && l'.replay == l.replay
  {
    if turns == [] then l else Next(Turns(l, turns[..|turns| - 1]), turns[|turns| - 1])
  }

  /** The hypotheses of the pipeline, for turns. */
  ghost predicate Fair(l: Live, t: Turn) {
    if t.Other? then P.Allowed(l.sys, t.act)
    else CanPlace(l, t) ==> P.Allowed(l.sys, P.Producer(In.Want(t.p, Submitted(l, t))))
  }

  ghost predicate AllFair(l: Live, turns: seq<Turn>)
    requires P.Shaped(l.sys)
  {
    turns != [] ==> AllFair(l, turns[..|turns| - 1]) && Fair(Turns(l, turns[..|turns| - 1]), turns[|turns| - 1])
  }

  // ---------- Ids of one gateway differ ----------

  predicate Pending(p: In.Producer) {
    p.Wanting? || p.Loaded? || p.Checked?
  }

  ghost predicate Minted(s: P.Submission, counters: seq<nat>) {
    s.event.req.New? ==> s.gid < |counters| && 0 <= s.event.req.id < counters[s.gid]
  }

  /** Not two orders of one gateway with one id. */
  ghost predicate Differ(s: P.Submission, t: P.Submission) {
    s.event.req.New? && t.event.req.New? && s.gid == t.gid ==> s.event.req.id != t.event.req.id
  }

  ghost predicate IdsHold(ring: In.State, counters: seq<nat>) {
    var (log, ps) := (ring.log, ring.producers);
    && (forall i :: 0 <= i < |log| ==> Minted(log[i], counters))
    && (forall p :: 0 <= p < |ps| && Pending(ps[p]) ==> Minted(ps[p].sub, counters))
    && (forall i, j :: 0 <= i < j < |log| ==> Differ(log[i], log[j]))
    && (forall i, p :: 0 <= i < |log| && 0 <= p < |ps| && Pending(ps[p]) ==> Differ(log[i], ps[p].sub))
    && (forall p, q :: 0 <= p < q < |ps| && Pending(ps[p]) && Pending(ps[q]) ==> Differ(ps[p].sub, ps[q].sub))
  }

  /** Besides wanting a slot, no step makes a submission pending; and what a claim logs was pending and no
      longer is. */
  lemma PendingIsOld(r: In.State, a: In.Action)
    requires r.slots != []
    ensures var r' := In.Step(r, a);
      && (forall p :: 0 <= p < |r'.producers| && Pending(r'.producers[p]) ==>
            (Pending(r.producers[p]) && r'.producers[p].sub == r.producers[p].sub)
            || (a.Want? && r'.producers[p].sub == a.sub))
      && (r'.log != r.log ==>
            && a.Cas? && a.p < |r.producers| && Pending(r.producers[a.p]) && !Pending(r'.producers[a.p])
            && r'.log == r.log + [r.producers[a.p].sub])
  {
  }

  lemma StepKeepsIds(r: In.State, counters: seq<nat>, a: In.Action)
    requires r.slots != [] && IdsHold(r, counters) && !(a.Want? && a.sub.event.req.New?)
    ensures IdsHold(In.Step(r, a), counters)
  {
    PendingIsOld(r, a);
  }

  /** What the pipeline does to the inbound ring is a step of the ring, or nothing. */
  lemma RingSteps(s: P.State, act: P.Action) returns (a: In.Action)
    requires P.Shaped(s) && !BringsNew(act)
    ensures !(a.Want? && a.sub.event.req.New?)
    ensures P.Step(s, act).ring == In.Step(s.ring, a) || P.Step(s, act).ring == s.ring
  {
    hide Apply, P.AckOf;
    match act
    case Producer(b) => a := b;
    case Reader(_) => a := In.Poll;
    case EngineStep =>
      a := if s.engine == P.Releasing then In.Release else if s.engine == P.Advancing then In.Advance else In.Poll;
  }

  lemma MintKeepsIds(l: Live, t: Turn)
    requires P.Shaped(l.sys) && IdsHold(l.sys.ring, l.counters) && t.Mint?
    ensures IdsHold(Next(l, t).sys.ring, Next(l, t).counters)
  {
  }

  lemma NextKeepsIds(l: Live, t: Turn)
    requires P.Shaped(l.sys) && IdsHold(l.sys.ring, l.counters) && l.replay == 0
    ensures IdsHold(Next(l, t).sys.ring, Next(l, t).counters)
  {
    if t.Mint? {
      MintKeepsIds(l, t);
    } else if t.Other? && !BringsNew(t.act) {
      var a := RingSteps(l.sys, t.act);
      StepKeepsIds(l.sys.ring, l.counters, a);
    }
  }

  /** Without REPLAY gateways, in every run ids of one gateway are pairwise distinct, in the log and in the
      claims under way. */
  lemma {:induction false} TurnsKeepIds(c: Setup, turns: seq<Turn>)
    requires HasRings(c) && c.replay == 0
    ensures var l := Turns(Start(c), turns); IdsHold(l.sys.ring, l.counters)
  {
    if turns != [] {
      TurnsKeepIds(c, turns[..|turns| - 1]);
      NextKeepsIds(Turns(Start(c), turns[..|turns| - 1]), turns[|turns| - 1]);
    }
  }

  lemma {:induction false} TurnsKeepInv(c: Setup, turns: seq<Turn>)
    requires HasMaskedRings(c) && AllFair(Start(c), turns)
    ensures P.Inv(Turns(Start(c), turns).sys)
  {
    if turns == [] {
      P.InitHolds(c.size, c.producers, c.outSizes);
    } else {
      var before, t := Turns(Start(c), turns[..|turns| - 1]), turns[|turns| - 1];
      TurnsKeepInv(c, turns[..|turns| - 1]);
      if t.Other? {
        if !BringsNew(t.act) { P.StepKeeps(before.sys, t.act); }
      } else if CanPlace(before, t) {
        P.StepKeeps(before.sys, P.Producer(In.Want(t.p, Submitted(before, t))));
      }
    }
  }

  /** All ids come from one counter. */
  predicate OneOrigin(c: Setup) {
    c.live <= 1 && c.replay == 0
  }

  lemma {:induction false} OneOriginIsFresh(c: Setup, turns: seq<Turn>)
    requires HasRings(c) && OneOrigin(c)
    ensures FreshIds(P.Events(Turns(Start(c), turns).sys.ring.log))
  {
    TurnsKeepIds(c, turns);
    var l := Turns(Start(c), turns);
    var log := l.sys.ring.log;
    forall i, j | 0 <= i < j < |log| && log[i].event.req.New? && log[j].event.req.New?
      ensures log[i].event.req.id != log[j].event.req.id
    {
      assert Minted(log[i], l.counters) && Minted(log[j], l.counters) && Differ(log[i], log[j]);
    }
  }

  /** With one LIVE gateway and no REPLAY one, however many threads place orders through it: in every run
      without lapping the engine's book finds each of its orders under the order's own id. */
  lemma {:induction false} OneLiveGateway(c: Setup, turns: seq<Turn>)
    requires HasMaskedRings(c) && OneOrigin(c) && AllFair(Start(c), turns)
    ensures IndexComplete(Turns(Start(c), turns).sys.book)
  {
    var s := Turns(Start(c), turns).sys;
    OneOriginIsFresh(c, turns);
    TurnsKeepInv(c, turns);
    var n := P.WorkOf(s).Applied();
    assert P.Events(s.ring.log[..n]) == P.Events(s.ring.log)[..n];
    FreshRunIsComplete(P.Events(s.ring.log)[..n]);
  }

  // ---------- Two origins can bring the same id ----------

  lemma {:induction false} OneMore(l: Live, turns: seq<Turn>, t: Turn)
    requires P.Shaped(l.sys)
    ensures Turns(l, turns + [t]) == Next(Turns(l, turns), t)
    ensures AllFair(l, turns + [t]) <==> AllFair(l, turns) && Fair(Turns(l, turns), t)
  {
    assert (turns + [t])[..|turns|] == turns;
  }

  /** What the pipeline can do with no new submissions, it can do as turns. */
  lemma {:induction false} AsTurns(start: Live, turns: seq<Turn>, actions: seq<P.Action>) returns (longer: seq<Turn>)
    requires P.Shaped(start.sys) && AllFair(start, turns)
    requires NoWants(actions) && P.AllAllowed(Turns(start, turns).sys, actions)
    ensures var l := Turns(start, turns);
      AllFair(start, longer) && Turns(start, longer) == l.(sys := P.Run(l.sys, actions))
  {
    hide P.Step, P.Allowed;
    if actions == [] {
      longer := turns;
    } else {
      longer := AsTurns(start, turns, actions[..|actions| - 1]);
      var last := actions[|actions| - 1];
      OneMore(start, longer, Other(last));
      longer := longer + [Other(last)];
    }
  }

  /** A gateway is handed an order and asks for a slot. */
  lemma {:induction false} Asks(start: Live, turns: seq<Turn>, t: Turn)
    requires P.Shaped(start.sys) && AllFair(start, turns)
    requires P.Inv(Turns(start, turns).sys) && CanPlace(Turns(start, turns), t) && t.silent
    ensures var l, l' := Turns(start, turns), Turns(start, turns + [t]);
      && AllFair(start, turns + [t]) && P.Inv(l'.sys) && l'.counters == CountersAfter(l, t) && l'.replay == l.replay
      && l'.sys.ring.log == l.sys.ring.log
      && l'.sys.ring.producers == l.sys.ring.producers[t.p := In.Wanting(Submitted(l, t))]
  {
    hide Turns, AllFair, P.Inv;
    var l := Turns(start, turns);
    P.StepKeeps(l.sys, P.Producer(In.Want(t.p, Submitted(l, t))));
    OneMore(start, turns, t);
  }

  /** In a settled state an order is placed, and the pipeline settles again. */
  lemma Cycle(start: Live, turns: seq<Turn>, t: Turn) returns (longer: seq<Turn>)
    requires P.Shaped(start.sys) && AllFair(start, turns)
    requires P.Inv(Turns(start, turns).sys) && Settled(Turns(start, turns).sys)
    requires CanPlace(Turns(start, turns), t) && t.silent
    ensures var l, l' := Turns(start, turns), Turns(start, longer);
      && AllFair(start, longer) && P.Inv(l'.sys) && Settled(l'.sys)
      && |l'.sys.ring.producers| == |l.sys.ring.producers|
      && l'.counters == CountersAfter(l, t) && l'.replay == l.replay
      && l'.sys.ring.log == l.sys.ring.log + [Submitted(l, t)]
  {
    hide Turns, AllFair, P.Inv, P.Run, P.AllAllowed, P.AcksFor, P.BookAfter, Unticketed, Submitted, CountersAfter;
    var l := Turns(start, turns);
    OnePending(l.sys.ring.producers, t.p, Submitted(l, t), 0);
    hide Settled;
    Asks(start, turns, t);
    var actions, s' := Settles(Turns(start, turns + [t]).sys);
    longer := AsTurns(start, turns + [t], actions);
  }

  lemma {:induction false} OnePending(ps: seq<In.Producer>, p: nat, sub: P.Submission, k: nat)
    requires p < |ps| && k <= |ps| && forall i :: 0 <= i < |ps| ==> ps[i].Idle?
    ensures Unticketed(ps[p := In.Wanting(sub)], k) == if k <= p then [sub] else []
    decreases |ps| - k
  {
    if k < |ps| { OnePending(ps, p, sub, k + 1); }
  }

  const FIRST := Event(New(100, 5, true, 0), 1)
  const SECOND := Event(New(101, 7, true, 0), 2)

  /** The two orders have both come in through gateways `g` and `h`, and the engine's book does not find the
      first one under its id. */
  ghost predicate HaveCollided(l: Live, g: nat, h: nat) {
    && l.sys.ring.log == [In.Submission(FIRST, g, true), In.Submission(SECOND, h, true)]
    && !FreshIds(P.Events(l.sys.ring.log)) && l.sys.book == Run(EMPTY, [FIRST, SECOND]) && !IndexComplete(l.sys.book)
  }

  lemma StartsSettled(c: Setup)
    requires HasMaskedRings(c)
    ensures P.Inv(Start(c).sys) && Settled(Start(c).sys)
  {
    P.InitHolds(c.size, c.producers, c.outSizes);
  }

  lemma Collided(l: Live, g: nat, h: nat)
    requires Settled(l.sys) && l.sys.ring.log == [In.Submission(FIRST, g, true), In.Submission(SECOND, h, true)]
    ensures HaveCollided(l, g, h)
  {
    hide Apply, Run, IndexComplete;
    var events := P.Events(l.sys.ring.log);
    assert events == [FIRST, SECOND] && events[0].req.id == events[1].req.id;
    TwoCountersCollide();
  }

  lemma BothPlaced(c: Setup, t: Turn, u: Turn) returns (turns: seq<Turn>)
    requires HasMaskedRings(c) && c.producers > 0
    requires HasGateway(Start(c), t) && t.p == 0 && t.silent && Submitted(Start(c), t).event == FIRST
    requires var l := Start(c).(counters := CountersAfter(Start(c), t));
      HasGateway(l, u) && u.p == 0 && u.silent && Submitted(l, u).event == SECOND
    ensures AllFair(Start(c), turns) && HaveCollided(Turns(Start(c), turns), t.g, u.g)
  {
    var l := Start(c);
    assert Turns(l, []) == l && AllFair(l, []);
    StartsSettled(c);
    hide Turns, AllFair, HaveCollided, IndexComplete, Apply, Start, P.Inv, P.AcksFor, P.BookAfter;
    var once := Cycle(l, [], t);
    turns := Cycle(l, once, u);
    Collided(Turns(l, turns), t.g, u.g);
  }

  /** Two LIVE gateways mint id 0 one after the other. */
  lemma TwoGatewaysCollide(c: Setup) returns (turns: seq<Turn>)
    requires HasMaskedRings(c) && c.producers > 0 && c.live >= 2
    ensures AllFair(Start(c), turns) && HaveCollided(Turns(Start(c), turns), 0, 1)
  {
    turns := BothPlaced(c, Mint(0, 0, 100, 5, true, 1, true), Mint(0, 1, 101, 7, true, 2, true));
  }

  /** A LIVE gateway mints id 0, and a REPLAY gateway passes on id 0. */
  lemma ReplayCollides(c: Setup) returns (turns: seq<Turn>)
    requires HasMaskedRings(c) && c.producers > 0 && c.live >= 1 && c.replay >= 1
    ensures AllFair(Start(c), turns) && HaveCollided(Turns(Start(c), turns), 0, c.live)
  {
    turns := BothPlaced(c, Mint(0, 0, 100, 5, true, 1, true), Replay(0, c.live, 101, 7, true, 2, true, 0));
  }

  /** A REPLAY gateway passes on id 0 twice. */
  lemma ReplayRepeats(c: Setup) returns (turns: seq<Turn>)
    requires HasMaskedRings(c) && c.producers > 0 && c.replay >= 1
    ensures AllFair(Start(c), turns) && HaveCollided(Turns(Start(c), turns), c.live, c.live)
  {
    turns := BothPlaced(c, Replay(0, c.live, 100, 5, true, 1, true, 0), Replay(0, c.live, 101, 7, true, 2, true, 0));
  }

  lemma SomeOrdersCollide(c: Setup) returns (turns: seq<Turn>)
    requires HasMaskedRings(c) && c.producers > 0 && !OneOrigin(c)
    ensures AllFair(Start(c), turns)
    ensures !FreshIds(P.Events(Turns(Start(c), turns).sys.ring.log)) && !IndexComplete(Turns(Start(c), turns).sys.book)
  {
    hide Turns, AllFair, FreshIds, IndexComplete, Run;
    if c.replay > 0 {
      turns := ReplayRepeats(c);
    } else {
      turns := TwoGatewaysCollide(c);
    }
  }

  /** Ids are fresh in all runs if and only if they all come from one counter: at most one LIVE gateway, and
      no REPLAY one. */
  lemma FreshIffOneOrigin(c: Setup)
    requires HasMaskedRings(c) && c.producers > 0
    ensures (forall turns :: FreshIds(P.Events(Turns(Start(c), turns).sys.ring.log))) <==> OneOrigin(c)
  {
    hide Turns, AllFair, FreshIds, IndexComplete, P.Events;
    if OneOrigin(c) {
      forall turns ensures FreshIds(P.Events(Turns(Start(c), turns).sys.ring.log)) {
        OneOriginIsFresh(c, turns);
      }
    } else {
      var turns := SomeOrdersCollide(c);
    }
  }

  /** And so the engine's book finds every order under its own id, in all runs without lapping, if and only
      if all ids come from one counter. */
  lemma CompleteIffOneOrigin(c: Setup)
    requires HasMaskedRings(c) && c.producers > 0
    ensures (forall turns :: AllFair(Start(c), turns) ==> IndexComplete(Turns(Start(c), turns).sys.book))
      <==> OneOrigin(c)
  {
    hide Turns, AllFair, FreshIds, IndexComplete, P.Events;
    if OneOrigin(c) {
      forall turns | AllFair(Start(c), turns) ensures IndexComplete(Turns(Start(c), turns).sys.book) {
        OneLiveGateway(c, turns);
      }
    } else {
      var turns := SomeOrdersCollide(c);
    }
  }
}
