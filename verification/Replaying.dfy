/**
 A replay from end to end: the adapter takes the lines of a file one by one and hands its requests to a REPLAY
 gateway, the only producer of the pipeline, while engine and readers run beside it.
 */
module Replaying {
  import opened Book
  import opened Rings
  import opened Adapter
  import opened Progress
  import P = Pipeline
  import In = Inbound

  /** `taken` is history: the lines that the adapter has taken so far. */
  datatype Replay = Replay(sys: P.State, adapter: State, taken: seq<Line>)

  /** The adapter takes a line when its last request has been published; all else is a step of the pipeline. */
  datatype Turn = Take(line: Line) | Other(act: P.Action)

  function Start(size: nat, outSizes: seq<nat>): (r: Replay)
    requires size > 0 && forall g :: 0 <= g < |outSizes| ==> outSizes[g] > 0
    ensures P.Shaped(r.sys)
  {
    Replay(P.Init(size, 1, outSizes), START, [])
  }

  /** A REPLAY gateway wants no acks unless it is told otherwise. */
  function Handed(e: Event, gid: nat): P.Submission {
    In.Submission(e, gid, true)
  }

  function AllHanded(sent: seq<Event>, gid: nat): seq<P.Submission> {
    seq(|sent|, i requires 0 <= i < |sent| => Handed(sent[i], gid))
  }

  function Next(r: Replay, gid: nat, t: Turn): (r': Replay)
    requires P.Shaped(r.sys)
    ensures P.Shaped(r'.sys)
  {
    match t
    case Other(act) => if act.Producer? && act.act.Want? then r else r.(sys := P.Step(r.sys, act))
    case Take(line) =>
      if r.sys.ring.producers != [] && r.sys.ring.producers[0].Idle? then
        var a := Took(r.adapter, line);
        var sys :=
          if |a.sent| == |r.adapter.sent| + 1 then
            P.Step(r.sys, P.Producer(In.Want(0, Handed(a.sent[|r.adapter.sent|], gid))))
          else r.sys;
        Replay(sys, a, r.taken + [line])
      else r
  }

  function Turns(r: Replay, gid: nat, turns: seq<Turn>): (r': Replay)
    requires P.Shaped(r.sys)
    ensures P.Shaped(r'.sys)
  {
    if turns == [] then r else Next(Turns(r, gid, turns[..|turns| - 1]), gid, turns[|turns| - 1])
  }

  // ---------- What holds in every state ----------

  /** What has a ticket, and then what has none yet. */
  function HandedIn(r: In.State): seq<P.Submission> {
    r.log + Unticketed(r.producers, 0)
  }

  ghost predicate Inv(r: Replay, gid: nat) {
    && P.Shaped(r.sys) && P.Inv(r.sys) && |r.sys.ring.producers| == 1
    && r.adapter == Streamed(START, r.taken) && HandedIn(r.sys.ring) == AllHanded(r.adapter.sent, gid)
  }

  /** The engine stops for no ack, so no step needs a hypothesis on the outbound rings; and one producer alone
      cannot lap. */
  lemma AlwaysAllowed(r: Replay, gid: nat, act: P.Action)
    requires Inv(r, gid) && (act.Producer? && act.act.Want? ==> act.act.sub.silent)
    ensures P.Allowed(r.sys, act)
  {
    AllSilent(r, gid);
    if act.Producer? { In.AloneNeverLaps(r.sys.ring, act.act); }
  }

  lemma AllSilent(r: Replay, gid: nat)
    requires Inv(r, gid)
    ensures forall i :: 0 <= i < |r.sys.ring.log| ==> r.sys.ring.log[i].silent
  {
    assert forall i :: 0 <= i < |r.sys.ring.log| ==> r.sys.ring.log[i] == HandedIn(r.sys.ring)[i];
  }

  lemma StepKeepsHandedIn(r: In.State, a: In.Action)
    requires r.slots != [] && |r.producers| == 1 && !a.Want?
    ensures HandedIn(In.Step(r, a)) == HandedIn(r)
  {
    assert Unticketed(r.producers, 1) == Unticketed(In.Step(r, a).producers, 1) == [];
  }

  lemma PipeKeepsHandedIn(s: P.State, act: P.Action)
    requires P.Shaped(s) && |s.ring.producers| == 1 && !(act.Producer? && act.act.Want?)
    ensures HandedIn(P.Step(s, act).ring) == HandedIn(s.ring)
    ensures |P.Step(s, act).ring.producers| == 1
  {
    hide Apply, P.AckOf, HandedIn, In.Step;
    match act
    case Producer(a) => StepKeepsHandedIn(s.ring, a);
    case Reader(_) =>
    case EngineStep =>
      StepKeepsHandedIn(s.ring, In.Poll);
      StepKeepsHandedIn(s.ring, In.Release);
      StepKeepsHandedIn(s.ring, In.Advance);
  }

  lemma WantHandsIn(s: P.State, sub: P.Submission)
    requires P.Shaped(s) && |s.ring.producers| == 1 && s.ring.producers[0].Idle?
    ensures var s' := P.Step(s, P.Producer(In.Want(0, sub)));
      HandedIn(s'.ring) == HandedIn(s.ring) + [sub] && |s'.ring.producers| == 1
  {
    assert P.Step(s, P.Producer(In.Want(0, sub))).ring.producers == [In.Wanting(sub)];
    assert Unticketed([In.Wanting(sub)], 1) == [] == Unticketed(s.ring.producers, 1);
    assert Unticketed([In.Wanting(sub)], 0) == [sub] && Unticketed(s.ring.producers, 0) == [];
  }

  lemma NextKeeps(r: Replay, gid: nat, t: Turn)
    requires Inv(r, gid)
    ensures Inv(Next(r, gid, t), gid)
  {
    hide P.Inv, P.Step, HandedIn, Took;
    match t
    case Other(act) =>
      if !(act.Producer? && act.act.Want?) {
        AlwaysAllowed(r, gid, act);
        P.StepKeeps(r.sys, act);
        PipeKeepsHandedIn(r.sys, act);
      }
    case Take(line) =>
      if r.sys.ring.producers[0].Idle? {
        var a := Took(r.adapter, line);
        SendsOne(r.adapter, line);
        assert (r.taken + [line])[..|r.taken|] == r.taken;
        if |a.sent| == |r.adapter.sent| + 1 {
          var sub := Handed(a.sent[|r.adapter.sent|], gid);
          AlwaysAllowed(r, gid, P.Producer(In.Want(0, sub)));
          P.StepKeeps(r.sys, P.Producer(In.Want(0, sub)));
          WantHandsIn(r.sys, sub);
          assert a.sent == r.adapter.sent + [a.sent[|r.adapter.sent|]];
        }
      }
  }

  lemma {:induction false} TurnsKeep(size: nat, outSizes: seq<nat>, gid: nat, turns: seq<Turn>)
    requires PowerOfTwo(size) && forall g :: 0 <= g < |outSizes| ==> outSizes[g] > 0 && PowerOfTwo(outSizes[g])
    ensures Inv(Turns(Start(size, outSizes), gid, turns), gid)
  {
    if turns == [] {
      P.InitHolds(size, 1, outSizes);
      assert Unticketed(P.Init(size, 1, outSizes).ring.producers, 1) == [];
    } else {
      TurnsKeep(size, outSizes, gid, turns[..|turns| - 1]);
      NextKeeps(Turns(Start(size, outSizes), gid, turns[..|turns| - 1]), gid, turns[|turns| - 1]);
    }
  }

  // ---------- The adapter against the engine's book ----------

  /** In every state the engine's book is that of the first requests the adapter has sent. */
  lemma BookIsOfSent(r: Replay, gid: nat)
    requires Inv(r, gid)
    ensures P.Seen(r.sys) <= |r.adapter.sent| && r.sys.book == Run(EMPTY, r.adapter.sent[..P.Seen(r.sys)])
  {
    hide Apply, Run, Streamed, P.AllOutHold;
    var log, n := r.sys.ring.log, P.Seen(r.sys);
    assert forall i :: 0 <= i < |log| ==> log[i] == HandedIn(r.sys.ring)[i];
    assert P.Events(log[..n]) == r.adapter.sent[..n];
  }

  /** Each prefix of what was sent is what was sent for a prefix of the lines. */
  lemma {:induction false} SentSoFar(lines: seq<Line>, n: nat) returns (k: nat)
    requires n <= |Streamed(START, lines).sent|
    ensures k <= |lines| && Streamed(START, lines[..k]).sent == Streamed(START, lines).sent[..n]
  {
    hide Took;
    if lines == [] || n == |Streamed(START, lines).sent| {
      k := |lines|;
      assert lines[..k] == lines;
    } else {
      var before := lines[..|lines| - 1];
      SendsOne(Streamed(START, before), lines[|lines| - 1]);
      k := SentSoFar(before, n);
      assert before[..k] == lines[..k];
    }
  }

  lemma {:induction false} AdmissibleSoFar(lines: seq<Line>, k: nat)
    requires AllAdmissible(lines) && k <= |lines|
    ensures AllAdmissible(lines[..k])
  {
    hide Admissible;
    if k == |lines| {
      assert lines[..k] == lines;
    } else {
      AdmissibleSoFar(lines[..|lines| - 1], k);
      assert lines[..|lines| - 1][..k] == lines[..k];
    }
  }

  /** Whatever the interleaving of adapter, engine and readers: the engine's own book is at every moment dominated
      by the adapter as it was after some of the lines, which were all those for which the engine has applied the
      requests; and with no negative reduction it agrees on the orders that never traded. */
  lemma {:induction false} AdapterLeadsEngine(size: nat, outSizes: seq<nat>, gid: nat, turns: seq<Turn>)
    returns (k: nat)
    requires PowerOfTwo(size) && forall g :: 0 <= g < |outSizes| ==> outSizes[g] > 0 && PowerOfTwo(outSizes[g])
    requires AllAdmissible(Turns(Start(size, outSizes), gid, turns).taken)
    ensures var r := Turns(Start(size, outSizes), gid, turns);
      k <= |r.taken|
      && var a := Streamed(START, r.taken[..k]);
         && P.Seen(r.sys) <= |r.adapter.sent| && a.sent == r.adapter.sent[..P.Seen(r.sys)]
         && Follows(a, r.sys.book)
         && (ReducesOnly(r.taken) ==> FollowsExactly(a, r.sys.book, EverTraded(a.sent)))
  {
    hide Run, Took, Follows, FollowsExactly;
    var r := Turns(Start(size, outSizes), gid, turns);
    TurnsKeep(size, outSizes, gid, turns);
    BookIsOfSent(r, gid);
    k := SentSoFar(r.taken, P.Seen(r.sys));
    AdmissibleSoFar(r.taken, k);
    AdapterDominatesBook(r.taken[..k]);
  }

  /** Once the engine has seen all that was sent, it is the adapter as it is now. */
  lemma {:induction false} AdapterDominatesEngine(size: nat, outSizes: seq<nat>, gid: nat, turns: seq<Turn>)
    requires PowerOfTwo(size) && forall g :: 0 <= g < |outSizes| ==> outSizes[g] > 0 && PowerOfTwo(outSizes[g])
    requires AllAdmissible(Turns(Start(size, outSizes), gid, turns).taken)
    ensures var r := Turns(Start(size, outSizes), gid, turns);
      P.Seen(r.sys) == |r.adapter.sent| ==>
        && Follows(r.adapter, r.sys.book)
        && (ReducesOnly(r.taken) ==> FollowsExactly(r.adapter, r.sys.book, EverTraded(r.adapter.sent)))
  {
    hide Run, Took, Follows, FollowsExactly;
    var r := Turns(Start(size, outSizes), gid, turns);
    TurnsKeep(size, outSizes, gid, turns);
    BookIsOfSent(r, gid);
    AdapterDominatesBook(r.taken);
    assert r.adapter.sent[..|r.adapter.sent|] == r.adapter.sent;
  }

  // ---------- A replay can always be finished ----------

  lemma {:induction false} AsTurns(start: Replay, gid: nat, turns: seq<Turn>, actions: seq<P.Action>)
    returns (longer: seq<Turn>)
    requires P.Shaped(start.sys) && NoWants(actions)
    ensures var r := Turns(start, gid, turns);
      Turns(start, gid, longer) == r.(sys := P.Run(r.sys, actions))
  {
    hide P.Step;
    if actions == [] {
      longer := turns;
    } else {
      longer := AsTurns(start, gid, turns, actions[..|actions| - 1]);
      var last := Other(actions[|actions| - 1]);
      assert (longer + [last])[..|longer|] == longer;
      longer := longer + [last];
    }
  }

  /** All that the adapter has sent has been applied, and it may take the next line. */
  ghost predicate CaughtUp(r: Replay) {
    r.sys.ring.producers == [In.Idle] && r.sys.book == Run(EMPTY, r.adapter.sent)
  }

  lemma {:induction false} CatchesUp(size: nat, outSizes: seq<nat>, gid: nat, turns: seq<Turn>)
    returns (longer: seq<Turn>)
    requires PowerOfTwo(size) && forall g :: 0 <= g < |outSizes| ==> outSizes[g] > 0 && PowerOfTwo(outSizes[g])
    ensures var (r, r') := (Turns(Start(size, outSizes), gid, turns), Turns(Start(size, outSizes), gid, longer));
      r'.adapter == r.adapter && r'.taken == r.taken && CaughtUp(r')
  {
    var start := Start(size, outSizes);
    var r := Turns(start, gid, turns);
    TurnsKeep(size, outSizes, gid, turns);
    var actions, s' := Settles(r.sys);
    longer := AsTurns(start, gid, turns, actions);
    var r' := Turns(start, gid, longer);
    assert r'.sys.ring.log == HandedIn(r.sys.ring) == AllHanded(r.adapter.sent, gid);
    assert P.Events(r'.sys.ring.log) == r.adapter.sent;
  }

  /** Every replay can be continued, with no further line, until the engine has applied every request for the
      lines taken; and then its book is dominated by the adapter. */
  lemma {:induction false} ReplayCanFinish(size: nat, outSizes: seq<nat>, gid: nat, turns: seq<Turn>)
    returns (longer: seq<Turn>)
    requires PowerOfTwo(size) && forall g :: 0 <= g < |outSizes| ==> outSizes[g] > 0 && PowerOfTwo(outSizes[g])
    requires AllAdmissible(Turns(Start(size, outSizes), gid, turns).taken)
    ensures var (r, r') := (Turns(Start(size, outSizes), gid, turns), Turns(Start(size, outSizes), gid, longer));
      && r'.adapter == r.adapter && r'.taken == r.taken && CaughtUp(r') && Follows(r.adapter, r'.sys.book)
  {
    longer := CatchesUp(size, outSizes, gid, turns);
    TurnsKeep(size, outSizes, gid, turns);
    AdapterDominatesBook(Turns(Start(size, outSizes), gid, turns).taken);
  }

  lemma {:induction false} TakesLine(start: Replay, gid: nat, turns: seq<Turn>, line: Line)
    requires P.Shaped(start.sys) && Turns(start, gid, turns).sys.ring.producers == [In.Idle]
    ensures var (r, r') := (Turns(start, gid, turns), Turns(start, gid, turns + [Take(line)]));
      r'.taken == r.taken + [line] && r'.adapter == Took(r.adapter, line)
  {
    hide P.Step, Took;
    assert (turns + [Take(line)])[..|turns|] == turns;
  }

  /** Any file can be replayed from beginning to end, through rings of any size: there is a run in which the
      adapter takes all its lines and the engine applies all its requests. */
  lemma {:induction false} EveryFileCanBeReplayed(size: nat, outSizes: seq<nat>, gid: nat, lines: seq<Line>)
    returns (turns: seq<Turn>)
    requires PowerOfTwo(size) && forall g :: 0 <= g < |outSizes| ==> outSizes[g] > 0 && PowerOfTwo(outSizes[g])
    ensures var r := Turns(Start(size, outSizes), gid, turns);
      r.taken == lines && r.adapter == Streamed(START, lines) && CaughtUp(r)
  {
    var start := Start(size, outSizes);
    if lines == [] {
      turns := CatchesUp(size, outSizes, gid, []);
    } else {
      var before := EveryFileCanBeReplayed(size, outSizes, gid, lines[..|lines| - 1]);
      var last := Take(lines[|lines| - 1]);
      TakesLine(start, gid, before, lines[|lines| - 1]);
      hide Next, Turns, Took;
      turns := CatchesUp(size, outSizes, gid, before + [last]);
    }
    TurnsKeep(size, outSizes, gid, turns);
  }
}
