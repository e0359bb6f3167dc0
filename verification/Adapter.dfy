/**
 The replay adapter: rows of a message file become place, cancel and modify requests, and the adapter
 keeps its own idea of the order sizes, because a row says by how much to reduce an order and a modify
 request says to what size.  A row is taken as parsed, with its time already in nanoseconds.
 */
module Adapter {
  import opened Book
  import opened Sweeps
  import opened Invariants
  import opened Identity
  import opened Resizing
  import opened Outcomes

  datatype Row = Row(time: int, kind: int, order_id: int, size: int, price: int, direction: int)

  datatype Line = Blank | Malformed | Parsed(row: Row)

  /** `sent` are the requests given to the gateway so far. */
  datatype State = State(live: map<int, int>, processed: nat, skipped: nat, failed: nat, sent: seq<Event>)

  const START := State(map[], 0, 0, 0, [])

  function Send(a: State, req: Request, time: int, live: map<int, int>): State {
    a.(live := live, processed := a.processed + 1, sent := a.sent + [Event(req, time)])
  }

  function Dispatched(a: State, row: Row): State {
    if row.kind == 1 then
      Send(a, New(row.price, row.size, row.direction == -1, row.order_id), row.time, a.live[row.order_id := row.size])
    else if row.kind == 2 then
      if row.order_id !in a.live || a.live[row.order_id] - row.size <= 0 then a.(failed := a.failed + 1)
      else
        var size := a.live[row.order_id] - row.size;
        Send(a, ModifyReq(row.order_id, size), row.time, a.live[row.order_id := size])
    else if row.kind == 3 then
      Send(a, CancelReq(row.order_id), row.time, a.live - {row.order_id})
    else if 4 <= row.kind <= 7 then a.(skipped := a.skipped + 1)
    else a.(failed := a.failed + 1)
  }

  function Took(a: State, line: Line): State {
    match line
    case Blank => a
    case Malformed => a.(failed := a.failed + 1)
    case Parsed(row) => Dispatched(a, row)
  }

  function Streamed(a: State, lines: seq<Line>): State {
    if lines == [] then a else Took(Streamed(a, lines[..|lines| - 1]), lines[|lines| - 1])
  }

  /** What the gateway asserts of a row that reaches it. */
  predicate Accepted(a: State, row: Row) {
    && (row.kind == 1 ==> row.order_id >= 0)
    && (row.kind == 1 || row.kind == 3 || (row.kind == 2 && Reduces(a, row)) ==> row.time >= 0)
  }

  /** A reduction row for a known order that leaves something of it. */
  predicate Reduces(a: State, row: Row) {
    row.order_id in a.live && a.live[row.order_id] - row.size > 0
  }

  /** Exactly one counter has grown, by one; a request has been sent exactly if it is the processed one; and
      what had been sent before is still there. */
  ghost predicate OneMoreCounted(a: State, a': State) {
    && a'.processed + a'.skipped + a'.failed == a.processed + a.skipped + a.failed + 1
    && a'.processed >= a.processed && a'.skipped >= a.skipped && a'.failed >= a.failed
    && a.sent <= a'.sent && |a'.sent| - |a.sent| == a'.processed - a.processed
    && (a'.processed == a.processed ==> a'.live == a.live)
  }

  class LobsterReplayAdapter {
    var live_sizes: map<int, int>
    var rows_processed: nat
    var rows_skipped: nat
    var rows_failed: nat
    var gateway: seq<Event>

    ghost function Value(): State
      reads this
    {
      State(live_sizes, rows_processed, rows_skipped, rows_failed, gateway)
    }

    constructor ()
      ensures Value() == START
    {
      live_sizes, rows_processed, rows_skipped, rows_failed, gateway := map[], 0, 0, 0, [];
    }

    method Dispatch(row: Row)
      requires Accepted(Value(), row)
      modifies this
      ensures Value() == Dispatched(old(Value()), row)
      ensures OneMoreCounted(old(Value()), Value())
    {
      var side := row.direction == -1;
      match row.kind {
        case 1 =>
          gateway := gateway + [Event(New(row.price, row.size, side, row.order_id), row.time)];
          live_sizes := live_sizes[row.order_id := row.size];
          rows_processed := rows_processed + 1;
        case 2 =>
          if row.order_id !in live_sizes {
            rows_failed := rows_failed + 1;
            return;
          }
          var new_size := live_sizes[row.order_id] - row.size;
          if new_size <= 0 {
            rows_failed := rows_failed + 1;
            return;
          }
          gateway := gateway + [Event(ModifyReq(row.order_id, new_size), row.time)];
          live_sizes := live_sizes[row.order_id := new_size];
          rows_processed := rows_processed + 1;
        case 3 =>
          gateway := gateway + [Event(CancelReq(row.order_id), row.time)];
          live_sizes := live_sizes - {row.order_id};
          rows_processed := rows_processed + 1;
        case 4 => rows_skipped := rows_skipped + 1;
        case 5 => rows_skipped := rows_skipped + 1;
        case 6 => rows_skipped := rows_skipped + 1;
        case 7 => rows_skipped := rows_skipped + 1;
        case _ => rows_failed := rows_failed + 1;
      }
    }

    method ProcessStream(input: seq<Line>)
      requires forall i :: 0 <= i < |input| && input[i].Parsed? ==>
        Accepted(Streamed(Value(), input[..i]), input[i].row)
      modifies this
      ensures Value() == Streamed(old(Value()), input)
    {
      var i := 0;
      while i < |input|
        invariant 0 <= i <= |input| && Value() == Streamed(old(Value()), input[..i])
      {
        var line := input[i];
        assert input[..i + 1][..i] == input[..i];
        i := i + 1;
        if line.Blank? {
          continue;
        }
        if line.Malformed? {
          rows_failed := rows_failed + 1;
          continue;
        }
        Dispatch(line.row);
      }
      assert input[..i] == input;
    }
  }

  // ---------- Row counters ----------

  function NonBlank(lines: seq<Line>): nat {
    if lines == [] then 0
    else NonBlank(lines[..|lines| - 1]) + if lines[|lines| - 1].Blank? then 0 else 1
  }

  /** Each line that is not empty is counted once, and each processed one is one request. */
  lemma {:induction false} EveryRowIsCounted(lines: seq<Line>)
    ensures var a := Streamed(START, lines);
      a.processed + a.skipped + a.failed == NonBlank(lines) && |a.sent| == a.processed
  {
    if lines != [] { EveryRowIsCounted(lines[..|lines| - 1]); }
  }

  // ---------- What a line does ----------

  ghost predicate Counts(a: State, a': State, processed: nat, skipped: nat, failed: nat) {
    && a'.processed == a.processed + processed && a'.skipped == a.skipped + skipped && a'.failed == a.failed + failed
    && |a'.sent| == |a.sent| + processed && a.sent <= a'.sent
  }

  /** The row has been placed on the given side, at its price, size, time and id. */
  ghost predicate Places(b: Book, row: Row, sell: bool, b': Book) {
    exists r :: Placement(b, row.price, row.size, sell, row.time, row.order_id, b', r)
  }

  /** The line took the adapter from `a` to `a'`, and its request, if it made one, the book from `b` to `b'`: a
      submission is a placement on the row's side and at its price, size, time and id; a reduction that leaves
      something is a modify to what it leaves; a deletion is a cancel; nothing else is sent. */
  ghost predicate LineMeans(a: State, b: Book, line: Line, a': State, b': Book) {
    match line
    case Blank => a' == a && b' == b
    case Malformed => Counts(a, a', 0, 0, 1) && a'.live == a.live && b' == b
    case Parsed(row) =>
      var id := row.order_id;
      if row.kind == 1 then
        && Counts(a, a', 1, 0, 0) && a'.live == a.live[id := row.size]
        && Places(b, row, row.direction == -1, b')
      else if row.kind == 2 && Reduces(a, row) then
        var left := a.live[id] - row.size;
        && Counts(a, a', 1, 0, 0) && a'.live == a.live[id := left] && a'.sent[|a.sent|].time == row.time
        && exists ok :: Modification(b, id, left, b', ok)
      else if row.kind == 3 then
        && Counts(a, a', 1, 0, 0) && a'.live == a.live - {id} && a'.sent[|a.sent|].time == row.time
        && exists ok :: Cancellation(b, id, b', ok)
      else
        && (if row.kind in {4, 5, 6, 7} then Counts(a, a', 0, 1, 0) else Counts(a, a', 0, 0, 1))
        && a'.live == a.live && b' == b
  }

  function BookThen(a: State, b: Book, a': State): Book {
    if |a'.sent| > |a.sent| then Apply(b, a'.sent[|a.sent|]).0 else b
  }

  lemma TookMeans(a: State, b: Book, line: Line)
    requires Wf(b)
    ensures LineMeans(a, b, line, Took(a, line), BookThen(a, b, Took(a, line)))
  {
    hide Placement, Cancellation, Modification, Place, Cancel, Modify;
    if line.Parsed? {
      var row := line.row;
      if row.kind == 1 {
        PlaceIsPlacement(b, row.price, row.size, row.direction == -1, row.time, row.order_id);
      } else if row.kind == 2 && Reduces(a, row) {
        ModifyIsModification(b, row.order_id, a.live[row.order_id] - row.size);
      } else if row.kind == 3 {
        CancelIsCancellation(b, row.order_id);
      }
    }
  }

  /** Line by line through any file, from nothing: adapter and book go on as the line means. */
  lemma {:induction false} FileMeans(lines: seq<Line>, i: nat)
    requires i < |lines|
    ensures Streamed(START, []) == State(map[], 0, 0, 0, []) && Run(EMPTY, []) == EMPTY
    ensures var (a, a') := (Streamed(START, lines[..i]), Streamed(START, lines[..i + 1]));
      LineMeans(a, Run(EMPTY, a.sent), lines[i], a', Run(EMPTY, a'.sent))
  {
    hide LineMeans, Apply;
    assert lines[..i + 1][..i] == lines[..i];
    var a := Streamed(START, lines[..i]);
    RunKeepsWf(EMPTY, a.sent);
    TookMeans(a, Run(EMPTY, a.sent), lines[i]);
    SendsOne(a, lines[i]);
  }

  /** A line becomes at most one request, behind those sent before. */
  lemma SendsOne(a: State, line: Line)
    ensures var a' := Took(a, line); a'.sent == a.sent || (|a'.sent| == |a.sent| + 1 && a'.sent[..|a.sent|] == a.sent)
  {
  }

  /** On an empty book a submission rests on the ask side exactly for direction -1. */
  lemma FirstRow(row: Row)
    requires row.kind == 1 && row.size > 0
    ensures var sent := Took(START, Parsed(row)).sent;
      var order := Order(row.order_id, row.price, row.size, 0);
      && |sent| == 1 && Run(EMPTY, sent).asks == (if row.direction == -1 then [order] else [])
      && Run(EMPTY, sent).bids == if row.direction == -1 then [] else [order]
  {
    var sent := Took(START, Parsed(row)).sent;
    assert Run(EMPTY, sent) == Apply(Run(EMPTY, []), sent[0]).0;
  }

  // ---------- The adapter's sizes and the book's ----------

  /** Each resting order is known to the adapter, with at least the volume it has. */
  ghost predicate Dominates(live: map<int, int>, q: seq<Order>) {
    forall i :: 0 <= i < |q| ==> q[i].id in live && q[i].volume <= live[q[i].id]
  }

  /** ... and with just that volume, unless it has traded. */
  ghost predicate ExactUnless(live: map<int, int>, q: seq<Order>, traded: set<int>) {
    forall i :: 0 <= i < |q| && q[i].id !in traded ==> q[i].id in live && q[i].volume == live[q[i].id]
  }

  /** Ids of orders that have traded, as maker or as taker, since they were placed. */
  function TradedIds(traded: set<int>, b: Book, e: Event): set<int> {
    match e.req
    case New(price, volume, sell, id) =>
      var trades := Sweep(Opposite(b, sell), sell, price, volume).trades;
      traded - {id} + (set i | 0 <= i < |trades| :: trades[i].maker.id) + if trades == [] then {} else {id}
    case _ => traded
  }

  function EverTraded(events: seq<Event>): set<int> {
    if events == [] then {}
    else
      var before := events[..|events| - 1];
      TradedIds(EverTraded(before), Run(EMPTY, before), events[|events| - 1])
  }

  /** New orders have a positive size and an id that is not resting. */
  ghost predicate Admissible(b: Book, line: Line) {
    line.Parsed? && line.row.kind == 1 ==>
      line.row.size > 0 && !CarriesId(b.bids, line.row.order_id) && !CarriesId(b.asks, line.row.order_id)
  }

  ghost predicate AllAdmissible(lines: seq<Line>) {
    lines != [] ==>
      var before := lines[..|lines| - 1];
      AllAdmissible(before) && Admissible(Run(EMPTY, Streamed(START, before).sent), lines[|lines| - 1])
  }

  ghost predicate ReducesOnly(lines: seq<Line>) {
    forall i :: 0 <= i < |lines| && lines[i].Parsed? && lines[i].row.kind == 2 ==> lines[i].row.size >= 0
  }

  /** What the adapter's sizes are to the book. */
  ghost predicate Follows(a: State, b: Book) {
    && Wf(b) && IndexComplete(b)
    && Dominates(a.live, b.bids) && Dominates(a.live, b.asks)
  }

  ghost predicate FollowsExactly(a: State, b: Book, traded: set<int>) {
    ExactUnless(a.live, b.bids, traded) && ExactUnless(a.live, b.asks, traded)
  }

  lemma {:induction false} LeftIsAtMost(q: seq<Order>, sell: bool, limit: int, volume: int)
    requires Positive(q)
    ensures Sweep(q, sell, limit, volume).left <= volume
  {
    if q != [] && Crosses(sell, limit, q[0].price) && 0 < q[0].volume <= volume {
      LeftIsAtMost(q[1..], sell, limit, volume - q[0].volume);
    }
  }

  /** What a sweep leaves has no more volume than before. */
  lemma {:induction false} SweptFollows(live: map<int, int>, q: seq<Order>, sell: bool, limit: int, volume: int)
    requires Positive(q) && Dominates(live, q)
    ensures Dominates(live, Sweep(q, sell, limit, volume).rest)
  {
    var rest, k := Sweep(q, sell, limit, volume).rest, Depth(q, sell, limit, volume);
    SweepLeaves(q, sell, limit, volume);
    forall i | 0 <= i < |rest| ensures rest[i].id in live && rest[i].volume <= live[rest[i].id] {
      assert q[i + k].id in live;
    }
  }

  /** And what has not traded is left as it was. */
  lemma {:induction false} SweptUntraded(q: seq<Order>, sell: bool, limit: int, volume: int, i: nat)
    requires Positive(q)
    requires var s := Sweep(q, sell, limit, volume);
      i < |s.rest| && forall j :: 0 <= j < |s.trades| ==> s.trades[j].maker.id != s.rest[i].id
    ensures Sweep(q, sell, limit, volume).rest[i] in q
  {
    var s, k := Sweep(q, sell, limit, volume), Depth(q, sell, limit, volume);
    SweepTakesPrefix(q, sell, limit, volume);
    if |s.trades| == k + 1 {
      assert s.trades[k].maker == q[k];
      assert s.rest[i] == q[k..][i];
    } else {
      assert s.rest[i] == q[k..][i];
    }
  }

  /** An entry for an id that is not in the queue makes no difference to it. */
  lemma OtherId(live: map<int, int>, q: seq<Order>, id: int, size: int)
    requires !CarriesId(q, id)
    ensures Dominates(live[id := size], q) <==> Dominates(live, q)
    ensures Dominates(live - {id}, q) <==> Dominates(live, q)
    ensures forall traded :: ExactUnless(live[id := size], q, traded) <==> ExactUnless(live, q, traded)
    ensures forall traded :: ExactUnless(live - {id}, q, traded) <==> ExactUnless(live, q, traded)
  {
    assert forall i :: 0 <= i < |q| ==> q[i].id != id;
  }

  lemma PlaceFollows(a: State, b: Book, row: Row)
    requires Follows(a, b) && row.kind == 1 && Admissible(b, Parsed(row))
    ensures Follows(Dispatched(a, row), Place(b, row.price, row.size, row.direction == -1, row.time, row.order_id).0)
  {
    var sell, id := row.direction == -1, row.order_id;
    var opp, own := Opposite(b, sell), Own(b, sell);
    var live := a.live[id := row.size];
    WfBySide(b, sell);
    PlaceKeepsWf(b, row.price, row.size, sell, row.time, id);
    PlaceKeepsComplete(b, row.price, row.size, sell, row.time, id);
    OtherId(a.live, opp, id, row.size);
    OtherId(a.live, own, id, row.size);
    SweptFollows(live, opp, sell, row.price, row.size);
    LeftIsAtMost(opp, sell, row.price, row.size);
    var left := Sweep(opp, sell, row.price, row.size).left;
    if left > 0 { InsertFollows(live, sell, own, Order(id, row.price, left, b.clock)); }
  }

  lemma {:induction false} InsertFollows(live: map<int, int>, sell: bool, own: seq<Order>, o: Order)
    requires Sorted(sell, own) && Dominates(live, own) && o.id in live && o.volume <= live[o.id]
    ensures Dominates(live, Insert(sell, own, o))
  {
    var k := InsertShape(sell, own, o);
  }

  lemma {:induction false} InsertFollowsExactly(live: map<int, int>, sell: bool, own: seq<Order>, o: Order,
                                                traded: set<int>)
    requires Sorted(sell, own) && ExactUnless(live, own, traded)
    requires o.id !in traded ==> o.id in live && o.volume == live[o.id]
    ensures ExactUnless(live, Insert(sell, own, o), traded)
  {
    var k := InsertShape(sell, own, o);
  }

  lemma PlaceFollowsExactly(a: State, b: Book, row: Row, traded: set<int>)
    requires Follows(a, b) && row.kind == 1 && Admissible(b, Parsed(row)) && FollowsExactly(a, b, traded)
    ensures var e := Event(New(row.price, row.size, row.direction == -1, row.order_id), row.time);
      FollowsExactly(Dispatched(a, row), Apply(b, e).0, TradedIds(traded, b, e))
  {
    var sell, id := row.direction == -1, row.order_id;
    var opp, own := Opposite(b, sell), Own(b, sell);
    var live := a.live[id := row.size];
    var traded' := TradedIds(traded, b, Event(New(row.price, row.size, sell, id), row.time));
    var s := Sweep(opp, sell, row.price, row.size);
    WfBySide(b, sell);
    OtherId(a.live, opp, id, row.size);
    OtherId(a.live, own, id, row.size);
    forall i | 0 <= i < |s.rest| && s.rest[i].id !in traded'
      ensures s.rest[i].id in live && s.rest[i].volume == live[s.rest[i].id]
    {
      assert forall j :: 0 <= j < |s.trades| ==> s.trades[j].maker.id in traded';
      SweptUntraded(opp, sell, row.price, row.size, i);
      var j :| 0 <= j < |opp| && opp[j] == s.rest[i];
      assert opp[j].id != id && opp[j].id !in traded;
    }
    assert ExactUnless(live, own, traded') by {
      assert forall i :: 0 <= i < |own| ==> own[i].id != id;
    }
    if s.left > 0 { InsertFollowsExactly(live, sell, own, Order(id, row.price, s.left, b.clock), traded'); }
  }

  // ---------- Modify and cancel ----------

  /** An id is carried by one resting order at most. */
  lemma IdsApart(b: Book, sell: bool, i: nat)
    requires Wf(b) && IndexComplete(b) && i < |Own(b, sell)|
    ensures IndexedAt(b, sell, i)
    ensures !CarriesId(Opposite(b, sell), Own(b, sell)[i].id)
    ensures forall j :: 0 <= j < |Own(b, sell)| && j != i ==> Own(b, sell)[j].id != Own(b, sell)[i].id
  {
    var own, id := Own(b, sell), Own(b, sell)[i].id;
    WfBySide(b, sell);
    CompleteBySide(b, sell);
    forall j | 0 <= j < |own| && j != i ensures own[j].id != id {
      assert own[j].stamp != own[i].stamp;
    }
  }

  lemma NotIndexed(b: Book, id: int)
    requires IndexComplete(b) && id !in b.index
    ensures !CarriesId(b.bids, id) && !CarriesId(b.asks, id)
  {
  }

  lemma ResizedFollows(live: map<int, int>, own: seq<Order>, i: nat, size: int, traded: set<int>)
    requires i < |own| && forall j :: 0 <= j < |own| && j != i ==> own[j].id != own[i].id
    requires Dominates(live, own)
    ensures var live' := live[own[i].id := size]; var own' := own[i := own[i].(volume := size)];
      && Dominates(live', own') && (ExactUnless(live, own, traded) ==> ExactUnless(live', own', traded))
      && (own[i].volume <= size ==> Dominates(live', own))
      && (size == own[i].volume && ExactUnless(live, own, traded) ==> ExactUnless(live', own, traded))
      && (own[i].id in traded && ExactUnless(live, own, traded) ==> ExactUnless(live', own, traded))
  {
  }

  lemma ModifyFollows(a: State, b: Book, id: int, size: int, traded: set<int>)
    requires Follows(a, b) && id in a.live && size > 0
    ensures var live := a.live[id := size]; var b' := Modify(b, id, size).0;
      && Dominates(live, b'.bids) && Dominates(live, b'.asks)
      && (size <= a.live[id] && FollowsExactly(a, b, traded) ==>
            ExactUnless(live, b'.bids, traded) && ExactUnless(live, b'.asks, traded))
  {
    var live := a.live[id := size];
    if id !in b.index {
      NotIndexed(b, id);
      OtherId(a.live, b.bids, id, size);
      OtherId(a.live, b.asks, id, size);
    } else {
      var sell, i := FindsSomewhere(b, id);
      IdsApart(b, sell, i);
      ModifyIs(b, sell, i, size);
      OtherId(a.live, Opposite(b, sell), id, size);
      ResizedFollows(a.live, Own(b, sell), i, size, traded);
    }
  }

  lemma CutFollows(live: map<int, int>, own: seq<Order>, i: nat, traded: set<int>)
    requires i < |own| && forall j :: 0 <= j < |own| && j != i ==> own[j].id != own[i].id
    requires Dominates(live, own)
    ensures var rest := own[..i] + own[i + 1..]; var live' := live - {own[i].id};
      Dominates(live', rest) && (ExactUnless(live, own, traded) ==> ExactUnless(live', rest, traded))
  {
    var rest := own[..i] + own[i + 1..];
    assert forall j :: 0 <= j < |rest| ==> rest[j] == own[if j < i then j else j + 1];
  }

  lemma CancelFollows(a: State, b: Book, id: int, traded: set<int>)
    requires Follows(a, b)
    ensures var live := a.live - {id}; var b' := Cancel(b, id).0;
      && Dominates(live, b'.bids) && Dominates(live, b'.asks)
      && (FollowsExactly(a, b, traded) ==> ExactUnless(live, b'.bids, traded) && ExactUnless(live, b'.asks, traded))
  {
    if id !in b.index {
      NotIndexed(b, id);
      OtherId(a.live, b.bids, id, 0);
      OtherId(a.live, b.asks, id, 0);
    } else {
      var sell, i := FindsSomewhere(b, id);
      IdsApart(b, sell, i);
      CancelIs(b, sell, i);
      OtherId(a.live, Opposite(b, sell), id, 0);
      CutFollows(a.live, Own(b, sell), i, traded);
    }
  }

  /** A reduction row leaves an order that agreed with the adapter in agreement exactly when its delta is
      not negative: a negative one makes the adapter believe in growth that the book refuses. */
  lemma AgreesUnlessNegative(a: State, b: Book, row: Row, sell: bool, i: nat)
    requires Follows(a, b) && row.kind == 2 && i < |Own(b, sell)| && Own(b, sell)[i].id == row.order_id
    requires Own(b, sell)[i].volume == a.live[row.order_id] && row.size < a.live[row.order_id]
    ensures var b' := Modify(b, row.order_id, a.live[row.order_id] - row.size).0;
      && i < |Own(b', sell)| && Own(b', sell)[i].id == row.order_id
      && (Own(b', sell)[i].volume == Dispatched(a, row).live[row.order_id] <==> row.size >= 0)
  {
    IdsApart(b, sell, i);
    ModifyIs(b, sell, i, a.live[row.order_id] - row.size);
  }

  /** After a modify that the book accepts, both have the same size, whatever they had before. */
  lemma AcceptedModifyAgrees(a: State, b: Book, row: Row) returns (sell: bool, i: nat)
    requires Follows(a, b) && row.kind == 2 && row.order_id in a.live
    requires Modify(b, row.order_id, a.live[row.order_id] - row.size).1
    ensures var own := Own(Modify(b, row.order_id, a.live[row.order_id] - row.size).0, sell);
      i < |own| && own[i].id == row.order_id && own[i].volume == Dispatched(a, row).live[row.order_id]
  {
    sell, i := FindsSomewhere(b, row.order_id);
    IdsApart(b, sell, i);
    ModifyIs(b, sell, i, a.live[row.order_id] - row.size);
  }

  // ---------- Whole files ----------

  /** One row and the one request it became. */
  ghost predicate StillFollows(a: State, b: Book, line: Line, traded: set<int>) {
    var a' := Took(a, line);
    && |a'.sent| == |a.sent| + 1 && a'.sent[..|a.sent|] == a.sent
    && var e := a'.sent[|a.sent|];
       && Follows(a', Apply(b, e).0)
       && (ReducesOnly([line]) && FollowsExactly(a, b, traded) ==>
             FollowsExactly(a', Apply(b, e).0, TradedIds(traded, b, e)))
  }

  lemma PlacedRow(a: State, b: Book, row: Row, traded: set<int>)
    requires Follows(a, b) && row.kind == 1 && Admissible(b, Parsed(row))
    ensures StillFollows(a, b, Parsed(row), traded)
  {
    PlaceFollows(a, b, row);
    if FollowsExactly(a, b, traded) { PlaceFollowsExactly(a, b, row, traded); }
  }

  lemma ReducedRow(a: State, b: Book, row: Row, traded: set<int>)
    requires Follows(a, b) && row.kind == 2 && row.order_id in a.live && row.size < a.live[row.order_id]
    ensures StillFollows(a, b, Parsed(row), traded)
  {
    var size := a.live[row.order_id] - row.size;
    ModifyFollows(a, b, row.order_id, size, traded);
    ModifyKeepsComplete(b, row.order_id, size);
    ModifyKeepsWf(b, row.order_id, size);
    var e := Event(ModifyReq(row.order_id, size), row.time);
    assert Took(a, Parsed(row)).sent == a.sent + [e] && Apply(b, e).0 == Modify(b, row.order_id, size).0;
    assert [Parsed(row)][0] == Parsed(row);
  }

  lemma DeletedRow(a: State, b: Book, row: Row, traded: set<int>)
    requires Follows(a, b) && row.kind == 3
    ensures StillFollows(a, b, Parsed(row), traded)
  {
    CancelFollows(a, b, row.order_id, traded);
    CancelKeepsComplete(b, row.order_id);
    CancelKeepsWf(b, row.order_id);
    var e := Event(CancelReq(row.order_id), row.time);
    assert Took(a, Parsed(row)).sent == a.sent + [e] && Apply(b, e).0 == Cancel(b, row.order_id).0;
  }

  lemma TookFollows(a: State, b: Book, line: Line, traded: set<int>)
    requires Follows(a, b) && Admissible(b, line)
    ensures if Took(a, line).sent == a.sent then Took(a, line).live == a.live else StillFollows(a, b, line, traded)
  {
    if line.Parsed? {
      if line.row.kind == 1 { PlacedRow(a, b, line.row, traded); }
      else if line.row.kind == 2 {
        if line.row.order_id in a.live && line.row.size < a.live[line.row.order_id] {
          ReducedRow(a, b, line.row, traded);
        }
      } else if line.row.kind == 3 { DeletedRow(a, b, line.row, traded); }
    }
  }

  /** After any file of admissible rows: every resting order is known to the adapter with at least its
      volume, and with exactly its volume if no reduction was negative and the order never traded. */
  lemma {:induction false} AdapterDominatesBook(lines: seq<Line>)
    requires AllAdmissible(lines)
    ensures var a := Streamed(START, lines); var b := Run(EMPTY, a.sent);
      Follows(a, b) && (ReducesOnly(lines) ==> FollowsExactly(a, b, EverTraded(a.sent)))
  {
    hide Apply, Took, TradedIds;
    if lines != [] {
      var before, line := lines[..|lines| - 1], lines[|lines| - 1];
      AdapterDominatesBook(before);
      var a := Streamed(START, before);
      TookFollows(a, Run(EMPTY, a.sent), line, EverTraded(a.sent));
      assert ReducesOnly(lines) ==> ReducesOnly(before) && ReducesOnly([line]);
    }
  }
}
