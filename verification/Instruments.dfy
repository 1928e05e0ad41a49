/** Instruments: the engine takes orders of any instrument and never compares them, while recovery reads
    the rows of one.
 */
module Instruments {
  import opened Orders
  import opened PriceTime
  import opened Matching
  import opened Runs
  import opened RunInvariants
  import opened Rebuilding

  ghost predicate TradesIn(ts: seq<Trade>, ins: string) {
    forall i :: 0 <= i < |ts| ==> ts[i].instrument == ins
  }

  /** Everything so far is of instrument `ins`. */
  ghost predicate OneInstrument(s: State, ins: string) {
    AllOf(s.bids, ins) && AllOf(s.asks, ins) && AllOf(s.done, ins) && TradesIn(s.log, ins)
  }

  /** Every valid new order is of instrument `ins`. */
  ghost predicate CommandsOf(cs: seq<Command>, ins: string) {
    forall i :: 0 <= i < |cs| && cs[i].New? && cs[i].order.IsValid() ==> cs[i].order.instrument == ins
  }

  lemma {:induction false} GreedyOf(o: OrderRec, xs: seq<OrderRec>, ins: string)
    requires o.instrument == ins && AllOf(xs, ins)
    ensures var g := Greedy(o, xs);
            g.aggressor.instrument == ins && AllOf(g.consumed, ins) && AllOf(g.rest, ins) && TradesIn(g.trades, ins)
    decreases |xs|
  {
    if !Stuck(o, xs) {
      var q := Min(o.Remaining(), xs[0].Remaining());
      if xs[0].AfterFill(q).IsFilled() {
        GreedyOf(o.AfterFill(q), xs[1..], ins);
      }
    }
  }

  lemma InsertOf(xs: seq<OrderRec>, o: OrderRec, ins: string)
    requires AllOf(xs, ins) && o.instrument == ins
    ensures AllOf(Insert(xs, o), ins)
  {
    hide Insert;
    var k := InsertPlace(xs, o);
  }

  lemma WithoutOf(xs: seq<OrderRec>, id: Id, ins: string)
    requires AllOf(xs, ins) && HasId(xs, id)
    ensures AllOf(Without(xs, id), ins)
  {
    hide Without;
    var i := WithoutPlace(xs, id);
  }

  lemma AcceptOf(s: State, o: OrderRec, ins: string)
    requires OneInstrument(s, ins) && o.IsValid() && o.instrument == ins
    ensures OneInstrument(Accept(s, o), ins)
  {
    hide Accept, Greedy, Insert, Rests;
    AcceptParts(s, o);
    GreedyOf(o, s.Of(Opposite(o.side)), ins);
    var o' := Settled(Matched(s, o).aggressor);
    InsertOf(s.Of(o.side), o', ins);
  }

  lemma CancelOf(s: State, side: OrderSide, id: Id, ins: string)
    requires OneInstrument(s, ins) && HasId(s.Of(side), id)
    ensures OneInstrument(CancelOn(s, side, id), ins)
  {
    hide Without, HasId;
    WithoutOf(s.Of(side), id, ins);
  }

  lemma StepOf(s: State, c: Command, ins: string)
    requires OneInstrument(s, ins) && (c.New? && c.order.IsValid() ==> c.order.instrument == ins)
    ensures OneInstrument(Step(s, c), ins)
  {
    hide OneInstrument, Accept, CancelOn, HasId, OrderRec.IsValid;
    match c
    case New(o) => if o.IsValid() { AcceptOf(s, o, ins); }
    case Cancel(id) =>
      if HasId(s.bids, id) {
        CancelOf(s, Buy, id, ins);
      } else if HasId(s.asks, id) {
        CancelOf(s, Sell, id, ins);
      }
    case Unknown(_) =>
  }

  /** A run of one instrument trades and keeps only that instrument. */
  lemma {:induction false} RunOfOne(s: State, cs: seq<Command>, ins: string)
    requires OneInstrument(s, ins) && CommandsOf(cs, ins)
    ensures OneInstrument(Run(s, cs), ins)
    decreases |cs|
  {
    hide OneInstrument, Step, OrderRec.IsValid;
    if cs != [] {
      StepOf(s, cs[0], ins);
      RunOfOne(Step(s, cs[0]), cs[1..], ins);
    }
  }

  /** After a run of one instrument, its recovery manager restores the book exactly when no leftover is
      stored and creation times agree with queue order. */
  lemma OneInstrumentRestores(cs: seq<Command>, ins: string)
    requires FreshRun(EMPTY, cs) && CommandsOf(cs, ins)
    ensures var s := Run(EMPTY, cs);
            Restores(s, ins) <==> Strays(s.done, ins) == [] && CreatedInOrder(s.bids) && CreatedInOrder(s.asks)
  {
    hide Run, FreshRun, Inv, Strays, CreatedInOrder, Restores;
    Reachable(cs);
    RunOfOne(EMPTY, cs, ins);
    RestoresExactly(Run(EMPTY, cs), ins);
  }
}
