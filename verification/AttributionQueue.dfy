/** The first-in first-out provenance queue for environmental dross. */
module AttributionQueue {
  import opened Prelude
  import opened CurrentUnits
  import opened LedgerModel
  import opened LedgerLaws

  /** Units waiting in the queue for one owner. */
  function Queued(q: seq<Attribution>, o: Owner): nat {
    if q == [] then 0
    else (if q[0].owner == o then q[0].contribution.units else 0) + Queued(q[1..], o)
  }

  /** What a request for `requested` units reports: oldest entries first, the last one cut to size. */
  function Attributed(q: seq<Attribution>, o: Owner, requested: nat): seq<Contribution> {
    if q == [] || requested == 0 then []
    else if q[0].owner != o then Attributed(q[1..], o, requested)
    else
      var take := Min(q[0].contribution.units, requested);
      var rest := Attributed(q[1..], o, requested - take);
      if take == 0 then rest else [q[0].contribution.(units := take)] + rest
  }

  function UnitsIn(cs: seq<Contribution>): nat {
    if cs == [] then 0 else cs[0].units + UnitsIn(cs[1..])
  }

  /** One owner's nonempty contributions in queue order. */
  function QueueOf(q: seq<Attribution>, o: Owner): seq<Contribution> {
    if q == [] then []
    else if q[0].owner == o && q[0].contribution.units != 0 then [q[0].contribution] + QueueOf(q[1..], o)
    else QueueOf(q[1..], o)
  }

  lemma QueuedCons(x: Attribution, rest: seq<Attribution>, o: Owner)
    ensures Queued([x] + rest, o) == (if x.owner == o then x.contribution.units else 0) + Queued(rest, o)
  {
    assert ([x] + rest)[1..] == rest;
  }

  function Reduced(x: Attribution, take: nat): Attribution
    requires take <= x.contribution.units
  {
    x.(contribution := x.contribution.(units := x.contribution.units - take))
  }

  lemma ConsumeUnfold(q: seq<Attribution>, o: Owner, units: nat)
    requires q != [] && units != 0
    ensures var take := if q[0].owner == o then Min(q[0].contribution.units, units) else 0;
            var rest := Consume(q[1..], o, units - take);
            Consume(q, o, units)
            == if q[0].owner == o && q[0].contribution.units == take then rest else [Reduced(q[0], take)] + rest
  {
  }

  lemma ConsumeNothing(q: seq<Attribution>, o: Owner, units: nat)
    requires q == [] || units == 0
    ensures Consume(q, o, units) == q
  {
  }

  /** The queue at position `i` of a walk: entries before `i` are settled, the rest is still to consume. */
  lemma ConsumeStep(q: seq<Attribution>, i: nat, o: Owner, units: nat)
    requires i < |q| && units != 0
    ensures var take := if q[i].owner == o then Min(q[i].contribution.units, units) else 0;
            q[..i] + Consume(q[i..], o, units)
            == if q[i].owner == o && q[i].contribution.units == take
               then q[..i] + Consume(q[i + 1..], o, units - take)
               else q[..i] + [Reduced(q[i], take)] + Consume(q[i + 1..], o, units - take)
    ensures q[i].owner != o ==> Reduced(q[i], 0) == q[i]
  {
    assert q[i..][0] == q[i] && q[i..][1..] == q[i + 1..];
    ConsumeUnfold(q[i..], o, units);
    hide Consume, Reduced;
    var take := if q[i].owner == o then Min(q[i].contribution.units, units) else 0;
    assert q[..i] + ([Reduced(q[i], take)] + Consume(q[i + 1..], o, units - take))
        == q[..i] + [Reduced(q[i], take)] + Consume(q[i + 1..], o, units - take);
    if q[i].owner != o {
      ReducedByNone(q[i]);
    }
  }

  lemma ReducedByNone(x: Attribution)
    ensures Reduced(x, 0) == x
  {
  }

  lemma {:induction false} ConsumeQueued(q: seq<Attribution>, o: Owner, units: nat, p: Owner)
    ensures Queued(Consume(q, o, units), p)
            == if p == o then Queued(q, o) - Min(units, Queued(q, o)) else Queued(q, p)
    ensures |Consume(q, o, units)| <= |q|
    decreases |q|
  {
    if q != [] && units != 0 {
      var take := if q[0].owner == o then Min(q[0].contribution.units, units) else 0;
      hide *;
      ConsumeQueued(q[1..], o, units - take, p);
      ConsumeQueuedHead(q, o, units, p, take);
    }
  }

  /** What one entry adds to the queue before and after its share is consumed. */
  lemma ConsumeQueuedHead(q: seq<Attribution>, o: Owner, units: nat, p: Owner, take: nat)
    requires q != [] && units != 0
    requires take == if q[0].owner == o then Min(q[0].contribution.units, units) else 0
    requires var rest := q[1..];
             && Queued(Consume(rest, o, units - take), p)
                == (if p == o then Queued(rest, o) - Min(units - take, Queued(rest, o)) else Queued(rest, p))
             && |Consume(rest, o, units - take)| <= |rest|
    ensures Queued(Consume(q, o, units), p)
            == if p == o then Queued(q, o) - Min(units, Queued(q, o)) else Queued(q, p)
    ensures |Consume(q, o, units)| <= |q|
  {
    ConsumeUnfold(q, o, units);
    QueuedUnfold(q, p);
    QueuedUnfold(q, o);
    hide Consume, Queued;
    QueuedCons(Reduced(q[0], take), Consume(q[1..], o, units - take), p);
  }

  lemma QueuedUnfold(q: seq<Attribution>, o: Owner)
    requires q != []
    ensures Queued(q, o) == (if q[0].owner == o then q[0].contribution.units else 0) + Queued(q[1..], o)
  {
  }

  lemma {:induction false} AttributedUnits(q: seq<Attribution>, o: Owner, requested: nat)
    ensures UnitsIn(Attributed(q, o, requested)) == Min(requested, Queued(q, o))
  {
    if q != [] && requested != 0 {
      if q[0].owner != o {
        AttributedUnits(q[1..], o, requested);
      } else {
        var take := Min(q[0].contribution.units, requested);
        AttributedUnits(q[1..], o, requested - take);
        var rest := Attributed(q[1..], o, requested - take);
        assert ([q[0].contribution.(units := take)] + rest)[1..] == rest;
      }
    }
  }

  /** `a` is an initial stretch of `f` in which only the final entry may be cut short. */
  ghost predicate CutPrefix(a: seq<Contribution>, f: seq<Contribution>) {
    && |a| <= |f|
    && (forall i | 0 <= i < |a| - 1 :: a[i] == f[i])
    && (a != [] ==> a[|a| - 1] == f[|a| - 1].(units := a[|a| - 1].units)
                    && 0 < a[|a| - 1].units <= f[|a| - 1].units)
  }

  lemma CutPrefixCons(x: Contribution, a: seq<Contribution>, f: seq<Contribution>)
    requires CutPrefix(a, f) && 0 < x.units
    ensures CutPrefix([x] + a, [x] + f)
  {
  }

  lemma {:induction false} AttributedInOrder(q: seq<Attribution>, o: Owner, requested: nat)
    ensures CutPrefix(Attributed(q, o, requested), QueueOf(q, o))
  {
    if q != [] && requested != 0 {
      if q[0].owner != o {
        AttributedInOrder(q[1..], o, requested);
      } else {
        var take := Min(q[0].contribution.units, requested);
        AttributedInOrder(q[1..], o, requested - take);
        if take == q[0].contribution.units && take != 0 {
          CutPrefixCons(q[0].contribution, Attributed(q[1..], o, requested - take), QueueOf(q[1..], o));
        }
      }
    }
  }

  /** A request reports exactly the smaller of what is asked and what is queued; it is an initial stretch of the owner's
      queue in which only the final entry may be cut short; and it is exactly what a debit of the same size removes from
      the queue. */
  lemma AttributedExactly(q: seq<Attribution>, o: Owner, requested: nat)
    ensures UnitsIn(Attributed(q, o, requested)) == Min(requested, Queued(q, o))
    ensures UnitsIn(Attributed(q, o, requested)) + Queued(Consume(q, o, requested), o) == Queued(q, o)
    ensures CutPrefix(Attributed(q, o, requested), QueueOf(q, o))
  {
    AttributedUnits(q, o, requested);
    ConsumeQueued(q, o, requested, o);
    AttributedInOrder(q, o, requested);
  }

  // ----- how the queue evolves -----

  lemma {:induction false} QueuedConcat(a: seq<Attribution>, b: seq<Attribution>, o: Owner)
    ensures Queued(a + b, o) == Queued(a, o) + Queued(b, o)
  {
    if a == [] {
      assert a + b == b;
    } else {
      QueuedConcat(a[1..], b, o);
      assert (a + b)[1..] == a[1..] + b;
    }
  }

  lemma KeepNewestQueued(q: seq<Attribution>, bound: nat, o: Owner)
    ensures Queued(KeepNewest(q, bound), o) <= Queued(q, o)
    ensures |KeepNewest(q, bound)| <= bound
  {
    var cut := Excess(q, bound);
    QueuedConcat(q[..cut], q[cut..], o);
    assert q[..cut] + q[cut..] == q;
  }

  /** Debits remove queued units first; nothing else shortens another owner's queue. */
  lemma {:induction false} ConsumeAllQueued(q: seq<Attribution>, ms: seq<ArcaneMove>, o: Owner)
    requires o.Dross?
    ensures Queued(ConsumeAll(q, ms), o)
            == Queued(q, o) - Min(Total(Owned(ms, o)), Queued(q, o))
    ensures |ConsumeAll(q, ms)| <= |q|
  {
    hide Plus, Total, SumMap;
    EmptyIffZero(Empty);
    if ms != [] {
      var front, m := ms[..|ms| - 1], ms[|ms| - 1];
      ConsumeAllQueued(q, front, o);
      TotalPlus(Owned(front, o), m.current);
      if m.owner.Dross? {
        ConsumeQueued(ConsumeAll(q, front), m.owner, Total(m.current), o);
      }
    }
  }

  lemma {:induction false} QueueAllQueued(q: seq<Attribution>, tx: Transaction, ms: seq<ArcaneMove>, o: Owner)
    ensures Queued(QueueAll(q, tx, ms), o) <= Queued(q, o) + Total(Owned(ms, o))
    ensures |q| <= MAX_PENDING_DROSS_ATTRIBUTION ==> |QueueAll(q, tx, ms)| <= MAX_PENDING_DROSS_ATTRIBUTION
  {
    hide Plus, Total, SumMap, KeepNewest;
    EmptyIffZero(Empty);
    if ms != [] {
      var front, m := ms[..|ms| - 1], ms[|ms| - 1];
      QueueAllQueued(q, tx, front, o);
      TotalPlus(Owned(front, o), m.current);
      var rest := QueueAll(q, tx, front);
      QueuedConcat(rest, [AttributionOf(tx, m)], o);
      KeepNewestQueued(rest + [AttributionOf(tx, m)], MAX_PENDING_DROSS_ATTRIBUTION, o);
    }
  }

  /** No environmental dross owner has more provenance queued than the units it holds. */
  ghost predicate Backed(s: LedgerState) {
    && |s.attribution| <= MAX_PENDING_DROSS_ATTRIBUTION
    && forall o: Owner | o.Dross? :: Queued(s.attribution, o) <= Total(CurrentOf(s.accounts, o))
  }

  lemma AppliedBacked(s: LedgerState, tx: Transaction)
    requires Applies(s, tx) && Backed(s)
    ensures Backed(After(s, tx))
  {
    hide Accepts, Total, Plus, Settle, Moved, Owned, QueueAll, ConsumeAll;
    var t := After(s, tx);
    var mid := ConsumeAll(s.attribution, tx.debits);
    forall o: Owner | o.Dross? ensures Queued(t.attribution, o) <= Total(CurrentOf(t.accounts, o)) {
      AppliedBalances(s, tx, o);
      TotalPlus(CurrentOf(t.accounts, o), Owned(tx.debits, o));
      TotalPlus(CurrentOf(s.accounts, o), Owned(tx.credits, o));
      ConsumeAllQueued(s.attribution, tx.debits, o);
      QueueAllQueued(mid, tx, tx.credits, o);
      DebitWithinBalance(s, tx, o);
    }
    ConsumeAllQueued(s.attribution, tx.debits, Dross(AtlasPos(0, 0, 0), Soil));
    QueueAllQueued(mid, tx, tx.credits, Deep);
  }

  lemma DebitWithinBalance(s: LedgerState, tx: Transaction, o: Owner)
    requires Moved(s.accounts, tx).Some?
    ensures Total(Owned(tx.debits, o)) <= Total(CurrentOf(s.accounts, o))
  {
    hide Total, Plus, DebitAll;
    DebitBalances(s.accounts, tx.debits, o);
    TotalPlus(CurrentOf(DebitAll(s.accounts, tx.debits).value, o), Owned(tx.debits, o));
  }
}
