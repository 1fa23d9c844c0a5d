/** What a transaction does to the provenance queue, entry by entry. */
module AttributionBalance {
  import opened Prelude
  import opened CurrentUnits
  import opened LedgerModel
  import opened LedgerLaws
  import opened AttributionQueue

  // ----- what is added -----

  /** What one credit of a transaction contributes: its player, its source, all its units, at its own sequence. */
  ghost function ContributionOf(tx: Transaction, m: ArcaneMove): Contribution {
    var text := tx.contentId + ": " + tx.reason;
    Contribution(if tx.authority.PlayerAuthority? || tx.authority.SystemForPlayer? then Some(tx.authority.player)
                 else None,
                 if |text| <= 96 then text else text[..96], Total(m.current), tx.id.sequence, tx.id.sequence, 1_000)
  }

  /** One entry for every credit to environmental dross, in credit order. */
  ghost function NewEntries(tx: Transaction, ms: seq<ArcaneMove>): seq<Attribution> {
    if ms == [] then []
    else
      var m := ms[|ms| - 1];
      NewEntries(tx, ms[..|ms| - 1])
      + if m.owner.Dross? && m.current != Empty then [Attribution(m.owner, ContributionOf(tx, m))] else []
  }

  /** The contributions of the credits to one owner, in credit order. */
  ghost function ContributionsTo(tx: Transaction, ms: seq<ArcaneMove>, o: Owner): seq<Contribution> {
    if ms == [] then []
    else
      var m := ms[|ms| - 1];
      ContributionsTo(tx, ms[..|ms| - 1], o) + if m.owner == o && m.current != Empty then [ContributionOf(tx, m)]
        else []
  }

  /** The newest 4,096 entries. */
  function Newest(q: seq<Attribution>): seq<Attribution> {
    if |q| <= 4_096 then q else q[|q| - 4_096..]
  }

  lemma NewestPush(all: seq<Attribution>, e: Attribution)
    ensures Newest(Newest(all) + [e]) == Newest(all + [e])
  {
    if |all| > 4_096 {
      assert all[|all| - 4_096..] + [e] == (all + [e])[|all| - 4_096..];
      assert (all + [e])[|all| - 4_096..][1..] == (all + [e])[|all| - 4_095..];
    }
  }

  lemma EntryIs(tx: Transaction, m: ArcaneMove)
    ensures AttributionOf(tx, m) == Attribution(m.owner, ContributionOf(tx, m))
  {
    hide Total;
  }

  /** The queue after the credits: everything that was in it and one entry a credit, as far as the bound goes. */
  lemma {:induction false} QueueIs(q: seq<Attribution>, tx: Transaction, ms: seq<ArcaneMove>)
    requires |q| <= 4_096
    ensures QueueAll(q, tx, ms) == Newest(q + NewEntries(tx, ms))
  {
    hide Total, AttributionOf, ContributionOf;
    if ms != [] {
      var front, m := ms[..|ms| - 1], ms[|ms| - 1];
      QueueIs(q, tx, front);
      EmptyIffZero(m.current);
      EntryIs(tx, m);
      var all, e := q + NewEntries(tx, front), Attribution(m.owner, ContributionOf(tx, m));
      NewestPush(all, e);
      assert q + (NewEntries(tx, front) + [e]) == all + [e];
      assert NewEntries(tx, front) + [] == NewEntries(tx, front);
      KeptIsNewest(Newest(all) + [e]);
      hide Newest, KeepNewest;
    }
  }

  lemma KeptIsNewest(q: seq<Attribution>)
    ensures KeepNewest(q, MAX_PENDING_DROSS_ATTRIBUTION) == Newest(q)
  {
  }

  lemma {:induction false} QueueOfConcat(a: seq<Attribution>, b: seq<Attribution>, o: Owner)
    ensures QueueOf(a + b, o) == QueueOf(a, o) + QueueOf(b, o)
  {
    if a == [] {
      assert a + b == b;
    } else {
      QueueOfConcat(a[1..], b, o);
      assert (a + b)[1..] == a[1..] + b && (a + b)[0] == a[0];
    }
  }

  lemma OneEntry(e: Attribution, o: Owner)
    ensures QueueOf([e], o) == if e.owner == o && e.contribution.units != 0 then [e.contribution] else []
  {
    assert [e][1..] == [];
  }

  lemma UnitsContributed(tx: Transaction, m: ArcaneMove)
    ensures ContributionOf(tx, m).units == Total(m.current)
  {
    hide Total;
  }

  lemma {:induction false} NewEntriesOf(tx: Transaction, ms: seq<ArcaneMove>, o: Owner)
    requires o.Dross?
    ensures QueueOf(NewEntries(tx, ms), o) == ContributionsTo(tx, ms, o)
    ensures Queued(NewEntries(tx, ms), o) == Total(Owned(ms, o))
  {
    hide Total, Plus, ContributionOf, QueueOf;
    EmptyIffZero(Empty);
    if ms == [] {
      assert QueueOf([], o) == [] by { NoEntry(o); }
    } else {
      var front, m := ms[..|ms| - 1], ms[|ms| - 1];
      NewEntriesOf(tx, front, o);
      TotalPlus(Owned(front, o), m.current);
      EmptyIffZero(m.current);
      UnitsContributed(tx, m);
      var e := Attribution(m.owner, ContributionOf(tx, m));
      if m.owner.Dross? && m.current != Empty {
        QueueOfConcat(NewEntries(tx, front), [e], o);
        QueuedConcat(NewEntries(tx, front), [e], o);
        OneEntry(e, o);
      } else {
        assert NewEntries(tx, front) + [] == NewEntries(tx, front);
        assert ContributionsTo(tx, front, o) + [] == ContributionsTo(tx, front, o);
      }
    }
  }

  lemma NoEntry(o: Owner)
    ensures QueueOf([], o) == []
  {
  }

  // ----- what is consumed -----

  /** The oldest `units` taken off a list of contributions. */
  function Dropped(cs: seq<Contribution>, units: nat): seq<Contribution> {
    if cs == [] || units == 0 then cs
    else if cs[0].units <= units then Dropped(cs[1..], units - cs[0].units)
    else [cs[0].(units := cs[0].units - units)] + cs[1..]
  }

  ghost predicate AllPositive(cs: seq<Contribution>) {
    forall i | 0 <= i < |cs| :: 0 < cs[i].units
  }

  lemma {:induction false} QueueOfPositive(q: seq<Attribution>, o: Owner)
    ensures AllPositive(QueueOf(q, o))
  {
    if q != [] {
      QueueOfPositive(q[1..], o);
    }
  }

  lemma {:induction false} DroppedTwice(cs: seq<Contribution>, a: nat, b: nat)
    requires AllPositive(cs)
    ensures Dropped(Dropped(cs, a), b) == Dropped(cs, a + b)
    decreases |cs|
  {
    if cs != [] && a != 0 {
      if cs[0].units <= a {
        DroppedTwice(cs[1..], a - cs[0].units, b);
      } else {
        var cut := [cs[0].(units := cs[0].units - a)] + cs[1..];
        assert Dropped(cs, a) == cut && cut[1..] == cs[1..];
      }
    }
  }

  /** Consumption takes an owner's oldest units and leaves every other owner's entries alone. */
  lemma {:induction false} ConsumeOldest(q: seq<Attribution>, o: Owner, units: nat, p: Owner)
    ensures QueueOf(Consume(q, o, units), p) == if p == o then Dropped(QueueOf(q, o), units) else QueueOf(q, p)
    decreases |q|
  {
    if q == [] || units == 0 {
      ConsumeNothing(q, o, units);
    } else {
      var take := if q[0].owner == o then Min(q[0].contribution.units, units) else 0;
      ConsumeOldest(q[1..], o, units - take, p);
      ConsumeUnfold(q, o, units);
      var rest := Consume(q[1..], o, units - take);
      if !(q[0].owner == o && q[0].contribution.units == take) {
        QueueOfConcat([Reduced(q[0], take)], rest, p);
        OneEntry(Reduced(q[0], take), p);
      }
      hide Consume;
      if q[0].owner == o {
        ConsumeHead(q, o, units, take, rest, p);
      } else {
        ReducedByNone(q[0]);
        assert QueueOf(q, p) == (if q[0].owner == p && q[0].contribution.units != 0 then [q[0].contribution] else [])
                                + QueueOf(q[1..], p);
      }
    }
  }

  lemma ConsumeHead(q: seq<Attribution>, o: Owner, units: nat, take: nat, rest: seq<Attribution>, p: Owner)
    requires q != [] && units != 0 && q[0].owner == o && take == Min(q[0].contribution.units, units)
    requires QueueOf(rest, p) == if p == o then Dropped(QueueOf(q[1..], o), units - take) else QueueOf(q[1..], p)
    ensures q[0].contribution.units == take ==>
              QueueOf(rest, p) == if p == o then Dropped(QueueOf(q, o), units) else QueueOf(q, p)
    ensures q[0].contribution.units != take ==>
              (if p == o then [q[0].contribution.(units := q[0].contribution.units - take)] else []) + QueueOf(rest, p)
              == if p == o then Dropped(QueueOf(q, o), units) else QueueOf(q, p)
  {
    var f := QueueOf(q[1..], o);
    if p == o {
      if q[0].contribution.units == 0 {
        assert QueueOf(q, o) == f;
      } else {
        assert QueueOf(q, o) == [q[0].contribution] + f;
        assert ([q[0].contribution] + f)[1..] == f;
      }
      assert Dropped(f, 0) == f;
    } else {
      assert QueueOf(q, p) == QueueOf(q[1..], p);
      assert [] + QueueOf(rest, p) == QueueOf(rest, p);
    }
  }

  /** All debits together. */
  lemma {:induction false} ConsumeAllOldest(q: seq<Attribution>, ms: seq<ArcaneMove>, o: Owner)
    requires o.Dross?
    ensures QueueOf(ConsumeAll(q, ms), o) == Dropped(QueueOf(q, o), Total(Owned(ms, o)))
  {
    hide Plus, Total, QueueOf, Consume;
    EmptyIffZero(Empty);
    if ms != [] {
      var front, m := ms[..|ms| - 1], ms[|ms| - 1];
      ConsumeAllOldest(q, front, o);
      TotalPlus(Owned(front, o), m.current);
      QueueOfPositive(q, o);
      DroppedTwice(QueueOf(q, o), Total(Owned(front, o)), Total(m.current));
      if m.owner.Dross? {
        ConsumeOldest(ConsumeAll(q, front), m.owner, Total(m.current), o);
      }
      hide Dropped;
    }
  }

  // ----- a whole transaction -----

  /** The queue after a transaction. Debits take an owner's oldest units; credits append one entry each, naming the
      player, the source and the sequence; beyond the bound the newest 4,096 entries remain. */
  lemma AppliedAttribution(s: LedgerState, tx: Transaction)
    requires Applies(s, tx) && |s.attribution| <= 4_096
    ensures var left := ConsumeAll(s.attribution, tx.debits);
            After(s, tx).attribution == Newest(left + NewEntries(tx, tx.credits))
    ensures forall o: Owner | o.Dross? ::
              QueueOf(ConsumeAll(s.attribution, tx.debits), o)
              == Dropped(QueueOf(s.attribution, o), Total(Owned(tx.debits, o)))
  {
    AppliedParts(s, tx);
    var left := ConsumeAll(s.attribution, tx.debits);
    ConsumeAllQueued(s.attribution, tx.debits, Dross(AtlasPos(0, 0, 0), Soil));
    QueueIs(left, tx, tx.credits);
    assert Provenance(s.attribution, tx) == QueueAll(left, tx, tx.credits);
    hide *;
    forall o: Owner | o.Dross?
      ensures QueueOf(ConsumeAll(s.attribution, tx.debits), o)
              == Dropped(QueueOf(s.attribution, o), Total(Owned(tx.debits, o)))
    {
      ConsumeAllOldest(s.attribution, tx.debits, o);
    }
  }

  /** While the bound leaves room, the balance of every dross owner's queue is exact: what was queued, less what was
      debited as far as it was queued, plus everything credited, in this order. */
  lemma AttributionExact(s: LedgerState, tx: Transaction, o: Owner)
    requires Applies(s, tx) && |s.attribution| <= 4_096 && o.Dross?
    requires |ConsumeAll(s.attribution, tx.debits)| + |NewEntries(tx, tx.credits)| <= 4_096
    ensures var before, after := s.attribution, After(s, tx).attribution;
            && Queued(after, o)
               == Queued(before, o) - Min(Total(Owned(tx.debits, o)), Queued(before, o)) + Total(Owned(tx.credits, o))
            && QueueOf(after, o)
               == Dropped(QueueOf(before, o), Total(Owned(tx.debits, o))) + ContributionsTo(tx, tx.credits, o)
  {
    AppliedAttribution(s, tx);
    var left, added := ConsumeAll(s.attribution, tx.debits), NewEntries(tx, tx.credits);
    assert Newest(left + added) == left + added;
    hide *;
    ConsumeAllQueued(s.attribution, tx.debits, o);
    NewEntriesOf(tx, tx.credits, o);
    QueuedConcat(left, added, o);
    QueueOfConcat(left, added, o);
  }
}
