/** What the updates of a cycle leave in the daemon's books: which digests they blacklist,
    which they record as applied, and which notices they send. */
module CycleMarks {
  import opened Docker
  import opened Bookkeeping
  import T = Transaction
  import O = TransactionOutcome
  import Safety = TransactionSafety
  import Recovery
  import HG = HealthGate

  type Tries = seq<(T.Plan, T.Fates)>

  /** The marks of the updates, in order. */
  ghost function MarksOf(w: World, us: Tries): seq<T.Mark>
    requires Recovery.AllOrdered(us)
    decreases |us|
  {
    if us == [] then []
    else
      var r := T.Apply(w, us[0].0, us[0].1);
      r.marks + MarksOf(r.world, us[1..])
  }

  /** The notices of the updates, in order. */
  ghost function NoticesOf(w: World, us: Tries): seq<T.Notice>
    requires Recovery.AllOrdered(us)
    decreases |us|
  {
    if us == [] then []
    else
      var r := T.Apply(w, us[0].0, us[0].1);
      r.notices + NoticesOf(r.world, us[1..])
  }

  /** The applied digests with the mark of one update. */
  ghost function Noted(applied: map<string, string>, p: T.Plan, marks: seq<T.Mark>): map<string, string> {
    if T.MarkApplied(p.name, p.available) in marks then applied[Render(p.name) := p.available] else applied
  }

  ghost function AppliedBy(applied: map<string, string>, w: World, us: Tries): map<string, string>
    requires Recovery.AllOrdered(us)
    decreases |us|
  {
    if us == [] then applied
    else
      var r := T.Apply(w, us[0].0, us[0].1);
      AppliedBy(Noted(applied, us[0].0, r.marks), r.world, us[1..])
  }

  lemma {:induction false} MarksSnoc(w: World, us: Tries, u: (T.Plan, T.Fates), applied: map<string, string>)
    requires Recovery.AllOrdered(us) && T.Ordered(u.0, u.1) && Recovery.AllOrdered(us + [u])
    ensures var r := T.Apply(Recovery.Updates(w, us), u.0, u.1);
            && MarksOf(w, us + [u]) == MarksOf(w, us) + r.marks
            && NoticesOf(w, us + [u]) == NoticesOf(w, us) + r.notices
            && AppliedBy(applied, w, us + [u]) == Noted(AppliedBy(applied, w, us), u.0, r.marks)
    decreases |us|
  {
    hide T.Apply, T.Ordered, Noted;
    if us == [] {
      assert [] + [u] == [u] && [u][1..] == [];
    } else {
      assert (us + [u])[1..] == us[1..] + [u];
      assert forall x :: x in us[1..] ==> x in us;
      assert forall x :: x in us[1..] + [u] ==> x in us + [u];
      var r := T.Apply(w, us[0].0, us[0].1);
      MarksSnoc(r.world, us[1..], u, Noted(applied, us[0].0, r.marks));
    }
  }

  /** Some update of the cycle reached its gate with `d`, and a poll condemned it. */
  ghost predicate Condemns(w: World, us: Tries, d: string)
    requires Recovery.AllOrdered(us)
    decreases |us|
  {
    us != [] &&
    var (p, f) := us[0];
    || (p.available == d && Safety.AtGate(w, p, f) && exists n: nat :: HG.Condemned(f.gate, p.timeout, n))
    || Condemns(T.Apply(w, p, f).world, us[1..], d)
  }

  /** A cycle blacklists exactly the digests that some poll condemned at a gate. */
  lemma {:induction false} MarkedIffCondemned(w: World, us: Tries, d: string)
    requires Recovery.Planned(w, us)
    ensures T.MarkBad(d) in MarksOf(w, us) <==> Condemns(w, us, d)
    decreases |us|
  {
    hide T.Apply, T.Ordered, Safety.AtGate, HG.Condemned, O.Faithful;
    if us != [] {
      assert us[0] in us;
      Safety.BlacklistedIffCondemned(w, us[0].0, us[0].1, d);
      Recovery.PlansStayFaithful(w, us);
      MarkedIffCondemned(T.Apply(w, us[0].0, us[0].1).world, us[1..], d);
    }
  }

  /** The books carry exactly these marks. */
  ghost predicate Carries(b: Book, b': Book, marks: seq<T.Mark>, applied: map<string, string>) {
    && (forall d :: Flag(b'.badDigests, d) <==> Flag(b.badDigests, d) || T.MarkBad(d) in marks)
    && b'.lastApplied == applied
  }

  lemma CarriesMore(b: Book, m: Book, b': Book, marks: seq<T.Mark>, more: seq<T.Mark>,
                    middle: map<string, string>, applied: map<string, string>)
    requires Carries(b, m, marks, middle) && Carries(m, b', more, applied)
    ensures Carries(b, b', marks + more, applied)
  {
  }
}
