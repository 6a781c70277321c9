/** Guarantees of the bookkeeping over whole runs, with failed saves, crashes and
    restarts. */
module StateRuns {
  import opened Bookkeeping

  // ----- the flat maps refine a map per container

  /** What the flat keys stand for: a clock per container and digest, and the pairs
      already announced. */
  datatype Ledger = Ledger(clocks: map<(string, string), int>, announced: set<(string, string)>)

  datatype Ledgers = Ledgers(mem: Ledger, disk: Ledger)

  function Record(s: Ledgers, mem: Ledger, saved: bool): Ledgers {
    Ledgers(mem, if saved then mem else s.disk)
  }

  function LedgerStep(s: Ledgers, op: Op): Ledgers {
    match op
    case See(c, d, now, saved) =>
      if (c, d) in s.mem.clocks then s else Record(s, s.mem.(clocks := s.mem.clocks[(c, d) := now]), saved)
    case Applied(c, d, saved) =>
      Record(s, s.mem.(clocks := map p | p in s.mem.clocks && (p.0 != c || p.1 == d) :: s.mem.clocks[p]), saved)
    case Bad(_, saved) => Record(s, s.mem, saved)
    case Announce(c, d, saved) =>
      if (c, d) in s.mem.announced then s else Record(s, s.mem.(announced := s.mem.announced + {(c, d)}), saved)
    case Restart => Ledgers(s.disk, s.disk)
  }

  function LedgerAfter(s: Ledgers, ops: seq<Op>): Ledgers
    decreases |ops|
  {
    if ops == [] then s else LedgerStep(LedgerAfter(s, ops[..|ops| - 1]), ops[|ops| - 1])
  }

  const BLANK: Ledgers := Ledgers(Ledger(map[], {}), Ledger(map[], {}))

  ghost predicate Refines(b: Book, l: Ledger) {
    && (forall c, d {:trigger KeyOf(c, d)} :: NoSlash(c) ==> (KeyOf(c, d) in b.firstSeen <==> (c, d) in l.clocks))
    && (forall c, d {:trigger KeyOf(c, d)} :: NoSlash(c) && (c, d) in l.clocks ==> b.firstSeen[KeyOf(c, d)] == l.clocks[(c, d)])
    && (forall c, d {:trigger KeyOf(c, d)} :: NoSlash(c) ==> (Flag(b.notified, KeyOf(c, d)) <==> (c, d) in l.announced))
  }

  predicate Slashless(op: Op) {
    (op.See? || op.Applied? || op.Announce?) ==> NoSlash(op.container)
  }

  lemma RefinesWrite(b: Book, l: Ledger, c: string, d: string, now: int)
    requires Refines(b, l) && NoSlash(c)
    ensures Refines(b.(firstSeen := b.firstSeen[KeyOf(c, d) := now]), l.(clocks := l.clocks[(c, d) := now]))
    ensures Refines(b.(notified := b.notified[KeyOf(c, d) := true]), l.(announced := l.announced + {(c, d)}))
  {
    forall c', d' | NoSlash(c') ensures KeyOf(c', d') == KeyOf(c, d) <==> (c', d') == (c, d) {
      if KeyOf(c', d') == KeyOf(c, d) { KeyInjective(c', d', c, d); }
    }
  }

  lemma RefinesPrune(b: Book, l: Ledger, c: string, d: string)
    requires Refines(b, l) && NoSlash(c)
    ensures Refines(MarkApplied(b, c, d), l.(clocks := map p | p in l.clocks && (p.0 != c || p.1 == d) :: l.clocks[p]))
  {
    forall c', d' | NoSlash(c') ensures Stale(KeyOf(c', d'), c, d) <==> c == c' && d != d' {
      StaleIsOwn(c, d, c', d');
    }
  }

  lemma StepRefines(s: Store, l: Ledgers, op: Op)
    requires Refines(s.mem, l.mem) && Refines(s.disk, l.disk) && Slashless(op)
    ensures Refines(Step(s, op).mem, LedgerStep(l, op).mem) && Refines(Step(s, op).disk, LedgerStep(l, op).disk)
  {
    match op
    case See(c, d, now, _) => RefinesWrite(s.mem, l.mem, c, d, now);
    case Applied(c, d, _) => RefinesPrune(s.mem, l.mem, c, d);
    case Announce(c, d, _) => RefinesWrite(s.mem, l.mem, c, d, 0);
    case _ =>
  }

  /** Over any run with slash-free names, the flat string-keyed maps behave exactly
      like the two-level ledger, in memory and on disk. */
  lemma {:induction false} FlatRefinesLedger(ops: seq<Op>)
    requires forall op :: op in ops ==> Slashless(op)
    ensures Refines(After(FRESH, ops).mem, LedgerAfter(BLANK, ops).mem)
    ensures Refines(After(FRESH, ops).disk, LedgerAfter(BLANK, ops).disk)
    decreases |ops|
  {
    if ops != [] {
      var n := |ops| - 1;
      FlatRefinesLedger(ops[..n]);
      StepRefines(After(FRESH, ops[..n]), LedgerAfter(BLANK, ops[..n]), ops[n]);
    }
  }

  // ----- soak clocks

  predicate Sees(op: Op, c: string, d: string) {
    op.See? && op.container == c && op.digest == d
  }

  predicate Prunes(op: Op, c: string, d: string) {
    op.Applied? && op.container == c && op.digest != d
  }

  /** `i` is the first observation of the pair since its last prune. */
  ghost predicate IsEarliest(ops: seq<Op>, i: int, c: string, d: string) {
    && 0 <= i < |ops| && Sees(ops[i], c, d)
    && (forall j :: i < j < |ops| ==> !Prunes(ops[j], c, d))
    && (forall k :: 0 <= k < i && Sees(ops[k], c, d) ==> exists j :: k < j < i && Prunes(ops[j], c, d))
  }

  /** No crash loses anything: restarts aside, every save succeeds. */
  predicate Durable(ops: seq<Op>) {
    forall op :: op in ops && !op.Restart? ==> op.saved
  }

  lemma {:induction false} DurableSyncs(ops: seq<Op>)
    requires Durable(ops)
    ensures LedgerAfter(BLANK, ops).mem == LedgerAfter(BLANK, ops).disk
    decreases |ops|
  {
    if ops != [] { DurableSyncs(ops[..|ops| - 1]); }
  }

  lemma {:induction false} LedgerKeepsEarliest(ops: seq<Op>, c: string, d: string)
    requires Durable(ops)
    ensures var l := LedgerAfter(BLANK, ops).mem;
            && ((c, d) in l.clocks <==> exists i :: IsEarliest(ops, i, c, d))
            && (forall i :: IsEarliest(ops, i, c, d) ==> l.clocks[(c, d)] == ops[i].now)
    decreases |ops|
  {
    if ops != [] {
      var n := |ops| - 1;
      LedgerKeepsEarliest(ops[..n], c, d);
      DurableSyncs(ops[..n]);
      ClockStep(LedgerAfter(BLANK, ops[..n]), ops[n], c, d);
      hide LedgerStep;
      EarliestExtends(ops, c, d);
      EarliestUnique(ops, c, d);
      assert forall i :: IsEarliest(ops[..n], i, c, d) ==> 0 <= i < n && ops[i] == ops[..n][i];
      hide IsEarliest;
      var l := LedgerAfter(BLANK, ops[..n]).mem;
      if (c, d) in l.clocks && !Prunes(ops[n], c, d) {
        var i :| IsEarliest(ops[..n], i, c, d);
        assert IsEarliest(ops, i, c, d);
      }
    }
  }

  /** How one operation changes the clock of a pair. */
  lemma ClockStep(s: Ledgers, op: Op, c: string, d: string)
    requires s.mem == s.disk && (!op.Restart? ==> op.saved)
    ensures var l, r := s.mem.clocks, LedgerStep(s, op).mem.clocks;
            && ((c, d) in r <==> ((c, d) in l && !Prunes(op, c, d)) || Sees(op, c, d))
            && ((c, d) in r && (c, d) in l ==> r[(c, d)] == l[(c, d)])
            && ((c, d) in r && (c, d) !in l ==> r[(c, d)] == op.now)
  {
  }

  /** How one more operation changes which observation is the earliest. */
  lemma EarliestExtends(ops: seq<Op>, c: string, d: string)
    requires ops != []
    ensures var n := |ops| - 1;
            && (Prunes(ops[n], c, d) ==> forall i :: !IsEarliest(ops, i, c, d))
            && (!Prunes(ops[n], c, d) ==> forall i :: IsEarliest(ops[..n], i, c, d) ==> IsEarliest(ops, i, c, d))
            && (!Prunes(ops[n], c, d) ==> forall i :: i != n && IsEarliest(ops, i, c, d) ==> IsEarliest(ops[..n], i, c, d))
            && (Sees(ops[n], c, d) && (forall i :: !IsEarliest(ops[..n], i, c, d)) ==> IsEarliest(ops, n, c, d))
            && (!Sees(ops[n], c, d) ==> !IsEarliest(ops, n, c, d))
  {
    var n := |ops| - 1;
    assert forall i :: 0 <= i < n ==> ops[..n][i] == ops[i];
    if Sees(ops[n], c, d) && forall i :: !IsEarliest(ops[..n], i, c, d) {
      NoClockMeansPruned(ops[..n], c, d);
    }
  }

  lemma EarliestUnique(ops: seq<Op>, c: string, d: string)
    ensures forall i, j :: IsEarliest(ops, i, c, d) && IsEarliest(ops, j, c, d) ==> i == j
  {
  }

  /** If no observation counts as earliest, every observation has been pruned. */
  lemma {:induction false} NoClockMeansPruned(ops: seq<Op>, c: string, d: string)
    requires forall i :: !IsEarliest(ops, i, c, d)
    ensures forall k :: 0 <= k < |ops| && Sees(ops[k], c, d) ==> exists j :: k < j < |ops| && Prunes(ops[j], c, d)
  {
    forall k | 0 <= k < |ops| && Sees(ops[k], c, d)
      ensures exists j :: k < j < |ops| && Prunes(ops[j], c, d)
    {
      DescendToEarliest(ops, k, c, d);
    }
  }

  lemma {:induction false} DescendToEarliest(ops: seq<Op>, k: int, c: string, d: string)
    requires 0 <= k < |ops| && Sees(ops[k], c, d)
    requires forall i :: !IsEarliest(ops, i, c, d)
    ensures exists j :: k < j < |ops| && Prunes(ops[j], c, d)
    decreases k
  {
    if forall j :: k < j < |ops| ==> !Prunes(ops[j], c, d) {
      assert !IsEarliest(ops, k, c, d);
      var m :| 0 <= m < k && Sees(ops[m], c, d) && forall j :: m < j < k ==> !Prunes(ops[j], c, d);
      DescendToEarliest(ops, m, c, d);
    }
  }

  /** `SeenAt` answers with the time of the first observation since the last prune
      of that container and digest, restarts included. */
  lemma {:induction false} SeenAtKeepsEarliest(ops: seq<Op>, c: string, d: string, now: int)
    requires Durable(ops) && NoSlash(c) && forall op :: op in ops ==> Slashless(op)
    ensures var t := SeenAt(After(FRESH, ops).mem, c, d, now).1;
            && (forall i :: IsEarliest(ops, i, c, d) ==> t == ops[i].now)
            && ((forall i :: !IsEarliest(ops, i, c, d)) ==> t == now)
  {
    FlatRefinesLedger(ops);
    LedgerKeepsEarliest(ops, c, d);
    assert KeyOf(c, d) in After(FRESH, ops).mem.firstSeen <==> (c, d) in LedgerAfter(BLANK, ops).mem.clocks;
  }

  /** Every clock, in memory or on disk, was started by a real observation of that
      container and digest, also when saves fail and the process restarts. */
  ghost predicate Honest(b: Book, ops: seq<Op>) {
    forall c, d {:trigger KeyOf(c, d)} :: NoSlash(c) && KeyOf(c, d) in b.firstSeen ==>
      exists i :: 0 <= i < |ops| && Sees(ops[i], c, d) && ops[i].now == b.firstSeen[KeyOf(c, d)]
  }

  lemma HonestExtend(b: Book, b': Book, ops: seq<Op>, op: Op)
    requires Honest(b, ops) && Slashless(op)
    requires forall k :: k in b'.firstSeen ==>
               || (k in b.firstSeen && b'.firstSeen[k] == b.firstSeen[k])
               || (op.See? && k == KeyOf(op.container, op.digest) && b'.firstSeen[k] == op.now)
    ensures Honest(b', ops + [op])
  {
    var all := ops + [op];
    forall c, d | NoSlash(c) && KeyOf(c, d) in b'.firstSeen
      ensures exists i :: 0 <= i < |all| && Sees(all[i], c, d) && all[i].now == b'.firstSeen[KeyOf(c, d)]
    {
      var k := KeyOf(c, d);
      if k in b.firstSeen && b'.firstSeen[k] == b.firstSeen[k] {
        var i :| 0 <= i < |ops| && Sees(ops[i], c, d) && ops[i].now == b.firstSeen[k];
        assert all[i] == ops[i];
      } else {
        KeyInjective(c, d, op.container, op.digest);
        assert all[|ops|] == op;
      }
    }
  }

  lemma {:induction false} ClocksAreHonest(ops: seq<Op>)
    requires forall op :: op in ops ==> Slashless(op)
    ensures Honest(After(FRESH, ops).mem, ops) && Honest(After(FRESH, ops).disk, ops)
    decreases |ops|
  {
    if ops != [] {
      var n := |ops| - 1;
      ClocksAreHonest(ops[..n]);
      var s := After(FRESH, ops[..n]);
      var r := Step(s, ops[n]);
      assert ops == ops[..n] + [ops[n]];
      if ops[n].Restart? {
        HonestExtend(s.disk, r.mem, ops[..n], ops[n]);
        HonestExtend(s.disk, r.disk, ops[..n], ops[n]);
      } else {
        HonestExtend(s.mem, r.mem, ops[..n], ops[n]);
        if r.disk == s.disk { HonestExtend(s.disk, r.disk, ops[..n], ops[n]); }
      }
    }
  }

  // ----- blacklist and announcements

  /** A blacklisting that reached the disk survives everything that can follow. */
  lemma {:induction false} BlacklistForever(s: Store, ops: seq<Op>, d: string)
    requires Flag(s.mem.badDigests, d) && Flag(s.disk.badDigests, d)
    ensures Flag(After(s, ops).mem.badDigests, d) && Flag(After(s, ops).disk.badDigests, d)
    decreases |ops|
  {
    if ops != [] { BlacklistForever(s, ops[..|ops| - 1], d); }
  }

  /** Nothing is blacklisted that no operation marked bad. */
  lemma {:induction false} OnlyMarkedIsBad(ops: seq<Op>, d: string)
    requires Flag(After(FRESH, ops).mem.badDigests, d) || Flag(After(FRESH, ops).disk.badDigests, d)
    ensures exists i :: 0 <= i < |ops| && ops[i].Bad? && ops[i].digest == d
    decreases |ops|
  {
    var n := |ops| - 1;
    if !(ops[n].Bad? && ops[n].digest == d) {
      OnlyMarkedIsBad(ops[..n], d);
      var i :| 0 <= i < n && ops[..n][i].Bad? && ops[..n][i].digest == d;
      assert ops[i] == ops[..n][i];
    }
  }

  /** The digest recorded as applied is that of the last update of the container. */
  lemma {:induction false} LastAppliedIsLatest(ops: seq<Op>, i: int, c: string)
    requires Durable(ops) && 0 <= i < |ops| && ops[i].Applied? && ops[i].container == c
    requires forall j :: i < j < |ops| ==> !(ops[j].Applied? && ops[j].container == c)
    ensures c in After(FRESH, ops).mem.lastApplied && After(FRESH, ops).mem.lastApplied[c] == ops[i].digest
    decreases |ops|
  {
    var n := |ops| - 1;
    FlatSynced(ops[..n]);
    LastAppliedStep(After(FRESH, ops[..n]), ops[n], c);
    hide Step;
    if i < n {
      assert forall j :: 0 <= j < n ==> ops[..n][j] == ops[j];
      LastAppliedIsLatest(ops[..n], i, c);
    }
  }

  lemma LastAppliedStep(s: Store, op: Op, c: string)
    requires s.mem == s.disk
    ensures op.Applied? && op.container == c ==> c in Step(s, op).mem.lastApplied && Step(s, op).mem.lastApplied[c] == op.digest
    ensures !(op.Applied? && op.container == c) && c in s.mem.lastApplied ==>
              c in Step(s, op).mem.lastApplied && Step(s, op).mem.lastApplied[c] == s.mem.lastApplied[c]
  {
    hide Stale, KeyOf;
  }

  /** The answer `FirstNotify` gave at position `i`. */
  predicate Announced(ops: seq<Op>, i: int, c: string, d: string)
    requires 0 <= i < |ops|
  {
    ops[i].Announce? && ops[i].container == c && ops[i].digest == d
    && FirstNotify(After(FRESH, ops[..i]).mem, c, d).1
  }

  lemma {:induction false} FlatSynced(ops: seq<Op>)
    requires Durable(ops)
    ensures After(FRESH, ops).mem == After(FRESH, ops).disk
    decreases |ops|
  {
    if ops != [] { FlatSynced(ops[..|ops| - 1]); }
  }

  lemma {:induction false} AnnouncementSticks(ops: seq<Op>, i: int, c: string, d: string)
    requires Durable(ops) && 0 <= i < |ops|
    requires ops[i].Announce? && ops[i].container == c && ops[i].digest == d
    ensures Flag(After(FRESH, ops).mem.notified, KeyOf(c, d))
    decreases |ops|
  {
    var n := |ops| - 1;
    FlatSynced(ops[..n]);
    if i < n {
      assert ops[..n][i] == ops[i];
      AnnouncementSticks(ops[..n], i, c, d);
    }
  }

  /** With successful saves, a pair counts as announced exactly if it has been. */
  lemma {:induction false} NotifiedIff(ops: seq<Op>, c: string, d: string)
    requires Durable(ops) && NoSlash(c) && forall op :: op in ops ==> Slashless(op)
    ensures Flag(After(FRESH, ops).mem.notified, KeyOf(c, d)) <==>
              exists k :: 0 <= k < |ops| && ops[k].Announce? && ops[k].container == c && ops[k].digest == d
  {
    FlatRefinesLedger(ops);
    LedgerAnnounced(ops, c, d);
    assert Flag(After(FRESH, ops).mem.notified, KeyOf(c, d)) <==> (c, d) in LedgerAfter(BLANK, ops).mem.announced;
  }

  lemma {:induction false} LedgerAnnounced(ops: seq<Op>, c: string, d: string)
    requires Durable(ops)
    ensures (c, d) in LedgerAfter(BLANK, ops).mem.announced <==>
              exists k :: 0 <= k < |ops| && ops[k].Announce? && ops[k].container == c && ops[k].digest == d
    decreases |ops|
  {
    if ops != [] {
      var n := |ops| - 1;
      LedgerAnnounced(ops[..n], c, d);
      DurableSyncs(ops[..n]);
      if k :| 0 <= k < n && ops[..n][k].Announce? && ops[..n][k].container == c && ops[..n][k].digest == d {
        assert ops[k] == ops[..n][k];
      }
      if k :| 0 <= k < |ops| && ops[k].Announce? && ops[k].container == c && ops[k].digest == d {
        if k < n { assert ops[..n][k] == ops[k]; }
      }
    }
  }

  /** With successful saves, each container and digest is announced at most once,
      however often the process restarts. */
  lemma AnnouncedOnce(ops: seq<Op>, i: int, j: int, c: string, d: string)
    requires Durable(ops) && 0 <= i < j < |ops|
    requires Announced(ops, i, c, d)
    ensures !Announced(ops, j, c, d)
  {
    assert ops[..j][i] == ops[i];
    AnnouncementSticks(ops[..j], i, c, d);
  }
}
