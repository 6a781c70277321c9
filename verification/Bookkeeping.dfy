/** Persistent bookkeeping: soak clocks, blacklist, last applied digests, and what
    has been announced (internal/state). Times are integers. */
module Bookkeeping {
  import opened Common

  /** The contents of state.json. */
  datatype Book = Book(firstSeen: map<string, int>, badDigests: map<string, bool>,
                       lastApplied: map<string, string>, notified: map<string, bool>)

  const EMPTY: Book := Book(map[], map[], map[], map[])

  /** Reading a Go map of booleans: a missing key reads as false. */
  predicate Flag(m: map<string, bool>, k: string) { k in m && m[k] }

  /** The flat key under which a container and a digest are stored. */
  function KeyOf(container: string, digest: string): string {
    container + "/" + digest
  }

  function SeenAt(b: Book, c: string, d: string, now: int): (Book, int) {
    var k := KeyOf(c, d);
    if k in b.firstSeen then (b, b.firstSeen[k]) else (b.(firstSeen := b.firstSeen[k := now]), now)
  }

  /** The first-seen entries that applying `d` to `c` deletes. */
  predicate Stale(k: string, c: string, d: string) {
    |k| > |c| && k[..|c| + 1] == c + "/" && k != KeyOf(c, d)
  }

  function MarkApplied(b: Book, c: string, d: string): Book {
    b.(lastApplied := b.lastApplied[c := d],
       firstSeen := map k | k in b.firstSeen && !Stale(k, c, d) :: b.firstSeen[k])
  }

  function MarkBad(b: Book, d: string): Book {
    b.(badDigests := b.badDigests[d := true])
  }

  function FirstNotify(b: Book, c: string, d: string): (Book, bool) {
    var k := KeyOf(c, d);
    if Flag(b.notified, k) then (b, false) else (b.(notified := b.notified[k := true]), true)
  }

  /** The state object. `disk` is the content of state.json: saving writes a
      temporary file and renames it over the old one, so the file always holds one
      whole book. A save may fail, and its error is dropped. */
  class State {
    var firstSeen: map<string, int>
    var badDigests: map<string, bool>
    var lastApplied: map<string, string>
    var notified: map<string, bool>
    var disk: Book

    ghost function Mem(): Book
      reads this
    {
      Book(firstSeen, badDigests, lastApplied, notified)
    }

    ghost function Snapshot(): Store
      reads this
    {
      Store(Mem(), disk)
    }

    constructor Load(file: Book)
      ensures Mem() == file && disk == file
    {
      firstSeen, badDigests := file.firstSeen, file.badDigests;
      lastApplied, notified := file.lastApplied, file.notified;
      disk := file;
    }

    method Save() returns (saved: bool)
      modifies this`disk
      ensures disk == if saved then Mem() else old(disk)
    {
      saved := *;
      if saved { disk := Book(firstSeen, badDigests, lastApplied, notified); }
    }

    method DoSeenAt(c: string, d: string, now: int) returns (t: int, ghost saved: bool)
      modifies this
      ensures (Mem(), t) == SeenAt(old(Mem()), c, d, now)
      ensures Snapshot() == Step(old(Snapshot()), See(c, d, now, saved))
    {
      var k := KeyOf(c, d);
      saved := false;
      if k in firstSeen { return firstSeen[k], saved; }
      firstSeen := firstSeen[k := now];
      var s := Save();
      return now, s;
    }

    method DoPeekSeen(c: string, d: string) returns (t: Option<int>)
      ensures t.Some? <==> KeyOf(c, d) in firstSeen
      ensures t.Some? ==> t.value == firstSeen[KeyOf(c, d)]
    {
      var k := KeyOf(c, d);
      t := if k in firstSeen then Some(firstSeen[k]) else None;
    }

    method DoMarkBad(d: string) returns (ghost saved: bool)
      modifies this
      ensures Snapshot() == Step(old(Snapshot()), Bad(d, saved))
    {
      badDigests := badDigests[d := true];
      var s := Save();
      saved := s;
    }

    method DoIsBad(d: string) returns (bad: bool)
      ensures bad == Flag(badDigests, d)
    {
      bad := d in badDigests && badDigests[d];
    }

    method DoFirstNotify(c: string, d: string) returns (first: bool, ghost saved: bool)
      modifies this
      ensures (Mem(), first) == FirstNotify(old(Mem()), c, d)
      ensures Snapshot() == Step(old(Snapshot()), Announce(c, d, saved))
    {
      var k := KeyOf(c, d);
      saved := false;
      if k in notified && notified[k] { return false, saved; }
      notified := notified[k := true];
      var s := Save();
      return true, s;
    }

    /** Deletes while ranging over the map, in whatever order Go picks. */
    method DoMarkApplied(c: string, d: string) returns (ghost saved: bool)
      modifies this
      ensures Snapshot() == Step(old(Snapshot()), Applied(c, d, saved))
    {
      lastApplied := lastApplied[c := d];
      var todo := firstSeen.Keys;
      while todo != {}
        invariant todo <= firstSeen.Keys <= old(firstSeen).Keys
        invariant forall k :: k in old(firstSeen) ==> (k in firstSeen <==> k in todo || !Stale(k, c, d))
        invariant forall k :: k in firstSeen ==> firstSeen[k] == old(firstSeen)[k]
        invariant badDigests == old(badDigests) && notified == old(notified) && disk == old(disk)
        invariant lastApplied == old(lastApplied)[c := d]
        decreases |todo|
      {
        var k :| k in todo;
        todo := todo - {k};
        if |k| > |c| && k[..|c| + 1] == c + "/" && k != c + "/" + d {
          firstSeen := firstSeen - {k};
        }
      }
      assert Mem() == MarkApplied(old(Mem()), c, d);
      var s := Save();
      saved := s;
    }
  }

  // ----- runs

  /** What the process remembers and what it would find after a restart. */
  datatype Store = Store(mem: Book, disk: Book)

  /** One state operation, whether its save succeeded, or a restart. A crash inside
      an operation is that operation, saved or not, followed by a restart. */
  datatype Op =
    | See(container: string, digest: string, now: int, saved: bool)
    | Applied(container: string, digest: string, saved: bool)
    | Bad(digest: string, saved: bool)
    | Announce(container: string, digest: string, saved: bool)
    | Restart

  function Written(s: Store, mem: Book, saved: bool): Store {
    Store(mem, if saved then mem else s.disk)
  }

  function Step(s: Store, op: Op): Store {
    match op
    case See(c, d, now, saved) =>
      if KeyOf(c, d) in s.mem.firstSeen then s else Written(s, SeenAt(s.mem, c, d, now).0, saved)
    case Applied(c, d, saved) => Written(s, MarkApplied(s.mem, c, d), saved)
    case Bad(d, saved) => Written(s, MarkBad(s.mem, d), saved)
    case Announce(c, d, saved) =>
      if Flag(s.mem.notified, KeyOf(c, d)) then s else Written(s, FirstNotify(s.mem, c, d).0, saved)
    case Restart => Store(s.disk, s.disk)
  }

  /** The store after a run of operations. */
  function After(s: Store, ops: seq<Op>): Store
    decreases |ops|
  {
    if ops == [] then s else Step(After(s, ops[..|ops| - 1]), ops[|ops| - 1])
  }

  lemma {:induction false} AfterExtend(s: Store, ops: seq<Op>, op: Op)
    ensures After(s, ops + [op]) == Step(After(s, ops), op)
  {
    assert (ops + [op])[..|ops|] == ops;
  }

  const FRESH: Store := Store(EMPTY, EMPTY)

  // ----- keys

  predicate NoSlash(c: string) { '/' !in c }

  /** Container names hold no slash, so a flat key names one container and one digest. */
  lemma KeyInjective(c: string, d: string, c': string, d': string)
    requires NoSlash(c) && NoSlash(c') && KeyOf(c, d) == KeyOf(c', d')
    ensures c == c' && d == d'
  {
    var k := KeyOf(c, d);
    assert k[|c|] == '/' && k[|c'|] == '/';
    assert forall i :: 0 <= i < |c| ==> k[i] == c[i] && k[i] in c;
    assert forall i :: 0 <= i < |c'| ==> k[i] == c'[i] && k[i] in c';
    assert |c| == |c'|;
    assert c == k[..|c|] && c' == k[..|c'|];
    assert d == k[|c| + 1..] && d' == k[|c'| + 1..];
  }

  /** Pruning for one container never hits another, even if the names share a prefix. */
  lemma StaleIsOwn(c: string, d: string, c': string, d': string)
    requires NoSlash(c) && NoSlash(c')
    ensures Stale(KeyOf(c', d'), c, d) <==> c == c' && d != d'
  {
    var k := KeyOf(c', d');
    if |k| > |c| && k[..|c| + 1] == c + "/" {
      var rest := k[|c| + 1..];
      assert k == (c + "/") + rest;
      assert KeyOf(c, rest) == k;
      KeyInjective(c, rest, c', d');
    }
    if c == c' {
      assert k[..|c| + 1] == c + "/";
      if k == KeyOf(c, d) { KeyInjective(c, d, c', d'); }
    }
  }

  /** With a slash in the name the prune does hit another container: applying to
      "a" forgets the clock of "a/b". */
  lemma SlashBreaksPruning()
    ensures Stale(KeyOf("a/b", "x"), "a", "y")
    ensures KeyOf("a/b", "x") == KeyOf("a", "b/x")
  {
    var k := KeyOf("a/b", "x");
    assert k == "a/b/x" == KeyOf("a", "b/x");
    assert k[..2] == "a/" && k != KeyOf("a", "y");
  }
}
