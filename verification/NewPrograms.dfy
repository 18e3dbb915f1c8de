/**
  Out-of-order delivery for a program that does not exist yet. The first message creates it,
  even one that contradicts itself. So the order is irrelevant exactly when the message with
  the greatest version is consistent, or is the only one for the program.
 */
module NewPrograms {
  import opened Wrappers
  import opened Tables
  import opened Messages
  import opened Snapshot
  import opened Transactions
  import opened Runs
  import opened Convergence

  predicate DeliversTo(op: Op, p: ProgramId) {
    op.Deliver? && op.delivery.event.program == p
  }

  /** ops[f] is the first message for the program. */
  predicate First(ops: seq<Op>, p: ProgramId, f: nat) {
    f < |ops| && DeliversTo(ops[f], p) && forall i | 0 <= i < f :: !DeliversTo(ops[i], p)
  }

  /** A well-formed message creates the program as it asks, consistent or not. */
  lemma CreationEffect(e: Event)
    requires WellFormed(e)
    ensures WorkFor(None, e).Work?
    ensures ConfigOf(WorkFor(None, e).account.program) == Asked(e)
  {
    if e.Reconciliation? && !Contradictory(e) {
      WriteItemsSucceeds(Context(e.currency, e.exponent, e.message), map[], e.items);
      TotalNonNegative(e.items);
    }
  }

  lemma {:induction false} NotYetCreated(db: Db, ops: seq<Op>, p: ProgramId)
    requires p !in db.accounts && forall i | 0 <= i < |ops| :: !DeliversTo(ops[i], p)
    ensures p !in Exec(db, ops).accounts
  {
    if ops != [] {
      var init := ops[..|ops| - 1];
      assert forall i | 0 <= i < |init| :: init[i] == ops[i];
      NotYetCreated(db, init, p);
    }
  }

  lemma {:induction false} ExecSplit(db: Db, ops: seq<Op>, n: nat)
    requires n <= |ops|
    ensures Exec(db, ops) == Exec(Exec(db, ops[..n]), ops[n..])
    decreases |ops|
  {
    if n == |ops| {
      assert ops[..n] == ops;
    } else {
      var init := ops[..|ops| - 1];
      ExecSplit(db, init, n);
      assert init[..n] == ops[..n];
      assert ops[n..][..|ops[n..]| - 1] == init[n..];
    }
  }

  lemma FreshTail(db: Db, ops: seq<Op>, p: ProgramId, n: nat)
    requires Fresh(db, ops, p) && n <= |ops|
    ensures Fresh(Exec(db, ops[..n]), ops[n..], p)
  {
    var head, tail := ops[..n], ops[n..];
    assert forall i | 0 <= i < |tail| :: tail[i] == ops[n + i];
    forall i, q | 0 <= i < |tail| && tail[i].Deliver? && q in Exec(db, head).processed
      ensures q.slot != tail[i].delivery.slot && q.message != tail[i].delivery.event.message
    {
      RecordedFrom(db, head, q);
      if q !in db.processed {
        var j :| 0 <= j < |head| && head[j].Deliver? && Recorded(head[j].delivery) == q;
        assert ops[j] == head[j];
      }
    }
  }

  lemma FreshHead(db: Db, ops: seq<Op>, p: ProgramId, n: nat)
    requires Fresh(db, ops, p) && n <= |ops|
    ensures Fresh(db, ops[..n], p)
  {
    assert forall i | 0 <= i < n :: ops[..n][i] == ops[i];
  }

  lemma {:induction false} RunKeeps(db: Db, ops: seq<Op>)
    requires DbKept(db)
    ensures DbKept(Exec(db, ops))
  {
    if ops != [] {
      RunKeeps(db, ops[..|ops| - 1]);
      StepKeeps(Exec(db, ops[..|ops| - 1]), ops[|ops| - 1]);
    }
  }

  /** An unseen message for an unknown program creates it. */
  lemma UnseenCreates(db: Db, d: Delivery)
    requires d.event.program !in db.accounts && WellFormed(d.event)
    requires !SlotRecorded(db.processed, d.slot) && !MessageRecorded(db.processed, d.event.message)
    ensures
      var next, p := After(db, Deliver(d)), d.event.program;
      p in next.accounts && ConfigOf(next.accounts[p].program) == Asked(d.event)
  {
    CreationEffect(d.event);
  }

  lemma FirstCreates(db: Db, ops: seq<Op>, p: ProgramId, f: nat)
    requires p !in db.accounts && Fresh(db, ops, p) && First(ops, p, f)
    ensures
      var end := Exec(db, ops[..f + 1]);
      p in end.accounts && ConfigOf(end.accounts[p].program) == Asked(ops[f].delivery.event)
  {
    var head := ops[..f + 1];
    assert head[..f] == ops[..f] && head[f] == ops[f];
    NotYetCreated(db, ops[..f], p);
    FreshHead(db, ops, p, f + 1);
    LastIsUnseen(db, head, p);
    UnseenCreates(Exec(db, ops[..f]), ops[f].delivery);
  }

  /** The first message sets the configuration, and from there on the greatest version wins. */
  lemma {:induction false} FirstThenGreatest(db: Db, ops: seq<Op>, p: ProgramId, f: nat)
    requires DbKept(db) && p !in db.accounts && Fresh(db, ops, p) && First(ops, p, f)
    ensures p in Exec(db, ops).accounts
    ensures Greatest(Asked(ops[f].delivery.event), ops[f + 1..], p, ConfigOf(Exec(db, ops).accounts[p].program))
  {
    FirstCreates(db, ops, p, f);
    RunKeeps(db, ops[..f + 1]);
    FreshTail(db, ops, p, f + 1);
    GreatestWins(Exec(db, ops[..f + 1]), ops[f + 1..], p);
    ExecSplit(db, ops, f + 1);
  }

  /** ops[w] has the greatest version of the program's messages, alone. */
  predicate Newest(ops: seq<Op>, p: ProgramId, w: nat) {
    && w < |ops| && DeliversTo(ops[w], p)
    && ops[w].delivery.event.version.Whole?
    && forall i | 0 <= i < |ops| && i != w && DeliversTo(ops[i], p) ::
         ops[i].delivery.event.version.Whole? && ops[i].delivery.event.version.n < ops[w].delivery.event.version.n
  }

  /** An older start loses to a newest message that applies. */
  lemma NewestInTailWins(start: Config, tail: seq<Op>, p: ProgramId, cfg: Config, n: nat)
    requires Greatest(start, tail, p, cfg)
    requires n < |tail| && Applicable(tail[n], p)
    requires start.version.Some? && start.version.value < tail[n].delivery.event.version.n
    requires forall i | 0 <= i < |tail| && i != n && Applicable(tail[i], p) ::
               tail[i].delivery.event.version.n < tail[n].delivery.event.version.n
    ensures cfg == Asked(tail[n].delivery.event)
  {
    assert cfg.version.value >= tail[n].delivery.event.version.n;
    var i :| 0 <= i < |tail| && Applicable(tail[i], p) && cfg == Asked(tail[i].delivery.event);
    assert i == n;
  }

  /** Nothing older moves a start that has the greatest version, and nothing older than it gets there. */
  lemma OlderTailStaysBelow(start: Config, tail: seq<Op>, p: ProgramId, cfg: Config, version: int)
    requires Greatest(start, tail, p, cfg)
    requires start.version.Some? && start.version.value <= version
    requires forall i | 0 <= i < |tail| && Applicable(tail[i], p) :: tail[i].delivery.event.version.n < version
    ensures start.version.value == version ==> cfg == start
    ensures start.version.value < version ==> cfg.version.Some? && cfg.version.value < version
  {
    if cfg != start {
      var i :| 0 <= i < |tail| && Applicable(tail[i], p) && cfg == Asked(tail[i].delivery.event);
    }
  }

  /** After the first message, the others are older than the newest. */
  lemma TailOfNewest(ops: seq<Op>, p: ProgramId, w: nat, f: nat)
    requires Newest(ops, p, w) && First(ops, p, f)
    ensures
      var tail, version := ops[f + 1..], ops[w].delivery.event.version.n;
      && f <= w && (f < w ==> tail[w - f - 1] == ops[w])
      && ops[f].delivery.event.version.Whole? && ops[f].delivery.event.version.n <= version
      && (f < w ==> ops[f].delivery.event.version.n < version)
      && (forall i | 0 <= i < |tail| && i != w - f - 1 && DeliversTo(tail[i], p) ::
            tail[i].delivery.event.version.Whole? && tail[i].delivery.event.version.n < version)
  {
    var tail := ops[f + 1..];
    assert forall i | 0 <= i < |tail| :: tail[i] == ops[f + 1 + i];
  }

  /** When the newest message is consistent it wins in every order. */
  lemma ConsistentNewestWins(db: Db, ops: seq<Op>, p: ProgramId, w: nat)
    requires DbKept(db) && p !in db.accounts && Fresh(db, ops, p)
    requires Newest(ops, p, w) && !Contradictory(ops[w].delivery.event)
    ensures WellFormed(ops[w].delivery.event) && p in Exec(db, ops).accounts
    ensures ConfigOf(Exec(db, ops).accounts[p].program) == Asked(ops[w].delivery.event)
  {
    var f := FirstIndex(ops, p, w);
    FirstThenGreatest(db, ops, p, f);
    TailOfNewest(ops, p, w, f);
    var start, tail := Asked(ops[f].delivery.event), ops[f + 1..];
    var cfg := ConfigOf(Exec(db, ops).accounts[p].program);
    if f < w {
      NewestInTailWins(start, tail, p, cfg, w - f - 1);
    } else {
      OlderTailStaysBelow(start, tail, p, cfg, ops[w].delivery.event.version.n);
    }
  }

  /** A program that has a message has a first one. */
  function FirstIndex(ops: seq<Op>, p: ProgramId, w: nat): (f: nat)
    requires w < |ops| && DeliversTo(ops[w], p)
    ensures First(ops, p, f) && f <= w
  {
    if DeliversTo(ops[0], p) then 0
    else
      assert ops[1..][w - 1] == ops[w];
      FirstIndex(ops[1..], p, w - 1) + 1
  }

  /** When the newest message contradicts itself, it wins iff it is the first to arrive. */
  lemma ContradictoryNewestWinsIff(db: Db, ops: seq<Op>, p: ProgramId, w: nat, f: nat)
    requires DbKept(db) && p !in db.accounts && Fresh(db, ops, p) && First(ops, p, f)
    requires Newest(ops, p, w) && Contradictory(ops[w].delivery.event)
    ensures WellFormed(ops[w].delivery.event) && p in Exec(db, ops).accounts
    ensures ConfigOf(Exec(db, ops).accounts[p].program) == Asked(ops[w].delivery.event) <==> f == w
  {
    FirstThenGreatest(db, ops, p, f);
    TailOfNewest(ops, p, w, f);
    OlderTailStaysBelow(Asked(ops[f].delivery.event), ops[f + 1..], p, ConfigOf(Exec(db, ops).accounts[p].program),
                        ops[w].delivery.event.version.n);
  }

  // ---------- comparing orders ----------

  function ConfigAfter(db: Db, ops: seq<Op>, p: ProgramId): Option<Config> {
    var end := Exec(db, ops);
    if p in end.accounts then Some(ConfigOf(end.accounts[p].program)) else None
  }

  /** The same operations in another order. */
  predicate Reorders(ops: seq<Op>, other: seq<Op>) {
    multiset(other) == multiset(ops)
  }

  /** A contradictory newest message decides differently when it comes first than when it comes last. */
  lemma FirstOrLastDiffer(db: Db, newest: Op, rest: seq<Op>, p: ProgramId)
    requires DbKept(db) && p !in db.accounts
    requires Fresh(db, [newest] + rest, p)
    requires Newest([newest] + rest, p, 0) && Contradictory(newest.delivery.event)
    requires exists i | 0 <= i < |rest| :: DeliversTo(rest[i], p)
    ensures ConfigAfter(db, [newest] + rest, p) != ConfigAfter(db, rest + [newest], p)
  {
    var front, back := [newest] + rest, rest + [newest];
    FreshReordered(db, front, back, p);
    var i :| 0 <= i < |rest| && DeliversTo(rest[i], p);
    assert back[i] == rest[i];
    forall j | 0 <= j < |rest| && DeliversTo(rest[j], p)
      ensures rest[j].delivery.event.version.Whole?
              && rest[j].delivery.event.version.n < newest.delivery.event.version.n
    {
      assert front[j + 1] == rest[j];
    }
    ContradictoryNewestWinsIff(db, front, p, 0, 0);
    ContradictoryNewestWinsIff(db, back, p, |rest|, FirstIndex(back, p, i));
  }

  lemma TwiceCounted<T>(s: seq<T>, i: nat, j: nat)
    requires i < j < |s| && s[i] == s[j]
    ensures multiset(s)[s[i]] >= 2
  {
    assert s == s[..j] + [s[j]] + s[j + 1..];
    assert s[i] in multiset(s[..j]) by {
      assert s[..j][i] == s[i];
    }
  }

  lemma FoundTwice<T>(s: seq<T>, x: T) returns (i: nat, j: nat)
    requires multiset(s)[x] >= 2
    ensures i < j < |s| && s[i] == x && s[j] == x
  {
    assert x in multiset(s);
    var k :| 0 <= k < |s| && s[k] == x;
    assert s == s[..k] + [s[k]] + s[k + 1..];
    if x in multiset(s[..k]) {
      i :| 0 <= i < k && s[..k][i] == x;
      j := k;
    } else {
      assert x in multiset(s[k + 1..]);
      var l :| 0 <= l < |s| - k - 1 && s[k + 1..][l] == x;
      i, j := k, k + 1 + l;
    }
  }

  /** Freshness does not depend on the order. */
  lemma FreshReordered(db: Db, ops: seq<Op>, other: seq<Op>, p: ProgramId)
    requires Fresh(db, ops, p) && Reorders(ops, other)
    ensures Fresh(db, other, p)
  {
    forall i | 0 <= i < |other|
      ensures exists k :: 0 <= k < |ops| && ops[k] == other[i]
    {
      assert other[i] in multiset(ops);
    }
    forall i, j | 0 <= i < j < |other| && other[i].Deliver? && other[j].Deliver?
      ensures other[i].delivery.slot != other[j].delivery.slot
      ensures other[i].delivery.event.message != other[j].delivery.event.message
    {
      DistinctReordered(db, ops, other, p, i, j);
    }
  }

  lemma DistinctReordered(db: Db, ops: seq<Op>, other: seq<Op>, p: ProgramId, i: nat, j: nat)
    requires Fresh(db, ops, p) && Reorders(ops, other)
    requires i < j < |other| && other[i].Deliver? && other[j].Deliver?
    ensures other[i].delivery.slot != other[j].delivery.slot
    ensures other[i].delivery.event.message != other[j].delivery.event.message
  {
    if other[i] == other[j] {
      TwiceCounted(other, i, j);
      var a, b := FoundTwice(ops, other[i]);
    } else {
      assert other[i] in multiset(ops) && other[j] in multiset(ops);
      var a :| 0 <= a < |ops| && ops[a] == other[i];
      var b :| 0 <= b < |ops| && ops[b] == other[j];
      assert a < b || b < a;
    }
  }

  /** The message at w moved to the front, and to the end. */
  lemma MovedReorders(ops: seq<Op>, w: nat)
    requires w < |ops|
    ensures
      var rest := ops[..w] + ops[w + 1..];
      Reorders(ops, [ops[w]] + rest) && Reorders(ops, rest + [ops[w]])
  {
    assert ops == ops[..w] + [ops[w]] + ops[w + 1..];
  }

  /** Where the newest message is in another order. */
  lemma NewestReordered(db: Db, ops: seq<Op>, other: seq<Op>, p: ProgramId, w: nat) returns (v: nat)
    requires Newest(ops, p, w) && Reorders(ops, other) && Fresh(db, other, p)
    ensures Newest(other, p, v) && other[v] == ops[w]
  {
    assert ops[w] in multiset(other);
    v :| 0 <= v < |other| && other[v] == ops[w];
    forall i | 0 <= i < |other| && i != v && DeliversTo(other[i], p)
      ensures other[i].delivery.event.version.Whole?
              && other[i].delivery.event.version.n < ops[w].delivery.event.version.n
    {
      assert other[i] in multiset(ops);
      var j :| 0 <= j < |ops| && ops[j] == other[i];
      assert j != w;
    }
  }

  /** The program has no other message than the one at w. */
  predicate OnlyMessage(ops: seq<Op>, p: ProgramId, w: nat) {
    forall i | 0 <= i < |ops| && DeliversTo(ops[i], p) :: i == w
  }

  lemma OrderIsIrrelevant(db: Db, ops: seq<Op>, other: seq<Op>, p: ProgramId, w: nat)
    requires DbKept(db) && p !in db.accounts && Fresh(db, ops, p) && Newest(ops, p, w)
    requires Reorders(ops, other)
    requires !Contradictory(ops[w].delivery.event) || OnlyMessage(ops, p, w)
    ensures WellFormed(ops[w].delivery.event)
    ensures ConfigAfter(db, other, p) == Some(Asked(ops[w].delivery.event))
  {
    FreshReordered(db, ops, other, p);
    var v := NewestReordered(db, ops, other, p, w);
    if Contradictory(ops[w].delivery.event) {
      var f := FirstIndex(other, p, v);
      assert other[f] in multiset(ops);
      assert f == v;
      ContradictoryNewestWinsIff(db, other, p, v, f);
    } else {
      ConsistentNewestWins(db, other, p, v);
    }
  }

  /**
    Every order of the same operations ends with the same configuration iff the newest
    message is consistent or is the program's only one.
   */
  lemma OrderIrrelevantIff(db: Db, ops: seq<Op>, p: ProgramId, w: nat)
    requires DbKept(db) && p !in db.accounts && Fresh(db, ops, p) && Newest(ops, p, w)
    ensures (forall other | Reorders(ops, other) :: ConfigAfter(db, other, p) == ConfigAfter(db, ops, p))
        <==> !Contradictory(ops[w].delivery.event) || OnlyMessage(ops, p, w)
  {
    if !Contradictory(ops[w].delivery.event) || OnlyMessage(ops, p, w) {
      forall other | Reorders(ops, other)
        ensures ConfigAfter(db, other, p) == ConfigAfter(db, ops, p)
      {
        OrderIsIrrelevant(db, ops, other, p, w);
        OrderIsIrrelevant(db, ops, ops, p, w);
      }
    } else {
      SomeOrdersDiffer(db, ops, p, w);
    }
  }

  /** The newest message first, and the newest message last. */
  lemma SomeOrdersDiffer(db: Db, ops: seq<Op>, p: ProgramId, w: nat)
    requires DbKept(db) && p !in db.accounts && Fresh(db, ops, p) && Newest(ops, p, w)
    requires Contradictory(ops[w].delivery.event) && !OnlyMessage(ops, p, w)
    ensures
      var rest := ops[..w] + ops[w + 1..];
      && Reorders(ops, [ops[w]] + rest) && Reorders(ops, rest + [ops[w]])
      && ConfigAfter(db, [ops[w]] + rest, p) != ConfigAfter(db, rest + [ops[w]], p)
  {
    var rest := ops[..w] + ops[w + 1..];
    MovedReorders(ops, w);
    FreshReordered(db, ops, [ops[w]] + rest, p);
    var v := NewestReordered(db, ops, [ops[w]] + rest, p, w);
    assert v == 0;
    var i :| 0 <= i < |ops| && DeliversTo(ops[i], p) && i != w;
    assert rest[if i < w then i else i - 1] == ops[i];
    FirstOrLastDiffer(db, ops[w], rest, p);
  }

  // ---------- an input on which the order decides ----------

  const P: ProgramId := "PROGRAM-ABC"

  /** Declares a sum of 1 over no reservations. */
  function Contradiction(): Op {
    Deliver(Delivery(Reconciliation("c", P, Whole(5), "USD", 2, Whole(100), Whole(1), []), Slot("t", 0, 0), "h"))
  }

  function Update(): Op {
    Deliver(Delivery(CapacityUpdate("u", P, Whole(3), "USD", 2, Whole(50)), Slot("t", 0, 1), "h"))
  }

  /** Either message creates the program. */
  lemma EitherCreates()
    ensures
      var empty := Db(map[], map[], {});
      && Contradictory(Contradiction().delivery.event)
      && WorkFor(None, Contradiction().delivery.event).Work?
      && WorkFor(None, Contradiction().delivery.event).account.program
         == Program("USD", 2, 100, 0, ProgramActive, 0, Some(5))
      && WorkFor(None, Update().delivery.event).Work?
      && WorkFor(None, Update().delivery.event).account.program == Program("USD", 2, 50, 0, ProgramActive, 0, Some(3))
  {
  }

  /** The second message is stale, or contradicts itself. */
  lemma SecondIsIdle(a: Account)
    ensures a.program.treasuryVersion == Some(5) ==> WorkFor(Some(a), Update().delivery.event) == Work(a, Stale, None)
    ensures
      var work := WorkFor(Some(a), Contradiction().delivery.event);
      work.Work? ==> work.account == a
  {
    assert Contradictory(Contradiction().delivery.event);
  }

  /** A message that leaves its program as it is, or is rejected, leaves the configuration. */
  lemma IdleKeepsConfig(db: Db, d: Delivery)
    requires d.event.program in db.accounts
    requires
      var a := db.accounts[d.event.program];
      WorkFor(Some(a), d.event).Work? ==> WorkFor(Some(a), d.event).account == a
    ensures
      var next := After(db, Deliver(d));
      d.event.program in next.accounts && next.accounts[d.event.program] == db.accounts[d.event.program]
  {
  }

  lemma CreationIsStored(d: Delivery)
    requires WorkFor(None, d.event).Work?
    ensures
      var next := After(Db(map[], map[], {}), Deliver(d));
      d.event.program in next.accounts && next.accounts[d.event.program] == WorkFor(None, d.event).account
  {
  }

  lemma OrderDecides()
    ensures
      var empty := Db(map[], map[], {});
      && ConfigAfter(empty, [Contradiction()] + [Update()], P) == Some(Config(100, "USD", 2, Some(5)))
      && ConfigAfter(empty, [Update()] + [Contradiction()], P) == Some(Config(50, "USD", 2, Some(3)))
  {
    var empty := Db(map[], map[], {});
    EitherCreates();
    CreationIsStored(Contradiction().delivery);
    CreationIsStored(Update().delivery);
    var first, other := After(empty, Contradiction()), After(empty, Update());
    SecondIsIdle(first.accounts[P]);
    SecondIsIdle(other.accounts[P]);
    IdleKeepsConfig(first, Update().delivery);
    IdleKeepsConfig(other, Contradiction().delivery);
    TwoOps(empty, Contradiction(), Update());
    TwoOps(empty, Update(), Contradiction());
  }

  lemma TwoOps(db: Db, a: Op, b: Op)
    ensures Exec(db, [a] + [b]) == After(After(db, a), b)
  {
    ExecAppend(db, [], a);
    ExecAppend(db, [a], b);
    assert [] + [a] == [a];
  }
}
