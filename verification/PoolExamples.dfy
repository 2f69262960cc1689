/** Runs from a fresh pool after which a switch breaks the invariant, or a rollback what a chain
    means. */
module PoolExamples {
  import opened Blocks
  import opened ForkTree
  import opened Rerooting
  import opened RerootingExact
  import opened PoolSteps
  import opened PoolMachine
  import opened PoolRuns
  import opened ForkSwitch
  import opened TailHashes

  // ---------------------------------------------------------------- runs, step by step

  /** The steps lead from `p` to `q`. */
  ghost predicate Leads(p: Pool, steps: seq<Step>, q: Pool) {
    Inv(p) && Runs(p, steps) && After(p, steps) == q && Inv(q)
  }

  lemma {:induction false} RunGrows(p: Pool, steps: seq<Step>, q: Pool, st: Step)
    requires Leads(p, steps, q) && Enabled(q, st) && Safe(q, st)
    ensures Leads(p, steps + [st], Apply(q, st))
    decreases |steps|
  {
    StepKeepsInvExactly(q, st);
    var all := steps + [st];
    if steps != [] {
      var p' := Apply(p, steps[0]);
      StepKeepsInvExactly(p, steps[0]);
      EveryRunKeepsInv(p', steps[1..]);
      RunGrows(p', steps[1..], q, st);
      assert all[0] == steps[0] && all[1..] == steps[1..] + [st];
    } else {
      assert all[0] == st && all[1..] == [];
    }
  }

  /** The next step of a run whose first n lead to `q`. */
  lemma Onward(p: Pool, run: seq<Step>, n: nat, q: Pool)
    requires n < |run| && Leads(p, run[..n], q) && Enabled(q, run[n]) && Safe(q, run[n])
    ensures Leads(p, run[..n + 1], Apply(q, run[n]))
  {
    RunGrows(p, run[..n], q, run[n]);
    assert run[..n + 1] == run[..n] + [run[n]];
  }

  lemma FreshPool(g: Block)
    requires g.height == 0
    ensures Leads(Init([g]), [], Pool([g], map[1 := Empty(g)], 1, 1))
  {
    assert DiskLinkAt([g], 0);
    InitKeepsInv([g]);
  }

  /** An empty chain on the disk's head. */
  function Empty(b: Block): Forked {
    Forked(b.height, b.hash, b.height, b.hash, map[], Disk)
  }

  // ---------------------------------------------------------------- a chain left aside, rolled under

  /** Two blocks on g by different hands (x1, b1), and what follows them. */
  ghost predicate Cast(g: Block, x1: Block, a2: Block, y2: Block, b1: Block, b2: Block) {
    && g.height == 0 && x1.height == b1.height == 1 && a2.height == y2.height == b2.height == 2
    && x1.preHash == b1.preHash == g.hash && a2.preHash == y2.preHash == x1.hash && b2.preHash == b1.hash
    && x1.hash != b1.hash && a2.hash != b2.hash
  }

  /** x1 inserted directly, a2 put on the chain. */
  function Aside2(g: Block, x1: Block, a2: Block): Pool {
    Pool([g, x1], map[1 := Forked(1, x1.hash, 2, a2.hash, map[2 := a2], Disk)], 1, 1)
  }

  /** y2 inserted directly: chain 1 is left aside. */
  function Aside3(g: Block, x1: Block, a2: Block, y2: Block): Pool {
    Pool([g, x1, y2], map[1 := Forked(1, x1.hash, 2, a2.hash, map[2 := a2], Disk), 2 := Empty(y2)], 2, 2)
  }

  /** Everything above g rolled back. */
  function Aside4(g: Block, x1: Block, a2: Block, y2: Block): Pool {
    Pool([g], map[1 := Forked(1, x1.hash, 2, a2.hash, map[2 := a2], Disk),
                  2 := Forked(0, g.hash, 2, y2.hash, map[1 := x1, 2 := y2], Disk)], 2, 2)
  }

  /** The branch b1, b2 forked off and made current. */
  function Aside6(g: Block, x1: Block, a2: Block, y2: Block, b1: Block, b2: Block): Pool {
    Pool([g], map[1 := Forked(1, x1.hash, 2, a2.hash, map[2 := a2], Disk),
                  2 := Forked(0, g.hash, 2, y2.hash, map[1 := x1, 2 := y2], Chain(3)),
                  3 := Forked(0, "", 2, b2.hash, map[1 := b1, 2 := b2], Disk)], 3, 3)
  }

  /** And written down. */
  function Aside8(g: Block, x1: Block, a2: Block, y2: Block, b1: Block, b2: Block): Pool {
    Pool([g, b1, b2], map[1 := Forked(1, x1.hash, 2, a2.hash, map[2 := a2], Disk),
                          2 := Forked(0, g.hash, 2, y2.hash, map[1 := x1, 2 := y2], Chain(3)),
                          3 := Empty(b2)], 3, 3)
  }

  function Branch(g: Block, b1: Block, b2: Block): Snippet {
    Snippet(0, g.hash, 2, b2.hash, map[1 := b1, 2 := b2])
  }

  lemma FirstTwo(g: Block, x1: Block, a2: Block)
    requires g.height == 0 && x1.height == 1 && a2.height == 2 && x1.preHash == g.hash && a2.preHash == x1.hash
    ensures Leads(Init([g]), [DoDirect(x1), DoInsert(1, a2)], Aside2(g, x1, a2))
  {
    FreshPool(g);
    var p0 := Pool([g], map[1 := Empty(g)], 1, 1);
    RunGrows(Init([g]), [], p0, DoDirect(x1));
    var p1 := Pool([g, x1], map[1 := Empty(x1)], 1, 1);
    assert Direct(p0, x1).chains == p1.chains && [g] + [x1] == [g, x1];
    assert Direct(p0, x1) == p1;
    assert [] + [DoDirect(x1)] == [DoDirect(x1)];
    RunGrows(Init([g]), [DoDirect(x1)], p1, DoInsert(1, a2));
    assert Insert(p1, 1, a2) == Aside2(g, x1, a2);
    assert [DoDirect(x1)] + [DoInsert(1, a2)] == [DoDirect(x1), DoInsert(1, a2)];
  }

  lemma ThirdStep(g: Block, x1: Block, a2: Block, y2: Block)
    requires g.height == 0 && x1.height == 1 && a2.height == y2.height == 2
    requires y2.preHash == x1.hash && Inv(Aside2(g, x1, a2))
    ensures Enabled(Aside2(g, x1, a2), DoDirect(y2)) && Safe(Aside2(g, x1, a2), DoDirect(y2))
    ensures Apply(Aside2(g, x1, a2), DoDirect(y2)) == Aside3(g, x1, a2, y2)
  {
    assert [g, x1] + [y2] == [g, x1, y2];
    assert Direct(Aside2(g, x1, a2), y2).chains == Aside3(g, x1, a2, y2).chains;
  }

  lemma FourthStep(g: Block, x1: Block, a2: Block, y2: Block)
    requires g.height == 0 && x1.height == 1 && a2.height == y2.height == 2
    requires x1.preHash == g.hash && Inv(Aside3(g, x1, a2, y2))
    ensures Enabled(Aside3(g, x1, a2, y2), DoRollback(0)) && Safe(Aside3(g, x1, a2, y2), DoRollback(0))
    ensures Apply(Aside3(g, x1, a2, y2), DoRollback(0)) == Aside4(g, x1, a2, y2)
  {
    var p, q := Aside3(g, x1, a2, y2), Aside4(g, x1, a2, y2);
    var m := Pool([g, x1], p.chains[2 := Forked(1, y2.preHash, 2, y2.hash, map[2 := y2], Disk)], 2, 2);
    assert Pop(p) == m by { assert [g, x1, y2][..2] == [g, x1]; assert Pop(p).chains == m.chains; }
    assert Pop(m) == q by { assert [g, x1][..1] == [g]; assert map[2 := y2][1 := x1] == map[1 := x1, 2 := y2]; assert Pop(m).chains == q.chains; }
    assert PopTo(p, 0) == PopTo(m, 0) == PopTo(q, 0) == q;
  }

  function Aside5(g: Block, x1: Block, a2: Block, y2: Block, b1: Block, b2: Block): Pool {
    Fork(Aside4(g, x1, a2, y2), 2, Branch(g, b1, b2))
  }

  lemma FifthStep(g: Block, x1: Block, a2: Block, y2: Block, b1: Block, b2: Block)
    requires Cast(g, x1, a2, y2, b1, b2) && Inv(Aside4(g, x1, a2, y2))
    ensures var st := DoFork(2, Branch(g, b1, b2));
            Enabled(Aside4(g, x1, a2, y2), st) && Safe(Aside4(g, x1, a2, y2), st)
  {
    var p, s := Aside4(g, x1, a2, y2), Branch(g, b1, b2);
    OwnOrParent(p, 2, 0);
    assert At(p, 2, 0) == Some(g);
    assert forall h :: LinkAt(s.blocks, h);
    assert Forks(p, 2, s);
  }

  lemma SixthStep(g: Block, x1: Block, a2: Block, y2: Block, b1: Block, b2: Block)
    requires Cast(g, x1, a2, y2, b1, b2) && Inv(Aside5(g, x1, a2, y2, b1, b2))
    ensures Enabled(Aside5(g, x1, a2, y2, b1, b2), DoSwitch(3)) && Safe(Aside5(g, x1, a2, y2, b1, b2), DoSwitch(3))
    ensures Apply(Aside5(g, x1, a2, y2, b1, b2), DoSwitch(3)) == Aside6(g, x1, a2, y2, b1, b2)
  {
    var p, q := Aside5(g, x1, a2, y2, b1, b2), Aside6(g, x1, a2, y2, b1, b2);
    LevelSwitch(p, 3);
    RerootSteps(p, 3, false);
    var z := Swap(p, 2, 3, false);
    assert z.chains == q.chains;
    assert Reroot(z, 3, false) == Some(z);
    SwitchMeans(p, 3, false);
    assert z.(current := 3) == q;
  }

  lemma WriteSteps(g: Block, x1: Block, a2: Block, y2: Block, b1: Block, b2: Block)
    requires Cast(g, x1, a2, y2, b1, b2) && Inv(Aside6(g, x1, a2, y2, b1, b2))
    ensures var p := Aside6(g, x1, a2, y2, b1, b2);
            && Enabled(p, DoWrite) && Safe(p, DoWrite) && Inv(Apply(p, DoWrite))
            && Enabled(Apply(p, DoWrite), DoWrite) && Safe(Apply(p, DoWrite), DoWrite)
            && Apply(Apply(p, DoWrite), DoWrite) == Aside8(g, x1, a2, y2, b1, b2)
  {
    var p, q := Aside6(g, x1, a2, y2, b1, b2), Aside8(g, x1, a2, y2, b1, b2);
    WriteKeepsInv(p);
    var m := Pool([g, b1], p.chains[3 := Forked(1, b1.hash, 2, b2.hash, map[2 := b2], Disk)], 3, 3);
    assert Write(p) == m by {
      assert [g] + [b1] == [g, b1];
      assert map[1 := b1, 2 := b2] - {1} == map[2 := b2];
      assert Write(p).chains == m.chains;
    }
    assert Write(m) == q by {
      assert [g, b1] + [b2] == [g, b1, b2];
      assert map[2 := b2] - {2} == map[];
      assert Write(m).chains == q.chains;
    }
  }

  function AsideRun(g: Block, x1: Block, a2: Block, y2: Block, b1: Block, b2: Block): seq<Step> {
    [DoDirect(x1), DoInsert(1, a2), DoDirect(y2), DoRollback(0), DoFork(2, Branch(g, b1, b2)), DoSwitch(3), DoWrite, DoWrite]
  }

  lemma LeftAside(g: Block, x1: Block, a2: Block, y2: Block, run: seq<Step>)
    requires g.height == 0 && x1.height == 1 && a2.height == y2.height == 2
    requires x1.preHash == g.hash && a2.preHash == y2.preHash == x1.hash
    requires |run| >= 4 && run[0] == DoDirect(x1) && run[1] == DoInsert(1, a2) && run[2] == DoDirect(y2) && run[3] == DoRollback(0)
    ensures Leads(Init([g]), run[..4], Aside4(g, x1, a2, y2))
  {
    FirstTwo(g, x1, a2);
    assert run[..2] == [DoDirect(x1), DoInsert(1, a2)];
    ThirdStep(g, x1, a2, y2);
    Onward(Init([g]), run, 2, Aside2(g, x1, a2));
    FourthStep(g, x1, a2, y2);
    Onward(Init([g]), run, 3, Aside3(g, x1, a2, y2));
  }

  lemma Overtaken(g: Block, x1: Block, a2: Block, y2: Block, b1: Block, b2: Block, run: seq<Step>)
    requires Cast(g, x1, a2, y2, b1, b2) && |run| >= 6 && run[4] == DoFork(2, Branch(g, b1, b2)) && run[5] == DoSwitch(3)
    requires Leads(Init([g]), run[..4], Aside4(g, x1, a2, y2))
    ensures Leads(Init([g]), run[..6], Aside6(g, x1, a2, y2, b1, b2))
  {
    FifthStep(g, x1, a2, y2, b1, b2);
    Onward(Init([g]), run, 4, Aside4(g, x1, a2, y2));
    SixthStep(g, x1, a2, y2, b1, b2);
    Onward(Init([g]), run, 5, Aside5(g, x1, a2, y2, b1, b2));
  }

  lemma WrittenDown(g: Block, x1: Block, a2: Block, y2: Block, b1: Block, b2: Block, run: seq<Step>)
    requires Cast(g, x1, a2, y2, b1, b2) && |run| >= 8 && run[6] == run[7] == DoWrite
    requires Leads(Init([g]), run[..6], Aside6(g, x1, a2, y2, b1, b2))
    ensures Leads(Init([g]), run[..8], Aside8(g, x1, a2, y2, b1, b2))
  {
    WriteSteps(g, x1, a2, y2, b1, b2);
    Onward(Init([g]), run, 6, Aside6(g, x1, a2, y2, b1, b2));
    Onward(Init([g]), run, 7, Apply(Aside6(g, x1, a2, y2, b1, b2), DoWrite));
  }

  lemma AsideIsReached(g: Block, x1: Block, a2: Block, y2: Block, b1: Block, b2: Block)
    requires Cast(g, x1, a2, y2, b1, b2)
    ensures Leads(Init([g]), AsideRun(g, x1, a2, y2, b1, b2), Aside8(g, x1, a2, y2, b1, b2))
  {
    var run := AsideRun(g, x1, a2, y2, b1, b2);
    LeftAside(g, x1, a2, y2, run);
    Overtaken(g, x1, a2, y2, b1, b2, run);
    WrittenDown(g, x1, a2, y2, b1, b2, run);
    assert run[..8] == run;
  }

  // ---------------------------------------------------------------- what a switch to it does

  /** The pool once the disk is cut to b1 and chain 1 is current. */
  function AsideCurrent(g: Block, x1: Block, a2: Block, y2: Block, b1: Block, b2: Block): Pool {
    Pool([g, b1], map[1 := Forked(1, x1.hash, 2, a2.hash, map[2 := a2], Disk),
                      2 := Forked(0, g.hash, 2, y2.hash, map[1 := x1, 2 := y2], Chain(3)),
                      3 := Forked(1, b1.hash, 2, b2.hash, map[2 := b2], Disk)], 1, 3)
  }

  lemma AsideForkPoint(g: Block, x1: Block, a2: Block, y2: Block, b1: Block, b2: Block)
    requires Cast(g, x1, a2, y2, b1, b2) && Inv(Aside8(g, x1, a2, y2, b1, b2))
    ensures var p := Aside8(g, x1, a2, y2, b1, b2);
            ForkPoint(p, 1, 3) == Some(1) && !KeyMissing(p, 1) && Path(p, 1) == [1]
  {
    var p := Aside8(g, x1, a2, y2, b1, b2);
    OwnOrParent(p, 1, 2);
    OwnOrParent(p, 1, 1);
    OwnOrParent(p, 3, 2);
    OwnOrParent(p, 3, 1);
    ScanTurns(p, 1, 3, 2);
    ScanTurns(p, 1, 3, 1);
  }

  lemma AsideCut(g: Block, x1: Block, a2: Block, y2: Block, b1: Block, b2: Block)
    requires Cast(g, x1, a2, y2, b1, b2) && Inv(Aside8(g, x1, a2, y2, b1, b2))
    ensures PopTo(Aside8(g, x1, a2, y2, b1, b2), 1) == AsideCurrent(g, x1, a2, y2, b1, b2).(current := 3)
  {
    var p, q := Aside8(g, x1, a2, y2, b1, b2), AsideCurrent(g, x1, a2, y2, b1, b2).(current := 3);
    assert [g, b1, b2][..2] == [g, b1];
    assert Pop(p).chains == q.chains;
    assert PopTo(p, 1) == PopTo(Pop(p), 1) == PopTo(q, 1) == q;
  }

  lemma AsideSwitched(g: Block, x1: Block, a2: Block, y2: Block, b1: Block, b2: Block)
    requires Cast(g, x1, a2, y2, b1, b2) && Inv(AsideCurrent(g, x1, a2, y2, b1, b2).(current := 3))
    ensures Switch(AsideCurrent(g, x1, a2, y2, b1, b2).(current := 3), 1, false) == Some(AsideCurrent(g, x1, a2, y2, b1, b2))
  {
    var q := AsideCurrent(g, x1, a2, y2, b1, b2).(current := 3);
    OwnOrParent(q, 1, 1);
    SwitchMeans(q, 1, false);
  }

  /** A chain left aside by a direct insertion, rolled under and written over by another branch,
      is still found to fork off the disk. Switching to it goes through, and the next write puts a
      block on the disk that does not link to the one below. */
  lemma SwitchToOvertakenChain(g: Block, x1: Block, a2: Block, y2: Block, b1: Block, b2: Block)
    requires Cast(g, x1, a2, y2, b1, b2)
    ensures var p, z := Aside8(g, x1, a2, y2, b1, b2), AsideCurrent(g, x1, a2, y2, b1, b2);
            && Leads(Init([g]), AsideRun(g, x1, a2, y2, b1, b2), p)
            && ForkPoint(p, 1, p.current) == Some(1) && Path(p, 1) == [1]
            && SnapshotFork(p, 1, false) == Switched(z)
            && z.chains[z.current].tailHash != DiskHead(z.disk).hash
            && !Inv(z) && !DiskOk(Write(z).disk)
  {
    var p, z := Aside8(g, x1, a2, y2, b1, b2), AsideCurrent(g, x1, a2, y2, b1, b2);
    AsideIsReached(g, x1, a2, y2, b1, b2);
    AsideForkPoint(g, x1, a2, y2, b1, b2);
    AsideCut(g, x1, a2, y2, b1, b2);
    PopToRoots(p, 1, 1);
    AsideSwitched(g, x1, a2, y2, b1, b2);
    assert [g, b1][1] == b1 && Write(z).disk == [g, b1, a2];
    assert !DiskLinkAt(Write(z).disk, 2);
    if Inv(z) { WriteDiskOk(z); assert false; }
  }

  // ---------------------------------------------------------------- a chain left aside, switched back to

  /** a1 and a2 put on the chain. */
  function Ahead2(g: Block, a1: Block, a2: Block): Pool {
    Pool([g], map[1 := Forked(0, g.hash, 2, a2.hash, map[1 := a1, 2 := a2], Disk)], 1, 1)
  }

  /** a1 inserted directly too: chain 1 is left aside. */
  function Ahead3(g: Block, a1: Block, a2: Block): Pool {
    Pool([g, a1], map[1 := Forked(0, g.hash, 2, a2.hash, map[1 := a1, 2 := a2], Disk), 2 := Empty(a1)], 2, 2)
  }

  lemma AheadIsReached(g: Block, a1: Block, a2: Block)
    requires g.height == 0 && a1.height == 1 && a2.height == 2 && a1.preHash == g.hash && a2.preHash == a1.hash
    ensures Leads(Init([g]), [DoInsert(1, a1), DoInsert(1, a2), DoDirect(a1)], Ahead3(g, a1, a2))
  {
    var run := [DoInsert(1, a1), DoInsert(1, a2), DoDirect(a1)];
    var p0 := Pool([g], map[1 := Empty(g)], 1, 1);
    FreshPool(g);
    assert run[..0] == [];
    Onward(Init([g]), run, 0, p0);
    var p1 := Pool([g], map[1 := Forked(0, g.hash, 1, a1.hash, map[1 := a1], Disk)], 1, 1);
    assert Insert(p0, 1, a1).chains == p1.chains;
    Onward(Init([g]), run, 1, p1);
    assert map[1 := a1][2 := a2] == map[1 := a1, 2 := a2];
    assert Insert(p1, 1, a2).chains == Ahead2(g, a1, a2).chains;
    Onward(Init([g]), run, 2, Ahead2(g, a1, a2));
    assert [g] + [a1] == [g, a1];
    assert Direct(Ahead2(g, a1, a2), a1).chains == Ahead3(g, a1, a2).chains;
    assert run[..3] == run;
  }

  /** A chain that held a block before it was inserted directly is left aside with its tail below
      the disk's head. The code switches back to it, over no hop at all, and current's tail is then
      not the disk's head. */
  lemma SwitchBackToAside(g: Block, a1: Block, a2: Block)
    requires g.height == 0 && a1.height == 1 && a2.height == 2 && a1.preHash == g.hash && a2.preHash == a1.hash
    ensures var p := Ahead3(g, a1, a2);
            && Leads(Init([g]), [DoInsert(1, a1), DoInsert(1, a2), DoDirect(a1)], p)
            && Enabled(p, DoSwitch(1)) && Fitting(p, DoSwitch(1)) && !Safe(p, DoSwitch(1))
            && Apply(p, DoSwitch(1)) == p.(current := 1)
            && p.chains[1].tail == |p.disk| - 2 && !Inv(p.(current := 1))
  {
    var p := Ahead3(g, a1, a2);
    AheadIsReached(g, a1, a2);
    OwnOrParent(p, 1, 1);
    SwitchMeans(p, 1, false);
    assert Path(p, 1) == [1];
  }

  // ---------------------------------------------------------------- rollbacks

  /** The chain left aside was complete, and the rollback takes the block at height 1 from it. */
  lemma RollbackDisturbsAside(g: Block, x1: Block, a2: Block, y2: Block)
    requires g.height == 0 && x1.height == 1 && a2.height == y2.height == 2
    requires x1.preHash == g.hash && a2.preHash == y2.preHash == x1.hash
    ensures var p := Aside3(g, x1, a2, y2);
            && Leads(Init([g]), [DoDirect(x1), DoInsert(1, a2), DoDirect(y2)], p) && Sound(p, 1)
            && Acyclic(PopTo(p, 0)) && At(p, 1, 1) == Some(x1) && At(PopTo(p, 0), 1, 1) == None
  {
    var p, run := Aside3(g, x1, a2, y2), [DoDirect(x1), DoInsert(1, a2), DoDirect(y2)];
    FirstTwo(g, x1, a2);
    assert run[..2] == [DoDirect(x1), DoInsert(1, a2)];
    ThirdStep(g, x1, a2, y2);
    Onward(Init([g]), run, 2, Aside2(g, x1, a2));
    assert run[..3] == run;
    FourthStep(g, x1, a2, y2);
    PopToRoots(p, 0, 1);
    OwnOrParent(PopTo(p, 0), 1, 1);
    AsideIsSound(g, x1, a2, y2);
  }

  lemma AsideIsSound(g: Block, x1: Block, a2: Block, y2: Block)
    requires g.height == 0 && x1.height == 1 && a2.height == y2.height == 2
    requires x1.preHash == g.hash && a2.preHash == y2.preHash == x1.hash && Inv(Aside3(g, x1, a2, y2))
    ensures At(Aside3(g, x1, a2, y2), 1, 1) == Some(x1) && Sound(Aside3(g, x1, a2, y2), 1)
  {
    var p := Aside3(g, x1, a2, y2);
    OwnOrParent(p, 1, 0);
    OwnOrParent(p, 1, 1);
    OwnOrParent(p, 1, 2);
    assert SoundAt(p, 1, 1) && SoundAt(p, 1, 2);
  }

  /** After a switch to a fresh fork at the disk's head, every switch that has nothing to cut
      fails: current's empty tail hash does not pass the rollback's check. */
  lemma SwitchBackFails(g: Block, x1: Block, a2: Block, y2: Block, b1: Block, b2: Block)
    requires Cast(g, x1, a2, y2, b1, b2) && g.hash != ""
    ensures var p := Aside6(g, x1, a2, y2, b1, b2);
            && Leads(Init([g]), AsideRun(g, x1, a2, y2, b1, b2)[..6], p)
            && p.chains[p.current].tailHash == "" && !Passes(p, 0)
            && (y2.hash != b2.hash ==> SnapshotFork(p, 2, false) == RollbackFailed(p))
  {
    var p, run := Aside6(g, x1, a2, y2, b1, b2), AsideRun(g, x1, a2, y2, b1, b2);
    LeftAside(g, x1, a2, y2, run);
    Overtaken(g, x1, a2, y2, b1, b2, run);
    if y2.hash != b2.hash { SwitchBackForkPoint(g, x1, a2, y2, b1, b2); }
  }

  lemma SwitchBackForkPoint(g: Block, x1: Block, a2: Block, y2: Block, b1: Block, b2: Block)
    requires Cast(g, x1, a2, y2, b1, b2) && y2.hash != b2.hash && Inv(Aside6(g, x1, a2, y2, b1, b2))
    ensures ForkPoint(Aside6(g, x1, a2, y2, b1, b2), 2, 3) == Some(0) && !KeyMissing(Aside6(g, x1, a2, y2, b1, b2), 2)
  {
    var p := Aside6(g, x1, a2, y2, b1, b2);
    forall i | 0 <= i <= 2
      ensures At(p, 3, i) == Some(if i == 0 then g else if i == 1 then b1 else b2)
      ensures At(p, 2, i) == Some(if i == 0 then g else if i == 1 then x1 else y2)
    {
      OwnOrParent(p, 3, i);
      OwnOrParent(p, 2, i);
    }
    ScanTurns(p, 2, 3, 2);
    ScanTurns(p, 2, 3, 1);
    ScanTurns(p, 2, 3, 0);
  }

  // ---------------------------------------------------------------- a hop too long

  /** Three blocks on the chain, and then a fork that leaves it two above its tail. */
  function Long3(g: Block, a1: Block, a2: Block, a3: Block): Pool {
    Pool([g], map[1 := Forked(0, g.hash, 3, a3.hash, map[1 := a1, 2 := a2, 3 := a3], Disk)], 1, 1)
  }

  function Long4(g: Block, a1: Block, a2: Block, a3: Block, b3: Block): Pool {
    Pool([g], map[1 := Forked(0, g.hash, 3, a3.hash, map[1 := a1, 2 := a2, 3 := a3], Disk),
                  2 := Forked(2, "", 3, b3.hash, map[3 := b3], Chain(1))], 1, 2)
  }

  lemma ThreeAhead(g: Block, a1: Block, a2: Block, a3: Block)
    requires g.height == 0 && a1.height == 1 && a2.height == 2 && a3.height == 3
    requires a1.preHash == g.hash && a2.preHash == a1.hash && a3.preHash == a2.hash
    ensures Leads(Init([g]), [DoInsert(1, a1), DoInsert(1, a2), DoInsert(1, a3)], Long3(g, a1, a2, a3))
  {
    var run := [DoInsert(1, a1), DoInsert(1, a2), DoInsert(1, a3)];
    var p0 := Pool([g], map[1 := Empty(g)], 1, 1);
    FreshPool(g);
    assert run[..0] == [];
    Onward(Init([g]), run, 0, p0);
    var p1 := Pool([g], map[1 := Forked(0, g.hash, 1, a1.hash, map[1 := a1], Disk)], 1, 1);
    assert Insert(p0, 1, a1).chains == p1.chains;
    Onward(Init([g]), run, 1, p1);
    assert map[1 := a1][2 := a2] == map[1 := a1, 2 := a2];
    assert Insert(p1, 1, a2).chains == Ahead2(g, a1, a2).chains;
    Onward(Init([g]), run, 2, Ahead2(g, a1, a2));
    assert map[1 := a1, 2 := a2][3 := a3] == map[1 := a1, 2 := a2, 3 := a3];
    assert Insert(Ahead2(g, a1, a2), 1, a3).chains == Long3(g, a1, a2, a3).chains;
    assert run[..3] == run;
  }

  lemma ForkTwoAbove(g: Block, a1: Block, a2: Block, a3: Block, b3: Block)
    requires g.height == 0 && a1.height == 1 && a2.height == 2 && a3.height == b3.height == 3
    requires a1.preHash == g.hash && a2.preHash == a1.hash && a3.preHash == b3.preHash == a2.hash
    ensures Leads(Init([g]), [DoInsert(1, a1), DoInsert(1, a2), DoInsert(1, a3), DoFork(1, Snippet(2, a2.hash, 3, b3.hash, map[3 := b3]))],
                  Long4(g, a1, a2, a3, b3))
  {
    var s := Snippet(2, a2.hash, 3, b3.hash, map[3 := b3]);
    var run := [DoInsert(1, a1), DoInsert(1, a2), DoInsert(1, a3), DoFork(1, s)];
    var p := Long3(g, a1, a2, a3);
    ThreeAhead(g, a1, a2, a3);
    assert run[..3] == [DoInsert(1, a1), DoInsert(1, a2), DoInsert(1, a3)];
    OwnOrParent(p, 1, 2);
    assert forall h :: LinkAt(s.blocks, h);
    assert Forks(p, 1, s);
    Onward(Init([g]), run, 3, p);
    assert run[..4] == run;
  }

  /** The pool of LongHopExample is reached from a fresh one by three insertions and a fork. */
  lemma LongHopIsReached()
    ensures var g, a1, a2 := Block(0, "g", ""), Block(1, "a1", "g"), Block(2, "a2", "a1");
            var a3, b3 := Block(3, "a3", "a2"), Block(3, "b3", "a2");
            Leads(Init([g]), [DoInsert(1, a1), DoInsert(1, a2), DoInsert(1, a3), DoFork(1, Snippet(2, "a2", 3, "b3", map[3 := b3]))],
                  ShortOfOne())
  {
    ForkTwoAbove(Block(0, "g", ""), Block(1, "a1", "g"), Block(2, "a2", "a1"), Block(3, "a3", "a2"), Block(3, "b3", "a2"));
  }

  // ---------------------------------------------------------------- such blocks

  /** Blocks for all of the above. */
  lemma CastExists()
    ensures Cast(Block(0, "g", ""), Block(1, "x1", "g"), Block(2, "a2", "x1"), Block(2, "y2", "x1"),
                 Block(1, "b1", "g"), Block(2, "b2", "b1"))
    ensures "g" != "" && "y2" != "b2"
  {
    assert "x1"[0] != "b1"[0] && "a2"[0] != "b2"[0] && "y2"[0] != "b2"[0];
  }
}
