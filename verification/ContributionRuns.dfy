/** Attaches and revokes of many extensions interleaved. ContributionRegistry holds its lock only around
    the `attached` table (pkg/extension/contribution.go:154-200), and each registry locks one entry at a
    time, so between any two steps of one attach another may clash, roll back or be revoked. */
module ContributionRuns {
  import opened Collections
  import opened Registries

  datatype Phase = Attaching(todo: seq<Item>) | RollingBack | Attached | Revoking | Gone

  /** One call of Attach, and the revoke of what it attached; `held` is its undo log. */
  datatype Job = Job(name: string, wants: seq<Item>, phase: Phase, held: seq<Item>)

  /** `live` (in registration order) and `from` (which job registered an entry) are bookkeeping of the
      model: no step looks at them. */
  datatype Sys = Sys(
    reg: Registry,
    attached: map<string, nat>,
    jobs: seq<Job>,
    live: seq<Item>,
    from: map<Item, nat>)

  datatype Event =
    | Begin(name: string, wants: seq<Item>)
    | Register(j: nat)
    | Fail(j: nat)
    | Commit(j: nat)
    | Revoke(j: nat)
    | Undo(j: nat, k: nat)
    | Finish(j: nat)

  function Start(b: Registry): Sys {
    Sys(b, map[], [], [], map[])
  }

  predicate Undoing(p: Phase) {
    p.RollingBack? || p.Revoking?
  }

  predicate Enabled(c: Sys, e: Event) {
    match e
    case Begin(n, wants) => n !in c.attached && forall x | x in wants :: Ext(x) == n
    case Register(j) =>
      j < |c.jobs| && c.jobs[j].phase.Attaching? && c.jobs[j].phase.todo != [] && Free(c.reg, c.jobs[j].phase.todo[0])
    case Fail(j) => j < |c.jobs| && c.jobs[j].phase.Attaching?
    case Commit(j) => j < |c.jobs| && c.jobs[j].phase == Attaching([])
    case Revoke(j) => j < |c.jobs| && c.jobs[j].phase.Attached?
    case Undo(j, k) => j < |c.jobs| && Undoing(c.jobs[j].phase) && k < |c.jobs[j].held|
    case Finish(j) => j < |c.jobs| && Undoing(c.jobs[j].phase) && c.jobs[j].held == []
  }

  function Apply(c: Sys, e: Event): Sys
    requires Enabled(c, e)
  {
    match e
    case Begin(n, wants) =>
      c.(attached := c.attached[n := |c.jobs|], jobs := c.jobs + [Job(n, wants, Attaching(wants), [])])
    case Register(j) =>
      var job, x := c.jobs[j], c.jobs[j].phase.todo[0];
      c.(reg := Add(c.reg, x),
         jobs := c.jobs[j := job.(phase := Attaching(job.phase.todo[1..]), held := job.held + [x])],
         live := c.live + [x], from := c.from[x := j])
    case Fail(j) => c.(jobs := c.jobs[j := c.jobs[j].(phase := RollingBack)])
    case Commit(j) => c.(jobs := c.jobs[j := c.jobs[j].(phase := Attached)])
    case Revoke(j) =>
      c.(attached := c.attached - {c.jobs[j].name}, jobs := c.jobs[j := c.jobs[j].(phase := Revoking)])
    case Undo(j, k) =>
      var job, x := c.jobs[j], c.jobs[j].held[k];
      c.(reg := Remove(c.reg, x), jobs := c.jobs[j := job.(held := job.held[..k] + job.held[k + 1..])],
         live := Keep(c.live, {x}), from := c.from - {x})
    case Finish(j) =>
      c.(attached := if c.jobs[j].phase.RollingBack? then c.attached - {c.jobs[j].name} else c.attached,
         jobs := c.jobs[j := c.jobs[j].(phase := Gone)])
  }

  predicate Runs(c: Sys, es: seq<Event>)
    decreases |es|
  {
    es == [] || (Enabled(c, es[0]) && Runs(Apply(c, es[0]), es[1..]))
  }

  function Run(c: Sys, es: seq<Event>): Sys
    requires Runs(c, es)
    decreases |es|
  {
    if es == [] then c else Run(Apply(c, es[0]), es[1..])
  }

  // ---- the invariant ----

  /** The registries are the built-ins plus the registered entries, none clashing. */
  ghost predicate RegistryInv(b: Registry, c: Sys) {
    Coherent(b) && CanAdd(b, c.live) && c.reg == AddAll(b, c.live)
  }

  /** Every registered entry is in exactly one undo log, once. */
  ghost predicate LogInv(c: Sys) {
    && (forall x :: x in c.from <==> x in c.live)
    && (forall x | x in c.from :: c.from[x] < |c.jobs|)
    && (forall j | 0 <= j < |c.jobs| :: Distinct(c.jobs[j].held))
    && (forall j, x | 0 <= j < |c.jobs| :: x in c.jobs[j].held <==> x in c.from && c.from[x] == j)
  }

  /** A job's log matches where it stands. */
  predicate JobOk(job: Job) {
    && (forall x | x in job.wants :: Ext(x) == job.name)
    && (job.phase.Attaching? ==> job.held + job.phase.todo == job.wants)
    && (job.phase.Attached? ==> job.held == job.wants)
    && (job.phase.Gone? ==> job.held == [])
  }

  predicate Listed(p: Phase) {
    p.Attaching? || p.RollingBack? || p.Attached?
  }

  predicate JobsOk(c: Sys) {
    forall j | 0 <= j < |c.jobs| :: JobOk(c.jobs[j])
  }

  predicate ListedAreInTable(c: Sys) {
    forall j | 0 <= j < |c.jobs| && Listed(c.jobs[j].phase) ::
      c.jobs[j].name in c.attached && c.attached[c.jobs[j].name] == j
  }

  predicate TableIsOfListed(c: Sys) {
    forall n | n in c.attached ::
      c.attached[n] < |c.jobs| && c.jobs[c.attached[n]].name == n && Listed(c.jobs[c.attached[n]].phase)
  }

  predicate TableInv(c: Sys) {
    JobsOk(c) && ListedAreInTable(c) && TableIsOfListed(c)
  }

  ghost predicate Inv(b: Registry, c: Sys) {
    RegistryInv(b, c) && LogInv(c) && TableInv(c)
  }

  lemma RegisterIsNew(b: Registry, c: Sys, x: Item)
    requires RegistryInv(b, c) && Free(c.reg, x)
    ensures CanAdd(b, c.live + [x]) && AddAll(b, c.live + [x]) == Add(c.reg, x) && x !in c.live
  {
    AddLast(b, c.live, x);
    LastIsOnce(b, c.live, x);
  }

  /** A step that moves one job along without listing or unlisting it. */
  lemma TableUntouched(c: Sys, d: Sys, j: nat)
    requires TableInv(c) && j < |c.jobs| == |d.jobs| && d.attached == c.attached && d.jobs == c.jobs[j := d.jobs[j]]
    requires JobOk(d.jobs[j])
    requires d.jobs[j].name == c.jobs[j].name && Listed(d.jobs[j].phase) == Listed(c.jobs[j].phase)
    ensures TableInv(d)
  {
  }

  /** A step that changes nobody's log. */
  lemma LogsUntouched(c: Sys, d: Sys)
    requires LogInv(c) && d.live == c.live && d.from == c.from && |c.jobs| <= |d.jobs|
    requires forall i | 0 <= i < |c.jobs| :: d.jobs[i].held == c.jobs[i].held
    requires forall i | |c.jobs| <= i < |d.jobs| :: d.jobs[i].held == []
    ensures LogInv(d)
  {
  }

  lemma RegisterKeepsLogs(c: Sys, j: nat)
    requires LogInv(c) && Enabled(c, Register(j)) && c.jobs[j].phase.todo[0] !in c.live
    ensures LogInv(Apply(c, Register(j)))
  {
    var d, x := Apply(c, Register(j)), c.jobs[j].phase.todo[0];
    assert x !in c.jobs[j].held;
    forall i, y | 0 <= i < |d.jobs| ensures y in d.jobs[i].held <==> y in d.from && d.from[y] == i {
    }
  }

  lemma RegisterKeepsJob(job: Job)
    requires JobOk(job) && job.phase.Attaching? && job.phase.todo != []
    ensures JobOk(job.(phase := Attaching(job.phase.todo[1..]), held := job.held + [job.phase.todo[0]]))
  {
    assert job.phase.todo == [job.phase.todo[0]] + job.phase.todo[1..];
    assert (job.held + [job.phase.todo[0]]) + job.phase.todo[1..] == job.held + job.phase.todo;
  }

  lemma RegisterKeepsInv(b: Registry, c: Sys, j: nat)
    requires Inv(b, c) && Enabled(c, Register(j))
    ensures Inv(b, Apply(c, Register(j)))
  {
    var d, job, x := Apply(c, Register(j)), c.jobs[j], c.jobs[j].phase.todo[0];
    RegisterIsNew(b, c, x);
    RegisterKeepsLogs(c, j);
    RegisterKeepsJob(job);
    TableUntouched(c, d, j);
  }

  lemma UndoKeepsLogs(c: Sys, j: nat, k: nat)
    requires LogInv(c) && Enabled(c, Undo(j, k))
    ensures LogInv(Apply(c, Undo(j, k)))
  {
    var d, job, x := Apply(c, Undo(j, k)), c.jobs[j], c.jobs[j].held[k];
    KeepKeepsTheRest(c.live, {x});
    WithoutOne(job.held, k);
    assert x in job.held && c.from[x] == j;
    forall i, y | 0 <= i < |d.jobs| ensures y in d.jobs[i].held <==> y in d.from && d.from[y] == i {
      assert y in c.jobs[i].held <==> y in c.from && c.from[y] == i;
      if i == j {
        assert y in d.jobs[i].held <==> y in job.held && y != x;
      }
    }
  }

  lemma UndoKeepsInv(b: Registry, c: Sys, j: nat, k: nat)
    requires Inv(b, c) && Enabled(c, Undo(j, k))
    ensures Inv(b, Apply(c, Undo(j, k)))
  {
    var d, x := Apply(c, Undo(j, k)), c.jobs[j].held[k];
    assert x in c.jobs[j].held;
    RemoveLeavesTheOthers(b, c.live, x);
    UndoKeepsLogs(c, j, k);
    TableUntouched(c, d, j);
  }

  lemma WithoutOne(xs: seq<Item>, k: nat)
    requires k < |xs| && Distinct(xs)
    ensures Distinct(xs[..k] + xs[k + 1..])
    ensures forall y :: y in xs[..k] + xs[k + 1..] <==> y in xs && y != xs[k]
  {
    var left := xs[..k] + xs[k + 1..];
    assert forall i | 0 <= i < |left| :: left[i] == xs[if i < k then i else i + 1];
    forall y | y in xs && y != xs[k] ensures y in left {
      var i :| 0 <= i < |xs| && xs[i] == y;
      assert left[if i < k then i else i - 1] == y;
    }
  }

  lemma BeginKeepsTable(c: Sys, e: Event)
    requires TableInv(c) && Enabled(c, e) && e.Begin?
    ensures TableInv(Apply(c, e))
  {
    assert [] + e.wants == e.wants;
  }

  lemma LeavingKeepsTable(c: Sys, e: Event)
    requires TableInv(c) && Enabled(c, e) && (e.Revoke? || e.Finish?)
    ensures TableInv(Apply(c, e))
  {
  }

  lemma TableStepsKeepInv(b: Registry, c: Sys, e: Event)
    requires Inv(b, c) && Enabled(c, e) && !e.Register? && !e.Undo?
    ensures Inv(b, Apply(c, e))
  {
    var d := Apply(c, e);
    LogsUntouched(c, d);
    match e {
      case Begin(_, _) => BeginKeepsTable(c, e);
      case Fail(j) => TableUntouched(c, d, j);
      case Commit(j) =>
        assert c.jobs[j].held + [] == c.jobs[j].held;
        TableUntouched(c, d, j);
      case _ => LeavingKeepsTable(c, e);
    }
  }

  lemma StepKeepsInv(b: Registry, c: Sys, e: Event)
    requires Inv(b, c) && Enabled(c, e)
    ensures Inv(b, Apply(c, e))
  {
    match e {
      case Register(j) => RegisterKeepsInv(b, c, j);
      case Undo(j, k) => UndoKeepsInv(b, c, j, k);
      case _ => TableStepsKeepInv(b, c, e);
    }
  }

  lemma {:induction false} RunKeepsInv(b: Registry, c: Sys, es: seq<Event>)
    requires Inv(b, c) && Runs(c, es)
    ensures Inv(b, Run(c, es))
    decreases |es|
  {
    if es != [] {
      StepKeepsInv(b, c, es[0]);
      RunKeepsInv(b, Apply(c, es[0]), es[1..]);
    }
  }

  // ---- the results ----

  /** No attach, rollback or revoke is under way. */
  predicate Resting(c: Sys) {
    forall j | 0 <= j < |c.jobs| :: c.jobs[j].phase.Attached? || c.jobs[j].phase.Gone?
  }

  /** x is a contribution of an extension that is attached now. */
  ghost predicate ContributedNow(c: Sys, x: Item) {
    Ext(x) in c.attached && c.attached[Ext(x)] < |c.jobs| && x in c.jobs[c.attached[Ext(x)]].wants
  }

  /** At every moment the registries are the built-ins plus what undo logs hold; at rest, that is every
      contribution of every attached extension and nothing else. A failed attach left no trace. */
  lemma RegistriesHoldExactlyTheAttached(b: Registry, es: seq<Event>)
    requires Coherent(b) && Runs(Start(b), es)
    ensures var c := Run(Start(b), es);
            && CanAdd(b, c.live) && c.reg == AddAll(b, c.live)
            && (Resting(c) ==> forall x :: x in c.live <==> ContributedNow(c, x))
  {
    RunKeepsInv(b, Start(b), es);
    var c := Run(Start(b), es);
    if Resting(c) {
      forall x ensures x in c.live <==> ContributedNow(c, x) {
        if x in c.live {
          assert x in c.jobs[c.from[x]].held;
        }
      }
    }
  }

  lemma AddNamesCommutes(names: map<string, string>, ns: set<string>, i: string, ms: set<string>, j: string)
    requires ns !! ms
    ensures AddNames(AddNames(names, ns, i), ms, j) == AddNames(AddNames(names, ms, j), ns, i)
  {
  }

  lemma UpdatesCommute<K, V>(m: map<K, V>, i: K, u: V, j: K, v: V)
    requires i != j
    ensures m[i := u][j := v] == m[j := v][i := u]
  {
  }

  lemma AddCommutes(r: Registry, x: Item, y: Item)
    requires Apart(x, y)
    ensures Add(Add(r, x), y) == Add(Add(r, y), x)
  {
    match (x, y) {
      case (DriverItem(d), DriverItem(e)) =>
        assert d.id in Names(d) && e.id in Names(e);
        AddNamesCommutes(r.names, Names(d), d.id, Names(e), e.id);
        UpdatesCommute(r.drivers, d.id, d, e.id, e);
        UpdatesCommute(r.owners, d.id, d.ext, e.id, e.ext);
      case (AssetItem(d, j), AssetItem(e, k)) =>
        UpdatesCommute(r.assets, j, d, k, e);
      case (FaceItem(d, j), FaceItem(e, k)) =>
        UpdatesCommute(r.faces, j, d, k, e);
      case _ =>
    }
  }

  lemma {:induction false} MoveLast(b: Registry, xs: seq<Item>, x: Item)
    requires CanAdd(b, xs) && x in xs
    ensures AddAll(b, xs) == Add(AddAll(b, Keep(xs, {x})), x)
  {
    var init, last := xs[..|xs| - 1], xs[|xs| - 1];
    FitsExactlyWhenApart(b, init, last);
    assert xs == init + [last];
    KeepLast(init, last, {x});
    if last == x {
      NotApartFromItself(x);
      KeepNothingGone(init, {x});
    } else {
      MoveLast(b, init, x);
      AddCommutes(AddAll(b, Keep(init, {x})), x, last);
      AddLast(b, Keep(init, {x}), last);
    }
  }

  lemma OnlyEmptyHasNothing(xs: seq<Item>)
    ensures (forall x :: x !in xs) ==> xs == []
  {
    if xs != [] {
      assert xs[0] in xs;
    }
  }

  lemma LastIsOnce(b: Registry, xs: seq<Item>, x: Item)
    ensures CanAdd(b, xs + [x]) ==> x !in xs
  {
    AddLast(b, xs, x);
    FitsExactlyWhenApart(b, xs, x);
    NotApartFromItself(x);
  }

  /** The same contributions give the same registries, in whatever order they were attached. */
  lemma {:induction false} OrderDoesNotMatter(b: Registry, xs: seq<Item>, ys: seq<Item>)
    requires Coherent(b) && CanAdd(b, xs) && CanAdd(b, ys)
    requires forall x :: x in xs <==> x in ys
    ensures AddAll(b, xs) == AddAll(b, ys)
  {
    if xs == [] {
      OnlyEmptyHasNothing(ys);
    } else {
      var init, last := xs[..|xs| - 1], xs[|xs| - 1];
      assert last in xs;
      MoveLast(b, ys, last);
      RemoveLeavesTheOthers(b, ys, last);
      KeepKeepsTheRest(ys, {last});
      LastIsOnce(b, init, last);
      assert xs == init + [last];
      OrderDoesNotMatter(b, init, Keep(ys, {last}));
    }
  }

  /** Two histories that end with the same contributions attached end in the same registries: no failed
      attach, revoked extension or order of loading can be told from the result. */
  lemma HistoryLeavesNoTrace(b: Registry, es: seq<Event>, fs: seq<Event>)
    requires Coherent(b) && Runs(Start(b), es) && Runs(Start(b), fs)
    requires Resting(Run(Start(b), es)) && Resting(Run(Start(b), fs))
    requires forall x :: ContributedNow(Run(Start(b), es), x) <==> ContributedNow(Run(Start(b), fs), x)
    ensures Run(Start(b), es).reg == Run(Start(b), fs).reg
  {
    RegistriesHoldExactlyTheAttached(b, es);
    RegistriesHoldExactlyTheAttached(b, fs);
    OrderDoesNotMatter(b, Run(Start(b), es).live, Run(Start(b), fs).live);
  }
}
