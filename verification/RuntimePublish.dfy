/**
 The runtime publisher: a backup of every managed name, then one atomic
 replacement after another, and a rollback that has to undo any prefix of them.

 Paths are map keys. A symlink is named by what it leads to, which lies outside
 the managed names; replacing a name replaces the link and not its target.
 */
module RuntimePublish {
  import opened Wrappers

  type Bytes = string

  datatype Entry = Regular(bytes: Bytes) | LinkToFile(bytes: Bytes) | LinkToDirectory | Dangling | Directory

  /** The managed names, and every other path below the web root. */
  datatype Path = Index | Mascot | Status | Review | Job | Acceptance | Manifest | Other(text: string)

  /** A destination, or the temporary file that is about to replace it. */
  datatype Name = File(path: Path) | Temp(path: Path)

  type Dir = map<Name, Entry>

  const PUBLISHED: seq<Path> := [Index, Mascot, Status, Review, Job, Acceptance]
  const MANAGED: seq<Path> := PUBLISHED + [Manifest]

  predicate IsFile(e: Entry) {
    e.Regular? || e.LinkToFile?
  }

  predicate IsSymlink(e: Entry) {
    e.LinkToFile? || e.LinkToDirectory? || e.Dangling?
  }

  /** `unlink` is tried on files and on symlinks of any kind. */
  predicate Unlinkable(e: Entry) {
    IsFile(e) || IsSymlink(e)
  }

  function At(d: Dir, path: Path): Option<Entry> {
    if File(path) in d then Some(d[File(path)]) else None
  }

  /** What a reader of the path finds. */
  function Seen(d: Dir, path: Path): Option<Bytes> {
    if File(path) in d && IsFile(d[File(path)]) then Some(d[File(path)].bytes) else None
  }

  // ------------------------------------------------------------ publishing

  datatype Step = Put(path: Path, bytes: Bytes) | Remove(path: Path) | PutManifest

  datatype Plan = Plan(
    index: Bytes,
    mascot: Bytes,
    status: Bytes,
    review: Option<Bytes>,
    job: Option<Bytes>,
    acceptance: Option<Bytes>,
    render: map<Path, Bytes> -> Bytes)

  function View(path: Path, view: Option<Bytes>): Step {
    if view.Some? then Put(path, view.value) else Remove(path)
  }

  function Steps(plan: Plan): seq<Step> {
    [Put(Index, plan.index), Put(Mascot, plan.mascot), Put(Status, plan.status),
     View(Review, plan.review), View(Job, plan.job), View(Acceptance, plan.acceptance), PutManifest]
  }

  function Target(s: Step): Path {
    if s.PutManifest? then Manifest else s.path
  }

  /** The manifest records the files that are there when it is built. */
  function Listing(d: Dir): map<Path, Bytes> {
    map p | p in PUBLISHED && Seen(d, p).Some? :: Seen(d, p).value
  }

  function Payload(plan: Plan, d: Dir, s: Step): Bytes
    requires !s.Remove?
  {
    if s.PutManifest? then plan.render(Listing(d)) else s.bytes
  }

  /** A directory cannot be replaced by a file. */
  predicate Blocked(d: Dir, s: Step) {
    !s.Remove? && At(d, Target(s)) == Some(Directory)
  }

  function Prepared(plan: Plan, d: Dir, s: Step): Dir {
    if s.Remove? then d else d[Temp(Target(s)) := Regular(Payload(plan, d, s))]
  }

  function Effect(plan: Plan, d: Dir, s: Step): Dir {
    if s.Remove? then
      if File(s.path) in d && Unlinkable(d[File(s.path)]) then d - {File(s.path)} else d
    else
      d[File(Target(s)) := Regular(Payload(plan, d, s))] - {Temp(Target(s))}
  }

  /** Where an I/O error strikes: at which step, and with its temporary file already written or not. */
  datatype Crash = Crash(step: nat, prepared: bool)

  datatype Outcome = Outcome(web: Dir, ok: bool)

  function RunSteps(plan: Plan, d: Dir, steps: seq<Step>, crash: Option<Crash>): Outcome
    decreases |steps|
  {
    if steps == [] then Outcome(d, true)
    else if crash.Some? && crash.value.step == 0 then
      Outcome(if crash.value.prepared then Prepared(plan, d, steps[0]) else d, false)
    else if Blocked(d, steps[0]) then Outcome(Prepared(plan, d, steps[0]), false)
    else RunSteps(plan, Effect(plan, d, steps[0]), steps[1..], Later(crash))
  }

  function Later(crash: Option<Crash>): Option<Crash> {
    if crash.Some? && crash.value.step > 0 then Some(Crash(crash.value.step - 1, crash.value.prepared)) else crash
  }

  // ------------------------------------------------------------ backup and rollback

  /** For every managed name the bytes it showed, or that it showed none. */
  type Backup = map<Path, Option<Bytes>>

  function BackupOf(d: Dir): Backup {
    map p | p in MANAGED :: Seen(d, p)
  }

  function RestoredName(d: Dir, b: Backup, path: Path): Dir {
    if path in b && b[path].Some? then d[File(path) := Regular(b[path].value)] - {Temp(path)}
    else if File(path) in d && Unlinkable(d[File(path)]) then d - {File(path)}
    else d
  }

  function RolledBackOver(d: Dir, b: Backup, paths: seq<Path>): Dir {
    if paths == [] then d else RestoredName(RolledBackOver(d, b, paths[..|paths| - 1]), b, paths[|paths| - 1])
  }

  function RolledBack(d: Dir, b: Backup): Dir {
    RolledBackOver(d, b, MANAGED)
  }

  lemma {:induction false} RolledBackAt(d: Dir, b: Backup, paths: seq<Path>, q: Path)
    ensures At(RolledBackOver(d, b, paths), q) ==
              (if q !in paths then At(d, q)
               else if q in b && b[q].Some? then Some(Regular(b[q].value))
               else if File(q) in d && Unlinkable(d[File(q)]) then None
               else At(d, q))
  {
    if paths != [] {
      var n := |paths| - 1;
      RolledBackAt(d, b, paths[..n], q);
      assert forall p :: p in paths <==> p in paths[..n] || p == paths[n];
    }
  }

  /** What any run of steps may have done to a directory. */
  ghost predicate Touched(before: Dir, after: Dir) {
    && (forall q :: q !in MANAGED ==> At(after, q) == At(before, q))
    && (forall q :: q in MANAGED ==>
          || At(after, q) == At(before, q)
          || (At(before, q) != Some(Directory) && (At(after, q) == None || At(after, q).value.Regular?)))
  }

  lemma EffectTouches(plan: Plan, before: Dir, d: Dir, s: Step)
    requires Touched(before, d) && Target(s) in MANAGED
    ensures Touched(before, Prepared(plan, d, s))
    ensures !Blocked(d, s) ==> Touched(before, Effect(plan, d, s))
  {
    hide Payload, Listing;
    forall q
      ensures At(Prepared(plan, d, s), q) == At(d, q)
      ensures q != Target(s) ==> At(Effect(plan, d, s), q) == At(d, q)
    {
    }
  }

  lemma {:induction false} RunsOnlyTouchManagedNames(plan: Plan, before: Dir, d: Dir, steps: seq<Step>,
                                                     crash: Option<Crash>)
    requires Touched(before, d) && forall s :: s in steps ==> Target(s) in MANAGED
    ensures Touched(before, RunSteps(plan, d, steps, crash).web)
    decreases |steps|
  {
    if steps != [] {
      assert steps[0] in steps && forall s :: s in steps[1..] ==> s in steps;
      EffectTouches(plan, before, d, steps[0]);
      hide Touched, Effect, Prepared, Blocked, Target;
      if !(crash.Some? && crash.value.step == 0) && !Blocked(d, steps[0]) {
        RunsOnlyTouchManagedNames(plan, before, Effect(plan, d, steps[0]), steps[1..], Later(crash));
      }
    }
  }

  ghost predicate NoManagedSymlinks(d: Dir) {
    forall q :: q in MANAGED && File(q) in d ==> !IsSymlink(d[File(q)])
  }

  /** A reader of any path finds what was there before. */
  ghost predicate LooksTheSame(before: Dir, after: Dir) {
    && (forall q :: q !in MANAGED ==> At(after, q) == At(before, q))
    && (forall q :: q in MANAGED ==> Seen(after, q) == Seen(before, q))
  }

  ghost predicate IsTheSame(before: Dir, after: Dir) {
    forall q :: At(after, q) == At(before, q)
  }

  /** The heart of it: whatever a run did, rolling back its backup shows every reader the old state,
      and it is exactly the old state if and only if no managed name was a symlink. */
  lemma RollbackUndoesAnyRun(before: Dir, after: Dir)
    requires Touched(before, after)
    ensures LooksTheSame(before, RolledBack(after, BackupOf(before)))
    ensures IsTheSame(before, RolledBack(after, BackupOf(before))) <==> NoManagedSymlinks(before)
  {
    hide RolledBack, BackupOf, Touched, Seen;
    forall q {
      RollbackUndoesPath(before, after, q);
    }
  }

  lemma RollbackUndoesPath(before: Dir, after: Dir, q: Path)
    requires Touched(before, after)
    ensures var undone := RolledBack(after, BackupOf(before));
            var wasLink := File(q) in before && IsSymlink(before[File(q)]);
            && (q in MANAGED ==> Seen(undone, q) == Seen(before, q))
            && (At(undone, q) == At(before, q) <==> q !in MANAGED || !wasLink)
  {
    RolledBackAt(after, BackupOf(before), MANAGED, q);
    hide RolledBackOver;
  }

  /** Every prefix of a publication, torn at any point, is undone by the rollback of its backup. */
  lemma AnyPrefixIsUndone(plan: Plan, d: Dir, crash: Option<Crash>)
    ensures var torn := RunSteps(plan, d, Steps(plan), crash).web;
            && LooksTheSame(d, RolledBack(torn, BackupOf(d)))
            && (IsTheSame(d, RolledBack(torn, BackupOf(d))) <==> NoManagedSymlinks(d))
  {
    assert forall s :: s in Steps(plan) ==> Target(s) in MANAGED;
    RunsOnlyTouchManagedNames(plan, d, d, Steps(plan), crash);
    RollbackUndoesAnyRun(d, RunSteps(plan, d, Steps(plan), crash).web);
  }

  // ------------------------------------------------------------ a publication that succeeds

  /** What the published names show after a run that was not torn. */
  function Planned(plan: Plan, path: Path): Option<Bytes>
    requires path in PUBLISHED
  {
    match path
    case Index => Some(plan.index)
    case Mascot => Some(plan.mascot)
    case Status => Some(plan.status)
    case Review => plan.review
    case Job => plan.job
    case Acceptance => plan.acceptance
  }

  /** What a list of steps leaves visible at a path, the last step about it deciding. */
  function ShownBy(steps: seq<Step>, path: Path, shown: Option<Bytes>): Option<Bytes> {
    if steps == [] then shown
    else
      var s := steps[0];
      ShownBy(steps[1..], path, if Target(s) != path then shown else if s.Put? then Some(s.bytes) else None)
  }

  lemma {:induction false} SuccessShows(plan: Plan, d: Dir, steps: seq<Step>, crash: Option<Crash>, path: Path)
    requires RunSteps(plan, d, steps, crash).ok && path != Manifest
    ensures Seen(RunSteps(plan, d, steps, crash).web, path) == ShownBy(steps, path, Seen(d, path))
    decreases |steps|
  {
    if steps != [] {
      SuccessShows(plan, Effect(plan, d, steps[0]), steps[1..], Later(crash), path);
    }
  }

  lemma {:induction false} LastStepOfSuccess(plan: Plan, d: Dir, steps: seq<Step>, crash: Option<Crash>, last: Step)
    requires RunSteps(plan, d, steps + [last], crash).ok
    ensures exists mid :: RunSteps(plan, d, steps + [last], crash).web == Effect(plan, mid, last)
    decreases |steps|
  {
    hide Blocked, Effect, Prepared;
    if steps == [] {
      assert steps + [last] == [last];
      assert RunSteps(plan, Effect(plan, d, last), [], Later(crash)).web == Effect(plan, d, last);
    } else {
      assert (steps + [last])[1..] == steps[1..] + [last];
      LastStepOfSuccess(plan, Effect(plan, d, steps[0]), steps[1..], Later(crash), last);
    }
  }

  lemma {:induction false} OnlyStepAbout(steps: seq<Step>, k: nat, path: Path, shown: Option<Bytes>)
    requires forall j :: 0 <= j < |steps| && Target(steps[j]) == path ==> j == k
    ensures k < |steps| && Target(steps[k]) == path ==>
              ShownBy(steps, path, shown) == if steps[k].Put? then Some(steps[k].bytes) else None
    ensures k >= |steps| || Target(steps[k]) != path ==> ShownBy(steps, path, shown) == shown
    decreases |steps|
  {
    if steps != [] {
      var first := if Target(steps[0]) != path then shown else if steps[0].Put? then Some(steps[0].bytes) else None;
      if k == 0 {
        OnlyStepAbout(steps[1..], |steps|, path, first);
      } else {
        OnlyStepAbout(steps[1..], k - 1, path, first);
      }
    }
  }

  function Position(p: Path): nat {
    match p
    case Index => 0
    case Mascot => 1
    case Status => 2
    case Review => 3
    case Job => 4
    case Acceptance => 5
    case Manifest => 6
    case Other(_) => 7
  }

  lemma PublicationShows(plan: Plan, d: Dir, crash: Option<Crash>, p: Path)
    requires RunSteps(plan, d, Steps(plan), crash).ok && p in PUBLISHED
    ensures Seen(RunSteps(plan, d, Steps(plan), crash).web, p) == Planned(plan, p)
  {
    hide RunSteps, Seen, ShownBy;
    SuccessShows(plan, d, Steps(plan), crash, p);
    assert forall j :: 0 <= j < |Steps(plan)| ==> Position(Target(Steps(plan)[j])) == j;
    OnlyStepAbout(Steps(plan), Position(p), p, Seen(d, p));
  }

  lemma ManifestLists(plan: Plan, d: Dir)
    ensures var web := Effect(plan, d, PutManifest);
            Seen(web, Manifest) == Some(plan.render(Listing(web)))
  {
    var web := Effect(plan, d, PutManifest);
    forall p | p in PUBLISHED
      ensures Seen(web, p) == Seen(d, p)
    {
    }
    hide Seen;
    assert Listing(web) == Listing(d);
  }

  lemma LastStepIsTheManifest(plan: Plan)
    ensures |Steps(plan)| == 7 && Steps(plan) == Steps(plan)[..6] + [PutManifest]
  {}

  lemma PublicationIsListed(plan: Plan, d: Dir, crash: Option<Crash>)
    requires RunSteps(plan, d, Steps(plan), crash).ok
    ensures var web := RunSteps(plan, d, Steps(plan), crash).web;
            Seen(web, Manifest) == Some(plan.render(Listing(web)))
  {
    hide RunSteps, Steps, Effect, Listing, Seen;
    LastStepIsTheManifest(plan);
    LastStepOfSuccess(plan, d, Steps(plan)[..6], crash, PutManifest);
    var mid :| RunSteps(plan, d, Steps(plan), crash).web == Effect(plan, mid, PutManifest);
    ManifestLists(plan, mid);
  }

  /** A successful publication shows exactly the plan, and its manifest lists exactly what it shows. */
  lemma SuccessShowsThePlan(plan: Plan, d: Dir, crash: Option<Crash>)
    requires RunSteps(plan, d, Steps(plan), crash).ok
    ensures var web := RunSteps(plan, d, Steps(plan), crash).web;
            && (forall p :: p in PUBLISHED ==> Seen(web, p) == Planned(plan, p))
            && Seen(web, Manifest) == Some(plan.render(Listing(web)))
  {
    hide RunSteps, Steps, Seen;
    forall p | p in PUBLISHED
      ensures Seen(RunSteps(plan, d, Steps(plan), crash).web, p) == Planned(plan, p)
    {
      PublicationShows(plan, d, crash, p);
    }
    PublicationIsListed(plan, d, crash);
  }

  // ------------------------------------------------------------ exactly when a publication succeeds

  /** The name is taken by a directory. */
  predicate IsDirectory(d: Dir, path: Path) {
    File(path) in d && d[File(path)].Directory?
  }

  /** Directories stand in the way of the files to be written, but not of the optional ones that are to go. */
  predicate CanPublish(plan: Plan, d: Dir) {
    && !IsDirectory(d, Index) && !IsDirectory(d, Mascot) && !IsDirectory(d, Status) && !IsDirectory(d, Manifest)
    && (plan.review.Some? ==> !IsDirectory(d, Review))
    && (plan.job.Some? ==> !IsDirectory(d, Job))
    && (plan.acceptance.Some? ==> !IsDirectory(d, Acceptance))
  }

  /** No error strikes before the seventh and last replacement is done. */
  predicate ComesTooLate(crash: Option<Crash>, steps: nat) {
    crash.None? || crash.value.step >= steps
  }

  ghost predicate DistinctTargets(steps: seq<Step>) {
    forall i, j :: 0 <= i < j < |steps| ==> Target(steps[i]) != Target(steps[j])
  }

  lemma EffectStaysApart(plan: Plan, d: Dir, s: Step, t: Step)
    requires Target(s) != Target(t)
    ensures Blocked(Effect(plan, d, s), t) == Blocked(d, t)
  {
    hide Payload;
  }

  /** Neither the first of the steps nor any other is blocked. */
  ghost predicate NoneBlocked(d: Dir, steps: seq<Step>) {
    forall i :: 0 <= i < |steps| ==> !Blocked(d, steps[i])
  }

  lemma {:induction false} RunsSucceedExactly(plan: Plan, d: Dir, steps: seq<Step>, crash: Option<Crash>)
    requires DistinctTargets(steps)
    ensures RunSteps(plan, d, steps, crash).ok <==> ComesTooLate(crash, |steps|) && NoneBlocked(d, steps)
    decreases |steps|
  {
    hide Blocked, Effect, Prepared, Target;
    if steps != [] {
      var next, rest := Effect(plan, d, steps[0]), steps[1..];
      assert forall i :: 0 <= i < |rest| ==> rest[i] == steps[i + 1];
      if !(crash.Some? && crash.value.step == 0) && !Blocked(d, steps[0]) {
        RunsSucceedExactly(plan, next, rest, Later(crash));
        forall i | 0 <= i < |rest| ensures Blocked(next, rest[i]) == Blocked(d, steps[i + 1]) {
          EffectStaysApart(plan, d, steps[0], rest[i]);
        }
        assert NoneBlocked(next, rest) <==> NoneBlocked(d, steps) by {
          forall i | 0 < i < |steps| ensures steps[i] == rest[i - 1] {}
        }
      }
    }
  }

  /** A publication succeeds exactly when nothing strikes and no directory is in its way. */
  lemma PublishesExactly(plan: Plan, d: Dir, crash: Option<Crash>)
    ensures RunSteps(plan, d, Steps(plan), crash).ok <==> ComesTooLate(crash, 7) && CanPublish(plan, d)
  {
    StepsAreApart(plan);
    RunsSucceedExactly(plan, d, Steps(plan), crash);
    NothingInTheWay(plan, d);
    hide RunSteps, NoneBlocked, CanPublish, DistinctTargets;
  }

  lemma StepsAreApart(plan: Plan)
    ensures |Steps(plan)| == 7 && DistinctTargets(Steps(plan))
  {
    assert forall j :: 0 <= j < |Steps(plan)| ==> Position(Target(Steps(plan)[j])) == j;
  }

  lemma NothingInTheWay(plan: Plan, d: Dir)
    ensures NoneBlocked(d, Steps(plan)) <==> CanPublish(plan, d)
  {
    var steps := Steps(plan);
    assert steps[0] == Put(Index, plan.index) && steps[1] == Put(Mascot, plan.mascot) && steps[2] == Put(Status, plan.status);
    assert steps[3] == View(Review, plan.review) && steps[4] == View(Job, plan.job);
    assert steps[5] == View(Acceptance, plan.acceptance) && steps[6] == PutManifest && |steps| == 7;
    hide Steps;
  }

  // ------------------------------------------------------------ the publisher's loops

  /** The web root of one publisher. An I/O error is a point at which `crash` strikes. */
  class Publisher {
    var web: Dir

    constructor (web: Dir)
      ensures this.web == web
    {
      this.web := web;
    }

    method BackupDestination() returns (b: Backup)
      ensures b == BackupOf(web)
    {
      b := map[];
      for i := 0 to |MANAGED|
        invariant forall p :: p in b <==> p in MANAGED[..i]
        invariant forall p :: p in b ==> b[p] == Seen(web, p)
      {
        var path := MANAGED[i];
        var present := File(path) in web && IsFile(web[File(path)]);
        b := b[path := if present then Some(web[File(path)].bytes) else None];
      }
    }

    method Apply(plan: Plan, crash: Option<Crash>) returns (b: Backup, ok: bool)
      modifies this
      ensures b == BackupOf(old(web))
      ensures Outcome(web, ok) == RunSteps(plan, old(web), Steps(plan), crash)
      ensures ok <==> ComesTooLate(crash, 7) && CanPublish(plan, old(web))
    {
      PublishesExactly(plan, web, crash);
      hide CanPublish;
      b := BackupDestination();
      var steps := Steps(plan);
      var left := crash;
      hide Steps;
      for i := 0 to |steps|
        invariant RunSteps(plan, old(web), Steps(plan), crash) == RunSteps(plan, web, steps[i..], left)
      {
        assert steps[i..][0] == steps[i] && steps[i..][1..] == steps[i + 1..];
        ok := OneStep(plan, steps[i], left.Some? && left.value.step == 0, left.Some? && left.value.prepared);
        if !ok {
          return;
        }
        left := Later(left);
      }
      ok := true;
    }

    /** One replacement: write the temporary file, then rename it over the destination. */
    method OneStep(plan: Plan, s: Step, fails: bool, prepared: bool) returns (ok: bool)
      modifies this
      ensures ok <==> !fails && !Blocked(old(web), s)
      ensures web == (if fails then if prepared then Prepared(plan, old(web), s) else old(web)
                      else if Blocked(old(web), s) then Prepared(plan, old(web), s)
                      else Effect(plan, old(web), s))
    {
      if fails && !prepared {
        return false;
      }
      ghost var before := web;
      if s.Remove? {
        if fails {
          return false;
        }
        if File(s.path) in web && Unlinkable(web[File(s.path)]) {
          web := web - {File(s.path)};
        }
        return true;
      }
      var bytes := Payload(plan, web, s);
      web := web[Temp(Target(s)) := Regular(bytes)];
      if fails || (File(Target(s)) in web && web[File(Target(s))].Directory?) {
        return false;
      }
      web := web[File(Target(s)) := web[Temp(Target(s))]] - {Temp(Target(s))};
      assert web == Effect(plan, before, s);
      ok := true;
    }

    method Rollback(b: Backup)
      modifies this
      ensures web == RolledBack(old(web), b)
    {
      for i := 0 to |MANAGED|
        invariant web == RolledBackOver(old(web), b, MANAGED[..i])
      {
        var path := MANAGED[i];
        assert MANAGED[..i + 1][..i] == MANAGED[..i];
        if path in b && b[path].Some? {
          web := web[File(path) := Regular(b[path].value)] - {Temp(path)};
        } else if File(path) in web && Unlinkable(web[File(path)]) {
          web := web - {File(path)};
        }
      }
      assert MANAGED[..|MANAGED|] == MANAGED;
    }
  }
}
