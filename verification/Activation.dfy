/**
 The Edge1 activation: a sequence of file changes with compensation. It may
 fail at any step, the publisher it calls may fail at any of its own, and what
 was there before has to come back.

 One publisher runs at a time, and the compensating writes themselves succeed.
 */
module Activation {
  import opened Wrappers
  import opened RuntimePublish

  /** How the publisher process can fail; after `BackupUnfinished` its backup has no index yet. */
  datatype PublisherFault = NoFault | BeforeBackup | BackupUnfinished | Torn(crash: Crash) | AnswerLost

  datatype Made = Nothing | Unfinished | Complete(backup: Backup)

  datatype Process = Process(web: Dir, made: Made, ok: bool)

  function PublisherProcess(plan: Plan, web: Dir, fault: PublisherFault): Process {
    match fault
    case BeforeBackup => Process(web, Nothing, false)
    case BackupUnfinished => Process(web, Unfinished, false)
    case NoFault =>
      var run := RunSteps(plan, web, Steps(plan), None);
      Process(run.web, Complete(BackupOf(web)), run.ok)
    case Torn(crash) =>
      var run := RunSteps(plan, web, Steps(plan), Some(crash));
      Process(run.web, Complete(BackupOf(web)), run.ok)
    case AnswerLost =>
      var run := RunSteps(plan, web, Steps(plan), None);
      Process(run.web, Complete(BackupOf(web)), false)
  }

  /** The publisher gets as far as a complete backup, so that there is something to roll back. */
  predicate BacksUp(fault: PublisherFault) {
    !fault.BeforeBackup? && !fault.BackupUnfinished?
  }

  datatype Publication = Publication(web: Dir, backup: Option<Backup>)

  /** A failed publisher that left exactly one backup directory is rolled back; without an index that does nothing. */
  function Published(plan: Plan, web: Dir, fault: PublisherFault): Publication {
    var p := PublisherProcess(plan, web, fault);
    if p.ok then Publication(p.web, Some(BackupOf(web)))
    else if p.made.Complete? then Publication(RolledBack(p.web, p.made.backup), None)
    else Publication(p.web, None)
  }

  datatype ActivationPlan = ActivationPlan(
    enable: Bytes -> Option<Bytes>,
    jobText: Bytes,
    publish: Plan)

  datatype Saved = Saved(registry: Option<Bytes>, job: Option<Bytes>, publisher: Option<Backup>)

  /** The state file of the latest activation: it keeps naming its backup after a rollback. */
  datatype Marker = Marker(active: bool, saved: Saved)

  datatype World = World(registry: Option<Entry>, job: Option<Entry>, web: Dir, marker: Option<Marker>)

  /** The step that fails; `Enable` may fail before or after the registry is rewritten. */
  datatype Fault =
    | Never | Prepare | Enable(written: bool) | MakeJob | WriteJob | Dispatch
    | Publish(fault: PublisherFault) | RecordState | WriteMarker

  // ------------------------------------------------------------ the forward run

  /** The registry has to be a readable regular file. */
  predicate Preflight(w: World) {
    w.registry.Some? && w.registry.value.Regular?
  }

  /** Anything that exists and is not a regular file refuses the backup; a dangling link does not exist. */
  predicate CanBackUp(e: Option<Entry>) {
    e.None? || e.value.Regular? || e.value.Dangling?
  }

  function SavedFile(e: Option<Entry>): Option<Bytes> {
    if e.Some? && e.value.Regular? then Some(e.value.bytes) else None
  }

  function SavedFrom(w: World): Saved {
    Saved(SavedFile(w.registry), SavedFile(w.job), None)
  }

  datatype Progress = Progress(world: World, publisher: Option<Backup>, ok: bool)

  function Enabled(w: World, plan: ActivationPlan): World
    requires Preflight(w)
  {
    var text := plan.enable(w.registry.value.bytes);
    if text.Some? then w.(registry := Some(Regular(text.value))) else w
  }

  function Forward(w: World, plan: ActivationPlan, fault: Fault): Progress
    requires Preflight(w)
  {
    if fault.Prepare? || fault == Enable(false) then Progress(w, None, false)
    else
      var w1 := Enabled(w, plan);
      if fault.Enable? || fault.MakeJob? || fault.WriteJob? then Progress(w1, None, false)
      else
        var w2 := w1.(job := Some(Regular(plan.jobText)));
        if fault.Dispatch? then Progress(w2, None, false)
        else
          var p := Published(plan.publish, w2.web, if fault.Publish? then fault.fault else NoFault);
          var w3 := w2.(web := p.web);
          if p.backup.None? || fault.RecordState? || fault.WriteMarker? then Progress(w3, p.backup, false)
          else Progress(w3.(marker := Some(Marker(true, SavedFrom(w).(publisher := p.backup)))), p.backup, true)
  }

  // ------------------------------------------------------------ compensation

  /** Copying over a link writes through it; copying onto a directory leaves the directory. */
  function RestoredFile(saved: Option<Bytes>, now: Option<Entry>): Option<Entry> {
    if saved.Some? then
      if now.None? || now.value.Regular? then Some(Regular(saved.value))
      else if now.value.LinkToFile? || now.value.Dangling? then Some(LinkToFile(saved.value))
      else now
    else if now.Some? && Unlinkable(now.value) then None
    else now
  }

  function Compensated(w: World, saved: Saved): World {
    w.(web := if saved.publisher.Some? then RolledBack(w.web, saved.publisher.value) else w.web,
       registry := RestoredFile(saved.registry, w.registry),
       job := RestoredFile(saved.job, w.job))
  }

  datatype Activated = Activated(world: World, ok: bool)

  function Activate(w: World, plan: ActivationPlan, fault: Fault): Activated {
    if !Preflight(w) || !CanBackUp(w.registry) || !CanBackUp(w.job) then Activated(w, false)
    else
      var p := Forward(w, plan, fault);
      if p.ok then Activated(p.world, true)
      else Activated(Compensated(p.world, SavedFrom(w).(publisher := p.publisher)), false)
  }

  /** `rollback` of the activation that the marker names. */
  function RolledBackLast(w: World): World
    requires w.marker.Some?
  {
    Compensated(w, w.marker.value.saved).(marker := Some(Marker(false, w.marker.value.saved)))
  }

  // ------------------------------------------------------------ nothing is left behind

  lemma PublisherOnlyTouchesManagedNames(plan: Plan, web: Dir, fault: PublisherFault)
    ensures Touched(web, PublisherProcess(plan, web, fault).web)
    ensures PublisherProcess(plan, web, fault).made.Complete? || PublisherProcess(plan, web, fault).web == web
  {
    var steps := Steps(plan);
    assert forall s :: s in steps ==> Target(s) in MANAGED;
    hide RunSteps, Steps;
    RunsOnlyTouchManagedNames(plan, web, web, steps, None);
    if fault.Torn? {
      RunsOnlyTouchManagedNames(plan, web, web, steps, Some(fault.crash));
    }
  }

  /**
   A failed publication has already undone itself, and a successful one can be undone with its backup. The
   files are exactly what they were if no managed name was a symlink, and otherwise only if the publisher
   failed before it had a backup to restore from.
   */
  lemma PublicationsCanBeUndone(plan: Plan, web: Dir, fault: PublisherFault)
    ensures var p := Published(plan, web, fault);
            var undone := if p.backup.Some? then RolledBack(p.web, p.backup.value) else p.web;
            && LooksTheSame(web, undone)
            && (IsTheSame(web, undone) <==> NoManagedSymlinks(web) || !BacksUp(fault))
            && (p.backup.Some? ==> BacksUp(fault))
  {
    PublisherOnlyTouchesManagedNames(plan, web, fault);
    RollbackUndoesAnyRun(web, PublisherProcess(plan, web, fault).web);
    assert LooksTheSame(web, web) && IsTheSame(web, web);
    assert PublisherProcess(plan, web, fault).made.Complete? ==>
        PublisherProcess(plan, web, fault).made.backup == BackupOf(web);
    assert PublisherProcess(plan, web, fault).made.Complete? <==> BacksUp(fault);
    assert PublisherProcess(plan, web, fault).ok ==> BacksUp(fault);
    hide PublisherProcess, RolledBack, BackupOf, Touched, LooksTheSame, IsTheSame, NoManagedSymlinks;
  }

  lemma FilesComeBack(saved: Option<Bytes>, before: Option<Entry>, now: Option<Entry>)
    requires CanBackUp(before) && saved == SavedFile(before)
    requires now == before || (now.Some? && now.value.Regular?)
    ensures RestoredFile(saved, now) == before <==> before != Some(Dangling)
  {}

  /** Whether the run gets as far as a publisher with a complete backup of the web view. */
  predicate ReachesBackup(w: World, fault: Fault) {
    && Preflight(w) && CanBackUp(w.job)
    && match fault
       case Publish(f) => BacksUp(f)
       case Never => true
       case RecordState => true
       case WriteMarker => true
       case _ => false
  }

  /** What a run that stopped somewhere may have changed. */
  lemma StoppedRun(w: World, plan: ActivationPlan, fault: Fault)
    requires Preflight(w) && CanBackUp(w.job) && !Forward(w, plan, fault).ok
    ensures var p := Forward(w, plan, fault);
            var f := if fault.Publish? then fault.fault else NoFault;
            && (p.world.registry == w.registry || (p.world.registry.Some? && p.world.registry.value.Regular?))
            && (p.world.job == w.job || (p.world.job.Some? && p.world.job.value.Regular?))
            && p.world.marker == w.marker
            && (|| (p.world.web == w.web && p.publisher == None && !ReachesBackup(w, fault))
                || (Publication(p.world.web, p.publisher) == Published(plan.publish, w.web, f)
                    && (ReachesBackup(w, fault) <==> BacksUp(f))))
  {
    hide Published;
  }

  /**
   Wherever activation fails: registry, web view and marker are as before, and so is the job file exactly
   when it was not a dangling link. The web files are exactly what they were if no managed name was a
   symlink, and otherwise only if activation failed before the publisher had its backup.
   */
  lemma FailedActivationLeavesNoTrace(w: World, plan: ActivationPlan, fault: Fault)
    requires !Activate(w, plan, fault).ok
    ensures var after := Activate(w, plan, fault).world;
            && after.registry == w.registry && after.marker == w.marker
            && (after.job == w.job <==> w.job != Some(Dangling) || !Preflight(w))
            && LooksTheSame(w.web, after.web)
            && (IsTheSame(w.web, after.web) <==> NoManagedSymlinks(w.web) || !ReachesBackup(w, fault))
  {
    assert LooksTheSame(w.web, w.web) && IsTheSame(w.web, w.web);
    assert ReachesBackup(w, fault) ==> Preflight(w) && CanBackUp(w.job);
    hide LooksTheSame, IsTheSame, NoManagedSymlinks, Published, RolledBack, Forward, ReachesBackup;
    if Preflight(w) && CanBackUp(w.job) {
      StoppedRun(w, plan, fault);
      PublicationsCanBeUndone(plan.publish, w.web, if fault.Publish? then fault.fault else NoFault);
      var p := Forward(w, plan, fault);
      FilesComeBack(SavedFile(w.registry), w.registry, p.world.registry);
      FilesComeBack(SavedFile(w.job), w.job, p.world.job);
      hide SavedFile, RestoredFile;
    }
  }

  /** Rolling back a successful activation restores what was there before it. */
  lemma RollbackUndoesActivation(w: World, plan: ActivationPlan, fault: Fault)
    requires Activate(w, plan, fault).ok
    ensures Activate(w, plan, fault).world.marker.Some?
    ensures var after := RolledBackLast(Activate(w, plan, fault).world);
            && after.registry == w.registry
            && (after.job == w.job <==> w.job != Some(Dangling))
            && LooksTheSame(w.web, after.web)
            && (IsTheSame(w.web, after.web) <==> NoManagedSymlinks(w.web))
  {
    PublicationsCanBeUndone(plan.publish, w.web, if fault.Publish? then fault.fault else NoFault);
    hide LooksTheSame, IsTheSame, NoManagedSymlinks, Published, RolledBack;
    var p := Forward(w, plan, fault);
    FilesComeBack(SavedFile(w.registry), w.registry, p.world.registry);
    FilesComeBack(SavedFile(w.job), w.job, p.world.job);
  }

  /** The marker still names the backup, so a second rollback may follow: it changes no file. */
  lemma RollingBackAgainChangesNothing(w: World)
    requires w.marker.Some?
    ensures var once := RolledBackLast(w);
            var twice := RolledBackLast(once);
            && twice.registry == once.registry && twice.job == once.job && twice.marker == once.marker
            && IsTheSame(once.web, twice.web)
  {
    var saved := w.marker.value.saved;
    if saved.publisher.Some? {
      var b := saved.publisher.value;
      forall q
        ensures At(RolledBack(RolledBack(w.web, b), b), q) == At(RolledBack(w.web, b), q)
      {
        RolledBackAt(w.web, b, MANAGED, q);
        RolledBackAt(RolledBack(w.web, b), b, MANAGED, q);
        hide RolledBackOver, MANAGED;
      }
    }
    hide RolledBack;
  }

  /** And a successful activation did what it was for. */
  lemma SuccessfulActivation(w: World, plan: ActivationPlan, fault: Fault)
    requires Activate(w, plan, fault).ok
    ensures var after := Activate(w, plan, fault).world;
            && Preflight(w)
            && after.registry == Enabled(w, plan).registry
            && after.job == Some(Regular(plan.jobText))
            && (forall p :: p in PUBLISHED ==> Seen(after.web, p) == Planned(plan.publish, p))
  {
    var f := if fault.Publish? then fault.fault else NoFault;
    var process := PublisherProcess(plan.publish, w.web, f);
    assert process.ok;
    SuccessShowsThePlan(plan.publish, w.web, if f.Torn? then Some(f.crash) else None);
    hide RunSteps, Seen, RolledBack, BackupOf;
  }

  // ------------------------------------------------------------ exactly when an activation succeeds

  /** Nothing fails; a torn publisher counts as nothing when the error would come after its last replacement. */
  predicate NothingFails(fault: Fault) {
    match fault
    case Never => true
    case Publish(NoFault) => true
    case Publish(Torn(crash)) => crash.step >= 7
    case _ => false
  }

  /** An activation succeeds exactly on a regular registry, a job file that can be replaced, and a view that can be published. */
  lemma ActivatesExactly(w: World, plan: ActivationPlan, fault: Fault)
    ensures Activate(w, plan, fault).ok <==>
              && NothingFails(fault)
              && w.registry.Some? && w.registry.value.Regular?
              && (w.job.None? || w.job.value.Regular? || w.job.value.Dangling?)
              && CanPublish(plan.publish, w.web)
    ensures Activate(w, plan, fault).ok ==>
              var after := Activate(w, plan, fault).world;
              var enabled := plan.enable(w.registry.value.bytes);
              && after.registry == Some(Regular(if enabled.Some? then enabled.value else w.registry.value.bytes))
              && after.job == Some(Regular(plan.jobText))
              && after.marker.Some? && after.marker.value.active
              && after.marker.value.saved.registry == Some(w.registry.value.bytes)
              && after.marker.value.saved.job == (if w.job.Some? && w.job.value.Regular? then Some(w.job.value.bytes) else None)
              && after.marker.value.saved.publisher == Some(BackupOf(w.web))
  {
    var f := if fault.Publish? then fault.fault else NoFault;
    PublishesExactly(plan.publish, w.web, None);
    if f.Torn? {
      PublishesExactly(plan.publish, w.web, Some(f.crash));
    }
    hide RunSteps, RolledBack, BackupOf, CanPublish, Compensated, Steps;
  }

  // ------------------------------------------------------------ the activation object

  class EdgeActivation {
    var registry: Option<Entry>
    var job: Option<Entry>
    var marker: Option<Marker>
    const publisher: Publisher

    function View(): World
      reads this, publisher
    {
      World(registry, job, publisher.web, marker)
    }

    constructor (registry: Option<Entry>, job: Option<Entry>, marker: Option<Marker>, publisher: Publisher)
      ensures View() == World(registry, job, publisher.web, marker) && this.publisher == publisher
    {
      this.registry, this.job, this.marker, this.publisher := registry, job, marker, publisher;
    }

    method RunPublisher(plan: Plan, fault: PublisherFault) returns (made: Made, ok: bool)
      modifies publisher
      ensures Process(publisher.web, made, ok) == PublisherProcess(plan, old(publisher.web), fault)
    {
      hide RunSteps, BackupOf, Steps;
      if fault.BeforeBackup? {
        return Nothing, false;
      }
      if fault.BackupUnfinished? {
        return Unfinished, false;
      }
      var b;
      b, ok := publisher.Apply(plan, if fault.Torn? then Some(fault.crash) else None);
      made := Complete(b);
      if fault.AnswerLost? {
        ok := false;
      }
    }

    method PublishView(plan: Plan, fault: PublisherFault) returns (backup: Option<Backup>)
      modifies publisher
      ensures Publication(publisher.web, backup) == Published(plan, old(publisher.web), fault)
    {
      var made, ok := RunPublisher(plan, fault);
      PublisherBackup(plan, old(publisher.web), fault);
      hide PublisherProcess, RolledBack;
      if ok {
        return Some(made.backup);
      }
      if made.Complete? {
        publisher.Rollback(made.backup);
      }
      backup := None;
    }

    lemma PublisherBackup(plan: Plan, web: Dir, fault: PublisherFault)
      ensures var p := PublisherProcess(plan, web, fault);
              (p.ok ==> p.made.Complete?) && (p.made.Complete? ==> p.made.backup == BackupOf(web))
    {}

    /** The try block: false stands for an exception. */
    method TryActivate(plan: ActivationPlan, fault: Fault, saved: Saved) returns (published: Option<Backup>, ok: bool)
      requires Preflight(View()) && saved == SavedFrom(View())
      modifies this, publisher
      ensures Progress(View(), published, ok) == Forward(old(View()), plan, fault)
    {
      hide Published;
      published, ok := None, false;
      if fault.Prepare? || fault == Enable(false) {
        return;
      }
      var text := plan.enable(registry.value.bytes);
      if text.Some? {
        registry := Some(Regular(text.value));
      }
      if fault.Enable? || fault.MakeJob? || fault.WriteJob? {
        return;
      }
      job := Some(Regular(plan.jobText));
      if fault.Dispatch? {
        return;
      }
      published := PublishView(plan.publish, if fault.Publish? then fault.fault else NoFault);
      if published.None? || fault.RecordState? || fault.WriteMarker? {
        return;
      }
      marker := Some(Marker(true, saved.(publisher := published)));
      ok := true;
    }

    method Compensate(saved: Saved)
      modifies this, publisher
      ensures View() == Compensated(old(View()), saved)
    {
      hide RolledBack;
      if saved.publisher.Some? {
        publisher.Rollback(saved.publisher.value);
      }
      registry := RestoredFile(saved.registry, registry);
      job := RestoredFile(saved.job, job);
    }

    method Apply(plan: ActivationPlan, fault: Fault) returns (ok: bool)
      modifies this, publisher
      ensures Activated(View(), ok) == Activate(old(View()), plan, fault)
      ensures ok <==>
        && NothingFails(fault)
        && old(registry).Some? && old(registry).value.Regular?
        && (old(job).None? || old(job).value.Regular? || old(job).value.Dangling?)
        && CanPublish(plan.publish, old(publisher.web))
      ensures ok ==> job == Some(Regular(plan.jobText)) && marker.Some? && marker.value.active
      ensures !ok ==> registry == old(registry) && marker == old(marker)
    {
      ActivatesExactly(View(), plan, fault);
      if !Activate(View(), plan, fault).ok {
        FailedActivationLeavesNoTrace(View(), plan, fault);
      }
      hide Forward, Compensated, NothingFails, CanPublish, LooksTheSame, IsTheSame, NoManagedSymlinks, ReachesBackup;
      if !(registry.Some? && registry.value.Regular?) || !CanBackUp(registry) || !CanBackUp(job) {
        return false;
      }
      var saved := Saved(SavedFile(registry), SavedFile(job), None);
      var published;
      published, ok := TryActivate(plan, fault, saved);
      if !ok {
        Compensate(saved.(publisher := published));
      }
    }

    method RollbackLast()
      requires marker.Some?
      modifies this, publisher
      ensures View() == RolledBackLast(old(View()))
    {
      hide RolledBack;
      var saved := marker.value.saved;
      Compensate(saved);
      marker := Some(Marker(false, saved));
    }
  }
}
