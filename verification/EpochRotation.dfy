/**
 Offline rotation of one-transaction epochs (src/phase3/retention.ts). The parent directory holds the
 active epoch, the archives and, while a rotation is under way, its marker. Every step may fail or be
 the last one before a crash.
 */
module EpochRotation {
  import opened Wrappers

  datatype StoreName = JournalStore | CheckpointStore | ApprovalStore

  const STORE_NAMES: seq<StoreName> := [JournalStore, CheckpointStore, ApprovalStore]

  /** How far a transaction of an epoch is; a manual one is over, but not by itself. */
  datatype Transaction = Open | AutomaticTerminal | ManualTerminal

  datatype Contents = Contents(transactions: seq<Transaction>, liveApprovals: nat)

  const NOTHING := Contents([], 0)

  /**
   An epoch's directory: its identity, the stores it has, whether approvals have a header, whether the file
   is there that a header is first written to (src/phase3/durableApproval.ts:1088-1185), and its data.
   */
  datatype Epoch = Epoch(inode: nat, stores: set<StoreName>, header: bool, staged: bool, contents: Contents)

  datatype Marker = Marker(archive: string, inode: nat)

  datatype RotationError =
    | NeedsResume
    | NotEmpty
    | BadTopology
    | NotEligible
    | BudgetExhausted
    | NameTaken
    | Missing
    | Unreadable
    | Changed
    | NotFresh
    | Fault

  type Ending<+T> = Attempt<T, RotationError>

  /** What the initialization of the stores leaves. */
  predicate Furnished(e: Epoch) {
    (forall name | name in STORE_NAMES :: name in e.stores) && e.header
  }

  /** What opening demands: the header must have no second name (src/phase3/retention.ts:387-408, 511-522). */
  predicate Complete(e: Epoch) {
    Furnished(e) && !e.staged
  }

  /** At most one transaction, over by itself, and no approval that could still be used. */
  predicate AtRest(c: Contents) {
    |c.transactions| <= 1 && (forall t | t in c.transactions :: t.AutomaticTerminal?) && c.liveApprovals == 0
  }

  /** An epoch without data; a header is only written among the approvals. */
  predicate Young(e: Epoch) {
    e.contents == NOTHING && (e.header || e.staged ==> ApprovalStore in e.stores)
  }

  /** What resuming demands: nothing among the approvals but the header (src/phase3/retention.ts:366-385). */
  predicate Fresh(e: Epoch) {
    Young(e) && !e.staged
  }

  ghost predicate InArchive(archives: map<string, Epoch>, inode: nat) {
    exists a :: a in archives && archives[a].inode == inode
  }

  ghost predicate Keeps(archives: map<string, Epoch>, archives': map<string, Epoch>) {
    forall a | a in archives :: a in archives' && archives'[a] == archives[a]
  }

  lemma ArchiveGrows(archives: map<string, Epoch>, name: string, e: Epoch, inode: nat)
    requires name !in archives
    ensures InArchive(archives[name := e], inode) <==> InArchive(archives, inode) || inode == e.inode
  {
    var grown := archives[name := e];
    assert grown[name].inode == e.inode;
    if InArchive(archives, inode) {
      var a :| a in archives && archives[a].inode == inode;
      assert grown[a].inode == inode;
    }
  }

  class Retention {
    const maximumArchives: nat
    var active: Option<Epoch>
    var archives: map<string, Epoch>
    var marker: Option<Marker>
    /** The marker's file is there, but its text is not (src/phase3/retention.ts:153-162). */
    var torn: bool
    /** For the time being nothing fails, and the process does not crash. */
    var calm: bool
    /** Every directory that has ever been an active epoch. */
    var born: set<nat>

    constructor (maximumArchives: nat)
      requires 1 <= maximumArchives <= 512
      ensures Valid() && active == None && archives == map[] && marker == None && !torn && born == {}
      ensures this.maximumArchives == maximumArchives
    {
      this.maximumArchives := maximumArchives;
      active, archives, marker, torn, calm, born := None, map[], None, false, false, {};
    }

    /** The rotation under way has not renamed the active epoch yet, and can still do so. */
    ghost predicate BeforeRename()
      reads this
    {
      && marker.Some? && marker.value.archive !in archives && active.Some? && active.value.inode == marker.value.inode
      && |archives| < maximumArchives && Complete(active.value) && AtRest(active.value.contents)
    }

    /** The rotation under way has archived the epoch; at most a successor without data exists. */
    ghost predicate AfterRename()
      reads this
    {
      && marker.Some? && marker.value.archive in archives && archives[marker.value.archive].inode == marker.value.inode
      && (active.Some? ==> Young(active.value))
    }

    ghost predicate Valid()
      reads this
    {
      && |archives| <= maximumArchives
      && (forall a | a in archives :: Complete(archives[a]) && AtRest(archives[a].contents))
      && (forall a, b | a in archives && b in archives && archives[a].inode == archives[b].inode :: a == b)
      && (active.Some? ==> forall a | a in archives :: archives[a].inode != active.value.inode)
      && (forall i :: i in born <==> (active.Some? && active.value.inode == i) || InArchive(archives, i))
      && (marker.Some? ==> BeforeRename() || AfterRename())
      && (marker.None? && born != {} ==> active.Some?)
      && (torn ==> marker.None? && active.Some?)
    }

    /**
     Nothing but a human can go on: the marker has no text, or the active epoch is neither complete nor a
     successor that a rotation can still complete.
     */
    ghost predicate Stuck()
      reads this
    {
      || torn
      || (active.Some? && if marker.None? then !Complete(active.value)
                          else marker.value.archive in archives && !Fresh(active.value))
    }

    twostate predicate Unchanged()
      reads this
    {
      active == old(active) && archives == old(archives) && marker == old(marker) && torn == old(torn) && born == old(born)
    }

    /** A step without effect here: a scan, a synchronization, an assertion of the lease, a named stage. */
    method Step() returns (r: Ending<()>)
      ensures calm ==> r.Done?
      ensures r.Threw? ==> r.error == Fault
    {
      if !calm {
        if * {
          return Crashed;
        }
        if * {
          return Threw(Fault);
        }
      }
      return Done(());
    }

    // ----- Between rotations -----

    /** src/phase3/retention.ts:114-130; it fails while a rotation is unfinished, and for an incomplete epoch. */
    method OpenEpoch() returns (r: Ending<Epoch>)
      ensures r.Done? ==>
        !torn && marker.None? && active == Some(r.value) && Complete(r.value) && |r.value.contents.transactions| <= 1
      ensures calm ==>
        (r.Done? <==> !torn && marker.None? && active.Some? && Complete(active.value)
                      && |active.value.contents.transactions| <= 1)
    {
      var step := Step();
      if !step.Done? {
        return step.PropagateFailure();
      }
      if torn || marker.Some? || active.None? {
        return Threw(NeedsResume);
      }
      if !Complete(active.value) {
        return Threw(BadTopology);
      }
      if |active.value.contents.transactions| > 1 {
        return Threw(BadTopology);
      }
      return Done(active.value);
    }

    /** What the operator does with an epoch that has been opened: anything to its contents. */
    method Operate(contents: Contents) returns (r: Ending<()>)
      requires Valid()
      modifies this`active
      ensures Valid() && (old(active).None? <==> active.None?)
      ensures active.Some? ==>
        active.value == old(active).value || (old(active).value.(contents := contents) == active.value && marker.None?)
      ensures old(Stuck()) ==> !r.Done? && Unchanged()
    {
      var epoch :- OpenEpoch();
      active := Some(epoch.(contents := contents));
      return Done(());
    }

    // ----- Creating an epoch -----

    /** The active epoch has no data, and what becomes of it belongs to a bootstrap or to the rotation under way. */
    ghost predicate Growing()
      reads this
    {
      Valid() && active.Some? && Young(active.value) && !torn && (marker.Some? ==> AfterRename())
    }

    /** Creates the stores that are missing, one at a time, and then initializes them (src/phase3/retention.ts:226-234). */
    method CompleteActive() returns (r: Ending<()>)
      requires Growing() && Fresh(active.value)
      modifies this`active
      ensures Growing() && active.value.inode == old(active).value.inode
      ensures r.Done? ==> Furnished(active.value)
      ensures calm ==> r.Done? && Complete(active.value)
    {
      for i := 0 to |STORE_NAMES|
        invariant Growing() && Fresh(active.value) && active.value.inode == old(active).value.inode
        invariant forall k | 0 <= k < i :: STORE_NAMES[k] in active.value.stores
      {
        if STORE_NAMES[i] !in active.value.stores {
          var _ :- Step();
          AddStore(STORE_NAMES[i]);
        }
      }
      var _ :- Step();
      if !active.value.header {
        assert STORE_NAMES[2] in active.value.stores;
        var _ :- InitializeHeader();
      }
      r := Step();
    }

    method AddStore(name: StoreName)
      requires Growing()
      modifies this`active
      ensures Growing() && active == Some(old(active).value.(stores := old(active).value.stores + {name}))
    {
      active := Some(active.value.(stores := active.value.stores + {name}));
    }

    method SetHeader(header: bool, staged: bool)
      requires Growing() && ApprovalStore in active.value.stores
      modifies this`active
      ensures Growing() && active == Some(old(active).value.(header := header, staged := staged))
    {
      active := Some(active.value.(header := header, staged := staged));
    }

    /**
     The header is written to a file of its own, gets its name by a link, and then the first name is removed; if
     that last step fails, nobody is told (src/phase3/durableApproval.ts:1088-1185, 2897-2932).
     */
    method InitializeHeader() returns (r: Ending<()>)
      requires Growing() && ApprovalStore in active.value.stores && !active.value.header && !active.value.staged
      modifies this`active
      ensures Growing() && exists header, staged :: active == Some(old(active).value.(header := header, staged := staged))
      ensures r.Done? ==> active.value.header
      ensures calm ==> r.Done? && !active.value.staged
    {
      SetHeader(false, true);
      var _ :- Step();
      SetHeader(true, true);
      var _ :- Step();
      var removed := Step();
      if removed.Done? {
        SetHeader(true, false);
      }
      return if removed.Crashed? then Crashed else Done(());
    }

    /** A new directory for the active epoch. */
    method MakeActive(inode: nat) returns (r: Ending<()>)
      requires Valid() && active.None? && inode !in born
      modifies this`active, this`born
      ensures Valid() && Successor(old(active), old(born), inode)
      ensures r.Done? ==> active.Some?
      ensures calm ==> r.Done?
    {
      var _ :- Step();
      active, born := Some(Epoch(inode, {}, false, false, NOTHING)), born + {inode};
      r := Step();
    }

    /** The active epoch is what it was, or a fresh one in the new directory. */
    ghost predicate Successor(before: Option<Epoch>, known: set<nat>, inode: nat)
      reads this
    {
      || (active == before && born == known)
      || (before.None? && active.Some? && Fresh(active.value) && active.value.inode == inode && born == known + {inode})
    }

    /** Nothing is there yet. */
    predicate Empty()
      reads this
    {
      active.None? && archives == map[] && marker.None? && !torn
    }

    /**
     The explicit bootstrap, of an empty parent only (src/phase3/retention.ts:102-112). It may succeed with an
     epoch that cannot be opened, if the header keeps its first name.
     */
    method Initialize(inode: nat) returns (r: Ending<()>)
      requires Valid() && inode !in born
      modifies this`active, this`born
      ensures Valid() && old(born) <= born
      ensures r.Done? ==> active.Some? && active.value.inode == inode && Furnished(active.value) && Young(active.value)
      ensures !old(Empty()) ==> active == old(active) && born == old(born) && !r.Done?
      ensures calm && old(Empty()) ==> r.Done? && Complete(active.value)
      ensures old(Stuck()) ==> !r.Done? && Unchanged()
    {
      var step := Step();
      if !step.Done? {
        return step;
      }
      if !Empty() {
        return Threw(NotEmpty);
      }
      var _ :- MakeActive(inode);
      r := CompleteActive();
    }

    // ----- Rotation -----

    /** The proof of the live state may fail at any time (src/phase3/retention.ts:242-299). */
    method Eligible(e: Epoch) returns (r: Ending<()>)
      ensures r.Done? ==> Complete(e) && AtRest(e.contents)
      ensures calm && Complete(e) && AtRest(e.contents) ==> r.Done?
    {
      if !Complete(e) {
        return Threw(BadTopology);
      }
      if !AtRest(e.contents) {
        return Threw(NotEligible);
      }
      r := Step();
    }

    /** The number of archives; their sizes are left to the step (src/phase3/retention.ts:410-431). */
    method Budget() returns (r: Ending<()>)
      ensures r.Done? ==> |archives| < maximumArchives
      ensures calm && |archives| < maximumArchives ==> r.Done?
    {
      if |archives| >= maximumArchives {
        return Threw(BudgetExhausted);
      }
      r := Step();
    }

    /** The archive is the old active epoch, unaltered, and nothing else has changed. */
    ghost predicate Archived(name: string, before: map<string, Epoch>, epoch: Option<Epoch>)
      reads this
    {
      epoch.Some? && name !in before && archives == before[name := epoch.value] && active.None?
    }

    /** The first half of finishing a rotation (src/phase3/retention.ts:197-213). */
    method Archive(alreadyChecked: bool) returns (r: Ending<()>)
      requires Valid() && marker.Some?
      modifies this`active, this`archives
      ensures Valid() && (r.Done? ==> AfterRename())
      ensures (active == old(active) && archives == old(archives)) || Archived(marker.value.archive, old(archives), old(active))
      ensures old(AfterRename()) ==> active == old(active) && archives == old(archives)
      ensures calm ==> r.Done?
    {
      var name := marker.value.archive;
      if name in archives {
        return Done(());
      }
      if active.None? || active.value.inode != marker.value.inode {
        return Threw(Changed);
      }
      if !alreadyChecked {
        var _ :- Budget();
      }
      var _ :- Eligible(active.value);
      var _ :- Step();
      Rename(name);
      r := Step();
    }

    method Rename(name: string)
      requires Valid() && BeforeRename() && name == marker.value.archive
      modifies this`active, this`archives
      ensures Valid() && AfterRename() && Archived(name, old(archives), old(active))
    {
      forall i ensures InArchive(archives[name := active.value], i) <==> InArchive(archives, i) || i == active.value.inode {
        ArchiveGrows(archives, name, active.value, i);
      }
      archives := archives[name := active.value];
      active := None;
    }

    /** A fresh successor (src/phase3/retention.ts:215-235), completed unless something fails. */
    method Prepare(alreadyChecked: bool, inode: nat) returns (r: Ending<()>)
      requires Valid() && AfterRename() && inode !in born
      modifies this`active, this`born
      ensures Valid() && AfterRename() && old(born) <= born
      ensures r.Done? ==> active.Some? && Furnished(active.value)
      ensures old(active).Some? && !Fresh(old(active).value) ==> !r.Done? && active == old(active) && born == old(born)
      ensures active.Some? && active.value.inode != inode ==> old(active).Some? && active.value.inode == old(active).value.inode
      ensures calm && (old(active).Some? ==> Fresh(old(active).value)) ==> r.Done? && Complete(active.value)
    {
      var _ :- Step();
      if !alreadyChecked {
        var _ :- Eligible(archives[marker.value.archive]);
      }
      if active.Some? {
        if !Fresh(active.value) {
          return Threw(NotFresh);
        }
      } else {
        var _ :- MakeActive(inode);
      }
      r := CompleteActive();
    }

    /** The second half: a successor with all its stores, and then the marker goes (src/phase3/retention.ts:214-239). */
    method Succeed(alreadyChecked: bool, inode: nat) returns (r: Ending<()>)
      requires Valid() && AfterRename() && inode !in born
      modifies this`active, this`born, this`marker
      ensures Valid() && old(born) <= born && (marker == old(marker) || marker.None?)
      ensures r.Done? ==> marker.None?
      ensures marker.None? ==> active.Some? && Furnished(active.value)
      ensures active.Some? ==> Young(active.value)
      ensures old(active).Some? && !Fresh(old(active).value) ==> !r.Done? && Unchanged()
      ensures active.Some? && active.value.inode != inode ==> old(active).Some? && active.value.inode == old(active).value.inode
      ensures calm && (old(active).Some? ==> Fresh(old(active).value)) ==> r.Done? && Complete(active.value)
    {
      var _ :- Prepare(alreadyChecked, inode);
      var _ :- Step();
      marker := None;
      r := Step();
    }

    /** Whether a rotation that has a marker can be finished: no successor that it could not have completed is there. */
    ghost predicate Resumable()
      reads this
    {
      marker.Some? && (marker.value.archive in archives && active.Some? ==> Fresh(active.value))
    }

    /** Once the marker is gone, a successor without data, and with all its stores, is active. */
    ghost predicate Succeeded()
      reads this
    {
      active.Some? && Furnished(active.value) && Young(active.value)
    }

    /** src/phase3/retention.ts:189-240 */
    method Finish(alreadyChecked: bool, inode: nat) returns (r: Ending<()>)
      requires Valid() && marker.Some? && inode !in born
      modifies this`active, this`archives, this`born, this`marker
      ensures Valid() && old(born) <= born && (marker == old(marker) || marker.None?)
      ensures archives == old(archives) || AddsArchive(old(marker).value.archive, old(archives), old(active))
      ensures archives == old(archives) && !old(AfterRename()) ==> active == old(active) && marker == old(marker) && !r.Done?
      ensures r.Done? ==> marker.None?
      ensures marker.None? ==> Succeeded() && old(marker).value.archive in archives
      ensures !old(Resumable()) ==> !r.Done? && Unchanged()
      ensures calm && old(Resumable()) ==> r.Done? && Complete(active.value)
    {
      var archived := Archive(alreadyChecked);
      if !archived.Done? {
        return archived;
      }
      r := Succeed(alreadyChecked, inode);
    }

    /** Exactly one new archive: the old active epoch, unaltered. */
    ghost predicate AddsArchive(name: string, before: map<string, Epoch>, epoch: Option<Epoch>)
      reads this
    {
      epoch.Some? && name !in before && archives == before[name := epoch.value]
    }

    /** Whether a rotation may begin (src/phase3/retention.ts:136-151). */
    predicate Ready(name: string)
      reads this
    {
      && !torn && marker.None? && active.Some? && Complete(active.value) && AtRest(active.value.contents)
      && |archives| < maximumArchives && name !in archives
    }

    method Admit(name: string) returns (r: Ending<()>)
      ensures r.Done? ==> Ready(name)
      ensures calm && Ready(name) ==> r.Done?
    {
      var step := Step();
      if !step.Done? {
        return step;
      }
      if torn || marker.Some? || active.None? {
        return Threw(NeedsResume);
      }
      var _ :- Eligible(active.value);
      var _ :- Budget();
      return if name in archives then Threw(NameTaken) else Done(());
    }

    /** The marker's file is created, and then gets its text (src/phase3/retention.ts:152-164). */
    method WriteMarker(name: string) returns (r: Ending<()>)
      requires Valid() && Ready(name)
      modifies this`marker, this`torn
      ensures Valid() && (torn || marker.None? || marker == Some(Marker(name, active.value.inode)))
      ensures r.Done? ==> marker.Some?
      ensures calm ==> r.Done?
    {
      var step := Step();
      if !step.Done? {
        return step;
      }
      torn := true;
      var _ :- Step();
      marker, torn := Some(Marker(name, active.value.inode)), false;
      r := Step();
    }

    /**
     A rotation (src/phase3/retention.ts:132-169). However it ends, no archive is lost or altered, and the active
     epoch stays, or becomes the one new archive. If it completes, an epoch without data is active, and it can be
     opened unless its header kept its first name.
     */
    method Rotate(name: string, inode: nat) returns (r: Ending<()>)
      requires Valid() && inode !in born
      modifies this`active, this`archives, this`born, this`marker, this`torn
      ensures Valid() && old(born) <= born
      ensures (archives == old(archives) && active == old(active)) || AddsArchive(name, old(archives), old(active))
      ensures r.Done? ==> AddsArchive(name, old(archives), old(active)) && marker.None? && !torn
      ensures archives != old(archives) && marker.None? ==> Succeeded()
      ensures !old(Ready(name)) ==> !r.Done? && Unchanged()
      ensures calm && old(Ready(name)) ==> r.Done? && Complete(active.value)
      ensures old(Stuck()) ==> !r.Done? && Unchanged()
    {
      var admitted := Admit(name);
      if !admitted.Done? {
        return admitted;
      }
      var _ :- WriteMarker(name);
      r := Finish(true, inode);
    }

    /**
     Resuming an interrupted rotation (src/phase3/retention.ts:171-187). If nothing fails again, it completes
     exactly if the marker has its text and a successor, if there is one, has no header under its first name.
     */
    method Resume(inode: nat) returns (r: Ending<()>)
      requires Valid() && inode !in born
      modifies this`active, this`archives, this`born, this`marker
      ensures Valid() && old(born) <= born
      ensures archives == old(archives) || (old(marker).Some? && AddsArchive(old(marker).value.archive, old(archives), old(active)))
      ensures r.Done? ==> marker.None?
      ensures old(marker).Some? && marker.None? ==> Succeeded() && old(marker).value.archive in archives
      ensures !old(Resumable()) ==> !r.Done? && Unchanged()
      ensures calm && old(Resumable()) ==> r.Done? && Complete(active.value)
      ensures old(Stuck()) ==> !r.Done? && Unchanged()
    {
      var step := Step();
      if !step.Done? {
        return step;
      }
      if torn {
        return Threw(Unreadable);
      }
      if marker.None? {
        return Threw(Missing);
      }
      r := Finish(false, inode);
    }

    // ----- Being stuck -----

    /** In any other state one call succeeds if nothing fails: a bootstrap, a resumption, or opening what is there. */
    method GoOn(inode: nat) returns (r: Ending<()>)
      requires Valid() && calm && inode !in born
      requires marker.None? && active.Some? ==> |active.value.contents.transactions| <= 1
      modifies this`active, this`archives, this`born, this`marker
      ensures Valid() && (r.Done? <==> !old(Stuck()))
      ensures r.Done? ==> marker.None? && active.Some? && Complete(active.value)
      ensures !r.Done? ==> Unchanged()
    {
      if archives != map[] {
        ArchivedWasBorn();
      }
      if marker.Some? || torn {
        r := Resume(inode);
      } else if active.None? {
        r := Initialize(inode);
      } else {
        var epoch := OpenEpoch();
        r := if epoch.Done? then Done(()) else epoch.PropagateFailure();
      }
    }

    lemma ArchivedWasBorn()
      requires Valid() && archives != map[]
      ensures born != {}
    {
      var a :| a in archives;
      assert InArchive(archives, archives[a].inode);
    }

    /** A rotation dies after creating the file of its marker: the epoch that it found cannot be used any more. */
    static method TornMarker() returns (t: Retention)
      ensures fresh(t) && t.Valid() && t.Stuck() && t.active.Some? && Complete(t.active.value) && t.archives == map[]
    {
      t := new Retention(1);
      t.calm := true;
      var _ := t.Initialize(0);
      t.torn := true;
    }

    /** A rotation dies while it writes the header of the successor. */
    static method StagedHeader() returns (t: Retention)
      ensures fresh(t) && t.Valid() && t.Stuck() && |t.archives| == 1 && t.marker.Some? && t.Growing()
    {
      t := new Retention(1);
      t.calm := true;
      var _ := t.Initialize(0);
      var _ := t.WriteMarker("archive");
      var _ := t.Archive(true);
      var _ := t.MakeActive(1);
      t.AddStore(ApprovalStore);
      t.SetHeader(false, true);
    }

    /** A rotation that cannot remove the first name of the header is finished nevertheless. */
    static method UnopenedSuccessor() returns (t: Retention)
      ensures fresh(t) && t.Valid() && t.Stuck() && |t.archives| == 1 && t.marker.None? && t.Succeeded()
    {
      t := StagedHeader();
      for i := 0 to |STORE_NAMES|
        invariant fresh(t) && t.Growing() && t.active.value.staged && |t.archives| == 1 && t.marker.Some?
        invariant forall k | 0 <= k < i :: STORE_NAMES[k] in t.active.value.stores
      {
        t.AddStore(STORE_NAMES[i]);
      }
      assert STORE_NAMES[2] in t.active.value.stores;
      t.SetHeader(true, true);
      t.marker := None;
    }

    // ----- Whole runs -----

    /**
     Any sequence of bootstraps, operations, rotations and resumptions, each cut short anywhere. No directory that
     was ever an active epoch disappears, the archives stay within their budget and keep what they hold, and
     without a marker an epoch once begun is there. Once stuck, nothing ever changes again.
     */
    method AnyRun(steps: nat)
      requires Valid()
      modifies this
      ensures Valid() && old(born) <= born
      ensures |archives| <= maximumArchives && Keeps(old(archives), archives)
      ensures marker.None? && born != {} ==> active.Some?
      ensures forall i | i in born :: InArchive(archives, i) || (active.Some? && active.value.inode == i)
      ensures old(Stuck()) ==> Stuck() && Unchanged()
    {
      for step := 0 to steps
        invariant Valid() && old(born) <= born
        invariant Keeps(old(archives), archives)
        invariant old(Stuck()) ==> Stuck() && Unchanged()
      {
        calm := *;
        Once();
      }
    }

    /** Any one of the calls that may be made. */
    method Once()
      requires Valid()
      modifies this`active, this`archives, this`born, this`marker, this`torn
      ensures Valid() && old(born) <= born && Keeps(old(archives), archives)
      ensures old(Stuck()) ==> Unchanged()
    {
      var inode: nat := *;
      var name: string, contents: Contents := *, *;
      if inode in born {
        var _ := Operate(contents);
      } else if * {
        var _ := Initialize(inode);
      } else if * {
        var _ := Rotate(name, inode);
      } else {
        var _ := Resume(inode);
      }
    }
  }
}
