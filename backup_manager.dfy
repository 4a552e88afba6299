/** The backup pool of the BackupManager (BackupManager.cs): a list of
    captured component copies that keeps at most six, dropping the oldest
    when a seventh arrives, and the two flags of the backup workflow
    (`BackupReady`: the player may now pick a component to back up;
    `BackupComponentSelected`: a backup has been picked to replace a
    component). */
module Backups {
  import opened Components

  const MAX_BACKUPS: nat := 6

  /** The list after one backup is added: at six or more, the entry at
      index 0 is removed first; the new backup goes at the end. */
  function WithBackup<T>(backups: seq<T>, b: T): (r: seq<T>)
    ensures |r| > 0 && r[|r| - 1] == b
    ensures |backups| < MAX_BACKUPS ==> |r| == |backups| + 1 && r[..|backups|] == backups
    ensures |backups| >= MAX_BACKUPS ==> |r| == |backups| && r[..|r| - 1] == backups[1..]
    ensures |backups| <= MAX_BACKUPS ==> |r| <= MAX_BACKUPS
  {
    var kept := if |backups| >= MAX_BACKUPS then backups[1..] else backups;
    kept + [b]
  }

  /** The list after several backups are added, oldest first. */
  function WithBackups<T>(backups: seq<T>, bs: seq<T>): seq<T>
    decreases |bs|
  {
    if bs == [] then backups else WithBackup(WithBackups(backups, bs[..|bs| - 1]), bs[|bs| - 1])
  }

  /** The last (at most) `n` elements of `s`, in order. */
  function Newest<T>(s: seq<T>, n: nat): (r: seq<T>)
    ensures |r| == if |s| <= n then |s| else n
  {
    if |s| <= n then s else s[|s| - n..]
  }

  lemma NewestAppend<T>(s: seq<T>, x: T)
    ensures Newest(Newest(s, MAX_BACKUPS) + [x], MAX_BACKUPS) == Newest(s + [x], MAX_BACKUPS)
  {
  }

  /** Adding one backup to a list of at most six keeps exactly the six
      newest of the old entries and the new one. */
  lemma WithBackupKeepsNewest<T>(backups: seq<T>, b: T)
    requires |backups| <= MAX_BACKUPS
    ensures WithBackup(backups, b) == Newest(backups + [b], MAX_BACKUPS)
  {
  }

  /** Whatever backups arrive, the pool holds the six most recent entries
      of everything it has seen, oldest first: eviction is first in, first
      out. */
  lemma {:induction false} WithBackupsKeepsNewest<T>(backups: seq<T>, bs: seq<T>)
    requires |backups| <= MAX_BACKUPS
    ensures WithBackups(backups, bs) == Newest(backups + bs, MAX_BACKUPS)
    decreases |bs|
  {
    if bs == [] {
      assert backups + bs == backups;
    } else {
      var front, x := bs[..|bs| - 1], bs[|bs| - 1];
      WithBackupsKeepsNewest(backups, front);
      var before := WithBackups(backups, front);
      WithBackupKeepsNewest(before, x);
      NewestAppend(backups + front, x);
      assert backups + front + [x] == backups + bs;
    }
  }

  class BackupManager {
    var BackupReady: bool
    var BackupComponentSelected: bool
    /** The backup chosen to replace a component in the scene. */
    var BackuppedComponent: GameObject?
    /** The component chosen for backing up. */
    var selectedGameObject: GameObject?
    var listOfBackuppedComponents: seq<GameObject>
    /** The backup selection bar: one slot per backup, each holding it. */
    var backupSlots: seq<GameObject>

    ghost predicate Valid()
      reads this
    {
      |listOfBackuppedComponents| <= MAX_BACKUPS
    }

    /** `Start`: an empty pool and both flags down. */
    constructor ()
      ensures Valid()
      ensures listOfBackuppedComponents == [] && backupSlots == []
      ensures !BackupReady && !BackupComponentSelected
      ensures BackuppedComponent == null && selectedGameObject == null
    {
      listOfBackuppedComponents := [];
      backupSlots := [];
      BackupComponentSelected := false;
      BackupReady := false;
      BackuppedComponent := null;
      selectedGameObject := null;
    }

    method InitBackup(componentToBackup: GameObject)
      modifies this
      ensures selectedGameObject == componentToBackup
      ensures BackupReady == old(BackupReady) && BackupComponentSelected == old(BackupComponentSelected)
      ensures BackuppedComponent == old(BackuppedComponent)
      ensures listOfBackuppedComponents == old(listOfBackuppedComponents) && backupSlots == old(backupSlots)
    {
      selectedGameObject := componentToBackup;
    }

    /** The backup chosen earlier takes the place of `objectToReplace` in
        the scene, then the replacement step of the workflow is reset. With
        no backup chosen nothing happens. Reading the type of a component
        that is not there throws before the flags are reset. */
    method ReplaceComponent(selectedBackup: GameObject, objectToReplace: GameObject) returns (threw: bool)
      modifies this
      ensures threw <==> old(BackupComponentSelected) && objectToReplace.component == null
      ensures threw ==> BackupComponentSelected && BackuppedComponent == old(BackuppedComponent)
      ensures !threw ==> !BackupComponentSelected
      ensures !threw ==> BackuppedComponent == if old(BackupComponentSelected) then null else old(BackuppedComponent)
      ensures BackupReady == old(BackupReady) && selectedGameObject == old(selectedGameObject)
      ensures listOfBackuppedComponents == old(listOfBackuppedComponents) && backupSlots == old(backupSlots)
    {
      threw := false;
      if BackupComponentSelected {
        if objectToReplace.component == null {
          return true;
        }
        BackupComponentSelected := false;
        BackuppedComponent := null;
      }
    }

    /** The "Add Backup" button: the player may now pick a component. */
    method AddComponentToBackup()
      modifies this
      ensures BackupReady
      ensures BackupComponentSelected == old(BackupComponentSelected)
      ensures BackuppedComponent == old(BackuppedComponent) && selectedGameObject == old(selectedGameObject)
      ensures listOfBackuppedComponents == old(listOfBackuppedComponents) && backupSlots == old(backupSlots)
    {
      BackupReady := true;
    }

    /** The picked component is copied and the copy joins the pool. For an
        object without a component, reading its type throws after
        `BackupReady` has been cleared, and the pool is left as it was. */
    method AddToBackupPool(gameObject: GameObject) returns (threw: bool)
      requires Valid()
      modifies this
      ensures Valid()
      ensures !BackupReady
      ensures threw <==> gameObject.component == null
      ensures BackupComponentSelected == old(BackupComponentSelected)
      ensures BackuppedComponent == old(BackuppedComponent) && selectedGameObject == old(selectedGameObject)
      ensures threw ==> listOfBackuppedComponents == old(listOfBackuppedComponents) && backupSlots == old(backupSlots)
      ensures !threw ==> |listOfBackuppedComponents| > 0
      ensures !threw ==> var clone := listOfBackuppedComponents[|listOfBackuppedComponents| - 1];
        && listOfBackuppedComponents == WithBackup(old(listOfBackuppedComponents), clone)
        && fresh(clone) && clone.component != null && fresh(clone.component)
        && clone.component.State() == old(gameObject.component.State())
      ensures !threw ==> backupSlots == listOfBackuppedComponents
    {
      BackupReady := false;
      if gameObject.component == null {
        return true;
      }
      var copy := new Component.Copy(gameObject.component.State());
      var clone := new GameObject(copy);
      AddBackupToListOfBackups(clone);
      threw := false;
    }

    /** Adds a backup to the pool, evicting the oldest when it is full, and
        rebuilds the selection bar from the pool. */
    method AddBackupToListOfBackups(backupObject: GameObject)
      requires Valid()
      modifies this
      ensures Valid()
      ensures listOfBackuppedComponents == WithBackup(old(listOfBackuppedComponents), backupObject)
      ensures backupSlots == listOfBackuppedComponents
      ensures BackupReady == old(BackupReady) && BackupComponentSelected == old(BackupComponentSelected)
      ensures BackuppedComponent == old(BackuppedComponent) && selectedGameObject == old(selectedGameObject)
    {
      if |listOfBackuppedComponents| >= MAX_BACKUPS {
        listOfBackuppedComponents := listOfBackuppedComponents[1..];
      }
      listOfBackuppedComponents := listOfBackuppedComponents + [backupObject];
      var backups := listOfBackuppedComponents;
      var slots: seq<GameObject> := [];
      for i := 0 to |backups|
        invariant slots == backups[..i]
      {
        slots := slots + [backups[i]];
      }
      backupSlots := slots;
    }
  }
}
