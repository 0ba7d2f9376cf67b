/** Detection of a LinkedIn PDF resume the background script has recorded: a
    single pending-resume slot, filled from `chrome.storage.local`, kept up to
    date by the storage-change listener and emptied when the user acts on it. */
module ResumeDetection {
  import opened Wrappers

  const ResumeKey := "gogio_last_linkedin_resume"
  const LocalArea := "local"

  datatype Resume = Resume(filename: string, url: string, downloadId: int, downloadedAt: int)

  /** `chrome.storage.local` as far as the hook uses it: whether it exists and
      the resume stored under `ResumeKey` (None: missing). */
  class ResumeStore {
    const available: bool
    var stored: Option<Resume>

    constructor (available0: bool, stored0: Option<Resume>)
      ensures available == available0 && stored == stored0
    {
      available := available0;
      stored := stored0;
    }
  }

  /** One `storage.onChanged` event: the area name and, for each changed key,
      its new value (None: the key was removed). */
  datatype StorageChange = StorageChange(areaName: string, changes: map<string, Option<Resume>>)

  class ResumeHook {
    var resume: Option<Resume>
    var listening: bool
    const store: ResumeStore

    constructor (store0: ResumeStore)
      ensures store == store0 && resume.None? && !listening
    {
      store := store0;
      resume := None;
      listening := false;
    }

    /** `hasPendingResume`. */
    predicate HasPendingResume()
      reads this
    {
      resume.Some?
    }

    /** The mount effect: without storage nothing is read or subscribed;
        otherwise a stored resume is loaded and the listener is added. */
    method Mount()
      modifies this
      ensures !store.available ==> resume == old(resume) && listening == old(listening)
      ensures store.available ==> listening
      ensures store.available && store.stored.Some? ==> resume == store.stored
      ensures store.available && store.stored.None? ==> resume == old(resume)
    {
      if !store.available {
        return;
      }
      if store.stored.Some? {
        resume := store.stored;
      }
      listening := true;
    }

    /** The effect's cleanup on unmount: the listener is removed, so later
        storage changes are no longer taken; the slot is kept. */
    method Unmount()
      modifies this
      ensures !listening && resume == old(resume)
    {
      listening := false;
    }

    /** `handleStorageChange(changes, areaName)`: only a change of `ResumeKey` in
        the `local` area is taken, and a removal empties the slot. */
    method OnStorageChange(event: StorageChange)
      modifies this
      ensures listening && event.areaName == LocalArea && ResumeKey in event.changes ==>
                resume == event.changes[ResumeKey]
      ensures !listening || event.areaName != LocalArea || ResumeKey !in event.changes ==>
                resume == old(resume)
      ensures listening == old(listening)
    {
      if !listening || event.areaName != LocalArea {
        return;
      }
      if ResumeKey in event.changes {
        resume := event.changes[ResumeKey];
      }
    }

    /** `clearPendingResume()`: without storage nothing happens; otherwise the
        key is removed and the slot emptied. */
    method ClearPendingResume()
      modifies this, store
      ensures !store.available ==> resume == old(resume) && store.stored == old(store.stored)
      ensures store.available ==> store.stored.None? && resume.None? && !HasPendingResume()
      ensures listening == old(listening)
    {
      if !store.available {
        return;
      }
      store.stored := None;
      resume := None;
    }
  }
}
