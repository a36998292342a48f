/** One task's directory and its entry in the store: metadata written with a backup, and what a restart reads back. */
module DurableStore {
  import opened Names
  import opened Options
  import opened Tasks
  import Text

  /** The content of a metadata file: bytes that decode to a task, or bytes that are no JSON. */
  datatype Content = Document(task: Task) | Garbled(text: string)

  /** The names in a task's directory that matter here: `meta.json`, `meta.json.bak` and temporary files. */
  datatype Name = Meta | Backup | Temporary(number: nat)

  type Files = map<Name, Content>

  /** What a restart can see of a directory; it never looks at temporary files. */
  datatype View = View(meta: Option<Content>, backup: Option<Content>)

  function Lookup(files: Files, name: Name): Option<Content> {
    if name in files then Some(files[name]) else None
  }

  function ViewOf(files: Files): View {
    View(Lookup(files, Meta), Lookup(files, Backup))
  }

  function Set(v: View, name: Name, content: Content): View {
    match name
    case Meta => v.(meta := Some(content))
    case Backup => v.(backup := Some(content))
    case Temporary(_) => v
  }

  /** The step of an atomic write that fails, if any does. */
  datatype Failure = Nowhere | AtMkdir | AtCreate | AtChmod | AtWrite | AtSync | AtClose | AtRename | AtDirectorySync

  /** What happens to one atomic write: where it fails, whether its clean-up then fails too, the temporary name it
      gets. */
  datatype Attempt = Attempt(failure: Failure, stuck: bool, temporary: nat)

  /** The attempt does not fail: nothing refuses, and its temporary name is new. */
  predicate Writes(a: Attempt, files: Files) {
    a.failure == Nowhere && Temporary(a.temporary) !in files
  }

  // Reading a task back

  predicate Decodes(content: Option<Content>) {
    content.Some? && content.value.Document?
  }

  /** The document that readTask goes by: the primary, or the backup of a primary that does not decode. */
  function Source(v: View): Option<Task> {
    if Decodes(v.meta) then Some(v.meta.value.task)
    else if v.meta.Some? && Decodes(v.backup) then Some(v.backup.value.task)
    else None
  }

  predicate Accepted(t: Task, id: string) {
    t.id != "" && SafeTaskID(t.id) && t.id == id && t.schemaVersion <= CURRENT_SCHEMA
  }

  function Migrated(t: Task): Task {
    if t.schemaVersion == 0 then t.(schemaVersion := CURRENT_SCHEMA) else t
  }

  function Normalized(t: Task, attachments: string, logSize: Option<nat>): Task {
    var u := t.(attachmentsDir := if t.attachmentsDir == "" then attachments else t.attachmentsDir,
                logSize := if logSize.Some? then logSize.value else t.logSize);
    if u.flag.Some? && u.status != Solved then u.(status := Solved, error := None, containerKept := false) else u
  }

  /** The task that a restart gets from a directory, where `logSize` is the size of `logs.txt` if there is one. */
  function Loaded(v: View, id: string, attachments: string, logSize: Option<nat>): Option<Task> {
    var source := Source(v);
    if source.Some? && Accepted(source.value, id) then Some(Normalized(Migrated(source.value), attachments, logSize))
    else None
  }

  /** The directory after that: a bad primary is replaced by the backup, and an accepted old schema by the current
      one. */
  function Repaired(v: View, id: string): View {
    var source := Source(v);
    if source.None? then v
    else v.(meta := Some(Document(if Accepted(source.value, id) then Migrated(source.value) else source.value)))
  }

  /** Halfway: a bad primary is replaced, and nothing else. */
  function Replaced(v: View): View {
    if Source(v).None? then v else v.(meta := Some(Document(Source(v).value)))
  }

  ghost predicate Mended(v: View, id: string, now: View) {
    now == v || now == Replaced(v) || now == Repaired(v, id)
  }

  /** There is no bad primary with a backup to put in its place. */
  predicate Sound(v: View) {
    Decodes(v.meta) || Source(v).None?
  }

  predicate SameButLogSize(t: Task, u: Task) {
    t.(logSize := 0) == u.(logSize := 0)
  }

  /** The directory offers this document: its primary is the document, or does not decode and the backup is it. */
  ghost predicate Offers(v: View, d: Task) {
    || v.meta == Some(Document(d))
    || (v.meta.Some? && v.meta.value.Garbled? && v.backup == Some(Document(d)))
  }

  /** The document with the number of the current schema instead of 0, and otherwise as it is. */
  ghost function Current(d: Task): Task {
    d.(schemaVersion := if d.schemaVersion == 0 then 1 else d.schemaVersion)
  }

  /** The task that a restart makes of a document, field by field: the schema's number, the size of the log and an empty
      directory of attachments are replaced, and a flag solves the task. Nothing else differs. */
  ghost predicate Restores(d: Task, attachments: string, logSize: Option<nat>, t: Task) {
    && t.logSize == (if logSize.Some? then logSize.value else d.logSize)
    && t.attachmentsDir == (if d.attachmentsDir != "" then d.attachmentsDir else attachments)
    && (d.flag.None? || d.status == Solved ==>
          t == Current(d).(logSize := t.logSize, attachmentsDir := t.attachmentsDir))
    && (d.flag.Some? && d.status != Solved ==>
          t == Current(d).(logSize := t.logSize, attachmentsDir := t.attachmentsDir, status := Solved, error := None,
                           containerKept := false))
  }

  /** A restart accepts the document that the directory offers exactly if it carries the right, safe id and no newer
      schema. What it loads then is that document, of schema 0 or not, and so is the primary it leaves. */
  lemma LoadKeepsTheDocument(v: View, d: Task, id: string, attachments: string, logSize: Option<nat>)
    requires Offers(v, d)
    ensures var loaded := Loaded(v, id, attachments, logSize);
            && (loaded.Some? <==> d.id == id != "" && SafeTaskID(id) && d.schemaVersion <= 1)
            && (loaded.Some? ==> Restores(d, attachments, logSize, loaded.value)
                                 && Repaired(v, id) == View(Some(Document(Current(d))), v.backup))
            && (loaded.None? ==> Repaired(v, id) == View(Some(Document(d)), v.backup))
  {
  }

  lemma LoadedIsOffered(v: View, id: string, attachments: string, logSize: Option<nat>)
    ensures var loaded := Loaded(v, id, attachments, logSize);
            loaded.Some? ==> exists d :: Offers(v, d) && Restores(d, attachments, logSize, loaded.value)
  {
    if Loaded(v, id, attachments, logSize).Some? {
      var d := Source(v).value;
      LoadKeepsTheDocument(v, d, id, attachments, logSize);
    }
  }

  /** A directory that offers none loads nothing and stays as it is. */
  lemma NothingOffered(v: View, id: string, attachments: string, logSize: Option<nat>)
    requires forall d :: !Offers(v, d)
    ensures Loaded(v, id, attachments, logSize) == None && Repaired(v, id) == v
  {
    assert Source(v).Some? ==> Offers(v, Source(v).value);
  }

  /** A second restart finds the same task, and nothing left to write. */
  lemma LoadIsIdempotent(v: View, id: string, attachments: string, logSize: Option<nat>)
    ensures Loaded(Repaired(v, id), id, attachments, logSize) == Loaded(v, id, attachments, logSize)
    ensures Repaired(Repaired(v, id), id) == Repaired(v, id)
  {
  }

  /** What a restart makes of a task the store wrote is that task, but for its log size, exactly if it has a
      directory for attachments and no flag without being solved. */
  lemma LoadGivesBackTheTask(t: Task, backup: Option<Content>, attachments: string, logSize: Option<nat>)
    requires SafeTaskID(t.id) && t.schemaVersion == CURRENT_SCHEMA && attachments != ""
    ensures var loaded := Loaded(View(Some(Document(t)), backup), t.id, attachments, logSize);
            loaded.Some?
                && (SameButLogSize(loaded.value, t) <==>
                    t.attachmentsDir != "" && (t.flag.Some? ==> t.status == Solved))
  {
    var loaded := Loaded(View(Some(Document(t)), backup), t.id, attachments, logSize).value;
    assert SameButLogSize(loaded, t) ==> loaded.attachmentsDir == t.attachmentsDir && loaded.status == t.status;
  }

  /** A task with a flag comes back solved, whatever stopped it. */
  lemma StraysComeBackSolved(t: Task, backup: Option<Content>, attachments: string, logSize: Option<nat>)
    requires SafeTaskID(t.id) && t.schemaVersion == CURRENT_SCHEMA && Stray(t)
    ensures var loaded := Loaded(View(Some(Document(t)), backup), t.id, attachments, logSize);
            && loaded.Some? && loaded.value.status == Solved && loaded.value.flag == t.flag
            && !loaded.value.containerKept && loaded.value.lastStep == t.lastStep
  {
  }

  /** A newer schema or another task's id is never accepted, whatever else the directory holds. */
  lemma ForeignDocumentsAreRejected(v: View, id: string, attachments: string, logSize: Option<nat>)
    requires Decodes(v.meta) && (v.meta.value.task.schemaVersion > CURRENT_SCHEMA || v.meta.value.task.id != id)
    ensures Loaded(v, id, attachments, logSize) == None && Repaired(v, id) == v
  {
  }

  /** The view after a write of `t` over `v`, if it comes to its end. */
  function Written(v: View, t: Task): View {
    View(Some(Document(t)), if Decodes(v.meta) then v.meta else v.backup)
  }

  /** Bad bytes in the primary cost exactly the last version: the one before comes back, and is put in place again. */
  lemma CorruptionLosesOneVersion(v: View, t: Task, text: string, id: string, attachments: string, logSize: Option<nat>)
    requires Decodes(v.meta) && Accepted(v.meta.value.task, id)
    ensures var bad := Written(v, t).(meta := Some(Garbled(text)));
            && Loaded(bad, id, attachments, logSize) == Loaded(v, id, attachments, logSize)
            && Repaired(bad, id).meta == Repaired(v, id).meta
            && Repaired(bad, id).backup == v.meta
  {
  }

  // Writing

  /** The view after a write of `t` over `v`, if it comes to its end; a primary that cannot be read is not backed up. */
  function After(v: View, t: Task, readable: bool): View {
    if readable then Written(v, t) else v.(meta := Some(Document(t)))
  }

  /** Every moment of a write from `v` to `w`: untouched, with the backup taken, or done. */
  ghost predicate OnTheWay(v: View, w: View, now: View) {
    now == v || now == v.(backup := w.backup) || now == w
  }

  function Without(files: Files, name: Name): Files {
    map n | n in files && n != name :: files[n]
  }

  lemma TemporaryIsInvisible(files: Files, temporary: Name, c: Content)
    requires temporary.Temporary? && temporary !in files
    ensures ViewOf(files[temporary := c]) == ViewOf(files)
    ensures Without(files[temporary := c], temporary) == files
  {
  }

  /** A restart from here finds one of the tasks in `allowed`; if `stored`, it surely finds one. */
  ghost predicate Survives(v: View, allowed: set<Task>, stored: bool) {
    && (v.meta.Some? ==> v.meta.value.Document? && v.meta.value.task in allowed)
    && (v.backup.Some? ==> v.backup.value.Document?)
    && (stored ==> v.meta.Some?)
  }

  lemma WriteSurvives(v: View, t: Task, readable: bool, now: View, allowed: set<Task>, stored: bool)
    requires Survives(v, allowed, stored) && OnTheWay(v, After(v, t, readable), now)
    ensures Survives(now, allowed + {t}, stored)
    ensures Survives(After(v, t, readable), {t}, true)
  {
  }

  lemma WritingKeepsDurability(before: seq<View>, from: nat, after: seq<View>, t: Task, readable: bool,
                               allowed: set<Task>, stored: bool)
    requires from < |before| && before <= after && AllSurvive(before, from, allowed, stored)
    requires var v := before[|before| - 1];
             forall i | |before| <= i < |after| :: OnTheWay(v, After(v, t, readable), after[i])
    ensures AllSurvive(after, from, allowed + {t}, stored)
    ensures Survives(After(before[|before| - 1], t, readable), {t}, true)
  {
    var v := before[|before| - 1];
    WriteSurvives(v, t, readable, v, allowed, stored);
    forall i | from <= i < |after|
      ensures Survives(after[i], allowed + {t}, stored)
    {
      if i < |before| {
        assert after[i] == before[i];
      } else {
        WriteSurvives(v, t, readable, after[i], allowed, stored);
      }
    }
  }

  /** What a restart reads from a surviving view is an allowed version, and reading it keeps the view surviving. */
  lemma ReadingSurvives(v: View, id: string, allowed: set<Task>, stored: bool)
    requires Survives(v, allowed, stored) && forall t | t in allowed :: Accepted(t, id)
    ensures Sound(v) && (Source(v).Some? ==> Source(v).value in allowed) && (stored ==> Source(v).Some?)
    ensures forall now | Mended(v, id, now) :: Survives(now, WithMigrated(v, allowed), stored)
  {
  }

  /** What a restart may find once `v` was read: the version read counts in its current form too. */
  ghost function WithMigrated(v: View, allowed: set<Task>): set<Task> {
    if Source(v).Some? then allowed + {Migrated(Source(v).value)} else allowed
  }

  /** Directories hold consistent tasks if all versions that were written are consistent. */
  lemma SurvivorsAreConsistent(v: View, id: string, attachments: string, logSize: Option<nat>, allowed: set<Task>,
                               stored: bool)
    requires Survives(v, allowed, stored) && forall t | t in allowed :: Consistent(t)
    ensures var loaded := Loaded(v, id, attachments, logSize); loaded.Some? ==> Consistent(loaded.value)
    ensures forall t | t in WithMigrated(v, allowed) :: Consistent(t)
  {
  }

  ghost predicate AllSurvive(trace: seq<View>, from: nat, allowed: set<Task>, stored: bool) {
    forall i | from <= i < |trace| :: Survives(trace[i], allowed, stored)
  }

  lemma ReadingKeepsDurability(before: seq<View>, from: nat, after: seq<View>, from': nat, id: string,
                               allowed: set<Task>, stored: bool)
    requires from < |before| && before <= after && from <= from' && AllSurvive(before, from, allowed, stored)
    requires forall t | t in allowed :: Accepted(t, id)
    requires forall i | |before| <= i < |after| :: Mended(before[|before| - 1], id, after[i])
    ensures AllSurvive(after, from', WithMigrated(before[|before| - 1], allowed), stored)
    ensures forall t | t in WithMigrated(before[|before| - 1], allowed) :: Accepted(t, id)
  {
    var v := before[|before| - 1];
    ReadingSurvives(v, id, allowed, stored);
    forall i | from' <= i < |after|
      ensures Survives(after[i], WithMigrated(v, allowed), stored)
    {
      assert i < |before| ==> after[i] == before[i];
      assert i >= |before| ==> Mended(v, id, after[i]);
    }
  }

  /** The copy that an update writes: the changed task, in the current schema. */
  function Updated(t: Task, change: Task -> Task): (u: Task)
    ensures u.schemaVersion == 1 && u.(schemaVersion := change(t).schemaVersion) == change(t)
  {
    change(t).(schemaVersion := CURRENT_SCHEMA)
  }

  /** How removing a writeup's file ends. */
  datatype Removal = Removed | Missing | Refused

  predicate Blocked(t: Task, removal: Removal) {
    HasStoredWriteup(t) && removal == Refused
  }

  /** The entry after ClearResultData, which changes it in place and before anything is written. */
  function Cleared(t: Task, removal: Removal): Task {
    if Blocked(t, removal) then HalfCleared(t) else ClearResult(t)
  }

  /** The same field by field: only the flag is gone if the writeup's file cannot be removed; otherwise flag and writeup
      are, and a solved task is completed without an error. */
  ghost predicate Clears(t: Task, refused: bool, u: Task) {
    if t.writeup != "" && SafeStoredFilename(t.writeup) && refused then u == t.(flag := None)
    else if t.status != Solved then u == t.(flag := None, writeup := "")
    else u == t.(flag := None, writeup := "", status := Completed, error := None,
                 lastStep := if t.lastStep == FLAG_STEP || Text.TrimSpace(t.lastStep) == "" then CLEARED_STEP
                 else t.lastStep)
  }

  lemma ClearedKeepsIdentity(t: Task, removal: Removal)
    ensures Cleared(t, removal).id == t.id && Cleared(t, removal).schemaVersion == t.schemaVersion
  {
  }

  /** Clearing keeps flags and statuses coupled except when a solved task's writeup cannot be removed: then the entry
      stays solved, and its flag is gone from memory. */
  lemma ClearingKeepsCoupling(t: Task, removal: Removal)
    requires Coupled(t)
    ensures Coupled(Cleared(t, removal)) <==> !(t.status == Solved && Blocked(t, removal))
    ensures !Blocked(t, removal) ==> Cleared(t, removal).flag == None && Cleared(t, removal).status != Solved
  {
  }

  class Record {
    const id: string
    const attachments: string
    var files: Files
    var memory: Option<Task>  // the entry of the store's map
    ghost var trace: seq<View>  // what a restart could see, after each change of the directory
    ghost var synced: nat  // a crash now leaves one of trace[synced..]
    ghost var allowed: set<Task>  // the last version written successfully, and those attempted since
    ghost var stored: bool  // some version was written successfully

    ghost predicate Traced()
      reads this
    {
      synced < |trace| && trace[|trace| - 1] == ViewOf(files)
    }

    /** Whatever crash comes now, a restart finds the last acknowledged version or one attempted after it. */
    ghost predicate Durable()
      reads this
    {
      && Traced()
      && (forall t | t in allowed :: Accepted(t, id))
      && AllSurvive(trace, synced, allowed, stored)
    }

    /** A task that was never written. */
    constructor (id: string, attachments: string)
      ensures Durable() && this.id == id && this.attachments == attachments
      ensures files == map[] && memory == None && !stored && allowed == {}
    {
      this.id, this.attachments := id, attachments;
      files, memory, trace, synced, allowed, stored := map[], None, [View(None, None)], 0, {}, false;
    }

    /** One change of the directory. */
    method Change(files': Files)
      requires Traced()
      modifies this`files, this`trace
      ensures Traced() && files == files' && trace == old(trace) + [ViewOf(files')]
    {
      files := files';
      trace := trace + [ViewOf(files')];
    }

    /** The first half of atomicWriteFile: a temporary file with all of the data, safely on disk. */
    method Stage(temporary: Name, data: Content, a: Attempt) returns (ok: bool)
      requires Traced() && temporary.Temporary? && temporary !in files
      modifies this`files, this`trace
      ensures Traced() && old(trace) <= trace
      ensures forall i | |old(trace)| <= i < |trace| :: trace[i] == old(ViewOf(files))
      ensures temporary in files && Without(files, temporary) == old(files)
      ensures ok <==> a.failure !in {AtChmod, AtWrite, AtSync, AtClose}
      ensures ok ==> files[temporary] == data
    {
      TemporaryIsInvisible(files, temporary, Garbled(""));
      TemporaryIsInvisible(files, temporary, data);
      var before := files;
      Change(before[temporary := Garbled("")]);
      if a.failure == AtChmod || a.failure == AtWrite {
        return false;
      }
      Change(before[temporary := data]);
      return a.failure != AtSync && a.failure != AtClose;
    }

    /** atomicWriteFile. At every moment the target has its old content or all of the new one; after success no crash
        brings the old one back; after failure only a failed directory sync leaves the new one visible. */
    method AtomicWrite(target: Name, data: Content, a: Attempt) returns (ok: bool)
      requires Traced() && !target.Temporary?
      modifies this`files, this`trace, this`synced
      ensures Traced() && old(trace) <= trace
      ensures forall i | |old(trace)| <= i < |trace| ::
                trace[i] == old(ViewOf(files)) || trace[i] == Set(old(ViewOf(files)), target, data)
      ensures ok <==> Writes(a, old(files))
      ensures ok ==> files == old(files)[target := data] && synced == |trace| - 1
      ensures !ok ==> synced == old(synced)
      ensures !ok && a.failure != AtDirectorySync ==>
                ViewOf(files) == old(ViewOf(files)) && (!a.stuck ==> files == old(files))
    {
      var temporary := Temporary(a.temporary);
      if a.failure == AtMkdir || a.failure == AtCreate || temporary in files {
        return false;
      }
      ok := Stage(temporary, data, a);
      if ok && a.failure != AtRename {
        Change(Without(files, temporary)[target := data]);
        if a.failure == AtDirectorySync {
          return false;
        }
        synced := |trace| - 1;
      } else {
        ok := false;
        if !a.stuck {
          Change(Without(files, temporary));
        }
      }
    }

    /** Store.writeTask, except for the guard on the id; `readable` says whether the primary can be read. */
    method WriteTask(task: Task, readable: bool, backup: Attempt, main: Attempt) returns (ok: bool)
      requires Traced()
      modifies this`files, this`trace, this`synced
      ensures Traced() && old(trace) <= trace && old(synced) <= synced
      ensures var w := After(old(ViewOf(files)), task, readable);
              && (forall i | |old(trace)| <= i < |trace| :: OnTheWay(old(ViewOf(files)), w, trace[i]))
              && (ok ==> synced == |trace| - 1 && ViewOf(files) == w)
      ensures Writes(backup, old(files)) && Writes(main, old(files)) ==> ok
    {
      ok := true;
      if readable && Meta in files && files[Meta].Document? {
        ok := AtomicWrite(Backup, files[Meta], backup);
      }
      if ok {
        ok := AtomicWrite(Meta, Document(task), main);
      }
    }

    /** writeTask in the life of the record: at every moment of the call a restart would find the last acknowledged
        version, one attempted since, or the new one; once the call succeeds, it would find the new one. */
    method Commit(task: Task, readable: bool, backup: Attempt, main: Attempt) returns (ok: bool)
      requires Durable() && Accepted(task, id)
      modifies this`files, this`trace, this`synced, this`allowed, this`stored
      ensures Durable() && old(synced) <= synced
      ensures AllSurvive(trace, old(synced), old(allowed) + {task}, old(stored))
      ensures if ok then allowed == {task} && stored else allowed == old(allowed) + {task} && stored == old(stored)
    {
      ghost var v := ViewOf(files);
      ok := WriteTask(task, readable, backup, main);
      WritingKeepsDurability(old(trace), old(synced), trace, task, readable, allowed, stored);
      if ok {
        allowed, stored := {task}, true;
      } else {
        allowed := allowed + {task};
      }
    }

    /** Store.update: the entry changes only if the write succeeds. */
    method Update(change: Task -> Task, readable: bool, backup: Attempt, main: Attempt) returns (ok: bool)
      requires Durable() && (memory.Some? ==> change(memory.value).id == id)
      modifies this
      ensures Durable()
      ensures !ok ==> memory == old(memory)
      ensures ok ==>
                && old(memory).Some? && stored && memory == Some(Updated(old(memory).value, change))
                && allowed == {memory.value}
      ensures old(memory).Some? ==>
                && allowed <= old(allowed) + {Updated(old(memory).value, change)}
                && AllSurvive(trace, old(synced), old(allowed) + {Updated(old(memory).value, change)}, old(stored))
    {
      if !SafeTaskID(id) || memory.None? {
        return false;
      }
      var copy := Updated(memory.value, change);
      ok := Commit(copy, readable, backup, main);
      if ok {
        memory := Some(copy);
      }
    }

    /** Store.Add, for the task of this directory. */
    method Add(task: Task, readable: bool, backup: Attempt, main: Attempt) returns (ok: bool)
      requires Durable() && task.id == id
      modifies this
      ensures Durable()
      ensures if ok then stored && memory == Some(task.(schemaVersion := CURRENT_SCHEMA)) && allowed == {memory.value}
              else memory == old(memory)
      ensures AllSurvive(trace, old(synced), old(allowed) + {task.(schemaVersion := CURRENT_SCHEMA)}, old(stored))
    {
      if !SafeTaskID(task.id) {
        return false;
      }
      var copy := task.(schemaVersion := CURRENT_SCHEMA);
      ok := Commit(copy, readable, backup, main);
      if ok {
        memory := Some(copy);
      }
    }

    /** Store.ClearResultData, as far as this task goes. A refused removal stops it with the entry half cleared and
        nothing written, so that a restart brings the flag back; a failed write leaves the entry cleared in memory. */
    method ClearResultData(removal: Removal, readable: bool, backup: Attempt, main: Attempt)
      returns (updated: bool, ok: bool)
      requires Durable() && memory.Some? && Accepted(memory.value, id)
      modifies this
      ensures Durable() && memory == Some(Cleared(old(memory).value, removal))
      ensures Blocked(old(memory).value, removal) ==> !ok
      ensures !updated ==>
                files == old(files) && trace == old(trace) && synced == old(synced) && allowed == old(allowed)
      ensures updated && ok ==> allowed == {memory.value}
      ensures Clears(old(memory).value, removal == Refused, memory.value)
      ensures updated <==> !Blocked(old(memory).value, removal) && memory != old(memory)
      ensures AllSurvive(trace, old(synced), old(allowed) + {memory.value}, old(stored))
    {
      ClearedKeepsIdentity(memory.value, removal);
      var task, changed := ClearEntry(memory.value, removal);
      ok := !Blocked(memory.value, removal);
      updated := ok && changed;
      memory := Some(task);
      if updated {
        ok := Commit(task, readable, backup, main);
      }
    }

    /** The changes that ClearResultData makes to one entry. */
    static method ClearEntry(t: Task, removal: Removal) returns (task: Task, changed: bool)
      ensures task == Cleared(t, removal) && Clears(t, removal == Refused, task)
      ensures !Blocked(t, removal) ==> (changed <==> task != t)
    {
      task, changed := t, false;
      if task.flag.Some? {
        task := task.(flag := None);
        changed := true;
      }
      if task.writeup != "" {
        if SafeStoredFilename(task.writeup) && removal == Refused {
          return;
        }
        task := task.(writeup := "");
        changed := true;
      }
      if task.status == Solved {
        task := task.(status := Completed, error := None);
        if Text.TrimSpace(task.lastStep) == "" || task.lastStep == FLAG_STEP {
          task := task.(lastStep := CLEARED_STEP);
        }
        changed := true;
      }
    }

    /** The first half of Store.readTask: the primary, or the backup in its place. */
    method ReadDocument(repair: Attempt) returns (task: Option<Task>)
      requires Traced()
      modifies this`files, this`trace, this`synced
      ensures Traced() && old(trace) <= trace && old(synced) <= synced
      ensures forall i | |old(trace)| <= i < |trace| ::
                trace[i] == old(ViewOf(files)) || trace[i] == Replaced(old(ViewOf(files)))
      ensures task.Some? ==> task == Source(old(ViewOf(files))) && ViewOf(files) == Replaced(old(ViewOf(files)))
      ensures task.None? ==>
                Source(old(ViewOf(files))).None? || (!Sound(old(ViewOf(files))) && !Writes(repair, old(files)))
      ensures Sound(old(ViewOf(files))) ==>
                trace == old(trace) && files == old(files) && synced == old(synced)
      ensures task.Some? ==>
                files == old(files) || (Backup in old(files) && files == old(files)[Meta := old(files)[Backup]])
    {
      if Meta !in files {
        return None;
      }
      if files[Meta].Document? {
        return Some(files[Meta].task);
      }
      if Backup !in files || !files[Backup].Document? {
        return None;
      }
      var document := files[Backup];
      var repaired := AtomicWrite(Meta, document, repair);
      if !repaired {
        return None;
      }
      return Some(document.task);
    }

    /** The second half: a document of the oldest schema is replaced by its current form. */
    method Migrate(read: Task, a: Attempt) returns (ok: bool)
      requires Traced()
      modifies this`files, this`trace, this`synced
      ensures Traced() && old(trace) <= trace && old(synced) <= synced
      ensures ok <==> read.schemaVersion != 0 || Writes(a, old(files))
      ensures read.schemaVersion != 0 ==> files == old(files) && trace == old(trace) && synced == old(synced)
      ensures forall i | |old(trace)| <= i < |trace| ::
                trace[i] == old(ViewOf(files)) || trace[i] == Set(old(ViewOf(files)), Meta, Document(Migrated(read)))
      ensures ok && read.schemaVersion == 0 ==> ViewOf(files) == Set(old(ViewOf(files)), Meta, Document(Migrated(read)))
    {
      ok := true;
      if read.schemaVersion == 0 {
        ok := AtomicWrite(Meta, Document(read.(schemaVersion := CURRENT_SCHEMA)), a);
      }
    }

    /** Store.readTask and the entry that Store.Load makes of it. */
    method ReadTask(logSize: Option<nat>, repair: Attempt, migrate: Attempt)
      requires Traced()
      modifies this`files, this`trace, this`synced, this`memory
      ensures Traced() && old(trace) <= trace && old(synced) <= synced
      ensures memory == None || memory == Loaded(old(ViewOf(files)), id, attachments, logSize)
      ensures forall i | |old(trace)| <= i < |trace| :: Mended(old(ViewOf(files)), id, trace[i])
      ensures Repaired(old(ViewOf(files)), id) == old(ViewOf(files)) ==>
                trace == old(trace) && files == old(files) && synced == old(synced)
      ensures (Sound(old(ViewOf(files))) || Writes(repair, old(files))) && Writes(migrate, old(files)) ==>
                && memory == Loaded(old(ViewOf(files)), id, attachments, logSize)
                && ViewOf(files) == Repaired(old(ViewOf(files)), id)
      ensures memory.Some? ==> exists d ::
                  Offers(old(ViewOf(files)), d) && Restores(d, attachments, logSize, memory.value)
    {
      LoadedIsOffered(ViewOf(files), id, attachments, logSize);
      memory := None;
      var document := ReadDocument(repair);
      if document.Some? {
        Adopt(document.value, logSize, migrate);
      }
    }

    /** What Store.readTask does with the document it goes by. */
    method Adopt(read: Task, logSize: Option<nat>, migrate: Attempt)
      requires Traced()
      modifies this`files, this`trace, this`synced, this`memory
      ensures Traced() && old(trace) <= trace && old(synced) <= synced
      ensures memory == None || (Accepted(read, id) && memory == Some(Normalized(Migrated(read), attachments, logSize)))
      ensures !Accepted(read, id) || Migrated(read) == read ==>
                trace == old(trace) && files == old(files) && synced == old(synced)
      ensures forall i | |old(trace)| <= i < |trace| :: Accepted(read, id)
                && (trace[i] == old(ViewOf(files))
                    || trace[i] == Set(old(ViewOf(files)), Meta, Document(Migrated(read))))
      ensures Accepted(read, id) && Writes(migrate, old(files)) ==>
                memory.Some?
                    && (Migrated(read) != read ==>
                        ViewOf(files) == Set(old(ViewOf(files)), Meta, Document(Migrated(read))))
    {
      memory := None;
      if read.id == "" || !SafeTaskID(read.id) || read.id != id || read.schemaVersion > CURRENT_SCHEMA {
        return;
      }
      var migrated := Migrate(read, migrate);
      if !migrated {
        return;
      }
      var task := Finish(Migrated(read), logSize);
      memory := Some(task);
    }

    /** The rest of Store.readTask. */
    method Finish(read: Task, logSize: Option<nat>) returns (task: Task)
      ensures task == Normalized(read, attachments, logSize)
    {
      task := read;
      if task.attachmentsDir == "" {
        task := task.(attachmentsDir := attachments);
      }
      if logSize.Some? {
        task := task.(logSize := logSize.value);
      }
      if task.flag.Some? && task.status != Solved {
        task := task.(status := Solved, error := None, containerKept := false);
      }
    }

    /** A crash at any moment since the last synchronised one. `left` is what the disk then holds. */
    method Crash(moment: nat, left: Files)
      requires Durable() && synced <= moment < |trace| && ViewOf(left) == trace[moment]
      modifies this`files, this`trace, this`synced, this`memory
      ensures Durable() && files == left && memory == None
    {
      files, trace, synced, memory := left, [ViewOf(left)], 0, None;
    }

    /** The start after it finds an allowed version, and surely one if any write was ever acknowledged; and so does the
        start after a crash in the middle of its repair or migration. */
    method Start(logSize: Option<nat>, repair: Attempt, migrate: Attempt)
      requires Durable()
      modifies this`files, this`trace, this`synced, this`memory, this`allowed
      ensures Durable()
      ensures memory.Some? ==> exists t ::
                && t in old(allowed) && memory == Some(Normalized(Migrated(t), attachments, logSize))
                && Restores(t, attachments, logSize, memory.value)
      ensures stored && Writes(migrate, old(files)) ==> memory.Some?
      ensures old(trace) <= trace && allowed == WithMigrated(old(ViewOf(files)), old(allowed))
      ensures AllSurvive(trace, old(synced), allowed, stored)
    {
      ghost var v := ViewOf(files);
      assert Survives(trace[|trace| - 1], allowed, stored);
      ReadingSurvives(v, id, allowed, stored);
      ReadTask(logSize, repair, migrate);
      if memory.Some? {
        LoadKeepsTheDocument(v, Source(v).value, id, attachments, logSize);
      }
      ReadingKeepsDurability(old(trace), old(synced), trace, old(synced), id, allowed, stored);
      allowed := WithMigrated(v, allowed);
    }

    /** After a successful update every crash gives back the entry as it is in memory, but for the size of the log. */
    lemma RestartGivesBackTheTask(moment: nat, logSize: Option<nat>)
      requires Durable() && stored && synced <= moment < |trace| && SafeTaskID(id) && attachments != ""
      requires memory.Some? && allowed == {memory.value} && memory.value.schemaVersion == CURRENT_SCHEMA
      requires memory.value.attachmentsDir != "" && Consistent(memory.value)
      ensures var loaded := Loaded(trace[moment], id, attachments, logSize);
              loaded.Some? && SameButLogSize(loaded.value, memory.value)
    {
      assert Survives(trace[moment], allowed, stored);
      assert trace[moment] == View(Some(Document(memory.value)), trace[moment].backup);
      LoadGivesBackTheTask(memory.value, trace[moment].backup, attachments, logSize);
    }
  }
}
