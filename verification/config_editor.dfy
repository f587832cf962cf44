/** Crash safety of the configuration editor: synced temporary files, a backup made durable before the replacement
    becomes visible, and a directory sync after each rename. */
module ConfigEditor {
  import opened Text

  /** A directory entry's file. Unsynced content may be anything after a crash. */
  datatype Node = Node(content: string, synced: bool)

  /** The configuration file and its backup: what they are now, and what each may be after a crash, which is any value
      since the last directory sync. */
  datatype Disk = Disk(path: Node, backup: Option<Node>, paths: set<Node>, backups: set<Option<Node>>)

  function RenamedBackup(d: Disk, node: Node): Disk {
    d.(backup := Some(node), backups := d.backups + {Some(node)})
  }

  function RenamedPath(d: Disk, node: Node): Disk {
    d.(path := node, paths := d.paths + {node})
  }

  function SyncedDirectory(d: Disk): Disk {
    d.(paths := {d.path}, backups := {d.backup})
  }

  /** Nothing is waiting for a directory sync. */
  predicate Settled(d: Disk) {
    d.paths == {d.path} && d.backups == {d.backup}
  }

  predicate Complete(node: Node, content: string) {
    node == Node(content, true)
  }

  /** What is there now is among what a crash may leave. */
  predicate Consistent(d: Disk) {
    d.path in d.paths && d.backup in d.backups
  }

  predicate KeepsBackup(before: Disk, preserve: bool) {
    preserve && before.backup.Some?
  }

  /** Whatever a crash leaves at the path could have been left before, or is exactly the replacement; and as soon as the
      replacement can be there, the kept backup is as safe as it was, or the new one is there after every crash. */
  ghost predicate CrashSafe(d: Disk, before: Disk, replacement: string, preserve: bool) {
    && Consistent(d)
    && (forall p | p in d.paths :: p in before.paths || Complete(p, replacement))
    && (!(d.paths <= before.paths) ==>
          if KeepsBackup(before, preserve) then d.backups <= before.backups
          else d.backups == {Some(Node(before.path.content, true))})
  }

  /** In a directory where nothing awaits a sync: exactly the original or exactly the replacement, and with a visible
      replacement one backup after every crash, complete if the kept one was. */
  lemma SettledCrashSafe(d: Disk, before: Disk, replacement: string, preserve: bool)
    requires CrashSafe(d, before, replacement, preserve) && Settled(before)
    ensures forall p | p in d.paths :: p == before.path || Complete(p, replacement)
    ensures d.paths != {before.path} ==>
              forall b | b in d.backups ::
                b == if KeepsBackup(before, preserve) then before.backup else Some(Node(before.path.content, true))
  {
    assert d.paths <= {before.path} ==> d.paths == {before.path};
  }

  /** A directory on disk, with every state it has gone through. */
  class Directory {
    var disk: Disk
    ghost var history: seq<Disk>

    constructor (disk: Disk)
      ensures this.disk == disk && history == []
    {
      this.disk := disk;
      history := [];
    }

    /** `broken` is a write or sync error before the file is complete. */
    method WriteSyncedTemp(body: string, broken: bool) returns (node: Option<Node>)
      ensures node.None? <==> broken
      ensures node.Some? ==> Complete(node.value, body)
    {
      if broken {
        return None;
      }
      var written := Node(body, false);
      return Some(written.(synced := true));
    }

    method RenameBackup(node: Node)
      modifies this
      ensures disk == RenamedBackup(old(disk), node) && history == old(history) + [disk]
    {
      disk := disk.(backup := Some(node), backups := disk.backups + {Some(node)});
      history := history + [disk];
    }

    method RenamePath(node: Node)
      modifies this
      ensures disk == RenamedPath(old(disk), node) && history == old(history) + [disk]
    {
      disk := disk.(path := node, paths := disk.paths + {node});
      history := history + [disk];
    }

    method SyncDirectory()
      modifies this
      ensures disk == SyncedDirectory(old(disk)) && history == old(history) + [disk]
    {
      disk := disk.(paths := {disk.path}, backups := {disk.backup});
      history := history + [disk];
    }

    /** The backup part of atomicReplace. */
    method MakeBackup(original: string, faults: nat -> bool) returns (ok: bool)
      requires Consistent(disk)
      modifies this
      ensures old(history) <= history && disk == if history == old(history) then old(disk) else history[|history| - 1]
      ensures forall k | |old(history)| <= k < |history| ::
                Consistent(history[k]) && history[k].paths <= old(disk).paths
      ensures disk.path == old(disk).path
      ensures ok ==> disk == Disk(old(disk).path, Some(Node(original, true)), {old(disk).path}, {Some(Node(original, true))})
      ensures !faults(1) && !faults(2) ==> ok
    {
      var backupTemp := WriteSyncedTemp(original, faults(1));
      if backupTemp.None? {
        return false;
      }
      RenameBackup(backupTemp.value);
      if faults(2) {
        return false;
      }
      SyncDirectory();
      return true;
    }

    /** atomicReplace, from any directory state; `faults` says which of its fallible steps fails. */
    method AtomicReplace(original: string, replacement: string, preserve: bool, faults: nat -> bool)
      returns (ok: bool)
      requires Consistent(disk) && disk.path.content == original
      modifies this
      ensures old(history) <= history
      ensures forall k | |old(history)| <= k < |history| :: CrashSafe(history[k], old(disk), replacement, preserve)
      ensures disk == if history == old(history) then old(disk) else history[|history| - 1]
      ensures ok ==> Settled(disk) && disk.path == Node(replacement, true)
      ensures ok ==> disk.backup == if KeepsBackup(old(disk), preserve) then old(disk).backup else Some(Node(original, true))
      ensures (forall i | 0 <= i < 6 :: !faults(i)) ==> ok
    {
      var replacementTemp := WriteSyncedTemp(replacement, faults(0));
      if replacementTemp.None? {
        return false;
      }
      if !preserve || disk.backup.None? {
        var backedUp := MakeBackup(original, faults);
        if !backedUp {
          return false;
        }
      }
      if faults(3) {
        return false;
      }
      RenamePath(replacementTemp.value);
      if faults(4) {
        return false;
      }
      SyncDirectory();
      return !faults(5);
    }
  }

  // ---- edits of one entry, retried over errors and crashes ----

  datatype Status = Invalid | Missing | Enabled | Disabled

  /** Decoding and encoding, as far as one entry is concerned. */
  datatype Format = Format(status: string -> Status, disable: string -> string, remove: string -> string)

  predicate Present(f: Format, body: string) {
    f.status(body) == Enabled || f.status(body) == Disabled
  }

  /** Encoded edits decode to what they meant. */
  ghost predicate Lawful(f: Format) {
    && (forall body | Present(f, body) :: f.status(f.disable(body)) == Disabled)
    && (forall body | Present(f, body) :: f.status(f.remove(body)) == Missing)
  }

  datatype Action = Disable | Remove

  datatype Stage = Opened | Prepared | BackupPrepared | BackupRenamed | BackupDurable | Renamed

  datatype Editor = Editor(action: Action, original: string, replacement: string, preserve: bool, stage: Stage)

  /** `disabled`: this process has disabled the entry and may go on to remove it. */
  datatype World = World(disk: Disk, editor: Option<Editor>, disabled: bool)

  datatype Event =
    | Begin(action: Action)
    | Advance
    | Fail // any error of the running edit; the command gives up
    | Crash(path: Node, pathContent: string, backup: Option<Node>, backupContent: string)

  predicate CanStep(f: Format, w: World, e: Event) {
    match e
    case Begin(action) =>
      w.editor.None? && Present(f, w.disk.path.content) && (action == Remove ==> w.disabled)
    case Advance => w.editor.Some?
    case Fail => w.editor.Some?
    case Crash(p, content, b, backupContent) =>
      && p in w.disk.paths && (p.synced ==> content == p.content)
      && b in w.disk.backups && (b.Some? && b.value.synced ==> backupContent == b.value.content)
  }

  /** Disabling a disabled entry that has a backup is already done. */
  predicate AlreadyDone(f: Format, d: Disk, action: Action) {
    action == Disable && f.status(d.path.content) != Enabled && d.backup.Some?
  }

  function Opening(f: Format, d: Disk, action: Action): Editor {
    var original := d.path.content;
    if action == Disable
    then Editor(Disable, original, f.disable(original), f.status(original) != Enabled, Opened)
    else Editor(Remove, original, f.remove(original), true, Opened)
  }

  function Advanced(w: World, ed: Editor): World {
    match ed.stage
    case Opened => w.(editor := Some(ed.(stage := Prepared)))
    case Prepared =>
      if !ed.preserve || w.disk.backup.None? then w.(editor := Some(ed.(stage := BackupPrepared)))
      else w.(editor := Some(ed.(stage := BackupDurable)))
    case BackupPrepared =>
      w.(disk := RenamedBackup(w.disk, Node(ed.original, true)), editor := Some(ed.(stage := BackupRenamed)))
    case BackupRenamed => w.(disk := SyncedDirectory(w.disk), editor := Some(ed.(stage := BackupDurable)))
    case BackupDurable =>
      w.(disk := RenamedPath(w.disk, Node(ed.replacement, true)), editor := Some(ed.(stage := Renamed)))
    case Renamed => w.(disk := SyncedDirectory(w.disk), editor := None, disabled := ed.action == Disable)
  }

  function Crashed(p: Node, b: Option<Node>): Disk {
    Disk(p, b, {p}, {b})
  }

  function Step(f: Format, w: World, e: Event): World
    requires CanStep(f, w, e)
  {
    match e
    case Begin(action) =>
      if AlreadyDone(f, w.disk, action) then w.(disabled := true)
      else w.(editor := Some(Opening(f, w.disk, action)))
    case Advance => Advanced(w, w.editor.value)
    case Fail => w.(editor := None, disabled := false)
    case Crash(_, content, b, backupContent) =>
      World(Crashed(Node(content, true), if b.Some? then Some(Node(backupContent, true)) else None), None, false)
  }

  ghost predicate StepAt(f: Format, ws: seq<World>, es: seq<Event>, k: int) {
    0 <= k < |es| && k + 1 < |ws| && CanStep(f, ws[k], es[k]) && ws[k + 1] == Step(f, ws[k], es[k])
  }

  /** The entry is enabled in a file that is safely on disk; any backup is from an earlier time. */
  ghost predicate Init(f: Format, w: World, before: string) {
    && w.editor.None? && !w.disabled && Settled(w.disk)
    && w.disk.path == Node(before, true) && f.status(before) == Enabled
  }

  ghost predicate Run(f: Format, ws: seq<World>, es: seq<Event>, before: string) {
    && |ws| == |es| + 1 && Init(f, ws[0], before)
    && forall k | 0 <= k < |es| :: StepAt(f, ws, es, k)
  }

  predicate OneOf(f: Format, before: string, node: Node) {
    || node == Node(before, true)
    || node == Node(f.disable(before), true)
    || node == Node(f.remove(f.disable(before)), true)
  }

  ghost predicate BackupHolds(d: Disk, before: string) {
    d.backup == Some(Node(before, true)) && d.backups == {d.backup}
  }

  ghost predicate EditorFits(f: Format, w: World, before: string, ed: Editor) {
    && w.disk.path.content == (if ed.stage == Renamed then ed.replacement else ed.original)
    && (ed.action == Disable ==>
          ed.original == before && ed.replacement == f.disable(before) && !ed.preserve)
    && (ed.action == Remove ==>
          ed.original == f.disable(before) && ed.replacement == f.remove(f.disable(before)) && ed.preserve
          && BackupHolds(w.disk, before) && ed.stage != BackupPrepared && ed.stage != BackupRenamed)
    && (ed.stage == BackupRenamed ==> w.disk.backup == Some(Node(before, true)))
    && (ed.stage == BackupDurable || ed.stage == Renamed ==> BackupHolds(w.disk, before))
  }

  /** Once anything but the original can be found at the path, every crash finds the backup holding the original. */
  ghost predicate Kept(f: Format, w: World, before: string) {
    && w.disk.path in w.disk.paths && w.disk.backup in w.disk.backups
    && (forall p | p in w.disk.paths :: OneOf(f, before, p))
    && (w.disk.paths != {Node(before, true)} ==> forall b | b in w.disk.backups :: b == Some(Node(before, true)))
    && (w.editor.Some? ==> EditorFits(f, w, before, w.editor.value))
    && (w.disabled && w.editor.None? ==> w.disk.path.content == f.disable(before))
    && (w.editor.Some? && w.editor.value.action == Remove ==> w.disabled)
  }

  lemma KeptAdvance(f: Format, w: World, before: string)
    requires f.status(before) == Enabled && Lawful(f) && Kept(f, w, before) && w.editor.Some?
    ensures Kept(f, Advanced(w, w.editor.value), before)
  {
    assert Present(f, before);
  }

  lemma KeptBegin(f: Format, w: World, before: string, action: Action)
    requires f.status(before) == Enabled && Lawful(f) && Kept(f, w, before) && CanStep(f, w, Begin(action))
    ensures Kept(f, Step(f, w, Begin(action)), before)
  {
    assert Present(f, before);
    assert OneOf(f, before, w.disk.path);
    assert f.status(f.disable(before)) == Disabled;
    assert Present(f, f.disable(before)) && f.status(f.remove(f.disable(before))) == Missing;
  }

  lemma {:induction false} KeptThroughout(f: Format, ws: seq<World>, es: seq<Event>, before: string, k: nat)
    requires Lawful(f) && Run(f, ws, es, before) && k < |ws|
    ensures Kept(f, ws[k], before)
  {
    if k > 0 {
      KeptThroughout(f, ws, es, before, k - 1);
      assert StepAt(f, ws, es, k - 1);
      match es[k - 1]
      case Begin(action) => KeptBegin(f, ws[k - 1], before, action);
      case Advance => KeptAdvance(f, ws[k - 1], before);
      case Fail =>
      case Crash(p, _, _, _) => assert OneOf(f, before, p);
    }
  }

  /** Through any number of disables, errors and crashes and a final remove: the path always holds one of three exact
      texts, and when it is no longer the one with the entry enabled, the backup is that one, after every crash too. */
  lemma BackupIsPreEdit(f: Format, ws: seq<World>, es: seq<Event>, before: string, k: nat)
    requires Lawful(f) && Run(f, ws, es, before) && k < |ws|
    ensures forall p | p in ws[k].disk.paths + {ws[k].disk.path} :: OneOf(f, before, p)
    ensures f.status(ws[k].disk.path.content) != Enabled ==>
              forall b | b in ws[k].disk.backups + {ws[k].disk.backup} :: b == Some(Node(before, true))
  {
    KeptThroughout(f, ws, es, before, k);
  }

  // ---- what a successful disable promises ----

  /** No crash brings the enabled entry back. */
  ghost predicate Durable(f: Format, d: Disk) {
    forall p | p in d.paths :: f.status(p.content) != Enabled
  }

  /** A disable that renamed the file and then gave an error. */
  predicate FailsAfterRename(w: World, e: Event) {
    e == Fail && w.editor.Some? && w.editor.value.action == Disable && w.editor.value.stage == Renamed
  }

  /** A crash or a directory sync: what is at the path is now safely there. */
  predicate Settles(w: World, e: Event) {
    e.Crash? || (e == Advance && w.editor.Some? && (w.editor.value.stage == BackupRenamed || w.editor.value.stage == Renamed))
  }

  /** Step j was such an error, and nothing has settled the directory since. */
  ghost predicate FailedSince(ws: seq<World>, es: seq<Event>, j: int, k: int)
    requires k <= |es| && |ws| == |es| + 1
  {
    0 <= j < k && FailsAfterRename(ws[j], es[j]) && forall m | j < m < k :: !Settles(ws[m], es[m])
  }

  ghost predicate Pending(ws: seq<World>, es: seq<Event>, k: int)
    requires k <= |es| && |ws| == |es| + 1
  {
    exists j :: FailedSince(ws, es, j, k)
  }

  lemma PendingStep(ws: seq<World>, es: seq<Event>, k: nat)
    requires k < |es| && |ws| == |es| + 1
    ensures Pending(ws, es, k + 1) <==>
              FailsAfterRename(ws[k], es[k]) || (Pending(ws, es, k) && !Settles(ws[k], es[k]))
  {
    if FailsAfterRename(ws[k], es[k]) {
      assert FailedSince(ws, es, k, k + 1);
    } else if j :| FailedSince(ws, es, j, k) {
      if !Settles(ws[k], es[k]) {
        assert FailedSince(ws, es, j, k + 1);
      }
    }
    if Pending(ws, es, k + 1) {
      var next := k + 1;
      var j :| FailedSince(ws, es, j, next);
      assert j < k ==> FailedSince(ws, es, j, k);
    }
  }

  predicate RenamingDisable(w: World) {
    w.editor.Some? && w.editor.value.action == Disable && w.editor.value.stage == Renamed
  }

  /** The enabled text can come back although it is no longer at the path. */
  predicate Stale(w: World, before: string) {
    w.disk.path != Node(before, true) && Node(before, true) in w.disk.paths
  }

  /** The enabled text can come back exactly after a rename that has not been settled. */
  ghost predicate StaleIsPending(w: World, before: string, pending: bool) {
    && (w.disk.path == Node(before, true) ==> w.disk.paths == {Node(before, true)})
    && (Stale(w, before) <==> pending || RenamingDisable(w))
  }

  lemma StaleStep(f: Format, w: World, e: Event, before: string, pending: bool)
    requires Lawful(f) && f.status(before) == Enabled && CanStep(f, w, e) && Kept(f, w, before)
    requires StaleIsPending(w, before, pending)
    ensures StaleIsPending(Step(f, w, e), before, FailsAfterRename(w, e) || (pending && !Settles(w, e)))
  {
    assert Present(f, before) && OneOf(f, before, w.disk.path);
    assert Present(f, f.disable(before));
  }

  lemma {:induction false} StaleThroughout(f: Format, ws: seq<World>, es: seq<Event>, before: string, k: nat)
    requires Lawful(f) && Run(f, ws, es, before) && k < |ws|
    ensures StaleIsPending(ws[k], before, Pending(ws, es, k))
  {
    if k > 0 {
      StaleThroughout(f, ws, es, before, k - 1);
      KeptThroughout(f, ws, es, before, k - 1);
      assert StepAt(f, ws, es, k - 1);
      PendingStep(ws, es, k - 1);
      StaleStep(f, ws[k - 1], es[k - 1], before, Pending(ws, es, k - 1));
    }
  }

  /** Step k is a disable that reports success. */
  predicate ReportsDisabled(w: World, e: Event, next: World) {
    next.disabled && (e == Begin(Disable) || (e == Advance && RenamingDisable(w)))
  }

  /** Durability of a reported disable, exactly. One that rewrote the file is durable. One that found the work already
      done is durable if and only if no earlier disable failed between its rename and its directory sync with
      neither a crash nor a directory sync since. */
  lemma DisableIsDurableIff(f: Format, ws: seq<World>, es: seq<Event>, before: string, k: nat)
    requires Lawful(f) && Run(f, ws, es, before) && k < |es| && ReportsDisabled(ws[k], es[k], ws[k + 1])
    ensures es[k] == Advance ==> Durable(f, ws[k + 1].disk)
    ensures es[k] == Begin(Disable) ==>
              (Durable(f, ws[k + 1].disk) <==> !exists j :: FailedSince(ws, es, j, k))
  {
    assert StepAt(f, ws, es, k);
    KeptThroughout(f, ws, es, before, k);
    KeptThroughout(f, ws, es, before, k + 1);
    StaleThroughout(f, ws, es, before, k + 1);
    PendingStep(ws, es, k);
    StatusesApart(f, before);
    var d := ws[k + 1].disk;
    assert forall p | p in d.paths :: OneOf(f, before, p);
    assert ws[k + 1].editor.None?;
    assert Durable(f, d) <==> Node(before, true) !in d.paths;
    assert Pending(ws, es, k) <==> exists j :: FailedSince(ws, es, j, k);
  }

  lemma StatusesApart(f: Format, before: string)
    requires Lawful(f) && f.status(before) == Enabled
    ensures f.status(f.disable(before)) == Disabled && f.status(f.remove(f.disable(before))) == Missing
  {
    assert Present(f, before) && Present(f, f.disable(before));
  }

  lemma Extend(f: Format, ws: seq<World>, es: seq<Event>, before: string, e: Event)
    returns (xs: seq<World>, fs: seq<Event>)
    requires Run(f, ws, es, before) && CanStep(f, ws[|es|], e)
    ensures Run(f, xs, fs, before) && xs[|fs|] == Step(f, ws[|es|], e)
    ensures ws <= xs && fs == es + [e]
  {
    xs, fs := ws + [Step(f, ws[|es|], e)], es + [e];
    forall k | 0 <= k < |fs| ensures StepAt(f, xs, fs, k) {
      assert k < |es| ==> StepAt(f, ws, es, k);
    }
  }

  /** A disable that has renamed the file and not yet synced the directory. */
  lemma RenamedNotSynced(f: Format, before: string) returns (ws: seq<World>, es: seq<Event>)
    requires f.status(before) == Enabled
    ensures Run(f, ws, es, before)
    ensures var was, now := Node(before, true), Node(f.disable(before), true);
            ws[|es|] == World(Disk(now, Some(was), {was, now}, {Some(was)}),
                              Some(Editor(Disable, before, f.disable(before), false, Renamed)), false)
  {
    var was, now := Node(before, true), Node(f.disable(before), true);
    var ed := Editor(Disable, before, f.disable(before), false, Opened);
    var start := World(Disk(was, None, {was}, {None}), None, false);
    assert Run(f, [start], [], before);
    ws, es := Extend(f, [start], [], before, Begin(Disable));
    ws, es := Extend(f, ws, es, before, Advance);
    ws, es := Extend(f, ws, es, before, Advance);
    ws, es := Extend(f, ws, es, before, Advance);
    assert ws[|es|] == World(Disk(was, Some(was), {was}, {None, Some(was)}), Some(ed.(stage := BackupRenamed)), false);
    ws, es := Extend(f, ws, es, before, Advance);
    ws, es := Extend(f, ws, es, before, Advance);
  }

  /** The gap is real: when the last directory sync of a disable fails, the retry reports success at once, and a crash
      can still bring the enabled entry back. */
  lemma RetriedDisableCanBeLost(f: Format, before: string) returns (ws: seq<World>, es: seq<Event>, k: nat)
    requires f.status(before) == Enabled && f.status(f.disable(before)) == Disabled
    ensures Run(f, ws, es, before) && k < |es| && es[k] == Begin(Disable)
    ensures ws[k + 1].disabled && f.status(ws[k + 1].disk.path.content) == Disabled
    ensures es[|es| - 1].Crash? && |es| == k + 2 && f.status(ws[|es|].disk.path.content) == Enabled
  {
    var was, now := Node(before, true), Node(f.disable(before), true);
    ws, es := RenamedNotSynced(f, before);
    ws, es := Extend(f, ws, es, before, Fail);
    k := |es|;
    ws, es := Extend(f, ws, es, before, Begin(Disable));
    ws, es := Extend(f, ws, es, before, Crash(was, before, Some(was), before));
  }
}
