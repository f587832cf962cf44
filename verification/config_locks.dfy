/** Editors that lock an inode, check it is still the path's, and rename over the path: their edits serialize. */
module ConfigLocks {
  import opened Text

  const ATTEMPTS: nat := 4

  /** How one try at opening, locking and checking the file ends. */
  datatype Attempt = Refused | Moved | Taken(body: string)

  /** openLockedSnapshot: a file that moved is tried again, up to four times; any other trouble ends it. */
  method OpenLockedSnapshot(attempt: nat -> Attempt) returns (body: Option<string>, tries: nat)
    ensures tries <= ATTEMPTS && forall m | 0 <= m < tries :: attempt(m) == Moved
    ensures body.Some? <==> tries < ATTEMPTS && attempt(tries).Taken?
    ensures body.Some? ==> attempt(tries) == Taken(body.value)
    ensures body.None? ==> tries == ATTEMPTS || attempt(tries) == Refused
  {
    tries := 0;
    while tries < ATTEMPTS
      invariant tries <= ATTEMPTS && forall m | 0 <= m < tries :: attempt(m) == Moved
    {
      match attempt(tries)
      case Refused => return None, tries;
      case Taken(taken) => return Some(taken), tries;
      case Moved => tries := tries + 1;
    }
    return None, tries;
  }

  // ---- any number of editors ----

  type Edit = string -> string

  datatype Editor =
    | Idle
    | Opened(inode: nat, tries: nat)
    | Locked(inode: nat, tries: nat)
    | Reading(inode: nat, body: string)
    | Ready(inode: nat, edit: Edit, replacement: string)
    | Renamed(inode: nat)

  /** Inode contents never change in place; `committed` lists the edits whose rename has happened. */
  datatype World = World(
    inodes: seq<string>,
    path: nat,
    locks: map<nat, nat>,
    editors: seq<Editor>,
    committed: seq<Edit>)

  datatype Event =
    | Open(i: nat)
    | Lock(i: nat)
    | Verify(i: nat)
    | Prepare(i: nat, edit: Edit)
    | Rename(i: nat)
    | Finish(i: nat) // success, an error or a crash: the lock goes with the descriptor

  predicate Holds(editor: Editor) {
    editor.Locked? || editor.Reading? || editor.Ready? || editor.Renamed?
  }

  predicate CanStep(w: World, e: Event) {
    e.i < |w.editors| &&
    match e
    case Open(i) => w.editors[i].Idle?
    case Lock(i) => w.editors[i].Opened? && w.editors[i].inode !in w.locks
    case Verify(i) => w.editors[i].Locked?
    case Prepare(i, _) => w.editors[i].Reading?
    case Rename(i) => w.editors[i].Ready?
    case Finish(i) => !w.editors[i].Idle?
  }

  function Unlocked(w: World, i: nat, next: Editor): World
    requires i < |w.editors| && !w.editors[i].Idle?
  {
    w.(locks := if Holds(w.editors[i]) then w.locks - {w.editors[i].inode} else w.locks,
       editors := w.editors[i := next])
  }

  function Step(w: World, e: Event): World
    requires CanStep(w, e)
  {
    var editor := w.editors[e.i];
    match e
    case Open(i) => w.(editors := w.editors[i := Opened(w.path, 0)])
    case Lock(i) =>
      w.(locks := w.locks[editor.inode := i], editors := w.editors[i := Locked(editor.inode, editor.tries)])
    case Verify(i) =>
      if editor.inode == w.path && editor.inode < |w.inodes|
      then w.(editors := w.editors[i := Reading(editor.inode, w.inodes[editor.inode])])
      else if editor.tries + 1 < ATTEMPTS then Unlocked(w, i, Opened(w.path, editor.tries + 1))
      else Unlocked(w, i, Idle)
    case Prepare(i, edit) =>
      if editor.inode == w.path then w.(editors := w.editors[i := Ready(editor.inode, edit, edit(editor.body))])
      else Unlocked(w, i, Idle)
    case Rename(i) =>
      w.(inodes := w.inodes + [editor.replacement], path := |w.inodes|,
         editors := w.editors[i := Renamed(editor.inode)], committed := w.committed + [editor.edit])
    case Finish(i) => Unlocked(w, i, Idle)
  }

  /** An editor that finds the file free opens, locks and reads its current content at the first try. */
  lemma FreeFileIsRead(w: World, i: nat)
    requires CanStep(w, Open(i)) && w.path < |w.inodes| && w.path !in w.locks
    ensures CanStep(Step(w, Open(i)), Lock(i)) && CanStep(Step(Step(w, Open(i)), Lock(i)), Verify(i))
    ensures Step(Step(Step(w, Open(i)), Lock(i)), Verify(i)).editors[i] == Reading(w.path, w.inodes[w.path])
  {
  }

  /** An editor whose file was replaced meanwhile gives its lock back and opens the new one, three times at most. */
  lemma MovedFileIsReopened(w: World, i: nat)
    requires CanStep(w, Verify(i)) && w.editors[i].inode != w.path
    ensures w.editors[i].inode !in Step(w, Verify(i)).locks
    ensures Step(w, Verify(i)).editors[i] ==
            if w.editors[i].tries < 3 then Opened(w.path, w.editors[i].tries + 1) else Idle
  {
  }

  /** However an editor ends, its lock is free and it may start over. */
  lemma FinishedIsFree(w: World, i: nat)
    requires CanStep(w, Finish(i))
    ensures Holds(w.editors[i]) ==> w.editors[i].inode !in Step(w, Finish(i)).locks
    ensures CanStep(Step(w, Finish(i)), Open(i)) && Step(w, Finish(i)).path == w.path
  {
  }

  ghost predicate Init(w: World) {
    && w.path < |w.inodes| && w.locks == map[] && w.committed == []
    && forall i | 0 <= i < |w.editors| :: w.editors[i].Idle?
  }

  ghost predicate StepAt(ws: seq<World>, es: seq<Event>, k: int) {
    0 <= k < |es| && k + 1 < |ws| && CanStep(ws[k], es[k]) && ws[k + 1] == Step(ws[k], es[k])
  }

  ghost predicate Run(ws: seq<World>, es: seq<Event>) {
    |ws| == |es| + 1 && Init(ws[0]) && forall k | 0 <= k < |es| :: StepAt(ws, es, k)
  }

  /** What editor i's state promises: it owns the lock it took, and once its inode was seen to be the path's it still
      is, with the content it read. */
  ghost predicate Fits(w: World, i: int)
    requires 0 <= i < |w.editors| && w.path < |w.inodes|
  {
    var editor := w.editors[i];
    && (Holds(editor) ==> editor.inode in w.locks && w.locks[editor.inode] == i)
    && (editor.Reading? ==> editor.inode == w.path && editor.body == w.inodes[w.path])
    && (editor.Ready? ==> editor.inode == w.path && editor.replacement == editor.edit(w.inodes[w.path]))
  }

  ghost predicate Serial(w: World) {
    && w.path < |w.inodes|
    && (forall i | 0 <= i < |w.editors| :: Fits(w, i))
    && (forall n | n in w.locks ::
          w.locks[n] < |w.editors| && Holds(w.editors[w.locks[n]]) && w.editors[w.locks[n]].inode == n)
  }

  lemma SerialStep(w: World, e: Event)
    requires CanStep(w, e) && Serial(w)
    ensures Serial(Step(w, e))
  {
    var next := Step(w, e);
    assert Fits(w, e.i);
    forall i | 0 <= i < |next.editors| ensures Fits(next, i) {
      assert Fits(w, i);
    }
  }

  lemma {:induction false} SerialThroughout(ws: seq<World>, es: seq<Event>, k: nat)
    requires Run(ws, es) && k < |ws|
    ensures Serial(ws[k])
  {
    if k > 0 {
      SerialThroughout(ws, es, k - 1);
      assert StepAt(ws, es, k - 1);
      SerialStep(ws[k - 1], es[k - 1]);
    }
  }

  /** Every committed edit was computed from the content at the path at the moment it was renamed into place, and the
      check just before the rename never finds the file moved. */
  lemma CommitsAreCurrent(ws: seq<World>, es: seq<Event>, k: nat)
    requires Run(ws, es) && k < |es|
    ensures es[k].Rename? ==>
              && CanStep(ws[k], es[k]) && ws[k].path < |ws[k].inodes| && ws[k + 1].path < |ws[k + 1].inodes|
              && ws[k + 1].inodes[ws[k + 1].path] == ws[k].editors[es[k].i].edit(ws[k].inodes[ws[k].path])
    ensures es[k].Prepare? ==> es[k].i < |ws[k + 1].editors| && ws[k + 1].editors[es[k].i].Ready?
  {
    SerialThroughout(ws, es, k);
    SerialThroughout(ws, es, k + 1);
    assert StepAt(ws, es, k);
    assert Fits(ws[k], es[k].i);
  }

  function Applied(edits: seq<Edit>, body: string): string {
    if edits == [] then body else edits[|edits| - 1](Applied(edits[..|edits| - 1], body))
  }

  /** No edit is lost: the file always holds the initial content with every committed edit applied, in commit order. */
  lemma {:induction false} NoEditLost(ws: seq<World>, es: seq<Event>, k: nat)
    requires Run(ws, es) && k < |ws|
    ensures ws[k].path < |ws[k].inodes| && ws[0].path < |ws[0].inodes|
    ensures ws[k].inodes[ws[k].path] == Applied(ws[k].committed, ws[0].inodes[ws[0].path])
  {
    SerialThroughout(ws, es, k);
    if k > 0 {
      NoEditLost(ws, es, k - 1);
      assert StepAt(ws, es, k - 1);
      var w, e := ws[k - 1], es[k - 1];
      if e.Rename? {
        CommitsAreCurrent(ws, es, k - 1);
        assert ws[k].committed[..|ws[k].committed| - 1] == w.committed;
      }
    }
  }
}
