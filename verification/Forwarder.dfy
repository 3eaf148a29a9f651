// Staging the Steam client forwarder in a Wine prefix, and putting back the
// file it replaced.
module Forwarder {
  import opened Wrappers
  import opened Words

  // What stands at a path. A dangling link is present, yet does not exist.
  datatype Entry = Missing | Regular(contents: Bytes) | Link(target: string, dangling: bool)

  datatype Prefix = Prefix(target: Entry, backup: Entry)

  datatype Outcome = Unchanged | Changed | Refused | Failed

  predicate Present(e: Entry) {
    !e.Missing?
  }

  // Path.exists follows links.
  predicate Exists(e: Entry) {
    e.Regular? || (e.Link? && !e.dangling)
  }

  // The file operations of a stage, and those of a restore.
  datatype Operation = MoveOriginal | CopySource | CopyStat | SwapIn | SetAside | PutBack

  // The two files of a prefix and the temporary one of a call.
  datatype Attempt = Attempt(target: Entry, backup: Entry, temporary: Entry)

  function Perform(a: Attempt, op: Operation, source: Bytes): Attempt {
    match op
    case MoveOriginal => Attempt(Missing, a.target, a.temporary)
    case CopySource => a.(temporary := Regular(source))
    case CopyStat => a
    case SwapIn => Attempt(a.temporary, a.backup, Missing)
    case SetAside => Attempt(Missing, a.backup, a.target)
    case PutBack => Attempt(a.backup, Missing, a.temporary)
  }

  // Up to the first operation that raises, and which one it is.
  function PerformAll(a: Attempt, ops: seq<Operation>, source: Bytes, fails: Operation -> bool)
    : (Attempt, Option<Operation>)
    decreases ops
  {
    if ops == [] then (a, None)
    else if fails(ops[0]) then (a, Some(ops[0]))
    else PerformAll(Perform(a, ops[0], source), ops[1..], source, fails)
  }

  // --- Staging --------------------------------------------------------------

  predicate Moves(p: Prefix) {
    Present(p.target) && !Present(p.backup)
  }

  function StageOperations(p: Prefix): seq<Operation> {
    (if Moves(p) then [MoveOriginal] else []) + [CopySource, CopyStat, SwapIn]
  }

  // The handler of a failed stage: a moved original comes back if it exists
  // where it is now.
  function UndoStage(a: Attempt, movedOriginal: bool): Attempt {
    if movedOriginal && !Present(a.target) && Exists(a.backup) then Attempt(a.backup, Missing, Missing)
    else Attempt(a.target, a.backup, Missing)
  }

  // stage_forwarder on the files. `source` is the active package's forwarder,
  // when there is a verified one and the prefix is in order.
  function Stage(p: Prefix, source: Option<Bytes>, sha: Bytes -> string, fails: Operation -> bool): (Prefix, Outcome) {
    if source.None? then (p, Refused)
    else if p.target.Regular? && sha(p.target.contents) == sha(source.value) then (p, Unchanged)
    else if Present(p.backup) && p.target.Link? then (p, Refused)
    else
      var (a, failed) := PerformAll(Attempt(p.target, p.backup, Missing), StageOperations(p), source.value, fails);
      if failed.None? then (Prefix(a.target, a.backup), Changed)
      else
        var undone := UndoStage(a, Moves(p) && failed != Some(MoveOriginal));
        (Prefix(undone.target, undone.backup), Failed)
  }

  // --- Restoring ------------------------------------------------------------

  // The staged file moves aside, and the backup comes back.
  function RestoreOperations(p: Prefix): seq<Operation> {
    (if Present(p.target) then [SetAside] else []) + [PutBack]
  }

  // Its handler puts the staged file back if it exists where it is now; either
  // way the temporary file goes.
  function UndoRestore(a: Attempt): Attempt {
    if !Present(a.target) && Exists(a.temporary) then Attempt(a.temporary, a.backup, Missing)
    else Attempt(a.target, a.backup, Missing)
  }

  // restore_forwarder on the files.
  function Restore(p: Prefix, fails: Operation -> bool): (Prefix, Outcome) {
    if !Present(p.backup) then (p, Refused)
    else
      var (a, failed) := PerformAll(Attempt(p.target, p.backup, Missing), RestoreOperations(p), [], fails);
      if failed.None? then (Prefix(a.target, a.backup), Changed)
      else
        var undone := UndoRestore(a);
        (Prefix(undone.target, undone.backup), Failed)
  }

  // --- The operations, run out ----------------------------------------------

  lemma {:induction false} LastOperations(a: Attempt, source: Bytes, fails: Operation -> bool)
    ensures PerformAll(a, [CopySource, CopyStat, SwapIn], source, fails)
         == if fails(CopySource) then (a, Some(CopySource))
            else if fails(CopyStat) then (a.(temporary := Regular(source)), Some(CopyStat))
            else if fails(SwapIn) then (a.(temporary := Regular(source)), Some(SwapIn))
            else (Attempt(Regular(source), a.backup, Missing), None)
  {
    var copied := a.(temporary := Regular(source));
    assert [CopySource, CopyStat, SwapIn][1..] == [CopyStat, SwapIn] && [CopyStat, SwapIn][1..] == [SwapIn];
    assert PerformAll(copied, [SwapIn], source, fails).1 == (if fails(SwapIn) then Some(SwapIn) else None) by {
      assert [SwapIn][1..] == [];
    }
    assert PerformAll(copied, [CopyStat, SwapIn], source, fails).1
        == if fails(CopyStat) then Some(CopyStat) else if fails(SwapIn) then Some(SwapIn) else None;
  }

  // What a stage comes to: an operation that fails is undone, but for a
  // dangling link that was moved.
  lemma {:induction false} StageEffect(p: Prefix, source: Option<Bytes>, sha: Bytes -> string, fails: Operation -> bool)
    ensures var (p', outcome) := Stage(p, source, sha, fails);
            match outcome
            case Changed => source.Some? && p' == Prefix(Regular(source.value), if Moves(p) then p.target else p.backup)
            case Failed =>
              p' == if Moves(p) && !fails(MoveOriginal) && !Exists(p.target) then Prefix(Missing, p.target) else p
            case _ => p' == p
    ensures var same := source.Some? && p.target.Regular? && sha(p.target.contents) == sha(source.value);
            var tried := source.Some? && !same && !(Present(p.backup) && p.target.Link?);
            var fault := (Moves(p) && fails(MoveOriginal)) || fails(CopySource) || fails(CopyStat) || fails(SwapIn);
            && (Stage(p, source, sha, fails).1.Unchanged? <==> same)
            && (Stage(p, source, sha, fails).1.Changed? <==> tried && !fault)
            && (Stage(p, source, sha, fails).1.Failed? <==> tried && fault)
  {
    if source.Some? {
      var a, last := Attempt(p.target, p.backup, Missing), [CopySource, CopyStat, SwapIn];
      LastOperations(a, source.value, fails);
      if Moves(p) {
        assert StageOperations(p)[0] == MoveOriginal && StageOperations(p)[1..] == last;
        LastOperations(Perform(a, MoveOriginal, source.value), source.value, fails);
      } else {
        assert StageOperations(p) == last;
      }
    }
  }

  lemma {:induction false} RestoreEffect(p: Prefix, fails: Operation -> bool)
    ensures Restore(p, fails)
         == if !Present(p.backup) then (p, Refused)
            else if Present(p.target) && fails(SetAside) then (p, Failed)
            else if fails(PutBack) then
              (if Present(p.target) && !Exists(p.target) then Prefix(Missing, p.backup) else p, Failed)
            else (Prefix(p.backup, Missing), Changed)
  {
    var a := Attempt(p.target, p.backup, Missing);
    assert [PutBack][1..] == [];
    assert PerformAll(a, [PutBack], [], fails).1 == if fails(PutBack) then Some(PutBack) else None;
    if Present(p.target) {
      assert RestoreOperations(p)[0] == SetAside && RestoreOperations(p)[1..] == [PutBack];
      assert PerformAll(Perform(a, SetAside, []), [PutBack], [], fails).1
          == if fails(PutBack) then Some(PutBack) else None;
    } else {
      assert RestoreOperations(p) == [PutBack];
    }
  }

  // --- What is promised -----------------------------------------------------

  // A stage that fails leaves both files as they were, unless the original is a
  // dangling link that was already moved.
  lemma {:induction false} StageFails(p: Prefix, source: Option<Bytes>, sha: Bytes -> string, fails: Operation -> bool)
    requires Stage(p, source, sha, fails).1 in {Failed, Refused}
    ensures Stage(p, source, sha, fails).0 == p <==>
              !(source.Some? && p.target.Link? && p.target.dangling && !Present(p.backup) && !fails(MoveOriginal))
  {
    hide Stage;
    StageEffect(p, source, sha, fails);
    assert p.target.Link? ==> Prefix(Missing, p.target) != p;
  }

  // The link that a failed stage leaves in the backup only.
  lemma {:induction false} DanglingLost(sha: Bytes -> string)
    ensures var link := Link("elsewhere.dll", true);
            Stage(Prefix(link, Missing), Some([]), sha, op => op == CopySource) == (Prefix(Missing, link), Failed)
  {
    hide Stage;
    StageEffect(Prefix(Link("elsewhere.dll", true), Missing), Some([]), sha, op => op == CopySource);
  }

  lemma {:induction false} RestoreFails(p: Prefix, fails: Operation -> bool)
    requires Restore(p, fails).1 in {Failed, Refused}
    ensures Restore(p, fails).0 == p <==>
              !(Present(p.backup) && p.target.Link? && p.target.dangling && !fails(SetAside) && fails(PutBack))
  {
    hide Restore;
    RestoreEffect(p, fails);
    assert p.target.Link? ==> Prefix(Missing, p.backup) != p;
  }

  // The link that a failed restore leaves nowhere.
  lemma {:induction false} DanglingGone(original: Bytes)
    ensures var p := Prefix(Link("elsewhere.dll", true), Regular(original));
            Restore(p, op => op == PutBack) == (Prefix(Missing, Regular(original)), Failed)
  {
    hide Restore;
    RestoreEffect(Prefix(Link("elsewhere.dll", true), Regular(original)), op => op == PutBack);
  }

  // The first original is where it was, or behind a staged file, or waits for
  // the next stage.
  ghost predicate Guarded(p: Prefix, original: Entry) {
    p == Prefix(original, Missing) || (p.backup == original && (p.target.Regular? || p.target.Missing?))
  }

  // One call of stage_forwarder: the active package and what goes wrong.
  datatype Call = Call(source: Option<Bytes>, fails: Operation -> bool)

  function StageMany(p: Prefix, calls: seq<Call>, sha: Bytes -> string): Prefix
    decreases calls
  {
    if calls == [] then p else StageMany(Stage(p, calls[0].source, sha, calls[0].fails).0, calls[1..], sha)
  }

  // Some call changed the target.
  predicate Changes(p: Prefix, calls: seq<Call>, sha: Bytes -> string)
    decreases calls
  {
    calls != [] &&
    var (p', outcome) := Stage(p, calls[0].source, sha, calls[0].fails);
    outcome.Changed? || Changes(p', calls[1..], sha)
  }

  lemma {:induction false} StageGuards(
    p: Prefix, original: Entry, source: Option<Bytes>, sha: Bytes -> string, fails: Operation -> bool)
    requires Present(original) && Guarded(p, original)
    ensures var (p', outcome) := Stage(p, source, sha, fails);
            && Guarded(p', original)
            && (outcome.Changed? || Present(p.backup) ==> p'.backup == original)
  {
    hide Stage;
    StageEffect(p, source, sha, fails);
  }

  lemma {:induction false} StagesGuard(p: Prefix, original: Entry, calls: seq<Call>, sha: Bytes -> string)
    requires Present(original) && Guarded(p, original)
    ensures Guarded(StageMany(p, calls, sha), original)
    ensures Changes(p, calls, sha) || Present(p.backup) ==> StageMany(p, calls, sha).backup == original
    decreases calls
  {
    hide Stage;
    if calls != [] {
      StageGuards(p, original, calls[0].source, sha, calls[0].fails);
      StagesGuard(Stage(p, calls[0].source, sha, calls[0].fails).0, original, calls[1..], sha);
    }
  }

  lemma {:induction false} StagesAtomic(p: Prefix, calls: seq<Call>, sha: Bytes -> string)
    requires p.target.Regular? && !Present(p.backup) && !Changes(p, calls, sha)
    ensures StageMany(p, calls, sha) == p
    decreases calls
  {
    hide Stage;
    if calls != [] {
      StageEffect(p, calls[0].source, sha, calls[0].fails);
      StagesAtomic(p, calls[1..], sha);
    }
  }

  // From a file and no backup, after any calls that stage any succession of
  // packages and fail at any operation: if none changed the target there is
  // nothing to restore and nothing changed; otherwise one restore brings the
  // first original back and leaves no backup.
  lemma {:induction false} StagesThenRestore(
    original: Bytes, calls: seq<Call>, sha: Bytes -> string, fails: Operation -> bool)
    ensures var p0 := Prefix(Regular(original), Missing);
            var p := StageMany(p0, calls, sha);
            if Changes(p0, calls, sha)
            then Restore(p, fails) == (p0, Changed)
                || (Restore(p, fails) == (p, Failed) && (fails(SetAside) || fails(PutBack)))
            else p == p0 && Restore(p, fails) == (p0, Refused)
  {
    hide Stage, Restore;
    var p0 := Prefix(Regular(original), Missing);
    RestoreEffect(StageMany(p0, calls, sha), fails);
    if Changes(p0, calls, sha) {
      StagesGuard(p0, Regular(original), calls, sha);
    } else {
      StagesAtomic(p0, calls, sha);
    }
  }

  // --- The operations on the files ------------------------------------------

  class PrefixFiles {
    var target: Entry
    var backup: Entry
    var temporary: Entry
    const sha: Bytes -> string

    constructor (target: Entry, backup: Entry, sha: Bytes -> string)
      ensures View() == Prefix(target, backup) && temporary == Missing && this.sha == sha
    {
      this.target := target;
      this.backup := backup;
      this.temporary := Missing;
      this.sha := sha;
    }

    function View(): Prefix
      reads this
    {
      Prefix(target, backup)
    }

    // The handler of a failed stage.
    method UndoStaging(movedOriginal: bool)
      modifies this
      ensures Attempt(target, backup, temporary) == UndoStage(old(Attempt(target, backup, temporary)), movedOriginal)
    {
      temporary := Missing;
      if movedOriginal && !Exists(target) && !target.Link? && Exists(backup) {
        target, backup := backup, Missing;
      }
    }

    method StageForwarder(source: Option<Bytes>, fails: Operation -> bool) returns (outcome: Outcome)
      requires temporary == Missing
      modifies this
      ensures (View(), outcome) == Stage(old(View()), source, sha, fails) && temporary == Missing
    {
      hide Stage;
      StageEffect(View(), source, sha, fails);
      if source.None? {
        return Refused;
      }
      if target.Regular? && sha(target.contents) == sha(source.value) {
        return Unchanged;
      }
      if Present(backup) && target.Link? {
        return Refused;
      }
      var movedOriginal := false;
      if Present(target) && !Present(backup) {
        if fails(MoveOriginal) {
          UndoStaging(movedOriginal);
          return Failed;
        }
        target, backup := Missing, target;
        movedOriginal := true;
      }
      if fails(CopySource) {
        temporary := Regular([]);
        UndoStaging(movedOriginal);
        return Failed;
      }
      temporary := Regular(source.value);
      if fails(CopyStat) || fails(SwapIn) {
        UndoStaging(movedOriginal);
        return Failed;
      }
      target, temporary := temporary, Missing;
      return Changed;
    }

    method RestoreForwarder(fails: Operation -> bool) returns (outcome: Outcome)
      requires temporary == Missing
      modifies this
      ensures (View(), outcome) == Restore(old(View()), fails) && temporary == Missing
    {
      hide Restore;
      RestoreEffect(View(), fails);
      if !Present(backup) {
        return Refused;
      }
      outcome := Changed;
      if Present(target) {
        if fails(SetAside) {
          outcome := Failed;
        } else {
          target, temporary := Missing, target;
        }
      }
      if outcome.Changed? {
        if fails(PutBack) {
          outcome := Failed;
        } else {
          target, backup := backup, Missing;
        }
      }
      if outcome.Failed? && Exists(temporary) && !Present(target) {
        target, temporary := temporary, Missing;
      }
      temporary := Missing;
    }
  }
}
