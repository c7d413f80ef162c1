/**
 * The watch loop of scripts/dev-guides.ts: file events, the debounce timer, flushes suspended at their
 * await points, and shutdown, in every order the event loop can run them.
 *
 * An action is one synchronous stretch of the program. A frame is a flush suspended at an `await`; the
 * model lets any number of frames be suspended at once, and it is a theorem that there is at most one.
 */
module DevGuides {
  import opened Prelude

  /** `buildGuideIndex`: the guide ids, and the id of the guide at each source path. */
  datatype Index = Index(guides: set<string>, byPath: map<string, string>) {
    predicate Valid() {
      byPath.Values <= guides
    }
  }

  datatype Frame =
    | Indexing(changed: set<string>, since: nat)
    | Pruning(changed: set<string>, since: nat, index: Index)
    | Iterating

  /**
   * History: changes accepted, iterations started for the changed paths with an index read for the changes
   * before `since`, and flushes, holding changes accepted before `since`, whose prune rejected.
   */
  datatype Event =
    | Accepted(path: string)
    | Started(since: nat, changed: set<string>, index: Index, guides: set<string>, all: bool)
    | Dropped(since: nat, changed: set<string>)

  datatype State = State(pending: set<string>, armed: bool, running: bool, shuttingDown: bool, hooked: bool,
                         frames: seq<Frame>, log: seq<Event>)

  datatype Action =
    | Change(path: string)
    | TimerFires
    | HookAdded
    | Shutdown
    | IndexBuilt(frame: nat, index: Option<Index>)
    | Pruned(frame: nat, ok: bool)
    | IterationEnded(frame: nat)

  /** The single guide the command line asked for, if any: its source path. */
  type Single = Option<string>

  function SingleId(single: Single, index: Index): Option<string> {
    if single.Some? && single.value in index.byPath then Some(index.byPath[single.value]) else None
  }

  /** `computeAffectedGuides`. */
  function Affected(path: string, index: Index, singleId: Option<string>): set<string> {
    if singleId.Some? then {singleId.value}
    else if path in index.byPath then {index.byPath[path]}
    else index.guides
  }

  function AffectedByAll(changed: set<string>, index: Index, singleId: Option<string>): set<string> {
    set path, guide | path in changed && guide in Affected(path, index, singleId) :: guide
  }

  /** The program's test for regenerating everything: as many affected guides as guides. */
  predicate IsAll(affected: set<string>, index: Index, singleId: Option<string>) {
    singleId.None? && |affected| == |index.guides|
  }

  // ---------------------------------------------------------------- actions

  function Init(): State {
    State({}, false, false, false, false, [], [])
  }

  predicate Enabled(s: State, a: Action) {
    match a
    case Change(_) => true
    case TimerFires => s.armed
    case HookAdded => !s.shuttingDown
    case Shutdown => true
    case IndexBuilt(k, index) => k < |s.frames| && s.frames[k].Indexing? && (index.Some? ==> index.value.Valid())
    case Pruned(k, _) => k < |s.frames| && s.frames[k].Pruning?
    case IterationEnded(k) => k < |s.frames| && s.frames[k].Iterating?
  }

  /** `schedule`. */
  function Scheduled(s: State): State {
    if s.shuttingDown then s else s.(armed := true)
  }

  /** The `finally` block: the frame is gone, and pending work is scheduled again. */
  function Finished(s: State, k: nat): State
    requires k < |s.frames|
  {
    var done := s.(running := false, frames := s.frames[..k] + s.frames[k + 1..]);
    if !done.shuttingDown && done.pending != {} then Scheduled(done) else done
  }

  function Requeued(s: State, changed: set<string>): State {
    s.(pending := s.pending + changed)
  }

  /** A prune rejects: nothing puts the changes of its flush back. */
  function Rejected(s: State, k: nat): State
    requires k < |s.frames| && s.frames[k].Pruning?
  {
    s.(log := s.log + [Dropped(s.frames[k].since, s.frames[k].changed)])
  }

  function FlushStarted(s: State): State {
    if s.running || s.shuttingDown || s.pending == {} then s
    else s.(running := true, pending := {}, frames := s.frames + [Indexing(s.pending, |s.log|)])
  }

  /** The stretch after `pruneOrphanGeneratedGuides` that starts the iteration. */
  function Iterate(single: Single, s: State, k: nat): State
    requires k < |s.frames| && s.frames[k].Pruning?
  {
    var frame := s.frames[k];
    var singleId := SingleId(single, frame.index);
    if single.Some? && singleId.None? then Finished(Requeued(s, frame.changed), k) else
    var affected := AffectedByAll(frame.changed, frame.index, singleId);
    s.(frames := s.frames[k := Iterating],
       log := s.log + [Started(frame.since, frame.changed, frame.index, affected, IsAll(affected, frame.index, singleId))])
  }

  function Apply(single: Single, s: State, a: Action): State
    requires Enabled(s, a)
  {
    match a
    case Change(path) =>
      if s.shuttingDown then s else Scheduled(s.(pending := s.pending + {path}, log := s.log + [Accepted(path)]))
    case TimerFires => FlushStarted(s.(armed := false))
    case HookAdded => s.(hooked := true)
    case Shutdown => if s.shuttingDown then s else s.(shuttingDown := true, armed := s.armed && !s.hooked)
    case IndexBuilt(k, index) =>
      if index.None? then Finished(Requeued(s, s.frames[k].changed), k)
      else if s.shuttingDown then Finished(s, k)
      else s.(frames := s.frames[k := Pruning(s.frames[k].changed, s.frames[k].since, index.value)])
    case Pruned(k, ok) =>
      if !ok then Finished(Rejected(s, k), k)
      else if s.shuttingDown then Finished(s, k)
      else Iterate(single, s, k)
    case IterationEnded(k) => Finished(s, k)
  }

  predicate Execution(single: Single, s: State, actions: seq<Action>, last: State)
    decreases |actions|
  {
    if actions == [] then s == last
    else Enabled(s, actions[0]) && Execution(single, Apply(single, s, actions[0]), actions[1..], last)
  }

  ghost predicate Reachable(single: Single, s: State) {
    exists actions :: Execution(single, Init(), actions, s)
  }

  // ---------------------------------------------------------------- the invariant

  /**
   * The iteration regenerates what a change of `path` asks for: the single guide if one was named, the guide
   * at that source path if there is one, and every guide otherwise.
   */
  predicate Includes(single: Single, e: Event, path: string)
    requires e.Started?
  {
    if single.Some? then single.value in e.index.byPath && e.index.byPath[single.value] in e.guides
    else if path in e.index.byPath then e.index.byPath[path] in e.guides
    else e.index.guides <= e.guides && e.all
  }

  /** A change of `path` is a reason to regenerate `guide`. */
  predicate Asks(single: Single, index: Index, path: string, guide: string) {
    && guide in index.guides
    && (single.Some? ==> single.value in index.byPath && index.byPath[single.value] == guide)
    && (single.None? && path in index.byPath ==> index.byPath[path] == guide)
  }

  predicate Asked(single: Single, index: Index, changed: set<string>, guide: string) {
    exists path | path in changed :: Asks(single, index, path, guide)
  }

  /** Entry `j` of the log is an iteration, on an index read after entry `i`, that includes what `path` asks for. */
  predicate CoveredAt(single: Single, log: seq<Event>, i: nat, path: string, j: nat) {
    i < j < |log| && log[j].Started? && i < log[j].since <= j && Includes(single, log[j], path)
  }

  ghost predicate Covered(single: Single, log: seq<Event>, i: nat, path: string) {
    exists j: nat :: CoveredAt(single, log, i, path, j)
  }

  /** The change is held by a suspended flush that took it from the pending set. */
  predicate InFlight(s: State, i: nat, path: string) {
    exists k | 0 <= k < |s.frames| :: !s.frames[k].Iterating? && path in s.frames[k].changed && i < s.frames[k].since
  }

  /** The change accepted as entry `i` is pending, in flight or covered. */
  ghost predicate Held(single: Single, s: State, i: nat, path: string) {
    path in s.pending || InFlight(s, i, path) || Covered(single, s.log, i, path)
  }

  /** Entry `j` of the log is a rejected prune of a flush that held the change accepted as entry `i`. */
  predicate DroppedAt(log: seq<Event>, i: nat, path: string, j: nat) {
    i < j < |log| && log[j].Dropped? && i < log[j].since <= j && path in log[j].changed
  }

  ghost predicate WasDropped(log: seq<Event>, i: nat, path: string) {
    exists j: nat :: DroppedAt(log, i, path, j)
  }

  ghost predicate Accounted(single: Single, s: State, i: nat) {
    i < |s.log| && s.log[i].Accepted? ==> Held(single, s, i, s.log[i].path) || WasDropped(s.log, i, s.log[i].path)
  }

  ghost predicate NothingLost(single: Single, s: State) {
    forall i: nat :: Accounted(single, s, i)
  }

  ghost predicate Shape(single: Single, s: State) {
    && |s.frames| == (if s.running then 1 else 0)
    && (!s.shuttingDown && s.pending != {} ==> s.running || s.armed)
    && (forall k | 0 <= k < |s.frames| && !s.frames[k].Iterating? :: s.frames[k].since <= |s.log|)
    && (forall k | 0 <= k < |s.frames| && s.frames[k].Pruning? :: s.frames[k].index.Valid())
    && (forall j | 0 <= j < |s.log| && s.log[j].Started? :: StartedRight(single, s.log[j]))
  }

  ghost predicate Inv(single: Single, s: State) {
    Shape(single, s) && (!s.shuttingDown ==> NothingLost(single, s))
  }

  /**
   * An iteration regenerates exactly the guides that some change of its flush asks for, and regenerates
   * everything exactly when these are all guides.
   */
  ghost predicate StartedRight(single: Single, e: Event)
    requires e.Started?
  {
    && e.index.Valid()
    && (forall guide :: guide in e.guides <==> Asked(single, e.index, e.changed, guide))
    && (forall path | path in e.changed :: Includes(single, e, path))
    && (e.all <==> single.None? && e.guides == e.index.guides)
  }

  lemma SameSize(a: set<string>, b: set<string>)
    requires a <= b
    ensures |a| == |b| <==> a == b
  {
    if a != b {
      assert b == a + (b - a) && b - a != {};
    }
  }

  lemma IterationRight(single: Single, changed: set<string>, since: nat, index: Index)
    requires index.Valid() && (single.Some? ==> SingleId(single, index).Some?)
    ensures var id := SingleId(single, index); var affected := AffectedByAll(changed, index, id);
            StartedRight(single, Started(since, changed, index, affected, IsAll(affected, index, id)))
  {
    var id := SingleId(single, index);
    var affected := AffectedByAll(changed, index, id);
    forall path | path in index.byPath ensures index.byPath[path] in index.guides {
      assert index.byPath[path] in index.byPath.Values;
    }
    forall path, guide | path in changed ensures guide in Affected(path, index, id) <==> Asks(single, index, path, guide) { }
    assert affected <= index.guides;
    SameSize(affected, index.guides);
  }

  // ---------------------------------------------------------------- what becomes of one change

  lemma CoveredLater(single: Single, log: seq<Event>, e: Event, i: nat, path: string)
    requires Covered(single, log, i, path)
    ensures Covered(single, log + [e], i, path)
  {
    var j: nat :| CoveredAt(single, log, i, path, j);
    assert CoveredAt(single, log + [e], i, path, j);
  }

  /** Only the start of an iteration covers anything. */
  lemma CoveredBefore(single: Single, log: seq<Event>, e: Event, i: nat, path: string)
    requires Covered(single, log + [e], i, path) && !e.Started?
    ensures Covered(single, log, i, path)
  {
    var j: nat :| CoveredAt(single, log + [e], i, path, j);
    assert CoveredAt(single, log, i, path, j);
  }

  lemma DroppedLater(log: seq<Event>, e: Event, i: nat, path: string)
    requires WasDropped(log, i, path)
    ensures WasDropped(log + [e], i, path)
  {
    var j: nat :| DroppedAt(log, i, path, j);
    assert DroppedAt(log + [e], i, path, j);
  }

  /** A flush that put its changes back, or whose changes are done with, can end without losing any. */
  lemma FinishHolds(single: Single, s: State, k: nat, i: nat, path: string)
    requires Inv(single, s) && k < |s.frames| && Held(single, s, i, path)
    requires s.frames[k].Iterating? || s.frames[k].changed <= s.pending
    ensures Held(single, Finished(s, k), i, path)
  {
    assert k == 0;
  }

  lemma RequeueHolds(single: Single, s: State, k: nat, i: nat, path: string)
    requires Inv(single, s) && k < |s.frames| && !s.frames[k].Iterating? && Held(single, s, i, path)
    ensures Held(single, Finished(Requeued(s, s.frames[k].changed), k), i, path)
  {
    assert k == 0;
  }

  lemma ChangeHolds(single: Single, s: State, added: string, i: nat, path: string)
    requires Inv(single, s) && !s.shuttingDown && Held(single, s, i, path)
    ensures Held(single, Apply(single, s, Change(added)), i, path)
  {
    var t := Apply(single, s, Change(added));
    if Covered(single, s.log, i, path) {
      CoveredLater(single, s.log, Accepted(added), i, path);
    } else if InFlight(s, i, path) {
      assert t.frames == s.frames && InFlight(t, i, path);
    }
  }

  lemma TimerHolds(single: Single, s: State, i: nat, path: string)
    requires Inv(single, s) && s.armed && i < |s.log| && Held(single, s, i, path)
    ensures Held(single, Apply(single, s, TimerFires), i, path)
  {
    var t := Apply(single, s, TimerFires);
    if t.running && !s.running {
      assert t.frames == [Indexing(s.pending, |s.log|)] && t.frames[0].changed == s.pending;
      assert path in s.pending ==> InFlight(t, i, path);
    } else {
      assert t.frames == s.frames && InFlight(s, i, path) ==> InFlight(t, i, path);
    }
  }

  lemma IterateHolds(single: Single, s: State, k: nat, i: nat, path: string)
    requires Inv(single, s) && k < |s.frames| && s.frames[k].Pruning? && Held(single, s, i, path)
    ensures Held(single, Iterate(single, s, k), i, path)
  {
    var frame, t := s.frames[k], Iterate(single, s, k);
    var id := SingleId(single, frame.index);
    if single.Some? && id.None? {
      RequeueHolds(single, s, k, i, path);
    } else if InFlight(s, i, path) {
      assert k == 0 && path in frame.changed && i < frame.since <= |s.log|;
      IterationRight(single, frame.changed, frame.since, frame.index);
      assert t.log[|s.log|].changed == frame.changed && Includes(single, t.log[|s.log|], path);
      assert CoveredAt(single, t.log, i, path, |s.log|);
    } else if Covered(single, s.log, i, path) {
      CoveredLater(single, s.log, t.log[|s.log|], i, path);
    }
  }

  lemma IndexedHolds(single: Single, s: State, k: nat, index: Index, i: nat, path: string)
    requires Inv(single, s) && k < |s.frames| && s.frames[k].Indexing? && Held(single, s, i, path)
    ensures Held(single, s.(frames := s.frames[k := Pruning(s.frames[k].changed, s.frames[k].since, index)]), i, path)
  {
    var t := s.(frames := s.frames[k := Pruning(s.frames[k].changed, s.frames[k].since, index)]);
    if InFlight(s, i, path) {
      assert k == 0 && path in t.frames[0].changed && i < t.frames[0].since;
    }
  }

  /** After a rejected prune a change is held exactly when it is pending or covered. */
  lemma RejectedHolds(single: Single, s: State, k: nat, i: nat, path: string)
    requires Inv(single, s) && k < |s.frames| && s.frames[k].Pruning?
    ensures Held(single, Finished(Rejected(s, k), k), i, path) <==> path in s.pending || Covered(single, s.log, i, path)
  {
    var e := Dropped(s.frames[k].since, s.frames[k].changed);
    assert k == 0 && Finished(Rejected(s, k), k).frames == [];
    if Covered(single, s.log, i, path) {
      CoveredLater(single, s.log, e, i, path);
    }
    if Covered(single, s.log + [e], i, path) {
      CoveredBefore(single, s.log, e, i, path);
    }
  }

  /**
   * Outside shutdown, a change that is pending, in flight or covered stays so under every action but a
   * rejected prune, and under that one exactly when it is pending again or was covered already.
   */
  lemma StepHolds(single: Single, s: State, a: Action, i: nat, path: string)
    requires Inv(single, s) && Enabled(s, a) && !s.shuttingDown && i < |s.log| && Held(single, s, i, path)
    ensures Held(single, Apply(single, s, a), i, path) <==>
              (a.Pruned? && !a.ok ==> path in s.pending || Covered(single, s.log, i, path))
  {
    match a
    case Change(added) => ChangeHolds(single, s, added, i, path);
    case TimerFires => TimerHolds(single, s, i, path);
    case IndexBuilt(k, index) =>
      if index.None? {
        RequeueHolds(single, s, k, i, path);
      } else {
        IndexedHolds(single, s, k, index.value, i, path);
      }
    case Pruned(k, ok) =>
      if ok {
        IterateHolds(single, s, k, i, path);
      } else {
        RejectedHolds(single, s, k, i, path);
      }
    case IterationEnded(k) => FinishHolds(single, s, k, i, path);
    case HookAdded => assert InFlight(s, i, path) ==> InFlight(s.(hooked := true), i, path);
    case Shutdown => assert InFlight(s, i, path) ==> InFlight(Apply(single, s, Shutdown), i, path);
  }

  // ---------------------------------------------------------------- the invariant is kept

  /** The log only grows, by at most one entry. */
  lemma LogGrows(single: Single, s: State, a: Action)
    requires Enabled(s, a)
    ensures var t := Apply(single, s, a); t.log == s.log || (|t.log| == |s.log| + 1 && t.log == s.log + [t.log[|s.log|]])
    ensures a.Pruned? && !a.ok ==>
              Apply(single, s, a).log == s.log + [Dropped(s.frames[a.frame].since, s.frames[a.frame].changed)]
  {
  }

  lemma StepAccounts(single: Single, s: State, a: Action, i: nat)
    requires Inv(single, s) && Enabled(s, a) && !s.shuttingDown
    ensures Accounted(single, Apply(single, s, a), i)
  {
    var t := Apply(single, s, a);
    LogGrows(single, s, a);
    if i < |s.log| && s.log[i].Accepted? {
      assert Accounted(single, s, i);
      if WasDropped(s.log, i, s.log[i].path) {
        if t.log != s.log {
          DroppedLater(s.log, t.log[|s.log|], i, s.log[i].path);
        }
      } else {
        StepHolds(single, s, a, i, s.log[i].path);
        if a.Pruned? && !a.ok && InFlight(s, i, s.log[i].path) {
          assert a.frame == 0 && DroppedAt(t.log, i, s.log[i].path, |s.log|);
        }
      }
    }
  }

  lemma FinishShape(single: Single, s: State, k: nat)
    requires k < |s.frames| && |s.frames| == 1
    requires forall j | 0 <= j < |s.log| && s.log[j].Started? :: StartedRight(single, s.log[j])
    ensures Shape(single, Finished(s, k))
  {
    assert Finished(s, k).frames == [];
  }

  lemma IterateShape(single: Single, s: State, k: nat)
    requires Shape(single, s) && k < |s.frames| && s.frames[k].Pruning?
    ensures Shape(single, Iterate(single, s, k))
  {
    if single.Some? && SingleId(single, s.frames[k].index).None? {
      FinishShape(single, Requeued(s, s.frames[k].changed), k);
    } else {
      IterationRight(single, s.frames[k].changed, s.frames[k].since, s.frames[k].index);
    }
  }

  /** The rest of the invariant: one flush, work never forgotten, and iterations that are right. */
  lemma ShapeKept(single: Single, s: State, a: Action)
    requires Shape(single, s) && Enabled(s, a)
    ensures Shape(single, Apply(single, s, a))
  {
    match a
    case Pruned(k, ok) =>
      if !ok {
        FinishShape(single, Rejected(s, k), k);
      } else if s.shuttingDown {
        FinishShape(single, s, k);
      } else {
        IterateShape(single, s, k);
      }
    case IndexBuilt(k, index) =>
      if index.None? {
        FinishShape(single, Requeued(s, s.frames[k].changed), k);
      } else if s.shuttingDown {
        FinishShape(single, s, k);
      }
    case IterationEnded(k) => FinishShape(single, s, k);
    case Change(_) =>
    case TimerFires =>
    case HookAdded =>
    case Shutdown =>
  }

  lemma ActionKeepsInv(single: Single, s: State, a: Action)
    requires Inv(single, s) && Enabled(s, a)
    ensures Inv(single, Apply(single, s, a))
  {
    ShapeKept(single, s, a);
    if !s.shuttingDown {
      forall i: nat ensures Accounted(single, Apply(single, s, a), i) {
        StepAccounts(single, s, a, i);
      }
    }
  }

  lemma {:induction false} ExecutionKeepsInv(single: Single, s: State, actions: seq<Action>, last: State)
    requires Inv(single, s) && Execution(single, s, actions, last)
    ensures Inv(single, last)
    decreases |actions|
  {
    if actions != [] {
      ActionKeepsInv(single, s, actions[0]);
      ExecutionKeepsInv(single, Apply(single, s, actions[0]), actions[1..], last);
    }
  }

  /**
   * In every reachable state at most one flush is active; pending work has a flush running or a timer
   * armed unless the program is shutting down; and every accepted change is pending, in flight, covered
   * by an iteration started on an index read after the change, or was held by a flush whose prune rejected.
   */
  lemma WatchLoop(single: Single, s: State, i: nat)
    requires Reachable(single, s)
    ensures |s.frames| <= 1 && (s.running <==> |s.frames| == 1)
    ensures !s.shuttingDown && s.pending != {} ==> s.running || s.armed
    ensures !s.shuttingDown && i < |s.log| && s.log[i].Accepted? ==>
              Held(single, s, i, s.log[i].path) || WasDropped(s.log, i, s.log[i].path)
    ensures i < |s.log| && s.log[i].Started? ==> StartedRight(single, s.log[i])
  {
    var actions :| Execution(single, Init(), actions, s);
    ExecutionKeepsInv(single, Init(), actions, s);
    assert NothingLost(single, s) ==> Accounted(single, s, i);
  }

  /**
   * In every reachable state, the next action outside shutdown loses a change that is held exactly when it
   * is a rejected prune and the change is neither pending again nor covered already.
   */
  lemma LostExactlyByRejectedPrune(single: Single, s: State, a: Action, i: nat)
    requires Reachable(single, s) && Enabled(s, a) && !s.shuttingDown && i < |s.log| && s.log[i].Accepted?
    requires Held(single, s, i, s.log[i].path)
    ensures !Held(single, Apply(single, s, a), i, s.log[i].path) <==>
              a.Pruned? && !a.ok && s.log[i].path !in s.pending && !Covered(single, s.log, i, s.log[i].path)
  {
    var actions :| Execution(single, Init(), actions, s);
    ExecutionKeepsInv(single, Init(), actions, s);
    StepHolds(single, s, a, i, s.log[i].path);
  }

  // ---------------------------------------------------------------- the last change of a path

  /** Entry `i` is the last acceptance of `path`. */
  predicate LastAccepted(log: seq<Event>, i: nat, path: string) {
    i < |log| && log[i] == Accepted(path) && forall j | i < j < |log| :: log[j] != Accepted(path)
  }

  /** The path was accepted at entry `since` or later. */
  predicate AcceptedSince(log: seq<Event>, since: nat, path: string) {
    exists i :: since <= i < |log| && log[i] == Accepted(path)
  }

  /** Some flush that has not started its iteration holds the path. */
  predicate InFrame(s: State, path: string) {
    exists k | 0 <= k < |s.frames| :: !s.frames[k].Iterating? && path in s.frames[k].changed
  }

  /** What is pending beside a suspended flush came after it began. */
  ghost predicate PendingIsNew(s: State) {
    forall k, path | 0 <= k < |s.frames| && !s.frames[k].Iterating? && path in s.pending ::
      AcceptedSince(s.log, s.frames[k].since, path)
  }

  /** If the last change of the path was dropped, no one holds the path. */
  ghost predicate Gone(s: State, i: nat, path: string) {
    LastAccepted(s.log, i, path) && WasDropped(s.log, i, path) ==> path !in s.pending && !InFrame(s, path)
  }

  ghost predicate DroppedIsGone(s: State) {
    PendingIsNew(s) && forall i: nat, path :: Gone(s, i, path)
  }

  lemma AcceptedSinceLater(log: seq<Event>, e: Event, since: nat, path: string)
    ensures AcceptedSince(log + [e], since, path) <==> AcceptedSince(log, since, path) || (since <= |log| && e == Accepted(path))
  {
    if i :| since <= i < |log| && log[i] == Accepted(path) {
      assert (log + [e])[i] == log[i];
    }
    assert (log + [e])[|log|] == e;
  }

  lemma LastAcceptedBefore(log: seq<Event>, e: Event, i: nat, path: string)
    requires LastAccepted(log + [e], i, path) && i < |log|
    ensures LastAccepted(log, i, path) && e != Accepted(path)
  {
    assert (log + [e])[|log|] == e;
    assert forall j | 0 <= j < |log| :: (log + [e])[j] == log[j];
  }

  /** Only a rejected prune that held the path drops a change. */
  lemma DroppedBefore(log: seq<Event>, e: Event, i: nat, path: string)
    requires WasDropped(log + [e], i, path) && !(e.Dropped? && i < e.since && path in e.changed)
    ensures WasDropped(log, i, path)
  {
    var j: nat :| DroppedAt(log + [e], i, path, j);
    assert DroppedAt(log, i, path, j);
  }

  lemma ChangeKeepsGone(single: Single, s: State, added: string)
    requires Shape(single, s) && DroppedIsGone(s) && !s.shuttingDown
    ensures DroppedIsGone(Apply(single, s, Change(added)))
  {
    var t := Apply(single, s, Change(added));
    forall k, path | 0 <= k < |t.frames| && !t.frames[k].Iterating? && path in t.pending
      ensures AcceptedSince(t.log, t.frames[k].since, path)
    {
      AcceptedSinceLater(s.log, Accepted(added), s.frames[k].since, path);
    }
    forall i: nat, path ensures Gone(t, i, path) {
      if LastAccepted(t.log, i, path) && WasDropped(t.log, i, path) {
        DroppedBefore(s.log, Accepted(added), i, path);
        LastAcceptedBefore(s.log, Accepted(added), i, path);
        assert Gone(s, i, path) && t.frames == s.frames;
      }
    }
  }

  lemma TimerKeepsGone(single: Single, s: State)
    requires Shape(single, s) && DroppedIsGone(s) && s.armed
    ensures DroppedIsGone(Apply(single, s, TimerFires))
  {
    var t := Apply(single, s, TimerFires);
    forall i: nat, path ensures Gone(t, i, path) {
      assert Gone(s, i, path);
    }
  }

  /** The end of a flush whose changes are done with or pending. */
  lemma FinishKeepsGone(single: Single, s: State, k: nat)
    requires k < |s.frames| && |s.frames| == 1 && forall i: nat, path :: Gone(s, i, path)
    ensures DroppedIsGone(Finished(s, k))
  {
    var t := Finished(s, k);
    assert t.frames == [] && t.pending == s.pending && t.log == s.log;
    forall i: nat, path ensures Gone(t, i, path) {
      assert Gone(s, i, path);
    }
  }

  lemma RequeueKeepsGone(single: Single, s: State, k: nat)
    requires Shape(single, s) && DroppedIsGone(s) && k < |s.frames| && !s.frames[k].Iterating?
    ensures DroppedIsGone(Finished(Requeued(s, s.frames[k].changed), k))
  {
    var t := Requeued(s, s.frames[k].changed);
    forall i: nat, path ensures Gone(t, i, path) {
      assert Gone(s, i, path);
      assert path in s.frames[k].changed ==> InFrame(s, path);
      assert InFrame(t, path) <==> InFrame(s, path);
    }
    FinishKeepsGone(single, t, k);
  }

  lemma RejectKeepsGone(single: Single, s: State, k: nat)
    requires Shape(single, s) && DroppedIsGone(s) && k < |s.frames| && s.frames[k].Pruning?
    ensures DroppedIsGone(Finished(Rejected(s, k), k))
  {
    var since, changed := s.frames[k].since, s.frames[k].changed;
    var t, e := Finished(Rejected(s, k), k), Dropped(since, changed);
    assert t.frames == [] && t.log == s.log + [e] && t.pending == s.pending;
    forall i: nat, path ensures Gone(t, i, path) {
      if LastAccepted(t.log, i, path) && WasDropped(t.log, i, path) {
        LastAcceptedBefore(s.log, e, i, path);
        if i < since && path in changed {
          assert path in s.pending ==> AcceptedSince(s.log, since, path);
        } else {
          DroppedBefore(s.log, e, i, path);
          assert Gone(s, i, path);
        }
      }
    }
  }

  lemma IterateKeepsGone(single: Single, s: State, k: nat)
    requires Shape(single, s) && DroppedIsGone(s) && k < |s.frames| && s.frames[k].Pruning?
    ensures DroppedIsGone(Iterate(single, s, k))
  {
    var frame, t := s.frames[k], Iterate(single, s, k);
    if single.Some? && SingleId(single, frame.index).None? {
      RequeueKeepsGone(single, s, k);
    } else {
      var e := t.log[|s.log|];
      assert t.frames == [Iterating] && t.log == s.log + [e];
      forall i: nat, path ensures Gone(t, i, path) {
        if LastAccepted(t.log, i, path) && WasDropped(t.log, i, path) {
          LastAcceptedBefore(s.log, e, i, path);
          DroppedBefore(s.log, e, i, path);
          assert Gone(s, i, path);
        }
      }
    }
  }

  lemma IndexedKeepsGone(single: Single, s: State, k: nat, index: Index)
    requires Shape(single, s) && DroppedIsGone(s) && k < |s.frames| && s.frames[k].Indexing?
    ensures DroppedIsGone(s.(frames := s.frames[k := Pruning(s.frames[k].changed, s.frames[k].since, index)]))
  {
    var t := s.(frames := s.frames[k := Pruning(s.frames[k].changed, s.frames[k].since, index)]);
    assert |s.frames| == 1 && t.frames[0].changed == s.frames[0].changed && t.frames[0].since == s.frames[0].since;
    forall i: nat, path ensures Gone(t, i, path) {
      assert Gone(s, i, path);
      assert path in s.frames[0].changed ==> InFrame(s, path);
    }
  }

  lemma ActionKeepsGone(single: Single, s: State, a: Action)
    requires Shape(single, s) && DroppedIsGone(s) && Enabled(s, a)
    ensures DroppedIsGone(Apply(single, s, a))
  {
    forall i: nat, path ensures Gone(s, i, path) { }
    match a
    case Change(path) => if !s.shuttingDown { ChangeKeepsGone(single, s, path); }
    case TimerFires => TimerKeepsGone(single, s);
    case IndexBuilt(k, index) =>
      if index.None? {
        RequeueKeepsGone(single, s, k);
      } else if s.shuttingDown {
        FinishKeepsGone(single, s, k);
      } else {
        IndexedKeepsGone(single, s, k, index.value);
      }
    case Pruned(k, ok) =>
      if !ok {
        RejectKeepsGone(single, s, k);
      } else if s.shuttingDown {
        FinishKeepsGone(single, s, k);
      } else {
        IterateKeepsGone(single, s, k);
      }
    case IterationEnded(k) => FinishKeepsGone(single, s, k);
    case HookAdded => SameFramesKeepGone(s, s.(hooked := true));
    case Shutdown => SameFramesKeepGone(s, Apply(single, s, Shutdown));
  }

  lemma SameFramesKeepGone(s: State, t: State)
    requires DroppedIsGone(s) && t.frames == s.frames && t.log == s.log && t.pending == s.pending
    ensures DroppedIsGone(t)
  {
    forall i: nat, path ensures Gone(t, i, path) {
      assert Gone(s, i, path);
    }
  }

  lemma {:induction false} ExecutionKeepsGone(single: Single, s: State, actions: seq<Action>, last: State)
    requires Shape(single, s) && DroppedIsGone(s) && Execution(single, s, actions, last)
    ensures DroppedIsGone(last)
    decreases |actions|
  {
    if actions != [] {
      ShapeKept(single, s, actions[0]);
      ActionKeepsGone(single, s, actions[0]);
      ExecutionKeepsGone(single, Apply(single, s, actions[0]), actions[1..], last);
    }
  }

  /**
   * In every reachable state outside shutdown, the last accepted change of a path is pending, in flight or
   * covered exactly when no rejected prune dropped it, or it was covered nevertheless.
   */
  lemma LastChangeHeldExactly(single: Single, s: State, i: nat, path: string)
    requires Reachable(single, s) && !s.shuttingDown && LastAccepted(s.log, i, path)
    ensures Held(single, s, i, path) <==> !WasDropped(s.log, i, path) || Covered(single, s.log, i, path)
  {
    WatchLoop(single, s, i);
    var actions :| Execution(single, Init(), actions, s);
    ExecutionKeepsGone(single, Init(), actions, s);
    assert Gone(s, i, path);
    assert InFlight(s, i, path) ==> InFrame(s, path);
  }

  /** Once the loop is idle, every accepted change that no rejected prune dropped has been covered. */
  lemma IdleMeansCovered(single: Single, s: State, i: nat)
    requires Reachable(single, s) && !s.shuttingDown && !s.running && !s.armed
    requires i < |s.log| && s.log[i].Accepted?
    ensures Covered(single, s.log, i, s.log[i].path) || WasDropped(s.log, i, s.log[i].path)
  {
    WatchLoop(single, s, i);
  }

  /** A rejected prune drops the changes of its flush: they are neither pending, in flight nor covered. */
  lemma RejectedPruneLosesChanges(path: string) returns (s: State)
    ensures Reachable(None, s) && !s.shuttingDown && !s.running && !s.armed
    ensures s.log == [Accepted(path), Dropped(1, {path})] && !Held(None, s, 0, path)
  {
    var index := Index({}, map[]);
    var s1 := Apply(None, Init(), Change(path));
    var s2 := Apply(None, s1, TimerFires);
    assert s1.pending == {path} && s2.frames == [Indexing({path}, 1)];
    var s3 := Apply(None, s2, IndexBuilt(0, Some(index)));
    assert s3.frames == [Pruning({path}, 1, index)];
    s := Apply(None, s3, Pruned(0, false));
    assert Execution(None, s, [], s);
    assert [Pruned(0, false)][1..] == [];
    assert Execution(None, s3, [Pruned(0, false)], s);
    assert [IndexBuilt(0, Some(index)), Pruned(0, false)][1..] == [Pruned(0, false)];
    assert Execution(None, s2, [IndexBuilt(0, Some(index)), Pruned(0, false)], s);
    var last3 := [TimerFires, IndexBuilt(0, Some(index)), Pruned(0, false)];
    assert last3[1..] == [IndexBuilt(0, Some(index)), Pruned(0, false)];
    assert Execution(None, s1, last3, s);
    assert ([Change(path)] + last3)[1..] == last3;
    assert Execution(None, Init(), [Change(path)] + last3, s);
  }

  // ---------------------------------------------------------------- where iterations come from

  /** The path was accepted before entry `since`. */
  predicate AcceptedBefore(log: seq<Event>, since: nat, path: string) {
    exists i | 0 <= i < |log| :: i < since && log[i] == Accepted(path)
  }

  predicate AllAccepted(log: seq<Event>, since: nat, paths: set<string>) {
    forall path | path in paths :: AcceptedBefore(log, since, path)
  }

  /** Pending paths, the paths of flushes and the paths of iterations are accepted changes. */
  ghost predicate FromChanges(s: State) {
    && AllAccepted(s.log, |s.log|, s.pending)
    && (forall k | 0 <= k < |s.frames| && !s.frames[k].Iterating? :: AllAccepted(s.log, s.frames[k].since, s.frames[k].changed))
    && (forall j | 0 <= j < |s.log| && s.log[j].Started? :: AllAccepted(s.log, s.log[j].since, s.log[j].changed))
  }

  lemma AllAcceptedLater(log: seq<Event>, e: Event, since: nat, later: nat, paths: set<string>)
    requires AllAccepted(log, since, paths) && since <= later
    ensures AllAccepted(log + [e], later, paths)
  {
    forall path | path in paths ensures AcceptedBefore(log + [e], later, path) {
      var i :| 0 <= i < |log| && i < since && log[i] == Accepted(path);
      assert (log + [e])[i] == log[i];
    }
  }

  /** An entry is appended; the rest of the state stays. */
  lemma AppendKeepsFrom(s: State, e: Event)
    requires FromChanges(s) && (e.Started? ==> AllAccepted(s.log, e.since, e.changed))
    ensures FromChanges(s.(log := s.log + [e]))
  {
    var t := s.(log := s.log + [e]);
    AllAcceptedLater(s.log, e, |s.log|, |t.log|, s.pending);
    forall k | 0 <= k < |t.frames| && !t.frames[k].Iterating? ensures AllAccepted(t.log, t.frames[k].since, t.frames[k].changed) {
      AllAcceptedLater(s.log, e, s.frames[k].since, s.frames[k].since, s.frames[k].changed);
    }
    forall j | 0 <= j < |t.log| && t.log[j].Started? ensures AllAccepted(t.log, t.log[j].since, t.log[j].changed) {
      if j < |s.log| {
        AllAcceptedLater(s.log, e, s.log[j].since, s.log[j].since, s.log[j].changed);
      } else {
        AllAcceptedLater(s.log, e, e.since, e.since, e.changed);
      }
    }
  }

  lemma FinishKeepsFrom(s: State, k: nat)
    requires FromChanges(s) && k < |s.frames|
    ensures FromChanges(Finished(s, k))
  {
    var t := Finished(s, k);
    forall m | 0 <= m < |t.frames| && !t.frames[m].Iterating? ensures AllAccepted(t.log, t.frames[m].since, t.frames[m].changed) {
      assert t.frames[m] == s.frames[if m < k then m else m + 1];
    }
  }

  lemma RequeueKeepsFrom(s: State, k: nat)
    requires FromChanges(s) && k < |s.frames| && !s.frames[k].Iterating?
    ensures FromChanges(Finished(Requeued(s, s.frames[k].changed), k))
  {
    var t := Requeued(s, s.frames[k].changed);
    forall path | path in t.pending ensures AcceptedBefore(t.log, |t.log|, path) {
      assert path in s.frames[k].changed ==> AcceptedBefore(s.log, s.frames[k].since, path);
    }
    FinishKeepsFrom(t, k);
  }

  lemma ActionKeepsFrom(single: Single, s: State, a: Action)
    requires FromChanges(s) && Enabled(s, a)
    ensures FromChanges(Apply(single, s, a))
  {
    match a
    case Change(path) =>
      if !s.shuttingDown {
        AppendKeepsFrom(s, Accepted(path));
        var log := s.log + [Accepted(path)];
        assert log[|s.log|] == Accepted(path) && AcceptedBefore(log, |log|, path);
      }
    case TimerFires =>
    case IndexBuilt(k, index) =>
      if index.None? {
        RequeueKeepsFrom(s, k);
      } else if s.shuttingDown {
        FinishKeepsFrom(s, k);
      }
    case Pruned(k, ok) =>
      var frame := s.frames[k];
      if !ok {
        AppendKeepsFrom(s, Dropped(frame.since, frame.changed));
        FinishKeepsFrom(Rejected(s, k), k);
      } else if s.shuttingDown {
        FinishKeepsFrom(s, k);
      } else if single.Some? && SingleId(single, frame.index).None? {
        RequeueKeepsFrom(s, k);
      } else {
        var e := Iterate(single, s, k).log[|s.log|];
        AppendKeepsFrom(s, e);
      }
    case IterationEnded(k) => FinishKeepsFrom(s, k);
    case HookAdded =>
    case Shutdown =>
  }

  lemma {:induction false} ExecutionKeepsFrom(single: Single, s: State, actions: seq<Action>, last: State)
    requires FromChanges(s) && Execution(single, s, actions, last)
    ensures FromChanges(last)
    decreases |actions|
  {
    if actions != [] {
      ActionKeepsFrom(single, s, actions[0]);
      ExecutionKeepsFrom(single, Apply(single, s, actions[0]), actions[1..], last);
    }
  }

  /** Entry `i` accepted a change, before the flush began, that asks for `guide`. */
  predicate Causes(single: Single, log: seq<Event>, i: nat, since: nat, index: Index, guide: string) {
    i < |log| && i < since && log[i].Accepted? && Asks(single, index, log[i].path, guide)
  }

  /** No guide is regenerated without a reason: an accepted change before the iteration asks for it. */
  lemma NoIdleIteration(single: Single, s: State, j: nat, guide: string) returns (i: nat)
    requires Reachable(single, s) && j < |s.log| && s.log[j].Started? && guide in s.log[j].guides
    ensures Causes(single, s.log, i, s.log[j].since, s.log[j].index, guide)
  {
    var actions :| Execution(single, Init(), actions, s);
    ExecutionKeepsFrom(single, Init(), actions, s);
    WatchLoop(single, s, j);
    var e := s.log[j];
    assert Asked(single, e.index, e.changed, guide);
    var path :| path in e.changed && Asks(single, e.index, path, guide);
    assert AcceptedBefore(s.log, e.since, path);
    i :| 0 <= i < |s.log| && i < e.since && s.log[i] == Accepted(path);
  }

  // ---------------------------------------------------------------- what the loop gets done

  /** Outside shutdown a change is always taken up, and the timer is armed for it. */
  lemma ChangeIsTaken(single: Single, s: State, path: string)
    requires !s.shuttingDown
    ensures Apply(single, s, Change(path)) == s.(pending := s.pending + {path}, armed := true, log := s.log + [Accepted(path)])
  {
  }

  /**
   * A flush that nothing disturbs starts an iteration that includes what every pending change asks for:
   * the timer fires, the index is read and the prune succeeds.
   */
  lemma QuietFlush(single: Single, s: State, index: Index) returns (last: State)
    requires Reachable(single, s) && !s.shuttingDown && !s.running && s.pending != {}
    requires index.Valid() && (single.Some? ==> single.value in index.byPath)
    ensures Execution(single, s, [TimerFires, IndexBuilt(0, Some(index)), Pruned(0, true)], last)
    ensures last.pending == {} && last.frames == [Iterating] && Regenerates(single, s.log, s.pending, index, last.log)
  {
    WatchLoop(single, s, 0);
    var s1 := Apply(single, s, TimerFires);
    assert s1.frames == [Indexing(s.pending, |s.log|)];
    var s2 := Apply(single, s1, IndexBuilt(0, Some(index)));
    assert s2.frames == [Pruning(s.pending, |s.log|, index)];
    last := Apply(single, s2, Pruned(0, true));
    IterationRight(single, s.pending, |s.log|, index);
    ThreeSteps(single, s, TimerFires, IndexBuilt(0, Some(index)), Pruned(0, true));
  }

  /** The log goes on with an iteration that regenerates exactly what the changes ask for. */
  ghost predicate Regenerates(single: Single, log: seq<Event>, changed: set<string>, index: Index, later: seq<Event>) {
    && |later| == |log| + 1 && later[..|log|] == log && later[|log|].Started?
    && later[|log|].since == |log| && later[|log|].index == index
    && (forall path | path in changed :: Includes(single, later[|log|], path))
    && (forall guide :: guide in later[|log|].guides <==> Asked(single, index, changed, guide))
  }

  lemma ThreeSteps(single: Single, s: State, a: Action, b: Action, c: Action)
    requires Enabled(s, a) && Enabled(Apply(single, s, a), b) && Enabled(Apply(single, Apply(single, s, a), b), c)
    ensures Execution(single, s, [a, b, c], Apply(single, Apply(single, Apply(single, s, a), b), c))
  {
    var s1 := Apply(single, s, a);
    var s2 := Apply(single, s1, b);
    var last := Apply(single, s2, c);
    assert [a, b, c][1..] == [b, c] && [b, c][1..] == [c] && [c][1..] == [];
    assert Execution(single, last, [], last);
    assert Execution(single, s2, [c], last);
    assert Execution(single, s1, [b, c], last);
  }

  /** A failed flush keeps its changes pending and tries again: the timer is armed. */
  lemma FailedFlushRetries(single: Single, s: State, k: nat)
    requires Reachable(single, s) && !s.shuttingDown && Enabled(s, IndexBuilt(k, None)) && s.frames[k].changed != {}
    ensures var t := Apply(single, s, IndexBuilt(k, None));
            t == s.(pending := s.pending + s.frames[k].changed, armed := true, running := false, frames := [])
  {
    WatchLoop(single, s, 0);
  }

  /** Shutdown is final: it stays, takes no change, starts no iteration and arms no timer. */
  lemma ShutdownIsFinal(single: Single, s: State, a: Action)
    requires Enabled(s, a) && (s.shuttingDown || a.Shutdown?)
    ensures var t := Apply(single, s, a);
            && t.shuttingDown && (t.armed ==> s.armed) && |t.frames| <= |s.frames|
            && (t.log == s.log || exists since, changed :: t.log == s.log + [Dropped(since, changed)])
    ensures a.Shutdown? && s.hooked && !s.shuttingDown ==> !Apply(single, s, a).armed
  {
  }

  // ---------------------------------------------------------------- the program

  predicate IsEditorNoise(basename: string) {
    var n := |basename|;
    || (n >= 1 && basename[n - 1] == '~')
    || (n >= 4 && basename[n - 4..n - 1] == ".sw" && 'a' <= basename[n - 1] <= 'z')
    || basename == "4913"
  }

  /** Backup files, swap files and Vim's probe file. */
  ghost predicate NamesNoise(basename: string) {
    || (exists stem :: basename == stem + "~")
    || (exists stem, c | 'a' <= c <= 'z' :: basename == stem + ".sw" + [c])
    || basename == "4913"
  }

  lemma NoiseMeans(basename: string)
    ensures IsEditorNoise(basename) <==> NamesNoise(basename)
  {
    var n := |basename|;
    if n >= 1 && basename[n - 1] == '~' {
      assert basename == basename[..n - 1] + "~";
    }
    if n >= 4 && basename[n - 4..n - 1] == ".sw" {
      assert basename == basename[..n - 4] + ".sw" + [basename[n - 1]];
    }
  }

  /** The closures of `main`, one method for each synchronous stretch between await points. */
  class Watcher {
    const single: Single
    var pending: set<string>
    var timer: bool
    var running: bool
    var shuttingDown: bool
    var hooked: bool
    var frames: seq<Frame>
    var log: seq<Event>   // history, kept only by the model

    ghost function Now(): State
      reads this
    {
      State(pending, timer, running, shuttingDown, hooked, frames, log)
    }

    constructor (single: Single)
      ensures this.single == single && Now() == Init()
    {
      this.single := single;
      pending, timer, running, shuttingDown, hooked, frames := {}, false, false, false, false, [];
      log := [];
    }

    method Schedule()
      modifies this
      ensures Now() == Scheduled(old(Now()))
    {
      if shuttingDown { return; }
      timer := true;
    }

    method Requeue(changed: set<string>)
      modifies this
      ensures Now() == Requeued(old(Now()), changed)
    {
      pending := pending + changed;
    }

    /** A watch event; `basename` is the last segment of the file name, when the event carries one. */
    method OnChange(path: string, basename: Option<string>)
      modifies this
      ensures Now() == if basename.Some? && IsEditorNoise(basename.value) then old(Now())
                       else Apply(single, old(Now()), Change(path))
    {
      if shuttingDown { return; }
      if basename.Some? && IsEditorNoise(basename.value) { return; }
      pending := pending + {path};
      log := log + [Accepted(path)];
      Schedule();
    }

    /** The timer callback and the part of `flush` before its first await. */
    method Flush()
      requires timer
      modifies this
      ensures Now() == Apply(single, old(Now()), TimerFires)
    {
      timer := false;
      if running || shuttingDown { return; }
      if pending == {} { return; }
      running := true;
      var changed := pending;
      pending := {};
      frames := frames + [Indexing(changed, |log|)];
    }

    /** The `finally` block of `flush`. */
    method FinishFlush(k: nat)
      requires k < |frames|
      modifies this
      ensures Now() == Finished(old(Now()), k)
    {
      frames := frames[..k] + frames[k + 1..];
      running := false;
      if !shuttingDown && pending != {} {
        Schedule();
      }
    }

    method OnIndexBuilt(k: nat, index: Option<Index>)
      requires k < |frames| && frames[k].Indexing? && (index.Some? ==> index.value.Valid())
      modifies this
      ensures Now() == Apply(single, old(Now()), IndexBuilt(k, index))
    {
      if index.None? {
        Requeue(frames[k].changed);
        FinishFlush(k);
      } else if shuttingDown {
        FinishFlush(k);
      } else {
        frames := frames[k := Pruning(frames[k].changed, frames[k].since, index.value)];
      }
    }

    method OnPruned(k: nat, ok: bool)
      requires k < |frames| && frames[k].Pruning?
      modifies this
      ensures Now() == Apply(single, old(Now()), Pruned(k, ok))
    {
      if !ok {
        log := log + [Dropped(frames[k].since, frames[k].changed)];
        FinishFlush(k);
        return;
      }
      if shuttingDown {
        FinishFlush(k);
        return;
      }
      var index, changed := frames[k].index, frames[k].changed;
      var singleId := SingleId(single, index);
      if single.Some? && singleId.None? {
        Requeue(changed);
        FinishFlush(k);
        return;
      }
      var affected := AffectedByAll(changed, index, singleId);
      var isAll := IsAll(affected, index, singleId);
      log := log + [Started(frames[k].since, changed, index, affected, isAll)];
      frames := frames[k := Iterating];
    }

    method OnIterationEnded(k: nat)
      requires k < |frames| && frames[k].Iterating?
      modifies this
      ensures Now() == Apply(single, old(Now()), IterationEnded(k))
    {
      FinishFlush(k);
    }

    /** The shutdown hook clears the timer; before it is installed there is nothing to clear it. */
    method AddShutdownHook()
      requires !shuttingDown
      modifies this
      ensures Now() == Apply(single, old(Now()), HookAdded)
    {
      hooked := true;
    }

    method RequestShutdown()
      modifies this
      ensures Now() == Apply(single, old(Now()), Shutdown)
    {
      if shuttingDown { return; }
      shuttingDown := true;
      if hooked {
        timer := false;
      }
    }
  }
}
