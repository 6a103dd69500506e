// Whole runs of the base image protocol: which idle base goes, when one goes at all, and
// what a snapshot and its release can count on.
module BaseRuns {
  import opened Wrappers
  import opened BaseLifecycle

  // ---- the order of eviction ----

  // What a step does to the time since which a base has been idle.
  datatype Change = Same | Now | Reset

  function ChangeOf(s: State, step: Step, id: BaseId): Change {
    if id !in s.bases || s.bases[id].key.None? then Same
    else
      match step
      case Finish(h) => if h in s.releases && s.releases[h].base == id then Now else Same
      case GetKeyed(_, key, _) =>
        if key in s.roFiles && s.roFiles[key] == id && s.bases[id].refcount == 0 then Reset else Same
      case _ => Same
  }

  function Changed(change: Change, was: nat, now: nat): nat {
    match change
    case Same => was
    case Now => now
    case Reset => 0
  }

  // The number of the step that finished a release of the base last, or 0 if it has been
  // taken up from idle since then, or was never released.
  function IdleFrom(run: seq<State>, steps: seq<Step>, k: nat, id: BaseId): nat
    requires k <= |steps| < |run|
  {
    if k == 0 then 0 else Changed(ChangeOf(run[k - 1], steps[k - 1], id), IdleFrom(run, steps, k - 1, id), k)
  }

  // idleSince orders keyed bases as they went idle.
  ghost predicate Ordered(bases: Bases, nextIdleSeq: nat, idle: BaseId -> nat, now: nat) {
    && (forall id :: id !in bases ==> idle(id) == 0)
    && (forall id :: id in bases && bases[id].key.Some? ==>
          && idle(id) <= now && bases[id].idleSince <= nextIdleSeq && (bases[id].idleSince == 0 <==> idle(id) == 0))
    && (forall a, b :: a in bases && b in bases && bases[a].key.Some? && bases[b].key.Some? ==>
          && (bases[a].idleSince < bases[b].idleSince <==> idle(a) < idle(b))
          && (idle(a) == idle(b) > 0 ==> a == b))
  }

  // idleSince changes in the same way.
  predicate ChangesBy(bases: Bases, seqNo: nat, bases': Bases, seqNo': nat, id: BaseId, change: Change) {
    && seqNo' >= seqNo && (change.Now? ==> seqNo' == seqNo + 1)
    && if id !in bases then change.Same? && (id in bases' ==> bases'[id].idleSince == 0)
       else
         && id in bases' && bases'[id].key == bases[id].key
         && (bases[id].key.Some? ==> bases'[id].idleSince == Changed(change, bases[id].idleSince, seqNo + 1))
  }

  lemma IdleSinceChanges(s: State, step: Step, id: BaseId)
    requires Enabled(s, step)
    ensures ChangesBy(s.bases, s.nextIdleSeq, Do(s, step).bases, Do(s, step).nextIdleSeq, id, ChangeOf(s, step, id))
  {
  }

  lemma OneChanges(s: State, step: Step, a: BaseId, b: BaseId)
    requires !ChangeOf(s, step, a).Same? && !ChangeOf(s, step, b).Same?
    ensures a == b
  {
  }

  lemma OrderKept(s: State, step: Step, idle: BaseId -> nat, idle': BaseId -> nat, now: nat)
    requires Enabled(s, step) && Ordered(s.bases, s.nextIdleSeq, idle, now)
    requires forall id :: idle'(id) == Changed(ChangeOf(s, step, id), idle(id), now + 1)
    ensures Ordered(Do(s, step).bases, Do(s, step).nextIdleSeq, idle', now + 1)
  {
    hide Do, Enabled, ChangeOf, Ordered;
    var s' := Do(s, step);
    var change := (id: BaseId) => ChangeOf(s, step, id);
    forall id ensures ChangesBy(s.bases, s.nextIdleSeq, s'.bases, s'.nextIdleSeq, id, change(id)) {
      IdleSinceChanges(s, step, id);
    }
    forall a, b | !change(a).Same? && !change(b).Same? ensures a == b {
      OneChanges(s, step, a, b);
    }
    OrderOfChanged(s.bases, s.nextIdleSeq, s'.bases, s'.nextIdleSeq, idle, idle', now, change);
  }

  lemma OrderOfChanged(bases: Bases, seqNo: nat, bases': Bases, seqNo': nat, idle: BaseId -> nat, idle': BaseId -> nat,
                       now: nat, change: BaseId -> Change)
    requires Ordered(bases, seqNo, idle, now)
    requires forall id :: ChangesBy(bases, seqNo, bases', seqNo', id, change(id)) && idle'(id) == Changed(change(id), idle(id), now + 1)
    requires forall a, b :: !change(a).Same? && !change(b).Same? ==> a == b
    ensures Ordered(bases', seqNo', idle', now + 1)
  {
  }

  // A keyed base that nobody holds, and nobody is about to let go of, has gone idle.
  ghost predicate Rested(bases: Bases, releases: map<Snap, Unfinished>) {
    forall id :: id in bases && bases[id].key.Some? && bases[id].refcount == 0 && !BeingReleased(releases, id) ==>
      bases[id].idleSince > 0
  }

  // A base that is not being released any more, or is not held any more, but was.
  lemma RestsOn(s: State, step: Step, id: BaseId)
    requires Enabled(s, step) && Counts(s.bases, s.holders) && s.holders.Keys !! s.releases.Keys
    requires id in Do(s, step).bases && Do(s, step).bases[id].key.Some? && Do(s, step).bases[id].refcount == 0
    requires !BeingReleased(Do(s, step).releases, id)
    ensures || Do(s, step).bases[id].idleSince > 0
            || (&& id in s.bases && s.bases[id].key.Some? && s.bases[id].refcount == 0 && !BeingReleased(s.releases, id)
                && Do(s, step).bases[id].idleSince == s.bases[id].idleSince)
  {
    var s' := Do(s, step);
    match step
    case Drop(h) =>
      if s.bases[s.holders[h]].refcount <= 1 {
        assert s'.releases[h].base == s.holders[h];
      }
      StillReleasing(s.releases, s'.releases, id);
    case Count(h) => StillReleasing(s.releases, s'.releases, id);
    case Finish(h) => if s.releases[h].base != id { StillReleasing(s.releases, s'.releases, id); }
    case _ =>
  }

  lemma StillReleasing(releases: map<Snap, Unfinished>, releases': map<Snap, Unfinished>, id: BaseId)
    requires forall h :: h in releases && releases[h].base == id ==> h in releases' && releases'[h].base == id
    ensures BeingReleased(releases, id) ==> BeingReleased(releases', id)
  {
    if h :| h in releases && releases[h].base == id {
      assert releases'[h].base == id;
    }
  }

  lemma RestKept(s: State, step: Step)
    requires Inv(s) && Enabled(s, step) && Rested(s.bases, s.releases)
    ensures Rested(Do(s, step).bases, Do(s, step).releases)
  {
    hide Sections, Gauges, Registry, Counts, Pinned, BeingReleased;
    var s' := Do(s, step);
    forall id | id in s'.bases && s'.bases[id].key.Some? && s'.bases[id].refcount == 0 && !BeingReleased(s'.releases, id)
      ensures s'.bases[id].idleSince > 0
    {
      RestsOn(s, step, id);
    }
  }

  function IdleAt(run: seq<State>, steps: seq<Step>, k: nat): BaseId -> nat
    requires k <= |steps| < |run|
  {
    (id: BaseId) => IdleFrom(run, steps, k, id)
  }

  lemma {:induction false} OrderedAlong(run: seq<State>, steps: seq<Step>, k: nat)
    requires IsRun(run, steps) && k < |run|
    ensures Ordered(run[k].bases, run[k].nextIdleSeq, IdleAt(run, steps, k), k) && Rested(run[k].bases, run[k].releases)
  {
    hide Ordered, Rested, Inv, Enabled, Do;
    if k == 0 {
      OrderedAtFirst(run[0], IdleAt(run, steps, 0));
    } else {
      OrderedAlong(run, steps, k - 1);
      RunKeepsInv(run, steps, k - 1);
      OrderKept(run[k - 1], steps[k - 1], IdleAt(run, steps, k - 1), IdleAt(run, steps, k), k - 1);
      RestKept(run[k - 1], steps[k - 1]);
    }
  }

  lemma OrderedAtFirst(s: State, idle: BaseId -> nat)
    requires Fresh(s) && forall id :: idle(id) == 0
    ensures Ordered(s.bases, s.nextIdleSeq, idle, 0) && Rested(s.bases, s.releases)
  {
  }

  // An entry that nobody holds.
  predicate Idle(s: State, key: Key) {
    key in s.roFiles && s.roFiles[key] in s.bases && s.bases[s.roFiles[key]].refcount == 0
  }

  // In every run the entry that an eviction closes is idle, and no idle entry whose releases
  // have finished went idle before it; while no release is under way, all others did later.
  // And none goes unless more than maxIdle entries are idle.
  lemma EvictsLeastRecent(run: seq<State>, steps: seq<Step>, k: nat)
    requires IsRun(run, steps) && k < |steps| && steps[k].Evict?
    ensures var (s, key) := (run[k], steps[k].key);
            && Idle(s, key) && key !in run[k + 1].roFiles && run[k + 1].roFiles == s.roFiles - {key}
            && (forall q :: Idle(s, q) && !BeingReleased(s.releases, s.roFiles[q]) ==>
                  IdleFrom(run, steps, k, s.roFiles[key]) <= IdleFrom(run, steps, k, s.roFiles[q]))
            && (s.releases == map[] ==> forall q :: Idle(s, q) && q != key ==>
                  0 < IdleFrom(run, steps, k, s.roFiles[key]) < IdleFrom(run, steps, k, s.roFiles[q]))
            && |set q | q in s.roFiles && Idle(s, q)| > s.maxIdle
  {
    var s, key := run[k], steps[k].key;
    assert Enabled(s, steps[k]) && run[k + 1] == Do(s, steps[k]);
    RunKeepsInv(run, steps, k);
    OrderedAlong(run, steps, k);
    hide Ordered, Rested, Inv, Do;
    EvictTakesOldest(s, key, IdleAt(run, steps, k), k);
    EvictIs(s, key);
  }

  lemma EvictIs(s: State, key: Key)
    requires Enabled(s, Evict(key))
    ensures Do(s, Evict(key)).roFiles == s.roFiles - {key}
  {
  }

  lemma EvictTakesOldest(s: State, key: Key, idle: BaseId -> nat, now: nat)
    requires Inv(s) && Enabled(s, Evict(key))
    requires Ordered(s.bases, s.nextIdleSeq, idle, now) && Rested(s.bases, s.releases)
    ensures Idle(s, key)
    ensures forall q :: Idle(s, q) && !BeingReleased(s.releases, s.roFiles[q]) ==> idle(s.roFiles[key]) <= idle(s.roFiles[q])
    ensures s.releases == map[] ==>
              forall q :: Idle(s, q) && q != key ==> 0 < idle(s.roFiles[key]) < idle(s.roFiles[q])
    ensures |set q | q in s.roFiles && Idle(s, q)| > s.maxIdle
  {
    hide Gauges, Counts, Pinned, Ordered, Rested;
    SubsetSmaller(s.section.idle, set q | q in s.roFiles && Idle(s, q));
    forall q | Idle(s, q) && !BeingReleased(s.releases, s.roFiles[q])
      ensures idle(s.roFiles[key]) <= idle(s.roFiles[q]) && idle(s.roFiles[q]) > 0
      ensures q != key ==> idle(s.roFiles[key]) < idle(s.roFiles[q])
    {
      assert q in SettledIdle(s.bases, s.roFiles, s.releases);
      InOrder(s.bases, s.nextIdleSeq, idle, now, s.releases, s.roFiles[key], s.roFiles[q]);
    }
  }

  lemma InOrder(bases: Bases, nextIdleSeq: nat, idle: BaseId -> nat, now: nat, releases: map<Snap, Unfinished>, a: BaseId, b: BaseId)
    requires Ordered(bases, nextIdleSeq, idle, now) && Rested(bases, releases)
    requires a in bases && b in bases && bases[a].key.Some? && bases[b].key.Some? && bases[a].idleSince <= bases[b].idleSince
    requires bases[b].refcount == 0 && !BeingReleased(releases, b)
    ensures idle(a) <= idle(b) && idle(b) > 0 && (a != b ==> idle(a) < idle(b))
  {
  }

  // ---- what a snapshot holds ----

  // A snapshot keeps the base it was given.
  predicate Keeps(s: State, h: Snap, id: BaseId, key: Option<Key>) {
    h in s.holders && s.holders[h] == id && id in s.bases && s.bases[id].key == key
  }

  lemma KeepsOn(s: State, step: Step, h: Snap, id: BaseId, key: Option<Key>)
    requires Enabled(s, step) && Keeps(s, h, id, key) && step != Drop(h)
    ensures Keeps(Do(s, step), h, id, key)
  {
  }

  lemma {:induction false} KeepsAlong(run: seq<State>, steps: seq<Step>, i: nat, j: nat, h: Snap, id: BaseId, key: Option<Key>)
    requires IsRun(run, steps) && i <= j < |run| && Keeps(run[i], h, id, key)
    requires forall m {:trigger steps[m]} :: i <= m < j ==> steps[m] != Drop(h)
    ensures Keeps(run[j], h, id, key)
    decreases j
  {
    if i < j {
      KeepsAlong(run, steps, i, j - 1, h, id, key);
      hide Keeps;
      KeepsOn(run[j - 1], steps[j - 1], h, id, key);
    }
  }

  // A snapshot that asked for a key has the entry's base, or a new one if there was no entry;
  // it stays that one, of that key and open, until the snapshot lets go of it. One without a
  // key shares the base that is in use, and else has a new one.
  lemma HoldsItsBase(run: seq<State>, steps: seq<Step>, i: nat, j: nat, h: Snap)
    requires IsRun(run, steps) && i < j < |run|
    requires (steps[i].GetKeyed? || steps[i].GetNoKey? || steps[i].ShareNoKey?) && steps[i].h == h
    requires forall m {:trigger steps[m]} :: i < m < j ==> steps[m] != Drop(h)
    ensures h in run[j].holders && run[j].holders[h] in run[j].bases && run[j].bases[run[j].holders[h]].closes == 0
    ensures steps[i].GetKeyed? ==>
              var key := steps[i].key;
              && run[j].bases[run[j].holders[h]].key == Some(key)
              && run[j].holders[h] == if key in run[i].roFiles then run[i].roFiles[key] else steps[i].novel
    ensures !steps[i].GetKeyed? ==> run[j].bases[run[j].holders[h]].key == None
    ensures steps[i].GetNoKey? ==>
              && run[j].holders[h] == steps[i].novel
              && (forall id :: id in run[i].bases && run[i].bases[id].key.None? ==> run[i].bases[id].refcount == 0)
    ensures steps[i].ShareNoKey? ==> Some(run[j].holders[h]) == run[i].roFileNoKey
  {
    RunKeepsInv(run, steps, i);
    assert Enabled(run[i], steps[i]) && run[i + 1] == Do(run[i], steps[i]);
    var key := if steps[i].GetKeyed? then Some(steps[i].key) else None;
    var id := run[i + 1].holders[h];
    assert Keeps(run[i + 1], h, id, key);
    KeepsAlong(run, steps, i + 1, j, h, id, key);
    BasesSafe(run, steps, j);
  }

  // ---- releases ----

  predicate OfRelease(step: Step, h: Snap) {
    step == Count(h) || step == Finish(h)
  }

  predicate Takes(step: Step, h: Snap) {
    (step.GetKeyed? || step.GetNoKey? || step.ShareNoKey?) && step.h == h
  }

  function ReleaseSteps(steps: seq<Step>, h: Snap, i: nat, j: nat): nat
    requires i <= j <= |steps|
    decreases j - i
  {
    if i == j then 0 else ReleaseSteps(steps, h, i, j - 1) + if OfRelease(steps[j - 1], h) then 1 else 0
  }

  predicate Releasing(s: State, h: Snap, id: BaseId, done: nat) {
    h !in s.holders &&
    if done == 0 then h in s.releases && s.releases[h] == Drained(id)
    else if done == 1 then h in s.releases && s.releases[h] == Counted(id)
    else h !in s.releases
  }

  // A release that was the last one ends with two more steps, between which others may come
  // in, and each of which can be taken, the second as soon as nobody has the server's lock.
  lemma {:induction false} ReleaseEnds(run: seq<State>, steps: seq<Step>, i: nat, j: nat, h: Snap)
    requires IsRun(run, steps) && i < j < |run| && steps[i] == Drop(h)
    requires forall m {:trigger steps[m]} :: i < m < j ==> !Takes(steps[m], h)
    ensures h in run[i].holders && run[i].holders[h] in run[i].bases
    ensures run[i].bases[run[i].holders[h]].refcount > 1 ==> Unused(run[j], h)
    ensures run[i].bases[run[i].holders[h]].refcount <= 1 ==>
              var done := ReleaseSteps(steps, h, i + 1, j);
              && Releasing(run[j], h, run[i].holders[h], done)
              && (done == 0 ==> Enabled(run[j], Count(h)))
              && (done == 1 && run[j].section.Free? ==> Enabled(run[j], Finish(h)))
              && (done >= 2 ==> Unused(run[j], h))
    decreases j
  {
    hide Inv, Do, Unused;
    RunKeepsInv(run, steps, i);
    assert Enabled(run[i], steps[i]) && run[i + 1] == Do(run[i], steps[i]);
    DropBegins(run[i], h);
    RunKeepsInv(run, steps, j);
    if i + 1 < j {
      ReleaseEnds(run, steps, i, j - 1, h);
      ReleaseGoesOn(run[j - 1], steps[j - 1], h, run[i].holders[h], ReleaseSteps(steps, h, i + 1, j - 1));
    }
    if run[i].bases[run[i].holders[h]].refcount <= 1 {
      ReleaseCanGoOn(run[j], h, run[i].holders[h], ReleaseSteps(steps, h, i + 1, j));
    }
  }

  lemma DropBegins(s: State, h: Snap)
    requires Inv(s) && Enabled(s, Drop(h))
    ensures if s.bases[s.holders[h]].refcount > 1 then Unused(Do(s, Drop(h)), h) else Releasing(Do(s, Drop(h)), h, s.holders[h], 0)
  {
  }

  lemma ReleaseCanGoOn(s: State, h: Snap, id: BaseId, done: nat)
    requires Inv(s) && Releasing(s, h, id, done)
    ensures done == 0 ==> Enabled(s, Count(h))
    ensures done == 1 && s.section.Free? ==> Enabled(s, Finish(h))
    ensures done >= 2 ==> Unused(s, h)
  {
  }

  lemma ReleaseGoesOn(s: State, step: Step, h: Snap, id: BaseId, done: nat)
    requires Enabled(s, step) && !Takes(step, h)
    ensures Releasing(s, h, id, done) ==> Releasing(Do(s, step), h, id, done + if OfRelease(step, h) then 1 else 0)
    ensures Unused(s, h) ==> Unused(Do(s, step), h)
  {
  }
}
