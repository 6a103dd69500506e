// The life of guestbd's base images: getBaseImageState, releaseBaseImageState and
// evictIdleLocked as a protocol over two locks. A step is what one goroutine does between
// releasing a lock and taking the next; refcounts may drop (under a base's own lock) at
// any point of a section that holds only the server's lock.
module BaseLifecycle {
  import opened Wrappers

  type Key = nat
  type BaseId = nat
  type Snap = nat  // a snapshot, named from the call that asks for its base on

  // One baseImageState. closes counts the Close calls on its base image.
  datatype Base = Base(key: Option<Key>, refcount: int, idleSince: nat, closes: nat)

  // A release that brought the refcount to zero and has not finished.
  datatype Unfinished = Drained(base: BaseId)    // before baseImagesActive.Add(-1)
                   | Counted(base: BaseId)    // before taking the server's lock

  // What the holder of the server's lock is in the middle of.
  datatype Section =
    | Free
    | Sharing(base: BaseId)                        // a nil-key call that saw a refcount above zero
    | Evicting(todo: set<Key>, idle: set<Key>)     // a pass of evictIdleLocked

  datatype State = State(
    maxIdle: nat,
    bases: map<BaseId, Base>,
    roFiles: map<Key, BaseId>,
    roFileNoKey: Option<BaseId>,
    nextIdleSeq: nat,
    active: int,                       // gauge_guestbd_base_images_active
    cached: int,                       // gauge_guestbd_base_images_cached
    section: Section,
    holders: map<Snap, BaseId>,
    releases: map<Snap, Unfinished>,
    revived: nat)                      // history: nil-key shares that found the refcount back at zero

  datatype Step =
    | GetKeyed(h: Snap, key: Key, novel: BaseId)
    | GetNoKey(h: Snap, novel: BaseId)  // nothing to share: replaces an idle base, if any
    | PeekNoKey                         // reads a refcount above zero ...
    | ShareNoKey(h: Snap)               // ... and raises it in a second locked section
    | Drop(h: Snap)                     // the decrement
    | Count(h: Snap)                    // baseImagesActive.Add(-1)
    | Finish(h: Snap)                   // the section under the server's lock
    | Inspect(key: Key)                 // evictIdleLocked reads one entry's refcount
    | Evict(key: Key)                   // a pass found too many idle entries
    | StopEvicting

  predicate Unused(s: State, h: Snap) {
    h !in s.holders && h !in s.releases
  }

  predicate Enabled(s: State, step: Step) {
    match step
    case GetKeyed(h, key, novel) => s.section.Free? && Unused(s, h) && novel !in s.bases
    case GetNoKey(h, novel) =>
      && s.section.Free? && Unused(s, h) && novel !in s.bases
      && (s.roFileNoKey.Some? ==> s.roFileNoKey.value in s.bases && s.bases[s.roFileNoKey.value].refcount <= 0)
    case PeekNoKey =>
      s.section.Free? && s.roFileNoKey.Some? && s.roFileNoKey.value in s.bases && s.bases[s.roFileNoKey.value].refcount > 0
    case ShareNoKey(h) => s.section.Sharing? && Unused(s, h) && s.section.base in s.bases
    case Drop(h) => h in s.holders && s.holders[h] in s.bases
    case Count(h) => h in s.releases && s.releases[h].Drained?
    case Finish(h) => s.section.Free? && h in s.releases && s.releases[h].Counted? && s.releases[h].base in s.bases
    case Inspect(key) => s.section.Evicting? && key in s.section.todo && key in s.roFiles && s.roFiles[key] in s.bases
    case Evict(key) =>
      && s.section.Evicting? && s.section.todo == {} && |s.section.idle| > s.maxIdle
      && key in s.section.idle && Oldest(s, key)
    case StopEvicting => s.section.Evicting? && s.section.todo == {} && |s.section.idle| <= s.maxIdle
  }

  // key is the least recently idle of the entries the pass found idle.
  predicate Oldest(s: State, key: Key)
    requires s.section.Evicting?
  {
    && key in s.roFiles && s.roFiles[key] in s.bases
    && forall k :: k in s.section.idle ==> k in s.roFiles && s.roFiles[k] in s.bases &&
                                           s.bases[s.roFiles[key]].idleSince <= s.bases[s.roFiles[k]].idleSince
  }

  function StartEvicting(s: State): State {
    s.(section := Evicting(s.roFiles.Keys, {}))
  }

  function Do(s: State, step: Step): State
    requires Enabled(s, step)
  {
    match step
    case GetKeyed(h, key, novel) =>
      if key in s.roFiles && s.roFiles[key] in s.bases then Reuse(s, h, s.roFiles[key])
      else StartEvicting(Entered(s, h, key, novel))
    case GetNoKey(h, novel) => Replace(s, h, novel)
    case PeekNoKey => s.(section := Sharing(s.roFileNoKey.value))
    case ShareNoKey(h) => Share(s, h, s.section.base)
    case Drop(h) => Release(s, h, s.holders[h])
    case Count(h) => s.(active := s.active - 1, releases := s.releases[h := Counted(s.releases[h].base)])
    case Finish(h) =>
      if s.bases[s.releases[h].base].key.None? then s.(releases := s.releases - {h})
      else StartEvicting(Idled(s, h, s.releases[h].base))
    case Inspect(key) =>
      var idle := if s.bases[s.roFiles[key]].refcount == 0 then s.section.idle + {key} else s.section.idle;
      s.(section := Evicting(s.section.todo - {key}, idle))
    case Evict(key) => StartEvicting(Unlisted(s, key, s.roFiles[key]))
    case StopEvicting => s.(section := Free)
  }

  // A keyed call that finds its entry, active or idle.
  function Reuse(s: State, h: Snap, id: BaseId): State
    requires id in s.bases
  {
    var ro := s.bases[id];
    var wasIdle := ro.refcount == 0;
    s.(bases := s.bases[id := ro.(refcount := ro.refcount + 1, idleSince := if wasIdle then 0 else ro.idleSince)],
       active := if wasIdle then s.active + 1 else s.active,
       holders := s.holders[h := id])
  }

  // A keyed call that finds none enters a new base; evictIdleLocked follows.
  function Entered(s: State, h: Snap, key: Key, novel: BaseId): State {
    s.(bases := s.bases[novel := Base(Some(key), 1, 0, 0)],
       roFiles := s.roFiles[key := novel],
       active := s.active + 1, cached := s.cached + 1,
       holders := s.holders[h := novel])
  }

  // A nil-key call with nothing to share.
  function Replace(s: State, h: Snap, novel: BaseId): State
    requires s.roFileNoKey.Some? ==> s.roFileNoKey.value in s.bases
  {
    var bases := if s.roFileNoKey.None? then s.bases else Closed(s.bases, s.roFileNoKey.value);
    s.(bases := bases[novel := Base(None, 1, 0, 0)],
       roFileNoKey := Some(novel),
       active := s.active + 1,
       cached := if s.roFileNoKey.None? then s.cached + 1 else s.cached - 1 + 1,
       holders := s.holders[h := novel])
  }

  function Closed(bases: map<BaseId, Base>, id: BaseId): map<BaseId, Base>
    requires id in bases
  {
    bases[id := bases[id].(closes := bases[id].closes + 1)]
  }

  function Share(s: State, h: Snap, id: BaseId): State
    requires id in s.bases
  {
    var ro := s.bases[id];
    s.(bases := s.bases[id := ro.(refcount := ro.refcount + 1)],
       holders := s.holders[h := id],
       section := Free,
       revived := if ro.refcount == 0 then s.revived + 1 else s.revived)
  }

  function Release(s: State, h: Snap, id: BaseId): State
    requires id in s.bases
  {
    var ro := s.bases[id];
    s.(bases := s.bases[id := ro.(refcount := ro.refcount - 1)],
       holders := s.holders - {h},
       releases := if ro.refcount - 1 > 0 then s.releases else s.releases[h := Drained(id)])
  }

  // The locked end of a release of a keyed base; evictIdleLocked follows.
  function Idled(s: State, h: Snap, id: BaseId): State
    requires id in s.bases
  {
    s.(releases := s.releases - {h}, nextIdleSeq := s.nextIdleSeq + 1,
       bases := s.bases[id := s.bases[id].(idleSince := s.nextIdleSeq + 1)])
  }

  // One eviction; another pass follows.
  function Unlisted(s: State, key: Key, id: BaseId): State
    requires id in s.bases
  {
    s.(bases := Closed(s.bases, id), roFiles := s.roFiles - {key}, cached := s.cached - 1)
  }

  type Bases = map<BaseId, Base>

  function HoldersOf(holders: map<Snap, BaseId>, id: BaseId): set<Snap> {
    set h | h in holders && holders[h] == id
  }

  function InUse(bases: Bases): set<BaseId> {
    set id | id in bases && bases[id].refcount > 0
  }

  function Uncounted(releases: map<Snap, Unfinished>): set<Snap> {
    set h | h in releases && releases[h].Drained?
  }

  predicate Registered(bases: Bases, roFiles: map<Key, BaseId>, noKey: Option<BaseId>, id: BaseId) {
    id in bases &&
    match bases[id].key
    case None => noKey == Some(id)
    case Some(key) => key in roFiles && roFiles[key] == id
  }

  // Some release of this base has dropped the last reference and not finished.
  ghost predicate BeingReleased(releases: map<Snap, Unfinished>, id: BaseId) {
    exists h :: h in releases && releases[h].base == id
  }

  // Idle entries of roFiles that no release is still working on.
  ghost function SettledIdle(bases: Bases, roFiles: map<Key, BaseId>, releases: map<Snap, Unfinished>): set<Key> {
    set k | k in roFiles && roFiles[k] in bases && bases[roFiles[k]].refcount == 0 && !BeingReleased(releases, roFiles[k])
  }

  // Both tables point at bases of the right key, and exactly the bases in neither are closed, once.
  ghost predicate Registry(bases: Bases, roFiles: map<Key, BaseId>, noKey: Option<BaseId>) {
    && (forall k :: k in roFiles ==> roFiles[k] in bases && bases[roFiles[k]].key == Some(k))
    && (noKey.Some? ==> noKey.value in bases && bases[noKey.value].key == None)
    && (forall id :: id in bases ==> bases[id].closes == if Registered(bases, roFiles, noKey, id) then 0 else 1)
  }

  // A refcount counts the snapshots on the base.
  ghost predicate Counts(bases: Bases, holders: map<Snap, BaseId>) {
    && (forall h :: h in holders ==> holders[h] in bases)
    && (forall id :: id in bases ==> bases[id].refcount == |HoldersOf(holders, id)|)
  }

  ghost predicate Pinned(bases: Bases, roFiles: map<Key, BaseId>, noKey: Option<BaseId>) {
    forall id :: id in bases && bases[id].refcount > 0 ==> Registered(bases, roFiles, noKey, id)
  }

  ghost predicate SectionSound(section: Section, maxIdle: nat, bases: Bases, roFiles: map<Key, BaseId>,
                               noKey: Option<BaseId>, releases: map<Snap, Unfinished>) {
    match section
    case Free => |SettledIdle(bases, roFiles, releases)| <= maxIdle
    case Sharing(id) => noKey == Some(id) && |SettledIdle(bases, roFiles, releases)| <= maxIdle
    case Evicting(todo, idle) =>
      && todo <= roFiles.Keys && idle <= roFiles.Keys && todo !! idle
      && (forall k :: k in idle ==> roFiles[k] in bases && bases[roFiles[k]].refcount == 0)
      && SettledIdle(bases, roFiles, releases) <= todo + idle
  }

  ghost predicate Tables(s: State) {
    && Registry(s.bases, s.roFiles, s.roFileNoKey)
    && Counts(s.bases, s.holders)
    && Pinned(s.bases, s.roFiles, s.roFileNoKey)
    && s.holders.Keys !! s.releases.Keys
    && (forall h :: h in s.releases ==> s.releases[h].base in s.bases)
  }

  ghost predicate Sections(s: State) {
    SectionSound(s.section, s.maxIdle, s.bases, s.roFiles, s.roFileNoKey, s.releases)
  }

  ghost predicate Gauges(s: State) {
    && s.active == |InUse(s.bases)| + |Uncounted(s.releases)| - s.revived
    && s.cached == |s.roFiles| + (if s.roFileNoKey.Some? then 1 else 0)
  }

  ghost predicate Inv(s: State) {
    Tables(s) && Sections(s) && Gauges(s)
  }

  predicate Fresh(s: State) {
    && s.bases == map[] && s.roFiles == map[] && s.roFileNoKey == None && s.section == Free
    && s.holders == map[] && s.releases == map[] && s.active == 0 && s.cached == 0 && s.revived == 0
  }

  lemma SubsetSmaller<T>(a: set<T>, b: set<T>)
    requires a <= b
    ensures |a| <= |b|
  {
    assert b == a + (b - a);
  }

  // The bases of two states but for refcounts and idle times.
  ghost predicate SameImages(bases: Bases, bases': Bases) {
    bases'.Keys == bases.Keys &&
    forall id :: id in bases ==> bases'[id].key == bases[id].key && bases'[id].closes == bases[id].closes
  }

  lemma RegistryFramed(bases: Bases, bases': Bases, roFiles: map<Key, BaseId>, noKey: Option<BaseId>)
    requires Registry(bases, roFiles, noKey) && SameImages(bases, bases')
    ensures Registry(bases', roFiles, noKey)
    ensures forall id :: Registered(bases, roFiles, noKey, id) <==> Registered(bases', roFiles, noKey, id)
  {
  }

  lemma HolderAdded(holders: map<Snap, BaseId>, h: Snap, id: BaseId)
    requires h !in holders
    ensures |HoldersOf(holders[h := id], id)| == |HoldersOf(holders, id)| + 1
    ensures forall other :: other != id ==> HoldersOf(holders[h := id], other) == HoldersOf(holders, other)
  {
    assert HoldersOf(holders[h := id], id) == HoldersOf(holders, id) + {h};
  }

  lemma HolderRemoved(holders: map<Snap, BaseId>, h: Snap)
    requires h in holders
    ensures |HoldersOf(holders - {h}, holders[h])| == |HoldersOf(holders, holders[h])| - 1
    ensures forall other :: other != holders[h] ==> HoldersOf(holders - {h}, other) == HoldersOf(holders, other)
  {
    assert HoldersOf(holders, holders[h]) == HoldersOf(holders - {h}, holders[h]) + {h};
  }

  lemma HeldIsReferenced(bases: Bases, holders: map<Snap, BaseId>, h: Snap)
    requires Counts(bases, holders) && h in holders
    ensures bases[holders[h]].refcount >= 1
  {
    assert h in HoldersOf(holders, holders[h]);
  }

  function Rereferenced(bases: Bases, id: BaseId, delta: int, idleSince: nat): Bases
    requires id in bases
  {
    bases[id := bases[id].(refcount := bases[id].refcount + delta, idleSince := idleSince)]
  }

  // One more snapshot on a registered base.
  lemma Raised(bases: Bases, roFiles: map<Key, BaseId>, noKey: Option<BaseId>, holders: map<Snap, BaseId>,
               h: Snap, id: BaseId, idleSince: nat)
    requires Registry(bases, roFiles, noKey) && Counts(bases, holders) && Pinned(bases, roFiles, noKey)
    requires h !in holders && Registered(bases, roFiles, noKey, id)
    ensures var bases' := Rereferenced(bases, id, 1, idleSince);
            Registry(bases', roFiles, noKey) && Counts(bases', holders[h := id]) && Pinned(bases', roFiles, noKey)
  {
    RegistryFramed(bases, Rereferenced(bases, id, 1, idleSince), roFiles, noKey);
    HolderAdded(holders, h, id);
  }

  lemma RaisedSets(bases: Bases, roFiles: map<Key, BaseId>, holders: map<Snap, BaseId>,
                   releases: map<Snap, Unfinished>, id: BaseId, idleSince: nat)
    requires Counts(bases, holders) && id in bases
    ensures var bases' := Rereferenced(bases, id, 1, idleSince);
            && |InUse(bases')| == |InUse(bases)| + (if bases[id].refcount == 0 then 1 else 0)
            && |SettledIdle(bases', roFiles, releases)| <= |SettledIdle(bases, roFiles, releases)|
  {
    var bases' := Rereferenced(bases, id, 1, idleSince);
    assert bases[id].refcount == |HoldersOf(holders, id)|;
    InUseRaised(bases, id, idleSince);
    SubsetSmaller(SettledIdle(bases', roFiles, releases), SettledIdle(bases, roFiles, releases));
  }

  lemma InUseRaised(bases: Bases, id: BaseId, idleSince: nat)
    requires id in bases && bases[id].refcount >= 0
    ensures |InUse(Rereferenced(bases, id, 1, idleSince))| == |InUse(bases)| + (if bases[id].refcount == 0 then 1 else 0)
  {
    var bases' := Rereferenced(bases, id, 1, idleSince);
    if bases[id].refcount == 0 {
      assert InUse(bases') == InUse(bases) + {id} && id !in InUse(bases);
    } else {
      assert InUse(bases') == InUse(bases);
    }
  }

  lemma ReuseKept(s: State, h: Snap, key: Key)
    requires Inv(s) && s.section.Free? && Unused(s, h) && key in s.roFiles
    ensures Inv(Reuse(s, h, s.roFiles[key]))
  {
    ReuseKeepsTables(s, h, key);
    ReuseKeepsGauges(s, h, key);
  }

  lemma ReuseKeepsTables(s: State, h: Snap, key: Key)
    requires Tables(s) && Unused(s, h) && key in s.roFiles
    ensures Tables(Reuse(s, h, s.roFiles[key]))
  {
    var id := s.roFiles[key];
    var idleSince := if s.bases[id].refcount == 0 then 0 else s.bases[id].idleSince;
    Raised(s.bases, s.roFiles, s.roFileNoKey, s.holders, h, id, idleSince);
    assert Reuse(s, h, id).bases == Rereferenced(s.bases, id, 1, idleSince);
  }

  lemma ReuseKeepsGauges(s: State, h: Snap, key: Key)
    requires Inv(s) && s.section.Free? && Unused(s, h) && key in s.roFiles
    ensures Sections(Reuse(s, h, s.roFiles[key])) && Gauges(Reuse(s, h, s.roFiles[key]))
  {
    var id := s.roFiles[key];
    var idleSince := if s.bases[id].refcount == 0 then 0 else s.bases[id].idleSince;
    RaisedSets(s.bases, s.roFiles, s.holders, s.releases, id, idleSince);
    assert Reuse(s, h, id).bases == Rereferenced(s.bases, id, 1, idleSince);
  }

  lemma ShareKept(s: State, h: Snap)
    requires Inv(s) && Enabled(s, ShareNoKey(h))
    ensures Inv(Share(s, h, s.section.base))
  {
    var id := s.section.base;
    Raised(s.bases, s.roFiles, s.roFileNoKey, s.holders, h, id, s.bases[id].idleSince);
    RaisedSets(s.bases, s.roFiles, s.holders, s.releases, id, s.bases[id].idleSince);
    assert Share(s, h, id).bases == Rereferenced(s.bases, id, 1, s.bases[id].idleSince);
  }

  // A new base with one holder, registered where nothing live was.
  lemma CountsNew(bases: Bases, holders: map<Snap, BaseId>, h: Snap, novel: BaseId, base: Base)
    requires Counts(bases, holders) && h !in holders && novel !in bases && base.refcount == 1
    ensures Counts(bases[novel := base], holders[h := novel])
  {
    HolderAdded(holders, h, novel);
    assert HoldersOf(holders, novel) == {};
  }

  lemma InUseNew(bases: Bases, novel: BaseId, base: Base)
    requires novel !in bases && base.refcount == 1
    ensures |InUse(bases[novel := base])| == |InUse(bases)| + 1
  {
    assert InUse(bases[novel := base]) == InUse(bases) + {novel};
  }

  lemma EntriesOneMore(roFiles: map<Key, BaseId>, key: Key, novel: BaseId)
    requires key !in roFiles
    ensures |roFiles[key := novel]| == |roFiles| + 1
  {
  }

  lemma RegistryNewKey(bases: Bases, roFiles: map<Key, BaseId>, noKey: Option<BaseId>, key: Key, novel: BaseId)
    requires Registry(bases, roFiles, noKey) && Pinned(bases, roFiles, noKey) && key !in roFiles && novel !in bases
    ensures var bases', roFiles' := bases[novel := Base(Some(key), 1, 0, 0)], roFiles[key := novel];
            Registry(bases', roFiles', noKey) && Pinned(bases', roFiles', noKey)
  {
  }

  lemma EnterKept(s: State, h: Snap, key: Key, novel: BaseId)
    requires Inv(s) && s.section.Free? && Unused(s, h) && key !in s.roFiles && novel !in s.bases
    ensures Inv(StartEvicting(Entered(s, h, key, novel)))
  {
    EnteredTables(s, h, key, novel);
    EnteredGauges(s, h, key, novel);
    PassStarts(Entered(s, h, key, novel));
  }

  lemma EnteredTables(s: State, h: Snap, key: Key, novel: BaseId)
    requires Tables(s) && Unused(s, h) && key !in s.roFiles && novel !in s.bases
    ensures Tables(Entered(s, h, key, novel))
  {
    RegistryNewKey(s.bases, s.roFiles, s.roFileNoKey, key, novel);
    CountsNew(s.bases, s.holders, h, novel, Base(Some(key), 1, 0, 0));
  }

  lemma EnteredGauges(s: State, h: Snap, key: Key, novel: BaseId)
    requires Gauges(s) && key !in s.roFiles && novel !in s.bases
    ensures Gauges(Entered(s, h, key, novel))
  {
    InUseNew(s.bases, novel, Base(Some(key), 1, 0, 0));
    EntriesOneMore(s.roFiles, key, novel);
  }

  lemma RegistryClosedNoKey(bases: Bases, roFiles: map<Key, BaseId>, noKey: Option<BaseId>)
    requires Registry(bases, roFiles, noKey) && Pinned(bases, roFiles, noKey)
    requires noKey.Some? && bases[noKey.value].refcount <= 0
    ensures var bases' := Closed(bases, noKey.value);
            Registry(bases', roFiles, None) && Pinned(bases', roFiles, None)
  {
  }

  lemma RegistryNewNoKey(bases: Bases, roFiles: map<Key, BaseId>, novel: BaseId)
    requires Registry(bases, roFiles, None) && Pinned(bases, roFiles, None) && novel !in bases
    ensures var bases' := bases[novel := Base(None, 1, 0, 0)];
            Registry(bases', roFiles, Some(novel)) && Pinned(bases', roFiles, Some(novel))
  {
  }

  lemma ClosingKeepsCounts(bases: Bases, roFiles: map<Key, BaseId>, holders: map<Snap, BaseId>,
                           releases: map<Snap, Unfinished>, id: BaseId)
    requires id in bases && Counts(bases, holders)
    ensures Counts(Closed(bases, id), holders) && InUse(Closed(bases, id)) == InUse(bases)
    ensures SettledIdle(Closed(bases, id), roFiles, releases) == SettledIdle(bases, roFiles, releases)
  {
  }

  lemma ReplaceKeepsTables(s: State, h: Snap, novel: BaseId)
    requires Tables(s) && Enabled(s, GetNoKey(h, novel))
    ensures Tables(Replace(s, h, novel))
  {
    var bases := if s.roFileNoKey.None? then s.bases else Closed(s.bases, s.roFileNoKey.value);
    if s.roFileNoKey.Some? {
      RegistryClosedNoKey(s.bases, s.roFiles, s.roFileNoKey);
      ClosingKeepsCounts(s.bases, s.roFiles, s.holders, s.releases, s.roFileNoKey.value);
    }
    RegistryNewNoKey(bases, s.roFiles, novel);
    CountsNew(bases, s.holders, h, novel, Base(None, 1, 0, 0));
  }

  lemma ReplaceKept(s: State, h: Snap, novel: BaseId)
    requires Inv(s) && Enabled(s, GetNoKey(h, novel))
    ensures Sections(Replace(s, h, novel)) && Gauges(Replace(s, h, novel))
  {
    var bases := if s.roFileNoKey.None? then s.bases else Closed(s.bases, s.roFileNoKey.value);
    if s.roFileNoKey.Some? {
      ClosingKeepsCounts(s.bases, s.roFiles, s.holders, s.releases, s.roFileNoKey.value);
    }
    InUseNew(bases, novel, Base(None, 1, 0, 0));
    assert SettledIdle(bases[novel := Base(None, 1, 0, 0)], s.roFiles, s.releases) ==
           SettledIdle(bases, s.roFiles, s.releases);
  }

  // One snapshot fewer on a base.
  lemma Lowered(bases: Bases, roFiles: map<Key, BaseId>, noKey: Option<BaseId>, holders: map<Snap, BaseId>, h: Snap)
    requires Registry(bases, roFiles, noKey) && Counts(bases, holders) && Pinned(bases, roFiles, noKey) && h in holders
    ensures var id := holders[h];
            var bases' := Rereferenced(bases, id, -1, bases[id].idleSince);
            && bases[id].refcount >= 1
            && Registry(bases', roFiles, noKey) && Counts(bases', holders - {h}) && Pinned(bases', roFiles, noKey)
            && |InUse(bases')| == |InUse(bases)| - (if bases[id].refcount == 1 then 1 else 0)
  {
    var id := holders[h];
    var bases' := Rereferenced(bases, id, -1, bases[id].idleSince);
    HeldIsReferenced(bases, holders, h);
    RegistryFramed(bases, bases', roFiles, noKey);
    HolderRemoved(holders, h);
    if bases[id].refcount == 1 {
      assert InUse(bases) == InUse(bases') + {id};
    } else {
      assert InUse(bases) == InUse(bases');
    }
  }

  // A base that has just gone idle is being released, so it does not count as settled.
  lemma LoweredSettled(bases: Bases, roFiles: map<Key, BaseId>, releases: map<Snap, Unfinished>, h: Snap, id: BaseId)
    requires id in bases && bases[id].refcount >= 1 && h !in releases
    ensures var bases' := Rereferenced(bases, id, -1, bases[id].idleSince);
            var releases' := if bases[id].refcount - 1 > 0 then releases else releases[h := Drained(id)];
            SettledIdle(bases', roFiles, releases') <= SettledIdle(bases, roFiles, releases)
  {
    var releases' := if bases[id].refcount - 1 > 0 then releases else releases[h := Drained(id)];
    forall b | BeingReleased(releases, b) ensures BeingReleased(releases', b) {
      var g :| g in releases && releases[g].base == b;
      assert releases'[g].base == b;
    }
    if bases[id].refcount == 1 {
      assert releases'[h].base == id;
      assert BeingReleased(releases', id);
    }
  }

  lemma ReleaseKept(s: State, h: Snap)
    requires Inv(s) && Enabled(s, Drop(h))
    ensures Tables(Release(s, h, s.holders[h])) && Gauges(Release(s, h, s.holders[h]))
  {
    var id := s.holders[h];
    Lowered(s.bases, s.roFiles, s.roFileNoKey, s.holders, h);
    UncountedOneMore(s.releases, h, id);
    assert Release(s, h, id).bases == Rereferenced(s.bases, id, -1, s.bases[id].idleSince);
  }

  lemma UncountedOneMore(releases: map<Snap, Unfinished>, h: Snap, id: BaseId)
    requires h !in releases
    ensures |Uncounted(releases[h := Drained(id)])| == |Uncounted(releases)| + 1
  {
    assert Uncounted(releases[h := Drained(id)]) == Uncounted(releases) + {h};
  }

  lemma UncountedOneLess(releases: map<Snap, Unfinished>, h: Snap, id: BaseId)
    requires h in releases && releases[h].Drained?
    ensures |Uncounted(releases[h := Counted(id)])| == |Uncounted(releases)| - 1
  {
    assert Uncounted(releases) == Uncounted(releases[h := Counted(id)]) + {h};
  }

  lemma ReleaseKeepsSection(s: State, h: Snap)
    requires Inv(s) && Enabled(s, Drop(h))
    ensures Sections(Release(s, h, s.holders[h]))
  {
    var id := s.holders[h];
    var s' := Release(s, h, id);
    HeldIsReferenced(s.bases, s.holders, h);
    LoweredSettled(s.bases, s.roFiles, s.releases, h, id);
    assert s'.bases == Rereferenced(s.bases, id, -1, s.bases[id].idleSince);
    SubsetSmaller(SettledIdle(s'.bases, s.roFiles, s'.releases), SettledIdle(s.bases, s.roFiles, s.releases));
  }

  lemma CountKeepsSettled(bases: Bases, roFiles: map<Key, BaseId>, releases: map<Snap, Unfinished>, h: Snap)
    requires h in releases
    ensures SettledIdle(bases, roFiles, releases[h := Counted(releases[h].base)]) == SettledIdle(bases, roFiles, releases)
  {
    var releases' := releases[h := Counted(releases[h].base)];
    forall id ensures BeingReleased(releases, id) <==> BeingReleased(releases', id) {
      if g :| g in releases && releases[g].base == id {
        assert releases'[g].base == id;
      }
      if g :| g in releases' && releases'[g].base == id {
        assert releases[g].base == id;
      }
    }
  }

  lemma CountKeepsSection(s: State, h: Snap)
    requires Sections(s) && Enabled(s, Count(h))
    ensures Sections(Do(s, Count(h)))
  {
    CountKeepsSettled(s.bases, s.roFiles, s.releases, h);
  }

  lemma CountKeepsTables(s: State, h: Snap)
    requires Tables(s) && Enabled(s, Count(h))
    ensures Tables(Do(s, Count(h)))
  {
  }

  lemma CountKeepsGauges(s: State, h: Snap)
    requires Gauges(s) && Enabled(s, Count(h))
    ensures Gauges(Do(s, Count(h)))
  {
    UncountedOneLess(s.releases, h, s.releases[h].base);
  }

  // A release of a base without a key has no entry of roFiles to unsettle.
  lemma FinishNoKeySettled(s: State, h: Snap)
    requires Tables(s) && h in s.releases && s.bases[s.releases[h].base].key.None?
    ensures SettledIdle(s.bases, s.roFiles, s.releases - {h}) <= SettledIdle(s.bases, s.roFiles, s.releases)
  {
    forall k | k in s.roFiles && BeingReleased(s.releases, s.roFiles[k])
      ensures BeingReleased(s.releases - {h}, s.roFiles[k])
    {
      var g :| g in s.releases && s.releases[g].base == s.roFiles[k];
      assert (s.releases - {h})[g].base == s.roFiles[k];
    }
  }

  lemma FinishNoKeyKept(s: State, h: Snap)
    requires Inv(s) && Enabled(s, Finish(h)) && s.bases[s.releases[h].base].key.None?
    requires Uncounted(s.releases - {h}) == Uncounted(s.releases)
    ensures Inv(s.(releases := s.releases - {h}))
  {
    FinishNoKeySettled(s, h);
    SubsetSmaller(SettledIdle(s.bases, s.roFiles, s.releases - {h}), SettledIdle(s.bases, s.roFiles, s.releases));
  }

  // A pass of evictIdleLocked may start in any state whose tables and gauges are right.
  lemma PassStarts(s: State)
    requires Tables(s) && Gauges(s)
    ensures Inv(StartEvicting(s))
  {
  }

  lemma IdledTables(s: State, h: Snap)
    requires Tables(s) && h in s.releases
    ensures Tables(Idled(s, h, s.releases[h].base))
  {
  }

  lemma IdledGauges(s: State, h: Snap)
    requires Gauges(s) && h in s.releases && s.releases[h].Counted? && s.releases[h].base in s.bases
    ensures Gauges(Idled(s, h, s.releases[h].base))
  {
    var s' := Idled(s, h, s.releases[h].base);
    assert Uncounted(s'.releases) == Uncounted(s.releases);
    assert InUse(s'.bases) == InUse(s.bases);
  }

  lemma FinishKeyedKept(s: State, h: Snap)
    requires Inv(s) && Enabled(s, Finish(h)) && s.bases[s.releases[h].base].key.Some?
    requires Uncounted(s.releases - {h}) == Uncounted(s.releases)
    ensures Inv(StartEvicting(Idled(s, h, s.releases[h].base)))
  {
    IdledTables(s, h);
    IdledGauges(s, h);
    PassStarts(Idled(s, h, s.releases[h].base));
  }

  lemma FinishKept(s: State, h: Snap)
    requires Inv(s) && Enabled(s, Finish(h))
    ensures Inv(Do(s, Finish(h)))
  {
    assert Uncounted(s.releases - {h}) == Uncounted(s.releases);
    if s.bases[s.releases[h].base].key.None? {
      FinishNoKeyKept(s, h);
    } else {
      FinishKeyedKept(s, h);
    }
  }

  lemma RegistryEvicted(bases: Bases, roFiles: map<Key, BaseId>, noKey: Option<BaseId>, key: Key)
    requires Registry(bases, roFiles, noKey) && Pinned(bases, roFiles, noKey)
    requires key in roFiles && bases[roFiles[key]].refcount == 0
    ensures var bases', roFiles' := Closed(bases, roFiles[key]), roFiles - {key};
            Registry(bases', roFiles', noKey) && Pinned(bases', roFiles', noKey)
  {
  }

  lemma EvictKept(s: State, key: Key)
    requires Inv(s) && Enabled(s, Evict(key))
    ensures Inv(StartEvicting(Unlisted(s, key, s.roFiles[key])))
  {
    var id := s.roFiles[key];
    RegistryEvicted(s.bases, s.roFiles, s.roFileNoKey, key);
    ClosingKeepsCounts(s.bases, s.roFiles, s.holders, s.releases, id);
    assert s.roFiles.Keys == (s.roFiles - {key}).Keys + {key};
    PassStarts(Unlisted(s, key, id));
  }

  lemma StopKept(s: State)
    requires Inv(s) && Enabled(s, StopEvicting)
    ensures Inv(Do(s, StopEvicting))
  {
    SubsetSmaller(SettledIdle(s.bases, s.roFiles, s.releases), s.section.idle);
  }

  lemma InspectKept(s: State, key: Key)
    requires Inv(s) && Enabled(s, Inspect(key))
    ensures Inv(Do(s, Inspect(key)))
  {
  }

  lemma PeekKept(s: State)
    requires Inv(s) && Enabled(s, PeekNoKey)
    ensures Inv(Do(s, PeekNoKey))
  {
  }

  lemma StepKeepsInv(s: State, step: Step)
    requires Inv(s) && Enabled(s, step)
    ensures Inv(Do(s, step))
  {
    match step
    case GetKeyed(h, key, novel) => if key in s.roFiles { ReuseKept(s, h, key); } else { EnterKept(s, h, key, novel); }
    case GetNoKey(h, novel) => ReplaceKeepsTables(s, h, novel); ReplaceKept(s, h, novel);
    case PeekNoKey => PeekKept(s);
    case ShareNoKey(h) => ShareKept(s, h);
    case Drop(h) => ReleaseKept(s, h); ReleaseKeepsSection(s, h);
    case Count(h) => CountKeepsTables(s, h); CountKeepsGauges(s, h); CountKeepsSection(s, h);
    case Finish(h) => FinishKept(s, h);
    case Inspect(key) => InspectKept(s, key);
    case Evict(key) => EvictKept(s, key);
    case StopEvicting => StopKept(s);
  }

  // The states a run passes through, first to last.
  ghost predicate IsRun(run: seq<State>, steps: seq<Step>) {
    && |run| == |steps| + 1 && Fresh(run[0])
    && forall k {:trigger steps[k]} :: 0 <= k < |steps| ==> Enabled(run[k], steps[k]) && run[k + 1] == Do(run[k], steps[k])
  }

  lemma {:induction false} RunKeepsInv(run: seq<State>, steps: seq<Step>, k: nat)
    requires IsRun(run, steps) && k < |run|
    ensures Inv(run[k])
  {
    if k == 0 {
      FreshInv(run[0]);
    } else {
      RunKeepsInv(run, steps, k - 1);
      StepKeepsInv(run[k - 1], steps[k - 1]);
    }
  }

  lemma FreshInv(s: State)
    requires Fresh(s)
    ensures Inv(s)
  {
  }

  // Every interleaving: no base is closed under a snapshot or twice, a key has one live
  // state, and once no release is unfinished and no pass is on, at most maxIdle entries
  // are idle.
  lemma BasesSafe(run: seq<State>, steps: seq<Step>, k: nat)
    requires IsRun(run, steps) && k < |run|
    ensures var s := run[k];
            && (forall h :: h in s.holders ==> s.holders[h] in s.bases && s.bases[s.holders[h]].closes == 0)
            && (forall id :: id in s.bases ==> s.bases[id].closes <= 1)
            && (forall a, b | a in s.bases && b in s.bases && s.bases[a].key == s.bases[b].key
                  :: s.bases[a].closes == 0 && s.bases[b].closes == 0 ==> a == b)
    ensures var s := run[k];
            s.releases == map[] && !s.section.Evicting? ==>
              |set key | key in s.roFiles && s.roFiles[key] in s.bases && s.bases[s.roFiles[key]].refcount == 0| <= s.maxIdle
  {
    RunKeepsInv(run, steps, k);
    var s := run[k];
    forall h | h in s.holders ensures s.bases[s.holders[h]].closes == 0 {
      HeldIsReferenced(s.bases, s.holders, h);
    }
    forall a, b | a in s.bases && b in s.bases && s.bases[a].key == s.bases[b].key &&
                  s.bases[a].closes == 0 && s.bases[b].closes == 0
      ensures a == b
    {
      assert Registered(s.bases, s.roFiles, s.roFileNoKey, a) && Registered(s.bases, s.roFiles, s.roFileNoKey, b);
    }
    if s.releases == map[] {
      assert SettledIdle(s.bases, s.roFiles, s.releases) ==
             set key | key in s.roFiles && s.roFiles[key] in s.bases && s.bases[s.roFiles[key]].refcount == 0;
    }
  }

  // The active gauge counts bases in use and releases that have not adjusted it yet, if
  // and only if no nil-key share of the run found its base's refcount back at zero.
  lemma ActiveGaugeExact(run: seq<State>, steps: seq<Step>, k: nat)
    requires IsRun(run, steps) && k < |run|
    ensures run[k].active == |InUse(run[k].bases)| + |Uncounted(run[k].releases)| <==>
            forall j {:trigger steps[j]} :: 0 <= j < k ==> !Revives(run[j], steps[j])
    ensures run[k].active <= |InUse(run[k].bases)| + |Uncounted(run[k].releases)|
    ensures run[k].cached == |run[k].roFiles| + (if run[k].roFileNoKey.Some? then 1 else 0)
  {
    RunKeepsInv(run, steps, k);
    RevivedCounts(run, steps, k);
  }

  lemma {:induction false} RevivedCounts(run: seq<State>, steps: seq<Step>, k: nat)
    requires IsRun(run, steps) && k < |run|
    ensures run[k].revived == 0 <==>
            forall j {:trigger steps[j]} :: 0 <= j < k ==> !Revives(run[j], steps[j])
  {
    hide Do, Enabled, Inv, Revives;
    if k > 0 {
      RevivedCounts(run, steps, k - 1);
      RunKeepsInv(run, steps, k - 1);
      RevivedByStep(run[k - 1], steps[k - 1]);
    }
  }

  ghost predicate Revives(s: State, step: Step) {
    step.ShareNoKey? && Enabled(s, step) && s.bases[s.section.base].refcount <= 0
  }

  lemma RevivedByStep(s: State, step: Step)
    requires Inv(s) && Enabled(s, step)
    ensures Do(s, step).revived ==
            if Revives(s, step) then s.revived + 1 else s.revived
  {
  }

  // Such a share does happen: one snapshot shares the nil-key base just as the only other
  // one lets go of it, and the gauge says no base is in use while one is.
  lemma ActiveGaugeCanMiss() returns (run: seq<State>, steps: seq<Step>)
    ensures IsRun(run, steps)
    ensures var s := run[|steps|];
            s.active == 0 && s.releases == map[] && s.holders == map[1 := 0] && InUse(s.bases) == {0}
  {
    var s1, s2, s3 := OneHolder(1), OneHolder(1).(section := Sharing(0)), LettingGo(1, Drained(0));
    var s4, s5, s6 := LettingGo(0, Counted(0)), Shared(map[0 := Counted(0)]), Shared(map[]);
    MissBegins();
    MissShares();
    assert InUse(s6.bases) == {0};
    hide Do, Enabled, InUse;
    run := [NothingOpen(), s1, s2, s3, s4, s5, s6];
    steps := [GetNoKey(0, 0), PeekNoKey, Drop(0), Count(0), ShareNoKey(1), Finish(0)];
  }

  function NothingOpen(): State {
    State(1, map[], map[], None, 0, 0, 0, Free, map[], map[], 0)
  }

  function OneHolder(active: int): State {
    State(1, map[0 := Base(None, 1, 0, 0)], map[], Some(0), 0, active, 1, Free, map[0 := 0], map[], 0)
  }

  function LettingGo(active: int, release: Unfinished): State {
    State(1, map[0 := Base(None, 0, 0, 0)], map[], Some(0), 0, active, 1, Sharing(0), map[], map[0 := release], 0)
  }

  function Shared(releases: map<Snap, Unfinished>): State {
    State(1, map[0 := Base(None, 1, 0, 0)], map[], Some(0), 0, 0, 1, Free, map[1 := 0], releases, 1)
  }

  lemma MissBegins()
    ensures Enabled(NothingOpen(), GetNoKey(0, 0)) && Do(NothingOpen(), GetNoKey(0, 0)) == OneHolder(1)
    ensures var s := OneHolder(1).(section := Sharing(0));
            && Enabled(OneHolder(1), PeekNoKey) && Do(OneHolder(1), PeekNoKey) == s
            && Enabled(s, Drop(0)) && Do(s, Drop(0)) == LettingGo(1, Drained(0))
  {
  }

  lemma MissShares()
    ensures Enabled(LettingGo(1, Drained(0)), Count(0)) && Do(LettingGo(1, Drained(0)), Count(0)) == LettingGo(0, Counted(0))
    ensures Enabled(LettingGo(0, Counted(0)), ShareNoKey(1)) &&
            Do(LettingGo(0, Counted(0)), ShareNoKey(1)) == Shared(map[0 := Counted(0)])
    ensures Enabled(Shared(map[0 := Counted(0)]), Finish(0)) && Do(Shared(map[0 := Counted(0)]), Finish(0)) == Shared(map[])
  {
  }

  // How many passes over fewer and fewer entries can take: 1 + 2 + ... + n.
  function Triangle(n: nat): nat {
    if n == 0 then 0 else Triangle(n - 1) + n
  }

  // The steps that an eviction has left at most.
  function Remaining(s: State): nat
    requires s.section.Evicting?
  {
    |s.section.todo| + Triangle(|s.roFiles|)
  }

  predicate OfEviction(step: Step) {
    step.Inspect? || step.Evict?
  }

  // Each of evictIdleLocked's steps uses up exactly one of these, and no step of anyone
  // else changes them meanwhile.
  lemma EvictionProgresses(s: State, step: Step)
    requires s.section.Evicting? && Enabled(s, step) && !step.StopEvicting?
    ensures var s' := Do(s, step);
            s'.section.Evicting? && Remaining(s') == Remaining(s) - if OfEviction(step) then 1 else 0
  {
    if step.Evict? {
      assert s.roFiles.Keys == (s.roFiles - {step.key}).Keys + {step.key};
      assert |(s.roFiles - {step.key}).Keys| == |s.roFiles| - 1;
    }
  }

  function EvictionSteps(steps: seq<Step>, i: nat, j: nat): nat
    requires i <= j <= |steps|
    decreases j - i
  {
    if i == j then 0 else EvictionSteps(steps, i, j - 1) + if OfEviction(steps[j - 1]) then 1 else 0
  }

  // evictIdleLocked terminates: in every run, from when an eviction begins over n entries
  // until it stops, its own steps number at most n + (1 + 2 + ... + n), whatever others do.
  lemma {:induction false} EvictionBounded(run: seq<State>, steps: seq<Step>, i: nat, j: nat)
    requires IsRun(run, steps) && i <= j < |run| && run[i].section == Evicting(run[i].roFiles.Keys, {})
    requires forall m {:trigger steps[m]} :: i <= m < j ==> !steps[m].StopEvicting?
    ensures run[j].section.Evicting? && EvictionSteps(steps, i, j) + Remaining(run[j]) == Remaining(run[i])
    ensures EvictionSteps(steps, i, j) <= |run[i].roFiles| + Triangle(|run[i].roFiles|)
    decreases j - i
  {
    hide Do, Enabled, Fresh, Triangle;
    assert |run[i].roFiles.Keys| == |run[i].roFiles|;
    if i < j {
      EvictionBounded(run, steps, i, j - 1);
      EvictionProgresses(run[j - 1], steps[j - 1]);
    }
  }

  // And it never gets stuck: some step of the pass is enabled.
  lemma EvictionNotStuck(s: State) returns (step: Step)
    requires Inv(s) && s.section.Evicting?
    ensures Enabled(s, step) && (step.Inspect? || step.Evict? || step.StopEvicting?)
  {
    var todo, idle := s.section.todo, s.section.idle;
    if todo != {} {
      var key :| key in todo;
      step := Inspect(key);
    } else if |idle| <= s.maxIdle {
      step := StopEvicting;
    } else {
      var key := LeastRecent(s, idle);
      step := Evict(key);
    }
  }

  lemma {:induction false} LeastRecent(s: State, keys: set<Key>) returns (key: Key)
    requires keys != {} && forall k :: k in keys ==> k in s.roFiles && s.roFiles[k] in s.bases
    ensures key in keys
    ensures forall k :: k in keys ==> s.bases[s.roFiles[key]].idleSince <= s.bases[s.roFiles[k]].idleSince
  {
    key :| key in keys;
    var rest := keys - {key};
    if rest != {} {
      var other := LeastRecent(s, rest);
      assert forall k :: k in keys ==> k == key || k in rest;
      if s.bases[s.roFiles[other]].idleSince < s.bases[s.roFiles[key]].idleSince {
        key := other;
      }
    } else {
      assert keys == {key};
    }
  }
}
