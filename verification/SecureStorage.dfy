/**
 The encrypted storage: acquiring and releasing its mount resources in stages,
 the signals that keep the secrets database in step with the mount, and the keys
 that are authorised to open it.

 External steps (losetup, LUKS, mkfs, the SQL driver) succeed or fail as the
 Outcomes say. A step that fails acquires nothing.
 */
module SecureStorage {
  import opened Common

  type Key = string

  datatype MountState = Unmounted | LoopSet | LoopLuksFormatted | LoopLuksOpened | Mounted {
    function Rank(): nat {
      match this
      case Unmounted => 0
      case LoopSet => 1
      case LoopLuksFormatted => 2
      case LoopLuksOpened => 3
      case Mounted => 4
    }

    predicate AtLeast(other: MountState) { Rank() >= other.Rank() }
  }

  datatype Resource = LoopDevice | LuksMapping | MountPoint

  /** The partition file: its LUKS key slots and the keychain file inside it. */
  datatype Disk = Disk(exists_: bool, slots: set<Key>, keychain: map<nat, Key>)

  datatype Signal = FlagRaised | FlagDropped | DbOpened | DbClosed

  /** The crypto manager and the part of the access manager its signals reach. */
  datatype Storage = Storage(
    state: MountState,
    flagged: bool,               // fileSystemIsMounted()
    isSetup: bool,
    key: Key,                    // encryptionKey()
    disk: Disk,
    held: seq<Resource>,         // acquired and not yet handed to their release step
    log: seq<Signal>,
    hasMeta: bool,               // a CredentialsDB object exists
    sysOpen: bool,                // credentialsSystemOpened()
    dbOpen: bool                 // isSecretsDBOpen()
  )

  datatype Outcomes = Outcomes(
    dmLoaded: bool, loopFound: bool, partitionMade: bool, loopAttached: bool, formatted: bool,
    luksOpens: bool, mkfs: bool, mountDir: bool, umounted: bool, luksClosed: bool, loopReleased: bool,
    dbOpens: bool, slotChanged: bool)

  const NEW_DISK := Disk(false, {}, map[])

  /** What a process starts from: whatever partition file there is. */
  function Fresh(d: Disk): Storage {
    Storage(Unmounted, false, d.exists_, "", d, [], [], false, false, false)
  }

  // ----------------------------------------------------------------- keychain

  /** Entries are numbered; the new number is one more than their count. */
  function AddToKeychain(chain: map<nat, Key>, key: Key): map<nat, Key> {
    if key in chain.Values then chain else chain[|chain| + 1 := key]
  }

  function RemoveFromKeychain(chain: map<nat, Key>, key: Key): map<nat, Key> {
    map n | n in chain && chain[n] != key :: chain[n]
  }

  /** Adding a key keeps all others, if and only if the number it takes is free. */
  lemma AddKeepsOthers(chain: map<nat, Key>, key: Key)
    requires Distinct(chain)
    ensures chain.Values + {key} == AddToKeychain(chain, key).Values
       <==> key in chain.Values || |chain| + 1 !in chain
  {
    var n := |chain| + 1;
    var chain' := AddToKeychain(chain, key);
    if key !in chain.Values {
      assert chain' == chain[n := key];
      if n in chain {
        forall k | k in chain' ensures chain'[k] != chain[n] {}
        assert chain[n] in chain.Values;
      } else {
        forall v | v in chain.Values ensures v in chain'.Values {
          var k :| k in chain && chain[k] == v;
          assert chain'[k] == v;
        }
        assert chain'[n] == key;
        forall v | v in chain'.Values ensures v in chain.Values + {key} {}
      }
    }
  }

  ghost predicate Distinct(chain: map<nat, Key>) {
    forall a, b :: a in chain && b in chain && chain[a] == chain[b] ==> a == b
  }

  /** After removing an old key, adding a new one loses a third one, although that
      one still opens the storage. */
  lemma KeychainForgets(a: Key, b: Key, c: Key, d: Key)
    requires a != b && a != c && a != d && b != c && b != d && c != d
    ensures var chain := RemoveFromKeychain(map[1 := a, 2 := b, 3 := c], a);
            AddToKeychain(chain, d) == map[2 := b, 3 := d]
  {
    var chain := RemoveFromKeychain(map[1 := a, 2 := b, 3 := c], a);
    assert chain.Keys == {2, 3} && chain[2] == b && chain[3] == c;
    assert d !in chain.Values;
    assert |chain| == |chain.Keys| == 2;
    assert AddToKeychain(chain, d) == chain[3 := d];
  }

  // ------------------------------------------------- signals and mount flag

  function Emit(s: Storage, signal: Signal): Storage { s.(log := s.log + [signal]) }

  function CloseDb(s: Storage): Storage {
    if s.dbOpen then Emit(s.(dbOpen := false), DbClosed) else s
  }

  /** CredentialsAccessManager::openSecretsDB; opening an open one closes it first. */
  function OpenDb(s: Storage, o: Outcomes): Storage {
    if !s.flagged then s
    else if o.dbOpens then Emit(CloseDb(s).(dbOpen := true), DbOpened)
    else CloseDb(s)
  }

  /** setFileSystemMounted, with the slots connected to its two signals. */
  function SetMounted(s: Storage, isMounted: bool, o: Outcomes): Storage {
    if isMounted == s.flagged then s
    else if s.flagged then
      var told := if s.sysOpen then CloseDb(s) else s;
      Emit(told.(flagged := false), FlagDropped)
    else
      var raised := Emit(s.(flagged := true), FlagRaised);
      if raised.sysOpen && !raised.dbOpen then OpenDb(raised, o) else raised
  }

  function UpdateState(s: Storage, state: MountState, o: Outcomes): Storage {
    if state == s.state then s else SetMounted(s.(state := state), state == Mounted, o)
  }

  function Acquire(s: Storage, r: Resource): Storage { s.(held := s.held + [r]) }

  /** A release step only gives back the resource acquired last. */
  function Pop(held: seq<Resource>, r: Resource): seq<Resource> {
    if held != [] && held[|held| - 1] == r then held[..|held| - 1] else held
  }

  // --------------------------------------------------- mounting in stages

  /** The release steps due at the current stage, last acquired first. */
  function HandBack(s: Storage): Storage {
    var b := if s.state.AtLeast(Mounted) then Pop(s.held, MountPoint) else s.held;
    var c := if s.state.AtLeast(LoopLuksOpened) then Pop(b, LuksMapping) else b;
    s.(held := if s.state.AtLeast(LoopSet) then Pop(c, LoopDevice) else c)
  }

  predicate AllReleased(state: MountState, o: Outcomes) {
    && (state.AtLeast(Mounted) ==> o.umounted)
    && (state.AtLeast(LoopLuksOpened) ==> o.luksClosed)
    && (state.AtLeast(LoopSet) ==> o.loopReleased)
  }

  function Unmount(s: Storage, o: Outcomes): (Storage, bool) {
    if s.state == Unmounted then (s, true)
    else (UpdateState(HandBack(SetMounted(s, false, o)), Unmounted, o), AllReleased(s.state, o))
  }

  function GiveUp(s: Storage, o: Outcomes): (Storage, bool) { (Unmount(s, o).0, false) }

  /** The last stages, common to setup and mount: the mapping is open. */
  function MountMapped(s: Storage, o: Outcomes): (Storage, bool) {
    if !o.mountDir then GiveUp(s, o)
    else
      var m := Acquire(s, MountPoint);
      (UpdateState(m.(disk := m.disk.(keychain := AddToKeychain(m.disk.keychain, m.key))), Mounted, o), true)
  }

  function MountFs(s: Storage, o: Outcomes): (Storage, bool) {
    if s.state == Mounted || s.key == "" || !o.dmLoaded || !o.loopFound then (s, false)
    else if !o.loopAttached then GiveUp(s, o)
    else MountFromLoop(UpdateState(Acquire(s, LoopDevice), LoopSet, o), o)
  }

  /** LUKS opens only with a key that holds a slot. */
  function MountFromLoop(loop: Storage, o: Outcomes): (Storage, bool) {
    if !(o.luksOpens && loop.key in loop.disk.slots) then GiveUp(loop, o)
    else MountMapped(UpdateState(Acquire(loop, LuksMapping), LoopLuksOpened, o), o)
  }

  /** Formatting writes a header with the one key and puts the old contents, the
      keychain among them, out of reach. */
  function SetupFs(s: Storage, o: Outcomes): (Storage, bool) {
    if s.state == Mounted || s.key == "" || !o.dmLoaded || !o.loopFound then (s, false)
    else if !o.partitionMade then GiveUp(s, o)
    else
      var made := s.(disk := s.disk.(exists_ := true), isSetup := true);
      if !o.loopAttached then GiveUp(made, o)
      else
        SetupFromLoop(UpdateState(Acquire(made, LoopDevice), LoopSet, o), o)
  }

  function SetupFromLoop(loop: Storage, o: Outcomes): (Storage, bool) {
    if !o.formatted then GiveUp(loop, o)
    else SetupFormatted(UpdateState(loop.(disk := Disk(true, {loop.key}, map[])), LoopLuksFormatted, o), o)
  }

  function SetupFormatted(formatted: Storage, o: Outcomes): (Storage, bool) {
    if !o.luksOpens then GiveUp(formatted, o)
    else
      var mapped := UpdateState(Acquire(formatted, LuksMapping), LoopLuksOpened, o);
      if !o.mkfs then GiveUp(mapped, o) else MountMapped(mapped, o)
  }

  function SetKey(s: Storage, key: Key): Storage {
    if s.flagged then s else s.(key := key)
  }

  function AddKey(s: Storage, key: Key, existing: Key, o: Outcomes): (Storage, bool) {
    if s.state.AtLeast(LoopLuksOpened) && o.slotChanged && existing in s.disk.slots then
      (s.(disk := Disk(s.disk.exists_, s.disk.slots + {key}, AddToKeychain(s.disk.keychain, key))), true)
    else (s, false)
  }

  /** Reports success whenever the mapping is open, whether or not a slot was freed. */
  function RemoveKey(s: Storage, key: Key, o: Outcomes): (Storage, bool) {
    if s.state.AtLeast(LoopLuksOpened) then
      (if o.slotChanged
       then s.(disk := Disk(s.disk.exists_, s.disk.slots - {key}, RemoveFromKeychain(s.disk.keychain, key)))
       else s, true)
    else (s, false)
  }

  function KeyInUse(s: Storage, key: Key, o: Outcomes): (Storage, bool) {
    if s.flagged && s.key == key then (s, true)
    else if !s.flagged then MountFs(SetKey(s, key), o)
    else (s, key in s.disk.keychain.Values)
  }

  // ------------------------------------------------- what holds at rest

  const ALL_HELD := [LoopDevice, LuksMapping, MountPoint]

  /** What a log says the flag and the database are, if no signal was out of
      place: the database is only opened under the flag and closed before it drops. */
  function Replay(log: seq<Signal>): Option<(bool, bool)> {
    if log == [] then Some((false, false))
    else
      match (Replay(log[..|log| - 1]), log[|log| - 1])
      case (Some((false, false)), FlagRaised) => Some((true, false))
      case (Some((true, false)), FlagDropped) => Some((false, false))
      case (Some((true, false)), DbOpened) => Some((true, true))
      case (Some((true, true)), DbClosed) => Some((true, false))
      case _ => None
  }

  /** Holds at every stage: the secrets database follows the mount. */
  predicate InStep(s: Storage) {
    && Replay(s.log) == Some((s.flagged, s.dbOpen))
    && (s.dbOpen ==> s.flagged && s.sysOpen)
    && (s.sysOpen ==> s.hasMeta)
    && s.isSetup == s.disk.exists_
  }

  /** The resources held at each stage. */
  function HeldAt(state: MountState): seq<Resource> {
    match state
    case Unmounted => []
    case LoopSet => [LoopDevice]
    case LoopLuksFormatted => [LoopDevice]
    case LoopLuksOpened => [LoopDevice, LuksMapping]
    case Mounted => ALL_HELD
  }

  predicate Staged(s: Storage) {
    InStep(s) && s.held == HeldAt(s.state) && s.flagged == (s.state == Mounted)
  }

  /** Between operations the storage is either mounted, holding everything, or
      unmounted, holding nothing. */
  predicate AtRest(s: Storage) {
    Staged(s) && (s.state == Unmounted || s.state == Mounted)
  }

  /** What an operation on the mount leaves alone. */
  predicate SameSystem(s: Storage, t: Storage) {
    t.hasMeta == s.hasMeta && t.sysOpen == s.sysOpen && t.key == s.key
  }

  lemma ReplayEmit(log: seq<Signal>, signal: Signal)
    ensures Replay(log + [signal]) ==
            match (Replay(log), signal)
            case (Some((false, false)), FlagRaised) => Some((true, false))
            case (Some((true, false)), FlagDropped) => Some((false, false))
            case (Some((true, false)), DbOpened) => Some((true, true))
            case (Some((true, true)), DbClosed) => Some((true, false))
            case _ => None
  {
    assert (log + [signal])[..|log|] == log;
  }

  lemma CloseDbInStep(s: Storage)
    requires InStep(s)
    ensures InStep(CloseDb(s)) && !CloseDb(s).dbOpen
    ensures CloseDb(s) == s.(dbOpen := false, log := CloseDb(s).log)
  {
    ReplayEmit(s.log, DbClosed);
  }

  lemma OpenDbInStep(s: Storage, o: Outcomes)
    requires InStep(s) && s.sysOpen
    ensures InStep(OpenDb(s, o))
    ensures OpenDb(s, o) == s.(dbOpen := OpenDb(s, o).dbOpen, log := OpenDb(s, o).log)
  {
    CloseDbInStep(s);
    ReplayEmit(CloseDb(s).log, DbOpened);
  }

  lemma SetMountedInStep(s: Storage, isMounted: bool, o: Outcomes)
    requires InStep(s)
    ensures var t := SetMounted(s, isMounted, o);
            && InStep(t) && t.flagged == isMounted
            && t == s.(flagged := isMounted, dbOpen := t.dbOpen, log := t.log)
            && t.dbOpen == (isMounted && if s.flagged then s.dbOpen else s.sysOpen && o.dbOpens)
  {
    CloseDbInStep(s);
    ReplayEmit(CloseDb(s).log, FlagDropped);
    ReplayEmit(s.log, FlagRaised);
    if !s.flagged && isMounted && s.sysOpen {
      OpenDbInStep(Emit(s.(flagged := true), FlagRaised), o);
    }
  }

  lemma UpdateStateStaged(s: Storage, state: MountState, o: Outcomes)
    requires InStep(s) && s.flagged == (s.state == Mounted) && s.held == HeldAt(state)
    ensures var t := UpdateState(s, state, o);
            && Staged(t) && t.state == state
            && t == s.(state := state, flagged := state == Mounted, dbOpen := t.dbOpen, log := t.log)
            && (state == Mounted && s.state != Mounted ==> t.dbOpen == (s.sysOpen && o.dbOpens))
  {
    SetMountedInStep(s.(state := state), state == Mounted, o);
  }

  /** Whatever stage the storage is in, unmounting hands every held resource to its
      release step, last acquired first, and drops the flag after the database. */
  lemma UnmountStaged(s: Storage, o: Outcomes)
    requires Staged(s)
    ensures var (t, ok) := Unmount(s, o);
            && AtRest(t) && t.state == Unmounted && t.held == []
            && SameSystem(s, t) && t.disk == s.disk && t.isSetup == s.isSetup
  {
    if s.state != Unmounted {
      SetMountedInStep(s, false, o);
      var a := SetMounted(s, false, o);
      HandBackAll(a);
      SetMountedInStep(HandBack(a).(state := Unmounted), false, o);
    }
  }

  /** What becomes of a resource's release step. */
  predicate Released(r: Resource, o: Outcomes) {
    match r
    case LoopDevice => o.loopReleased
    case LuksMapping => o.luksClosed
    case MountPoint => o.umounted
  }

  /** Unmounting reports success exactly if every resource that was held could be
      released. */
  lemma UnmountReports(s: Storage, o: Outcomes)
    requires Staged(s)
    ensures Unmount(s, o).1 <==> forall r :: r in s.held ==> Released(r, o)
  {
    HeldFrom(s.state);
    assert LoopDevice in s.held ==> (Released(LoopDevice, o) <==> o.loopReleased);
    assert LuksMapping in s.held ==> (Released(LuksMapping, o) <==> o.luksClosed);
    assert MountPoint in s.held ==> (Released(MountPoint, o) <==> o.umounted);
  }

  lemma HeldFrom(state: MountState)
    ensures LoopDevice in HeldAt(state) <==> state.AtLeast(LoopSet)
    ensures LuksMapping in HeldAt(state) <==> state.AtLeast(LoopLuksOpened)
    ensures MountPoint in HeldAt(state) <==> state.AtLeast(Mounted)
  {
  }

  lemma HandBackAll(s: Storage)
    requires s.held == HeldAt(s.state)
    ensures HandBack(s) == s.(held := [])
  {
    var b := if s.state.AtLeast(Mounted) then Pop(s.held, MountPoint) else s.held;
    assert s.state.AtLeast(LoopLuksOpened) ==> b == [LoopDevice, LuksMapping];
    var c := if s.state.AtLeast(LoopLuksOpened) then Pop(b, LuksMapping) else b;
    assert s.state.AtLeast(LoopSet) ==> c == [LoopDevice];
  }

  lemma MountMappedStaged(s: Storage, o: Outcomes)
    requires Staged(s) && s.state == LoopLuksOpened
    ensures var (t, ok) := MountMapped(s, o);
            && AtRest(t) && ok == (t.state == Mounted) == o.mountDir && SameSystem(s, t)
            && t.isSetup == s.isSetup
            && t.disk == (if ok then s.disk.(keychain := AddToKeychain(s.disk.keychain, s.key)) else s.disk)
            && (ok ==> t.dbOpen == (s.sysOpen && o.dbOpens))
  {
    if o.mountDir {
      var m := Acquire(s, MountPoint);
      UpdateStateStaged(m.(disk := m.disk.(keychain := AddToKeychain(m.disk.keychain, m.key))), Mounted, o);
    } else {
      UnmountStaged(s, o);
    }
  }

  /** Mounting ends at rest whatever fails on the way; it succeeds only with a key
      that holds a slot, and then adds that key to the keychain. */
  lemma MountStaged(s: Storage, o: Outcomes)
    requires AtRest(s)
    ensures var (t, ok) := MountFs(s, o);
            && AtRest(t) && SameSystem(s, t) && t.isSetup == s.isSetup
            && ok == (s.state == Unmounted && t.state == Mounted)
            && (ok ==> s.key != "" && s.key in s.disk.slots)
            && t.disk == (if ok then s.disk.(keychain := AddToKeychain(s.disk.keychain, s.key)) else s.disk)
            && (!ok ==> t.state == s.state)
            && (ok ==> t.dbOpen == (s.sysOpen && o.dbOpens))
  {
    if s.state == Mounted || s.key == "" || !o.dmLoaded || !o.loopFound {
    } else if !o.loopAttached {
      UnmountStaged(s, o);
    } else {
      UpdateStateStaged(Acquire(s, LoopDevice), LoopSet, o);
      var loop := UpdateState(Acquire(s, LoopDevice), LoopSet, o);
      if !(o.luksOpens && s.key in s.disk.slots) {
        UnmountStaged(loop, o);
      } else {
        UpdateStateStaged(Acquire(loop, LuksMapping), LoopLuksOpened, o);
        MountMappedStaged(UpdateState(Acquire(loop, LuksMapping), LoopLuksOpened, o), o);
      }
    }
  }

  /** Setting up ends at rest whatever fails on the way. The disk is as before, or
      freshly formatted for the one key with at most that key in its keychain. */
  lemma SetupStaged(s: Storage, o: Outcomes)
    requires AtRest(s)
    ensures var (t, ok) := SetupFs(s, o);
            && AtRest(t) && SameSystem(s, t)
            && ok == (s.state == Unmounted && t.state == Mounted)
            && (!ok ==> t.state == s.state)
            && (ok ==> s.key != "" && t.disk == Disk(true, {s.key}, map[1 := s.key]))
            && (!ok ==> t.disk == s.disk.(exists_ := t.disk.exists_) || t.disk == Disk(true, {s.key}, map[]))
            && (ok ==> t.dbOpen == (s.sysOpen && o.dbOpens))
  {
    if s.state == Mounted || s.key == "" || !o.dmLoaded || !o.loopFound {
    } else if !o.partitionMade {
      UnmountStaged(s, o);
    } else {
      var made := s.(disk := s.disk.(exists_ := true), isSetup := true);
      if !o.loopAttached {
        UnmountStaged(made, o);
      } else {
        UpdateStateStaged(Acquire(made, LoopDevice), LoopSet, o);
        SetupLoopStaged(UpdateState(Acquire(made, LoopDevice), LoopSet, o), o);
      }
    }
  }

  lemma SetupLoopStaged(loop: Storage, o: Outcomes)
    requires Staged(loop) && loop.state == LoopSet && loop.isSetup
    ensures var (t, ok) := SetupFromLoop(loop, o);
            && AtRest(t) && SameSystem(loop, t) && ok == (t.state == Mounted)
            && (!ok ==> t.state == Unmounted)
            && (ok ==> t.disk == Disk(true, {loop.key}, map[1 := loop.key]))
            && (!ok ==> t.disk == loop.disk || t.disk == Disk(true, {loop.key}, map[]))
            && (ok ==> t.dbOpen == (loop.sysOpen && o.dbOpens))
  {
    if !o.formatted {
      UnmountStaged(loop, o);
    } else {
      var blank := loop.(disk := Disk(true, {loop.key}, map[]));
      UpdateStateStaged(blank, LoopLuksFormatted, o);
      SetupFormattedStaged(UpdateState(blank, LoopLuksFormatted, o), o);
    }
  }

  lemma SetupFormattedStaged(formatted: Storage, o: Outcomes)
    requires Staged(formatted) && formatted.state == LoopLuksFormatted
    requires formatted.disk == Disk(true, {formatted.key}, map[])
    ensures var (t, ok) := SetupFormatted(formatted, o);
            && AtRest(t) && SameSystem(formatted, t) && ok == (t.state == Mounted)
            && (!ok ==> t.state == Unmounted)
            && t.disk == (if ok then Disk(true, {formatted.key}, map[1 := formatted.key]) else formatted.disk)
            && (ok ==> t.dbOpen == (formatted.sysOpen && o.dbOpens))
  {
    if !o.luksOpens {
      UnmountStaged(formatted, o);
    } else {
      UpdateStateStaged(Acquire(formatted, LuksMapping), LoopLuksOpened, o);
      var mapped := UpdateState(Acquire(formatted, LuksMapping), LoopLuksOpened, o);
      if !o.mkfs {
        UnmountStaged(mapped, o);
      } else {
        MountMappedStaged(mapped, o);
      }
    }
  }

  /** Mounting succeeds exactly if there is a key with a slot, and every step on the
      way works. */
  lemma MountExactly(s: Storage, o: Outcomes)
    requires AtRest(s)
    ensures MountFs(s, o).1 <==>
            && s.state == Unmounted && s.key != "" && s.key in s.disk.slots
            && o.dmLoaded && o.loopFound && o.loopAttached && o.luksOpens && o.mountDir
  {
    if s.state == Unmounted {
      UpdateStateStaged(Acquire(s, LoopDevice), LoopSet, o);
    }
  }

  /** So does setting up, without a slot to begin with. A partition file is there
      afterwards if one could be made; the header is only touched once the loop
      device is attached and the format goes through. */
  lemma SetupExactly(s: Storage, o: Outcomes)
    requires AtRest(s)
    ensures var (t, ok) := SetupFs(s, o);
            var begun := s.state == Unmounted && s.key != "" && o.dmLoaded && o.loopFound && o.partitionMade;
            && (ok <==> begun && o.loopAttached && o.formatted && o.luksOpens && o.mkfs && o.mountDir)
            && t.isSetup == (s.isSetup || begun)
            && (t.disk.slots == if begun && o.loopAttached && o.formatted then {s.key} else s.disk.slots)
  {
    SetupStaged(s, o);
    var made := s.(disk := s.disk.(exists_ := true), isSetup := true);
    if s.state == Unmounted && s.key != "" && o.dmLoaded && o.loopFound {
      UnmountStaged(s, o);
      UnmountStaged(made, o);
      UpdateStateStaged(Acquire(made, LoopDevice), LoopSet, o);
      SetupLoopExactly(UpdateState(Acquire(made, LoopDevice), LoopSet, o), o);
    }
  }

  lemma SetupLoopExactly(loop: Storage, o: Outcomes)
    requires Staged(loop) && loop.state == LoopSet && loop.isSetup
    ensures var (t, ok) := SetupFromLoop(loop, o);
            && (ok <==> o.formatted && o.luksOpens && o.mkfs && o.mountDir)
            && t.isSetup && (t.disk.slots == if o.formatted then {loop.key} else loop.disk.slots)
  {
    SetupLoopStaged(loop, o);
    UnmountStaged(loop, o);
    var blank := loop.(disk := Disk(true, {loop.key}, map[]));
    UpdateStateStaged(blank, LoopLuksFormatted, o);
    SetupFormattedStaged(UpdateState(blank, LoopLuksFormatted, o), o);
  }

  // -------------------------------------------------- keys and their slots

  /** The keychain lists, once each, keys that hold a slot. */
  ghost predicate GoodDisk(d: Disk) {
    d.keychain.Values <= d.slots && Distinct(d.keychain)
  }

  lemma AddGood(chain: map<nat, Key>, slots: set<Key>, key: Key)
    requires chain.Values <= slots && Distinct(chain) && key in slots
    ensures AddToKeychain(chain, key).Values <= slots && Distinct(AddToKeychain(chain, key))
  {
    var chain' := AddToKeychain(chain, key);
    forall n | n in chain' ensures chain'[n] in slots {
      if n in chain && chain'[n] == chain[n] {
        assert chain[n] in chain.Values;
      }
    }
    if key !in chain.Values {
      forall n | n in chain ensures chain[n] != key { assert chain[n] in chain.Values; }
    }
  }

  lemma RemoveGood(chain: map<nat, Key>, slots: set<Key>, key: Key)
    requires chain.Values <= slots && Distinct(chain)
    ensures RemoveFromKeychain(chain, key).Values <= slots - {key} && Distinct(RemoveFromKeychain(chain, key))
  {
    var chain' := RemoveFromKeychain(chain, key);
    forall n | n in chain' ensures chain'[n] in slots - {key} { assert chain[n] in chain.Values; }
  }

  /** The whole system: the storage, and the key handler's two key sets. The
      revoked set is a record of the keys revoked since the last mount. */
  datatype System = System(s: Storage, inserted: set<Key>, authorized: set<Key>, revoked: set<Key>)

  function Start(d: Disk): System {
    System(Fresh(d), {}, {}, {})
  }

  /** What one mount leaves of the revocation record. */
  function Remount(before: Storage, after: Storage, revoked: set<Key>): set<Key> {
    if before.state == Unmounted && after.state == Mounted then {} else revoked
  }

  /** Mounts the storage with an authorised key, if it is not mounted. */
  function Reach(y: System, any: Key, o: Outcomes): (System, bool) {
    if y.s.flagged then (y, true)
    else
      var (m, mounted) := MountFs(SetKey(y.s, any), o);
      (y.(s := m, revoked := Remount(y.s, m, y.revoked)), mounted)
  }

  /** KeyHandler::authorizeKey; any is the authorised key the set iterator yields. */
  function AuthorizeKey(y: System, key: Key, format: bool, any: Key, o: Outcomes): (System, bool) {
    if key in y.authorized then (y, true)
    else if !y.s.isSetup || format then
      var (s', ok) := SetupFs(SetKey(y.s, key), o);
      (y.(s := s', authorized := if ok then {key} else {}, revoked := Remount(y.s, s', y.revoked)), ok)
    else if y.authorized == {} then (y, false)
    else
      var (y', mounted) := Reach(y, any, o);
      if !mounted then (y', false)
      else
        var (s', ok) := AddKey(y'.s, key, any, o);
        (if ok then y'.(s := s', authorized := y.authorized + {key}) else y', ok)
  }

  /** KeyHandler::revokeKeyAuthorization. */
  function RevokeKey(y: System, key: Key, any: Key, o: Outcomes): (System, bool) {
    if !y.s.isSetup || y.authorized == {} then (y, false)
    else
      var (y', mounted) := Reach(y, any, o);
      if !mounted then (y', false)
      else
        var (s', ok) := RemoveKey(y'.s, key, o);
        (if ok then y'.(s := s', authorized := y.authorized - {key}, revoked := y'.revoked + {key}) else y', ok)
  }

  /** KeyHandler::onKeyInserted. */
  function InsertKey(y: System, key: Key, o: Outcomes): System {
    if key == "" then y
    else if !y.s.isSetup then y.(inserted := y.inserted + {key})
    else
      var (s', used) := KeyInUse(y.s, key, o);
      y.(s := s', inserted := y.inserted + {key},
         authorized := if used then y.authorized + {key} else y.authorized,
         revoked := Remount(y.s, s', y.revoked))
  }

  /** CredentialsAccessManager::closeSecretsDB. */
  function CloseSecrets(s: Storage, o: Outcomes): (Storage, bool) {
    Unmount(CloseDb(s), o)
  }

  /** Whether disabling this key makes the access manager close the storage. */
  predicate LastAuthorized(y: System, key: Key) {
    (y.inserted - {key}) * y.authorized == {} && key in y.authorized
  }

  /** KeyHandler::onKeyDisabled and the access manager's slot. */
  function DisableKey(y: System, key: Key, o: Outcomes): System {
    var s' := if LastAuthorized(y, key) && (y.s.dbOpen || y.s.flagged) then CloseSecrets(y.s, o).0 else y.s;
    y.(s := s', inserted := y.inserted - {key})
  }

  /** KeyHandler::onKeyRemoved: disabled first, then revoked if it was authorised. */
  function RemoveKeyEvent(y: System, key: Key, any: Key, o: Outcomes): System {
    var y' := DisableKey(y, key, o);
    if key in y'.authorized then RevokeKey(y', key, any, o).0 else y'
  }

  function OpenSystem(s: Storage, metaOk: bool, o: Outcomes): Storage {
    var m := s.(hasMeta := true);
    if !metaOk then m
    else
      var up := m.(sysOpen := true);
      if up.flagged then OpenDb(up, o) else MountFs(up, o).0
  }

  function CloseSystem(s: Storage, o: Outcomes): Storage {
    if !s.sysOpen then s
    else
      var t := if s.dbOpen then CloseSecrets(s, o).0 else s;
      t.(hasMeta := false, sysOpen := false)
  }

  datatype Event =
    | KeyInserted(key: Key)
    | KeyDisabled(key: Key)
    | KeyRemoved(key: Key, any: Key)
    | KeyAuthorized(key: Key, exclusive: bool, any: Key)   // the authorizer's reply, when not a denial
    | SystemOpened(metaOk: bool)
    | SystemClosed

  function Step(y: System, e: Event, o: Outcomes): System {
    match e
    case KeyInserted(key) => InsertKey(y, key, o)
    case KeyDisabled(key) => DisableKey(y, key, o)
    case KeyRemoved(key, any) => RemoveKeyEvent(y, key, any, o)
    case KeyAuthorized(key, exclusive, any) => AuthorizeKey(y, key, exclusive, any, o).0
    case SystemOpened(metaOk) =>
      y.(s := OpenSystem(y.s, metaOk, o), revoked := Remount(y.s, OpenSystem(y.s, metaOk, o), y.revoked))
    case SystemClosed => y.(s := CloseSystem(y.s, o))
  }

  /** The iterator yields a member, and the slot that closes the storage on the
      last key's removal finds a database object to ask. */
  predicate Enabled(y: System, e: Event) {
    && (e.KeyAuthorized? && y.authorized != {} ==> e.any in y.authorized)
    && (e.KeyRemoved? && y.authorized != {} ==> e.any in y.authorized)
    && (e.KeyDisabled? || e.KeyRemoved? ==> SlotFindsObject(y, e.key))
  }

  /** The slot for the last authorised key reads the database object unchecked. */
  predicate SlotFindsObject(y: System, key: Key) {
    LastAuthorized(y, key) ==> y.s.hasMeta
  }

  /** Authorised keys really hold a slot. While mounted, the current key does too,
      unless it was revoked since. */
  ghost predicate KeysGood(y: System) {
    && y.authorized <= y.s.disk.slots
    && GoodDisk(y.s.disk)
    && (y.s.state == Mounted ==> y.s.key in y.s.disk.slots + y.revoked)
  }

  ghost predicate Inv(y: System) {
    AtRest(y.s) && KeysGood(y)
  }

  /** The key the storage is mounted with is inserted, and holds no slot. */
  predicate Slotless(y: System, e: Event) {
    && e.KeyInserted? && e.key != ""
    && y.s.isSetup && y.s.flagged && y.s.key == e.key && e.key !in y.s.disk.slots
  }

  /** That can only be a key revoked since the mount it made. */
  lemma SlotlessWasRevoked(y: System, e: Event)
    requires Inv(y) && Slotless(y, e)
    ensures e.key in y.revoked
  {
  }

  lemma SetKeyAtRest(s: Storage, key: Key)
    requires AtRest(s)
    ensures AtRest(SetKey(s, key)) && (s.state == Mounted ==> SetKey(s, key) == s)
    ensures s.state == Unmounted ==> SetKey(s, key) == s.(key := key)
  {
  }

  /** Mounting with a key, from rest: the keys stay good. */
  lemma MountKeepsKeys(y: System, key: Key, o: Outcomes)
    requires Inv(y)
    ensures var (m, ok) := MountFs(SetKey(y.s, key), o);
            Inv(y.(s := m, revoked := Remount(y.s, m, y.revoked))) && m.disk.slots == y.s.disk.slots
            && (ok ==> m.state == Mounted && m.key == key && key in m.disk.slots)
            && m.isSetup == y.s.isSetup
  {
    SetKeyAtRest(y.s, key);
    MountStaged(SetKey(y.s, key), o);
    if MountFs(SetKey(y.s, key), o).1 {
      AddGood(y.s.disk.keychain, y.s.disk.slots, key);
    }
  }

  lemma SetupKeepsKeys(y: System, key: Key, o: Outcomes)
    requires Inv(y)
    ensures var (s', ok) := SetupFs(SetKey(y.s, key), o);
            Inv(y.(s := s', authorized := if ok then {key} else {}, revoked := Remount(y.s, s', y.revoked)))
  {
    SetKeyAtRest(y.s, key);
    SetupStaged(SetKey(y.s, key), o);
  }

  lemma AuthorizeKeepsKeys(y: System, key: Key, format: bool, any: Key, o: Outcomes)
    requires Inv(y) && (y.authorized != {} ==> any in y.authorized)
    ensures Inv(AuthorizeKey(y, key, format, any, o).0)
  {
    if key !in y.authorized {
      if !y.s.isSetup || format {
        SetupKeepsKeys(y, key, o);
      } else if y.authorized != {} {
        var m := y.s;
        if !y.s.flagged {
          MountKeepsKeys(y, any, o);
          m := MountFs(SetKey(y.s, any), o).0;
        }
        AddGood(m.disk.keychain, m.disk.slots + {key}, key);
      }
    }
  }

  lemma RevokeKeepsKeys(y: System, key: Key, any: Key, o: Outcomes)
    requires Inv(y) && (y.authorized != {} ==> any in y.authorized)
    ensures Inv(RevokeKey(y, key, any, o).0)
  {
    if y.s.isSetup && y.authorized != {} {
      var m := y.s;
      if !y.s.flagged {
        MountKeepsKeys(y, any, o);
        m := MountFs(SetKey(y.s, any), o).0;
      }
      RemoveGood(m.disk.keychain, m.disk.slots, key);
    }
  }

  /** Inserting a key, exactly: the authorised keys all hold a slot afterwards, if
      and only if the key is not the current one of a mounted storage without a
      slot of its own. */
  lemma InsertKeepsKeysExactly(y: System, key: Key, o: Outcomes)
    requires Inv(y)
    ensures Inv(InsertKey(y, key, o)) <==> !Slotless(y, KeyInserted(key))
  {
    if key != "" && y.s.isSetup {
      if !y.s.flagged {
        MountKeepsKeys(y, key, o);
      } else if y.s.key == key {
        assert key in InsertKey(y, key, o).authorized;
      }
    }
  }

  lemma CloseSecretsAtRest(s: Storage, o: Outcomes)
    requires AtRest(s)
    ensures var t := CloseSecrets(s, o).0;
            AtRest(t) && t.state == Unmounted && !t.dbOpen && t.disk == s.disk && SameSystem(s, t)
            && t.isSetup == s.isSetup
  {
    CloseDbInStep(s);
    UnmountStaged(CloseDb(s), o);
  }

  lemma DisableKeepsKeys(y: System, key: Key, o: Outcomes)
    requires Inv(y)
    ensures Inv(DisableKey(y, key, o)) && DisableKey(y, key, o).authorized == y.authorized
  {
    CloseSecretsAtRest(y.s, o);
  }

  lemma OpenSystemKeepsKeys(y: System, metaOk: bool, o: Outcomes)
    requires Inv(y)
    ensures Inv(Step(y, SystemOpened(metaOk), o))
  {
    if metaOk {
      var up := y.s.(hasMeta := true, sysOpen := true);
      if up.flagged {
        OpenDbInStep(up, o);
      } else {
        MountKeepsKeys(y.(s := up), up.key, o);
      }
    }
  }

  lemma CloseSystemKeepsKeys(y: System, o: Outcomes)
    requires Inv(y)
    ensures Inv(Step(y, SystemClosed, o))
  {
    CloseSecretsAtRest(y.s, o);
  }

  lemma StepKeepsInv(y: System, e: Event, o: Outcomes)
    requires Inv(y) && Enabled(y, e) && !Slotless(y, e)
    ensures Inv(Step(y, e, o))
  {
    match e
    case KeyInserted(key) => InsertKeepsKeysExactly(y, key, o);
    case KeyDisabled(key) => DisableKeepsKeys(y, key, o);
    case KeyRemoved(key, any) =>
      DisableKeepsKeys(y, key, o);
      RevokeKeepsKeys(DisableKey(y, key, o), key, any, o);
    case KeyAuthorized(key, exclusive, any) => AuthorizeKeepsKeys(y, key, exclusive, any, o);
    case SystemOpened(metaOk) => OpenSystemKeepsKeys(y, metaOk, o);
    case SystemClosed => CloseSystemKeepsKeys(y, o);
  }

  // ------------------------------------------- what one event does, exactly

  /** Disabling a key takes it off the inserted ones. If that leaves no authorised key
      inserted, and this was one, the storage is closed: the database and the
      mount are gone. Otherwise the storage stays as it is. */
  lemma DisableExactly(y: System, key: Key, o: Outcomes)
    requires AtRest(y.s)
    ensures var z := Step(y, KeyDisabled(key), o);
            && z.inserted == y.inserted - {key} && z.authorized == y.authorized
            && (if (y.inserted - {key}) * y.authorized == {} && key in y.authorized
                then z.s.state == Unmounted && !z.s.flagged && !z.s.dbOpen && z.s.held == [] && z.s.disk == y.s.disk
                else z.s == y.s)
  {
    CloseSecretsAtRest(y.s, o);
  }

  /** Inserting a key: it is noted, unless it is empty, and counts as authorised if and
      only if it is the current key or a listed one of a mounted storage, or
      mounts it. */
  lemma InsertExactly(y: System, key: Key, o: Outcomes)
    requires AtRest(y.s)
    ensures var z := Step(y, KeyInserted(key), o);
            && z.inserted == (if key == "" then y.inserted else y.inserted + {key})
            && y.authorized <= z.authorized <= y.authorized + {key}
            && (key !in y.authorized ==>
                  (key in z.authorized <==>
                     && key != "" && y.s.isSetup
                     && if y.s.flagged then key == y.s.key || key in y.s.disk.keychain.Values
                        else z.s.state == Mounted && z.s.key == key))
            && (key == "" || !y.s.isSetup || y.s.flagged ==> z.s == y.s)
  {
    SetKeyAtRest(y.s, key);
    MountStaged(SetKey(y.s, key), o);
  }

  /** Authorising a key: nothing to do for an authorised one. Formatting leaves it as
      the only one, or none if that fails. Otherwise it is added, to the slots and
      the keychain too, if and only if another authorised key that holds a slot
      could mount the storage, and the slots could be changed. */
  lemma AuthorizeExactly(y: System, key: Key, format: bool, any: Key, o: Outcomes)
    requires AtRest(y.s)
    ensures var (z, ok) := AuthorizeKey(y, key, format, any, o);
            && z.inserted == y.inserted
            && (key in y.authorized ==> z == y && ok)
            && (key !in y.authorized && (!y.s.isSetup || format) ==>
                  && z.authorized == (if ok then {key} else {})
                  && (ok <==> y.s.state == Unmounted && z.s.state == Mounted)
                  && (ok ==> z.s.key == key && z.s.disk.slots == {key}))
            && (key !in y.authorized && y.s.isSetup && !format ==>
                  && z.authorized == (if ok then y.authorized + {key} else y.authorized)
                  && (ok <==> y.authorized != {} && z.s.flagged && o.slotChanged && any in y.s.disk.slots)
                  && z.s.disk.slots == (if ok then y.s.disk.slots + {key} else y.s.disk.slots)
                  && (ok ==> key in z.s.disk.keychain.Values))
  {
    if key !in y.authorized {
      if !y.s.isSetup || format {
        SetKeyAtRest(y.s, key);
        SetupStaged(SetKey(y.s, key), o);
      } else if y.authorized != {} {
        AddExactly(y, key, any, o);
      }
    }
  }

  lemma AddExactly(y: System, key: Key, any: Key, o: Outcomes)
    requires AtRest(y.s) && y.s.isSetup && y.authorized != {} && key !in y.authorized
    ensures var (z, ok) := AuthorizeKey(y, key, false, any, o);
            && (ok <==> z.s.flagged && o.slotChanged && any in y.s.disk.slots)
            && z.s.disk.slots == (if ok then y.s.disk.slots + {key} else y.s.disk.slots)
            && (ok ==> key in z.s.disk.keychain.Values)
  {
    SetKeyAtRest(y.s, any);
    MountStaged(SetKey(y.s, any), o);
    var m := Reach(y, any, o).0.s;
    Listed(m.disk.keychain, key);
  }

  lemma Listed(chain: map<nat, Key>, key: Key)
    ensures key in AddToKeychain(chain, key).Values
  {
    if key !in chain.Values {
      assert AddToKeychain(chain, key)[|chain| + 1] == key;
    }
  }

  /** Revoking a key goes through if and only if the storage is set up, some key is
      authorised, and the storage is mounted or could be. The key is no longer
      authorised then; slot and keychain entry are gone if the slots could be
      changed. */
  lemma RevokeExactly(y: System, key: Key, any: Key, o: Outcomes)
    requires AtRest(y.s)
    ensures var (z, ok) := RevokeKey(y, key, any, o);
            && z.inserted == y.inserted
            && (ok <==> y.s.isSetup && y.authorized != {} && z.s.flagged)
            && z.authorized == (if ok then y.authorized - {key} else y.authorized)
            && z.s.disk.slots == (if ok && o.slotChanged then y.s.disk.slots - {key} else y.s.disk.slots)
            && (ok && o.slotChanged ==> key !in z.s.disk.keychain.Values)
  {
    if y.s.isSetup && y.authorized != {} {
      SetKeyAtRest(y.s, any);
      MountStaged(SetKey(y.s, any), o);
    }
  }

  /** Removing a key disables it; if it was authorised it is revoked too, if and only if
      the storage could be mounted for that. */
  lemma RemoveKeyExactly(y: System, key: Key, any: Key, o: Outcomes)
    requires AtRest(y.s) && y.s.isSetup
    ensures var z := Step(y, KeyRemoved(key, any), o);
            && z.inserted == y.inserted - {key}
            && (if key in y.authorized && z.s.flagged then z.authorized == y.authorized - {key}
                else z.authorized == y.authorized)
  {
    CloseSecretsAtRest(y.s, o);
    DisableExactly(y, key, o);
    RevokeExactly(DisableKey(y, key, o), key, any, o);
  }

  /** Opening the system: with a mount the database opens at once, if it can; without
      one the current key is tried, and the database opens with the mount. If the
      metadata fails, only the object is there. */
  lemma OpenSystemExactly(s: Storage, metaOk: bool, o: Outcomes)
    requires AtRest(s)
    ensures var t := OpenSystem(s, metaOk, o);
            && t.hasMeta && t.sysOpen == (s.sysOpen || metaOk) && t.key == s.key
            && (!metaOk ==> t == s.(hasMeta := true))
            && (metaOk && t.flagged ==> t.dbOpen == o.dbOpens)
            && (metaOk && !s.flagged ==> t.flagged == MountFs(s.(hasMeta := true, sysOpen := true), o).1)
  {
    var up := s.(hasMeta := true, sysOpen := true);
    if metaOk {
      if up.flagged { OpenDbInStep(up, o); } else { MountStaged(up, o); }
    }
  }

  /** Closing it closes an open database together with its mount; a mount without a
      database is left. */
  lemma CloseSystemExactly(s: Storage, o: Outcomes)
    requires AtRest(s)
    ensures var t := CloseSystem(s, o);
            && (!s.sysOpen ==> t == s)
            && (s.sysOpen ==> !t.hasMeta && !t.sysOpen && !t.dbOpen && t.disk == s.disk
                              && t.state == (if s.dbOpen then Unmounted else s.state))
  {
    CloseSecretsAtRest(s, o);
  }

  // ------------------------------------------------------------ whole runs

  datatype Move = Move(event: Event, outcomes: Outcomes)

  /** One life of the process, from the disk it finds. */
  function Run(d: Disk, ms: seq<Move>): System {
    if ms == [] then Start(d)
    else Step(Run(d, ms[..|ms| - 1]), ms[|ms| - 1].event, ms[|ms| - 1].outcomes)
  }

  /** The disk after one life after another. */
  function DiskAfter(lives: seq<seq<Move>>): Disk {
    if lives == [] then NEW_DISK else Run(DiskAfter(lives[..|lives| - 1]), lives[|lives| - 1]).s.disk
  }

  predicate EnabledRun(d: Disk, ms: seq<Move>) {
    ms == [] || (EnabledRun(d, ms[..|ms| - 1]) && Enabled(Run(d, ms[..|ms| - 1]), ms[|ms| - 1].event))
  }

  predicate GoodRun(d: Disk, ms: seq<Move>) {
    ms == [] ||
    (GoodRun(d, ms[..|ms| - 1]) && Enabled(Run(d, ms[..|ms| - 1]), ms[|ms| - 1].event)
     && !Slotless(Run(d, ms[..|ms| - 1]), ms[|ms| - 1].event))
  }

  /** Holds in every state of every run. */
  ghost predicate Sound(y: System) {
    AtRest(y.s) && GoodDisk(y.s.disk)
  }

  lemma MountSound(y: System, key: Key, o: Outcomes)
    requires Sound(y)
    ensures var s' := MountFs(SetKey(y.s, key), o).0;
            && Sound(y.(s := s')) && SameOpenness(y.s, s') && s'.isSetup == y.s.isSetup
            && s'.disk.slots == y.s.disk.slots
  {
    SetKeyAtRest(y.s, key);
    MountStaged(SetKey(y.s, key), o);
    if MountFs(SetKey(y.s, key), o).1 {
      AddGood(y.s.disk.keychain, y.s.disk.slots, key);
    }
  }

  /** What no event about keys touches. */
  predicate SameOpenness(s: Storage, t: Storage) {
    t.hasMeta == s.hasMeta && t.sysOpen == s.sysOpen
  }

  lemma RemoveSound(s: Storage, key: Key, o: Outcomes)
    requires AtRest(s) && GoodDisk(s.disk)
    ensures var s' := RemoveKey(s, key, o).0;
            AtRest(s') && GoodDisk(s'.disk) && SameOpenness(s, s')
  {
    RemoveGood(s.disk.keychain, s.disk.slots, key);
  }

  lemma AddSound(s: Storage, key: Key, existing: Key, o: Outcomes)
    requires AtRest(s) && GoodDisk(s.disk)
    ensures var s' := AddKey(s, key, existing, o).0;
            AtRest(s') && GoodDisk(s'.disk) && SameOpenness(s, s')
  {
    AddGood(s.disk.keychain, s.disk.slots + {key}, key);
  }

  lemma ReachSound(y: System, any: Key, o: Outcomes)
    requires Sound(y)
    ensures var (y', mounted) := Reach(y, any, o);
            && Sound(y') && SameOpenness(y.s, y'.s) && y'.s.isSetup == y.s.isSetup
            && y'.s.disk.slots == y.s.disk.slots
  {
    MountSound(y, any, o);
  }

  lemma RevokeSound(y: System, key: Key, any: Key, o: Outcomes)
    requires Sound(y)
    ensures Sound(RevokeKey(y, key, any, o).0) && SameOpenness(y.s, RevokeKey(y, key, any, o).0.s)
  {
    ReachSound(y, any, o);
    RemoveSound(Reach(y, any, o).0.s, key, o);
  }

  lemma SetupSound(y: System, key: Key, o: Outcomes)
    requires Sound(y)
    ensures var s' := SetupFs(SetKey(y.s, key), o).0;
            Sound(y.(s := s')) && SameOpenness(y.s, s')
  {
    SetKeyAtRest(y.s, key);
    SetupStaged(SetKey(y.s, key), o);
  }

  lemma AuthorizeSound(y: System, key: Key, format: bool, any: Key, o: Outcomes)
    requires Sound(y)
    ensures var y' := AuthorizeKey(y, key, format, any, o).0;
            Sound(y') && SameOpenness(y.s, y'.s)
  {
    if key !in y.authorized {
      if !y.s.isSetup || format {
        SetupSound(y, key, o);
      } else if y.authorized != {} {
        ReachSound(y, any, o);
        AddSound(Reach(y, any, o).0.s, key, any, o);
      }
    }
  }

  lemma DisableSound(y: System, key: Key, o: Outcomes)
    requires Sound(y)
    ensures Sound(DisableKey(y, key, o)) && SameOpenness(y.s, DisableKey(y, key, o).s)
  {
    CloseSecretsAtRest(y.s, o);
  }

  lemma StepSound(y: System, e: Event, o: Outcomes)
    requires Sound(y)
    ensures Sound(Step(y, e, o))
    ensures !e.SystemOpened? && !e.SystemClosed? ==> SameOpenness(y.s, Step(y, e, o).s)
  {
    match e
    case KeyInserted(key) => MountSound(y, key, o);
    case KeyDisabled(key) => DisableSound(y, key, o);
    case KeyRemoved(key, any) =>
      DisableSound(y, key, o);
      RevokeSound(DisableKey(y, key, o), key, any, o);
    case KeyAuthorized(key, exclusive, any) => AuthorizeSound(y, key, exclusive, any, o);
    case SystemOpened(metaOk) =>
      var up := y.s.(hasMeta := true, sysOpen := true);
      if metaOk {
        if up.flagged { OpenDbInStep(up, o); } else { MountSound(y.(s := up), up.key, o); }
      }
    case SystemClosed => CloseSecretsAtRest(y.s, o);
  }

  /** Over every run from a good disk, whatever fails outside and whichever keys
      come and go: the secrets database follows the mount. It is only open while
      the mount flag is up and the credentials system open, its log shows it closed
      before every drop of the flag, and between events the mount holds all of its
      resources or none. The disk stays good. */
  lemma {:induction false} SecretsFollowTheMount(d: Disk, ms: seq<Move>)
    requires GoodDisk(d)
    ensures AtRest(Run(d, ms).s) && GoodDisk(Run(d, ms).s.disk)
  {
    if ms != [] {
      SecretsFollowTheMount(d, ms[..|ms| - 1]);
      StepSound(Run(d, ms[..|ms| - 1]), ms[|ms| - 1].event, ms[|ms| - 1].outcomes);
    }
  }

  /** However many lives the process had before, each of any length and each cut off
      anywhere, the next one finds a good disk. */
  lemma {:induction false} DisksStayGood(lives: seq<seq<Move>>)
    ensures GoodDisk(DiskAfter(lives))
  {
    if lives != [] {
      DisksStayGood(lives[..|lives| - 1]);
      SecretsFollowTheMount(DiskAfter(lives[..|lives| - 1]), lives[|lives| - 1]);
    }
  }

  /** In every run from a good disk in which the key of a mount is not inserted without
      holding a slot, at every point: the mount is at rest with its resources
      accounted for, the secrets database has only ever been open under the mount
      and an open system, and every authorised or listed key holds a slot. */
  lemma {:induction false} RunsKeepInv(d: Disk, ms: seq<Move>)
    requires GoodDisk(d) && GoodRun(d, ms)
    ensures Inv(Run(d, ms))
  {
    if ms != [] {
      RunsKeepInv(d, ms[..|ms| - 1]);
      StepKeepsInv(Run(d, ms[..|ms| - 1]), ms[|ms| - 1].event, ms[|ms| - 1].outcomes);
    }
  }

  lemma {:induction false} RunsStayGood(d: Disk, ms: seq<Move>, n: nat)
    requires GoodRun(d, ms) && n <= |ms|
    ensures GoodRun(d, ms[..n])
  {
    if n < |ms| {
      assert ms[..|ms| - 1][..n] == ms[..n];
      RunsStayGood(d, ms[..|ms| - 1], n);
    } else {
      assert ms[..n] == ms;
    }
  }

  /** The invariant holds at every point of a run, if and only if the run has no such
      insertion. */
  lemma {:induction false} RunsKeepInvExactly(d: Disk, ms: seq<Move>)
    requires GoodDisk(d) && EnabledRun(d, ms)
    ensures (forall n :: 0 <= n <= |ms| ==> Inv(Run(d, ms[..n])))
       <==> (forall n :: 0 <= n < |ms| ==> !Slotless(Run(d, ms[..n]), ms[n].event))
  {
    if forall n :: 0 <= n < |ms| ==> !Slotless(Run(d, ms[..n]), ms[n].event) {
      NoInsertionIsGood(d, ms);
      forall n | 0 <= n <= |ms| ensures Inv(Run(d, ms[..n])) {
        RunsStayGood(d, ms, n);
        RunsKeepInv(d, ms[..n]);
      }
    }
    if forall n :: 0 <= n <= |ms| ==> Inv(Run(d, ms[..n])) {
      forall n | 0 <= n < |ms| ensures !Slotless(Run(d, ms[..n]), ms[n].event) {
        assert ms[..n + 1][..n] == ms[..n] && ms[..n + 1][n] == ms[n];
        assert Inv(Run(d, ms[..n])) && Inv(Run(d, ms[..n + 1]));
        if ms[n].event.KeyInserted? {
          InsertKeepsKeysExactly(Run(d, ms[..n]), ms[n].event.key, ms[n].outcomes);
        }
      }
    }
  }

  lemma {:induction false} NoInsertionIsGood(d: Disk, ms: seq<Move>)
    requires EnabledRun(d, ms)
    requires forall n :: 0 <= n < |ms| ==> !Slotless(Run(d, ms[..n]), ms[n].event)
    ensures GoodRun(d, ms)
  {
    if ms != [] {
      var before := ms[..|ms| - 1];
      forall n | 0 <= n < |before| ensures !Slotless(Run(d, before[..n]), before[n].event) {
        assert before[..n] == ms[..n] && before[n] == ms[n];
      }
      NoInsertionIsGood(d, before);
    }
  }

  const ALL_WELL := Outcomes(true, true, true, true, true, true, true, true, true, true, true, true, true)

  /** Once everything outside works, a key opens an unmounted storage if and only
      if it holds a slot. */
  lemma OpensExactly(s: Storage, key: Key)
    requires AtRest(s) && !s.flagged
    ensures MountFs(SetKey(s, key), ALL_WELL).1 <==> key != "" && key in s.disk.slots
  {
    SetKeyAtRest(s, key);
    MountStaged(SetKey(s, key), ALL_WELL);
    if key != "" && key in s.disk.slots {
      MountWorks(SetKey(s, key));
    }
  }

  lemma MountWorks(s: Storage)
    requires AtRest(s) && s.state == Unmounted && s.key != "" && s.key in s.disk.slots
    ensures MountFs(s, ALL_WELL).1
  {
    UpdateStateStaged(Acquire(s, LoopDevice), LoopSet, ALL_WELL);
    LoopWorks(UpdateState(Acquire(s, LoopDevice), LoopSet, ALL_WELL));
  }

  lemma LoopWorks(loop: Storage)
    requires loop.key in loop.disk.slots
    ensures MountFromLoop(loop, ALL_WELL).1
  {
  }

  /** Any authorised key opens the storage, once everything outside works. */
  lemma AuthorizedKeyOpens(y: System, key: Key)
    requires Inv(y) && !y.s.flagged && key in y.authorized && key != ""
    ensures MountFs(SetKey(y.s, key), ALL_WELL).1
  {
    OpensExactly(y.s, key);
  }

  // -------------------------------------------------------- revoked keys

  /** A revocation that is reported done frees the slot exactly if the slot could be
      changed, or there was none. */
  lemma RevokedSlotExactly(y: System, key: Key, any: Key, o: Outcomes)
    requires AtRest(y.s) && RevokeKey(y, key, any, o).1
    ensures var y' := RevokeKey(y, key, any, o).0;
            key !in y'.authorized && (key !in y'.s.disk.slots <==> o.slotChanged || key !in y.s.disk.slots)
  {
    SetKeyAtRest(y.s, any);
    MountStaged(SetKey(y.s, any), o);
    assert Reach(y, any, o).0.s.disk.slots == y.s.disk.slots;
  }

  /** So a key whose revocation was reported done opens the storage again after it
      was closed, and counts as authorised when it is inserted, if and only if its
      slot was not freed. */
  lemma RevokedKeyOpensExactly(y: System, key: Key, any: Key, o: Outcomes, closing: Outcomes)
    requires Inv(y) && any in y.authorized && key in y.authorized && key != "" && RevokeKey(y, key, any, o).1
    ensures var y' := RevokeKey(y, key, any, o).0;
            var closed := CloseSecrets(y'.s, closing).0;
            && (MountFs(SetKey(closed, key), ALL_WELL).1 <==> !o.slotChanged)
            && (key in InsertKey(y'.(s := closed), key, ALL_WELL).authorized <==> !o.slotChanged)
  {
    RevokedSlotExactly(y, key, any, o);
    RevokeKeepsKeys(y, key, any, o);
    var y' := RevokeKey(y, key, any, o).0;
    CloseSecretsAtRest(y'.s, closing);
    OpensExactly(CloseSecrets(y'.s, closing).0, key);
    RevokeSetUp(y, key, any, o);
  }

  lemma RevokeSetUp(y: System, key: Key, any: Key, o: Outcomes)
    requires AtRest(y.s) && RevokeKey(y, key, any, o).1
    ensures RevokeKey(y, key, any, o).0.s.isSetup
  {
    SetKeyAtRest(y.s, any);
    MountStaged(SetKey(y.s, any), o);
  }

  lemma RunSnoc(d: Disk, ms: seq<Move>, e: Event)
    ensures var ms' := ms + [Move(e, ALL_WELL)];
            && Run(d, ms') == Step(Run(d, ms), e, ALL_WELL)
            && (EnabledRun(d, ms') <==> EnabledRun(d, ms) && Enabled(Run(d, ms), e))
  {
    assert (ms + [Move(e, ALL_WELL)])[..|ms|] == ms;
  }

  /** The first key on a new disk: the storage is set up for it and mounted. */
  lemma FirstKey(y: System, key: Key)
    requires AtRest(y.s) && !y.s.isSetup && y.s.state == Unmounted && key != "" && y.authorized == {}
    ensures var y' := AuthorizeKey(y, key, false, key, ALL_WELL).0;
            && AtRest(y'.s) && y'.s.state == Mounted && y'.s.isSetup && y'.s.key == key && y'.authorized == {key}
            && y'.s.disk == Disk(true, {key}, map[1 := key]) && y'.inserted == y.inserted
            && SameOpenness(y.s, y'.s)
  {
    SetKeyAtRest(y.s, key);
    SetupStaged(SetKey(y.s, key), ALL_WELL);
    SetupWorks(SetKey(y.s, key));
  }

  lemma SetupWorks(s: Storage)
    requires AtRest(s) && s.state == Unmounted && s.key != ""
    ensures SetupFs(s, ALL_WELL).1
  {
    var made := s.(disk := s.disk.(exists_ := true), isSetup := true);
    UpdateStateStaged(Acquire(made, LoopDevice), LoopSet, ALL_WELL);
    var loop := UpdateState(Acquire(made, LoopDevice), LoopSet, ALL_WELL);
    var blank := loop.(disk := Disk(true, {loop.key}, map[]));
    UpdateStateStaged(blank, LoopLuksFormatted, ALL_WELL);
    var formatted := UpdateState(blank, LoopLuksFormatted, ALL_WELL);
    UpdateStateStaged(Acquire(formatted, LuksMapping), LoopLuksOpened, ALL_WELL);
    MountMappedStaged(UpdateState(Acquire(formatted, LuksMapping), LoopLuksOpened, ALL_WELL), ALL_WELL);
  }

  /** The only key is removed: the storage is closed, mounted again to free the
      slot, and stays mounted with the key that is gone. */
  lemma OnlyKeyRemoved(y: System, key: Key)
    requires AtRest(y.s) && y.s.state == Mounted && y.s.isSetup && y.s.key == key != "" && y.authorized == {key}
    requires y.s.disk == Disk(true, {key}, map[1 := key]) && y.inserted == {key}
    ensures var y' := RemoveKeyEvent(y, key, key, ALL_WELL);
            && AtRest(y'.s) && y'.s.state == Mounted && y'.s.isSetup && y'.s.key == key
            && y'.s.disk.slots == {}
  {
    CloseSecretsAtRest(y.s, ALL_WELL);
    var closed := DisableKey(y, key, ALL_WELL);
    assert LastAuthorized(y, key);
    OpensExactly(closed.s, key);
    SetKeyAtRest(closed.s, key);
    MountStaged(SetKey(closed.s, key), ALL_WELL);
  }

  /** A key revoked under the mount it made, and inserted again, counts as
      authorised although its slot is gone. Nothing in this run is out of the
      ordinary. */
  lemma ReinsertedKeyHasNoSlot(key: Key) returns (ms: seq<Move>)
    requires key != ""
    ensures EnabledRun(NEW_DISK, ms) && key in Run(NEW_DISK, ms).authorized && !KeysGood(Run(NEW_DISK, ms))
  {
    ms := OnlyKeyGone(key);
    var removed := Run(NEW_DISK, ms);
    RunSnoc(NEW_DISK, ms, KeyInserted(key));
    InsertedAgain(removed, key);
    ms := ms + [Move(KeyInserted(key), ALL_WELL)];
    assert Run(NEW_DISK, ms) == InsertKey(removed, key, ALL_WELL);
  }

  lemma OnlyKeyGone(key: Key) returns (ms: seq<Move>)
    requires key != ""
    ensures EnabledRun(NEW_DISK, ms)
    ensures var y := Run(NEW_DISK, ms);
            y.s.flagged && y.s.isSetup && y.s.key == key && y.s.disk.slots == {}
  {
    ms := OpenedAndAuthorized(key);
    var y := Run(NEW_DISK, ms);
    RunSnoc(NEW_DISK, ms, KeyRemoved(key, key));
    OnlyKeyRemoved(y, key);
    ms := ms + [Move(KeyRemoved(key, key), ALL_WELL)];
  }

  lemma InsertedAgain(y: System, key: Key)
    requires y.s.flagged && y.s.isSetup && y.s.key == key != "" && key !in y.s.disk.slots
    ensures var y' := InsertKey(y, key, ALL_WELL);
            key in y'.authorized && key !in y'.s.disk.slots
  {
  }

  /** The system is opened on a new disk, and a key inserted and authorised. */
  lemma OpenedAndAuthorized(key: Key) returns (ms: seq<Move>)
    requires key != ""
    ensures EnabledRun(NEW_DISK, ms)
    ensures var y := Run(NEW_DISK, ms);
            && AtRest(y.s) && y.s.state == Mounted && y.s.isSetup && y.s.key == key && y.authorized == {key}
            && y.s.disk == Disk(true, {key}, map[1 := key]) && y.inserted == {key}
            && y.s.hasMeta && y.s.sysOpen
    ensures ms != [] && ms[0].event == SystemOpened(true)
  {
    RunSnoc(NEW_DISK, [], SystemOpened(true));
    ms := [] + [Move(SystemOpened(true), ALL_WELL)];
    ms := InsertAndAuthorize(ms, key);
  }

  lemma InsertAndAuthorize(ms: seq<Move>, key: Key) returns (ms': seq<Move>)
    requires key != "" && EnabledRun(NEW_DISK, ms)
    requires var y := Run(NEW_DISK, ms);
             AtRest(y.s) && !y.s.isSetup && y.s.state == Unmounted && y.authorized == {} && y.inserted == {}
    ensures EnabledRun(NEW_DISK, ms') && ms <= ms'
    ensures var (y, y') := (Run(NEW_DISK, ms), Run(NEW_DISK, ms'));
            && AtRest(y'.s) && y'.s.state == Mounted && y'.s.isSetup && y'.s.key == key && y'.authorized == {key}
            && y'.s.disk == Disk(true, {key}, map[1 := key]) && y'.inserted == {key}
            && SameOpenness(y.s, y'.s)
  {
    RunSnoc(NEW_DISK, ms, KeyInserted(key));
    ms' := ms + [Move(KeyInserted(key), ALL_WELL)];
    FirstKey(Run(NEW_DISK, ms'), key);
    RunSnoc(NEW_DISK, ms', KeyAuthorized(key, false, key));
    ms' := ms' + [Move(KeyAuthorized(key, false, key), ALL_WELL)];
  }

  // ------------------------------------------- the database object in a run

  /** Some opening of the system went through and no closing followed. */
  predicate SystemUp(ms: seq<Move>) {
    exists i :: 0 <= i < |ms| && ms[i].event == SystemOpened(true) && NoneCloses(ms, i)
  }

  predicate NoneCloses(ms: seq<Move>, i: int) {
    forall j :: 0 <= i < j < |ms| ==> !ms[j].event.SystemClosed?
  }

  /** Some opening was attempted, and no closing of an open system followed: one
      of a system that is not open does nothing. */
  predicate ObjectThere(ms: seq<Move>) {
    exists i :: 0 <= i < |ms| && ms[i].event.SystemOpened? && NoneDeletes(ms, i)
  }

  predicate NoneDeletes(ms: seq<Move>, i: int) {
    forall j :: 0 <= i < j < |ms| && ms[j].event.SystemClosed? ==> !SystemUp(ms[..j])
  }

  lemma SystemUpSnoc(ms: seq<Move>, m: Move)
    ensures SystemUp(ms + [m]) <==> m.event == SystemOpened(true) || (SystemUp(ms) && !m.event.SystemClosed?)
  {
    var ms', n := ms + [m], |ms|;
    assert ms'[n] == m && forall j :: 0 <= j < n ==> ms'[j] == ms[j];
    if m.event == SystemOpened(true) {
      assert NoneCloses(ms', n);
    } else if SystemUp(ms) && !m.event.SystemClosed? {
      var i :| 0 <= i < |ms| && ms[i].event == SystemOpened(true) && NoneCloses(ms, i);
      assert NoneCloses(ms', i);
    }
  }

  lemma ObjectThereSnoc(ms: seq<Move>, m: Move)
    ensures ObjectThere(ms + [m])
       <==> m.event.SystemOpened? || (ObjectThere(ms) && !(m.event.SystemClosed? && SystemUp(ms)))
  {
    var ms', n := ms + [m], |ms|;
    assert ms'[n] == m && ms'[..n] == ms;
    assert forall j :: 0 <= j < n ==> ms'[j] == ms[j] && ms'[..j] == ms[..j];
    if m.event.SystemOpened? {
      assert NoneDeletes(ms', n);
    } else if ObjectThere(ms) && !(m.event.SystemClosed? && SystemUp(ms)) {
      var i :| 0 <= i < |ms| && ms[i].event.SystemOpened? && NoneDeletes(ms, i);
      assert NoneDeletes(ms', i);
    }
    if i :| 0 <= i < |ms'| && ms'[i].event.SystemOpened? && NoneDeletes(ms', i) && i < n {
      assert NoneDeletes(ms, i);
    }
  }

  /** In every run: the system is open, and there is a database object, exactly when
      the openings and closings so far say so. */
  lemma {:induction false} ObjectExactly(d: Disk, ms: seq<Move>)
    requires GoodDisk(d)
    ensures Run(d, ms).s.sysOpen <==> SystemUp(ms)
    ensures Run(d, ms).s.hasMeta <==> ObjectThere(ms)
  {
    if ms != [] {
      var n := |ms| - 1;
      var before, m := ms[..n], ms[n];
      assert ms == before + [m];
      ObjectExactly(d, before);
      SecretsFollowTheMount(d, before);
      SystemUpSnoc(before, m);
      ObjectThereSnoc(before, m);
      OpennessAfter(Run(d, before), m.event, m.outcomes);
    }
  }

  lemma OpennessAfter(y: System, e: Event, o: Outcomes)
    requires Sound(y)
    ensures var s := Step(y, e, o).s;
            && s.sysOpen == (e == SystemOpened(true) || (y.s.sysOpen && !e.SystemClosed?))
            && s.hasMeta == (e.SystemOpened? || (y.s.hasMeta && !(e.SystemClosed? && y.s.sysOpen)))
  {
    match e
    case SystemOpened(metaOk) =>
      var up := y.s.(hasMeta := true, sysOpen := true);
      if metaOk {
        if up.flagged { OpenDbInStep(up, o); } else { MountSound(y.(s := up), up.key, o); }
      }
    case SystemClosed => CloseSecretsAtRest(y.s, o);
    case _ => StepSound(y, e, o);
  }

  /** The slot for the last authorised key finds its database object, at any point
      of any run, if and only if the key is not the last authorised one or an
      opening of the system was not followed by a closing. */
  lemma LastKeySlotExactly(d: Disk, ms: seq<Move>, key: Key)
    requires GoodDisk(d)
    ensures SlotFindsObject(Run(d, ms), key) <==> !LastAuthorized(Run(d, ms), key) || ObjectThere(ms)
  {
    ObjectExactly(d, ms);
  }

  /** Without the system ever having been opened, the first key that is authorised
      cannot be disabled. */
  lemma UnopenedSystemCannotLoseLastKey(key: Key) returns (ms: seq<Move>)
    requires key != ""
    ensures EnabledRun(NEW_DISK, ms) && !SlotFindsObject(Run(NEW_DISK, ms), key)
  {
    ms := InsertAndAuthorize([], key);
  }

  /** Nor can it after the system was closed. */
  lemma ClosedSystemCannotLoseLastKey(key: Key) returns (ms: seq<Move>)
    requires key != ""
    ensures EnabledRun(NEW_DISK, ms) && !SlotFindsObject(Run(NEW_DISK, ms), key)
    ensures exists m :: m in ms && m.event == SystemOpened(true)
  {
    ms := OpenedAndAuthorized(key);
    RunSnoc(NEW_DISK, ms, SystemClosed);
    LostObject(Run(NEW_DISK, ms), key);
    ms := ms + [Move(SystemClosed, ALL_WELL)];
    assert ms[0].event == SystemOpened(true);
  }

  lemma LostObject(y: System, key: Key)
    requires AtRest(y.s) && y.s.sysOpen && LastAuthorized(y, key)
    ensures !SlotFindsObject(Step(y, SystemClosed, ALL_WELL), key)
  {
  }

  // --------------------------------------------- the key of a mounted storage

  lemma SetMountedLogs(s: Storage, isMounted: bool, o: Outcomes)
    ensures s.log <= SetMounted(s, isMounted, o).log
    ensures s.flagged && !isMounted ==> FlagDropped in SetMounted(s, isMounted, o).log[|s.log|..]
  {
    var t := SetMounted(s, isMounted, o);
    if s.flagged && !isMounted {
      assert t.log[|s.log|..][|t.log| - 1 - |s.log|] == FlagDropped;
    }
  }

  lemma UpdateStateLogs(s: Storage, state: MountState, o: Outcomes)
    ensures s.log <= UpdateState(s, state, o).log
  {
    SetMountedLogs(s.(state := state), state == Mounted, o);
  }

  lemma UnmountLogs(s: Storage, o: Outcomes)
    ensures s.log <= Unmount(s, o).0.log
    ensures s.flagged && s.state == Mounted ==> FlagDropped in Unmount(s, o).0.log[|s.log|..]
  {
    if s.state != Unmounted {
      SetMountedLogs(s, false, o);
      var told := SetMounted(s, false, o).log;
      var t := HandBack(SetMounted(s, false, o));
      UpdateStateLogs(t, Unmounted, o);
      var log := UpdateState(t, Unmounted, o).log;
      assert told <= log;
      if s.flagged && s.state == Mounted {
        var i :| |s.log| <= i < |told| && told[i] == FlagDropped;
        assert log[|s.log|..][i - |s.log|] == FlagDropped;
      }
    }
  }

  lemma MountLogs(s: Storage, o: Outcomes)
    ensures s.log <= MountFs(s, o).0.log
  {
    UnmountLogs(s, o);
    UpdateStateLogs(Acquire(s, LoopDevice), LoopSet, o);
    MountLoopLogs(UpdateState(Acquire(s, LoopDevice), LoopSet, o), o);
  }

  lemma MountLoopLogs(loop: Storage, o: Outcomes)
    ensures loop.log <= MountFromLoop(loop, o).0.log
  {
    UnmountLogs(loop, o);
    UpdateStateLogs(Acquire(loop, LuksMapping), LoopLuksOpened, o);
    MountMappedLogs(UpdateState(Acquire(loop, LuksMapping), LoopLuksOpened, o), o);
  }

  lemma MountMappedLogs(s: Storage, o: Outcomes)
    ensures s.log <= MountMapped(s, o).0.log
  {
    UnmountLogs(s, o);
    var m := Acquire(s, MountPoint);
    UpdateStateLogs(m.(disk := m.disk.(keychain := AddToKeychain(m.disk.keychain, m.key))), Mounted, o);
  }

  /** Between s and t the mount flag was dropped. */
  predicate Dropped(s: Storage, t: Storage) {
    s.log <= t.log && FlagDropped in t.log[|s.log|..]
  }

  /** Closing the secrets of a mounted storage drops the flag, and nothing that
      comes after takes that back. */
  lemma CloseDrops(s: Storage, t: Storage, o: Outcomes)
    requires s.flagged && s.state == Mounted && CloseSecrets(s, o).0.log <= t.log
    ensures Dropped(s, t)
  {
    var u := CloseSecrets(s, o).0;
    UnmountLogs(CloseDb(s), o);
    assert s.log <= CloseDb(s).log;
    var i :| |CloseDb(s).log| <= i < |u.log| && u.log[i] == FlagDropped;
    assert t.log[i] == u.log[i] == FlagDropped;
    assert t.log[|s.log|..][i - |s.log|] == t.log[i];
  }

  /** The encryption key of a mounted storage only changes once the mount flag was
      dropped. */
  lemma KeyFixedWhileMounted(y: System, e: Event, o: Outcomes)
    requires AtRest(y.s) && y.s.state == Mounted
    ensures Step(y, e, o).s.key == y.s.key || Dropped(y.s, Step(y, e, o).s)
  {
    match e
    case KeyInserted(key) =>
    case KeyDisabled(key) => CloseSecretsAtRest(y.s, o);
    case KeyAuthorized(key, exclusive, any) =>
    case SystemOpened(metaOk) => OpenDbInStep(y.s.(hasMeta := true, sysOpen := true), o);
    case SystemClosed => CloseSecretsAtRest(y.s, o);
    case KeyRemoved(key, any) => RemovalDrops(y, key, any, o);
  }

  lemma RemovalDrops(y: System, key: Key, any: Key, o: Outcomes)
    requires AtRest(y.s) && y.s.state == Mounted
    ensures var t := RemoveKeyEvent(y, key, any, o).s;
            t.key == y.s.key || Dropped(y.s, t)
  {
    if LastAuthorized(y, key) {
      var y' := DisableKey(y, key, o);
      CloseSecretsAtRest(y.s, o);
      ReachLogs(y', any, o);
      CloseDrops(y.s, RemoveKeyEvent(y, key, any, o).s, o);
    }
  }

  lemma ReachLogs(y: System, any: Key, o: Outcomes)
    ensures y.s.log <= Reach(y, any, o).0.s.log
  {
    MountLogs(SetKey(y.s, any), o);
  }
}
