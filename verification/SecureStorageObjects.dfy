/**
 The objects behind the encrypted storage: the access manager with its slots, the
 crypto manager that changes its state stage by stage and emits the mount
 signals, and the key handler. Each method is proved to be the step of the same
 name in SecureStorage.
 */
module SecureStorageObjects {
  import opened SecureStorage

  /** The slots are connected to the crypto manager passed to them. */
  class CredentialsAccessManager {
    var hasMeta: bool
    var systemOpened: bool
    var secretsOpen: bool

    constructor ()
      ensures !hasMeta && !systemOpened && !secretsOpen
    {
      hasMeta, systemOpened, secretsOpen := false, false, false;
    }

    method CloseDbFile(crypto: CryptoManager)
      requires crypto.cam == this
      modifies `secretsOpen, crypto`log
      ensures crypto.View() == CloseDb(old(crypto.View()))
    {
      if secretsOpen {
        secretsOpen := false;
        crypto.log := crypto.log + [DbClosed];
      }
    }

    method OpenSecretsDB(crypto: CryptoManager, o: Outcomes)
      requires crypto.cam == this
      modifies `secretsOpen, crypto`log
      ensures crypto.View() == OpenDb(old(crypto.View()), o)
    {
      if !crypto.fileSystemIsMounted { return; }
      CloseDbFile(crypto);
      if o.dbOpens {
        secretsOpen := true;
        crypto.log := crypto.log + [DbOpened];
      }
    }

    method OnEncryptedFSMounted(crypto: CryptoManager, o: Outcomes)
      requires crypto.cam == this
      modifies `secretsOpen, crypto`log
      ensures crypto.View() == if systemOpened && !old(secretsOpen) then OpenDb(old(crypto.View()), o)
                               else old(crypto.View())
    {
      if !systemOpened { return; }
      if !secretsOpen {
        OpenSecretsDB(crypto, o);
      }
    }

    method OnEncryptedFSUnmounting(crypto: CryptoManager)
      requires crypto.cam == this
      modifies `secretsOpen, crypto`log
      ensures crypto.View() == if systemOpened then CloseDb(old(crypto.View())) else old(crypto.View())
    {
      if !systemOpened { return; }
      CloseDbFile(crypto);
    }

    method CloseSecretsDB(crypto: CryptoManager, o: Outcomes) returns (ok: bool)
      requires crypto.cam == this
      modifies this, crypto
      ensures (crypto.View(), ok) == CloseSecrets(old(crypto.View()), o)
    {
      CloseDbFile(crypto);
      ok := crypto.UnmountFileSystem(o);
    }

    method OpenCredentialsSystem(crypto: CryptoManager, metaOk: bool, o: Outcomes) returns (ok: bool)
      requires crypto.cam == this
      modifies this, crypto
      ensures ok == metaOk && crypto.View() == OpenSystem(old(crypto.View()), metaOk, o)
    {
      hasMeta := true;
      if !metaOk { return false; }
      systemOpened := true;
      if crypto.fileSystemIsMounted {
        OpenSecretsDB(crypto, o);
      } else {
        var _ := crypto.MountFileSystem(o);
      }
      return true;
    }

    method CloseCredentialsSystem(crypto: CryptoManager, o: Outcomes) returns (allClosed: bool)
      requires crypto.cam == this
      modifies this, crypto
      ensures crypto.View() == CloseSystem(old(crypto.View()), o)
      ensures allClosed <==> (old(systemOpened && secretsOpen) ==> CloseSecrets(old(crypto.View()), o).1)
    {
      if !systemOpened { return true; }
      allClosed := true;
      if secretsOpen {
        allClosed := CloseSecretsDB(crypto, o);
      }
      hasMeta := false;
      systemOpened := false;
    }

    /** The source reads the database object without checking that there is one. */
    method OnLastAuthorizedKeyRemoved(crypto: CryptoManager, o: Outcomes)
      requires crypto.cam == this && hasMeta
      modifies this, crypto
      ensures crypto.View() ==
              if old(secretsOpen || crypto.fileSystemIsMounted) then CloseSecrets(old(crypto.View()), o).0
              else old(crypto.View())
    {
      if secretsOpen || crypto.fileSystemIsMounted {
        var _ := CloseSecretsDB(crypto, o);
      }
    }
  }

  /** One entry of the key went, and nothing else. */
  predicate RemovesOne(before: map<nat, Key>, after: map<nat, Key>, key: Key) {
    exists n :: n in before && before[n] == key && after == before - {n}
  }

  class CryptoManager {
    const cam: CredentialsAccessManager
    var mountState: MountState
    var fileSystemIsMounted: bool
    var fileSystemIsSetup: bool
    var encryptionKey: Key
    var slots: set<Key>            // on the partition file
    var fileExists: bool
    var keychain: map<nat, Key>
    ghost var held: seq<Resource>
    ghost var log: seq<Signal>

    ghost function View(): Storage
      reads this, cam
    {
      Storage(mountState, fileSystemIsMounted, fileSystemIsSetup, encryptionKey,
              Disk(fileExists, slots, keychain), held, log, cam.hasMeta, cam.systemOpened, cam.secretsOpen)
    }

    /** The partition file is looked for when the manager is initialised. */
    constructor (cam: CredentialsAccessManager, disk: Disk)
      requires !cam.hasMeta && !cam.systemOpened && !cam.secretsOpen
      ensures this.cam == cam && View() == Fresh(disk)
    {
      this.cam := cam;
      mountState := Unmounted;
      fileSystemIsMounted, fileSystemIsSetup, encryptionKey, fileExists := false, disk.exists_, "", disk.exists_;
      slots, keychain, held, log := disk.slots, disk.keychain, [], [];
    }

    method SetFileSystemMounted(isMounted: bool, o: Outcomes)
      modifies this, cam
      ensures View() == SetMounted(old(View()), isMounted, o)
    {
      if isMounted != fileSystemIsMounted {
        if fileSystemIsMounted {
          cam.OnEncryptedFSUnmounting(this);
        }
        fileSystemIsMounted := isMounted;
        log := log + [if isMounted then FlagRaised else FlagDropped];
        if isMounted {
          cam.OnEncryptedFSMounted(this, o);
        }
      }
    }

    method SetEncryptionKey(key: Key)
      modifies this
      ensures View() == SetKey(old(View()), key)
    {
      if fileSystemIsMounted { return; }
      encryptionKey := key;
    }

    method UpdateMountState(state: MountState, o: Outcomes)
      modifies this, cam
      ensures View() == UpdateState(old(View()), state, o)
    {
      if state == mountState { return; }
      mountState := state;
      SetFileSystemMounted(state == Mounted, o);
    }

    method UnmountFileSystem(o: Outcomes) returns (isOk: bool)
      modifies this, cam
      ensures (View(), isOk) == Unmount(old(View()), o)
    {
      if mountState == Unmounted { return true; }
      SetFileSystemMounted(false, o);
      isOk := ReleaseResources(o);
      UpdateMountState(Unmounted, o);
    }

    method ReleaseResources(o: Outcomes) returns (isOk: bool)
      modifies `held
      ensures View() == HandBack(old(View())) && isOk == AllReleased(mountState, o)
    {
      isOk := true;
      if mountState.AtLeast(Mounted) {
        held := Pop(held, MountPoint);
        if !o.umounted { isOk := false; }
      }
      if mountState.AtLeast(LoopLuksOpened) {
        held := Pop(held, LuksMapping);
        if !o.luksClosed { isOk := false; }
      }
      if mountState.AtLeast(LoopSet) {
        held := Pop(held, LoopDevice);
        if !o.loopReleased { isOk := false; }
      }
    }

    method KeychainContainsKey(key: Key) returns (found: bool)
      ensures found == (key in keychain.Values)
    {
      var todo := keychain.Keys;
      while todo != {}
        invariant todo <= keychain.Keys
        invariant forall n :: n in keychain && n !in todo ==> keychain[n] != key
        decreases todo
      {
        var n :| n in todo;
        todo := todo - {n};
        if keychain[n] == key { return true; }
      }
      return false;
    }

    method AddKeyToKeychain(key: Key)
      modifies `keychain
      ensures keychain == AddToKeychain(old(keychain), key)
    {
      var present := KeychainContainsKey(key);
      if present { return; }
      keychain := keychain[|keychain| + 1 := key];
    }

    /** Removes the first entry found, in whatever order they come. */
    method RemoveKeyFromKeychain(key: Key)
      modifies `keychain
      ensures key !in old(keychain).Values ==> keychain == old(keychain)
      ensures key in old(keychain).Values ==> RemovesOne(old(keychain), keychain, key)
      ensures old(Distinct(keychain)) ==> keychain == RemoveFromKeychain(old(keychain), key)
    {
      var todo := keychain.Keys;
      while todo != {}
        invariant todo <= keychain.Keys && keychain == old(keychain)
        invariant forall n :: n in keychain && n !in todo ==> keychain[n] != key
        decreases todo
      {
        var n :| n in todo;
        todo := todo - {n};
        if keychain[n] == key {
          keychain := keychain - {n};
          assert keychain == map k | k in old(keychain) && k != n :: old(keychain)[k];
          return;
        }
      }
    }

    method MountMappedDevice(o: Outcomes) returns (ok: bool)
      modifies `held
      ensures ok == o.mountDir && held == if ok then old(held) + [MountPoint] else old(held)
    {
      if !o.mountDir { return false; }
      held := held + [MountPoint];
      return true;
    }

    /** The last stages of both setup and mount. */
    method FinishMount(o: Outcomes) returns (ok: bool)
      modifies this, cam
      ensures (View(), ok) == MountMapped(old(View()), o)
    {
      var mounted := MountMappedDevice(o);
      if !mounted {
        var _ := UnmountFileSystem(o);
        return false;
      }
      AddKeyToKeychain(encryptionKey);
      UpdateMountState(Mounted, o);
      return true;
    }

    method MountFileSystem(o: Outcomes) returns (ok: bool)
      modifies this, cam
      ensures (View(), ok) == MountFs(old(View()), o)
    {
      if mountState == Mounted { return false; }
      if encryptionKey == "" { return false; }
      if !o.dmLoaded { return false; }
      if !o.loopFound { return false; }
      if !o.loopAttached {
        var _ := UnmountFileSystem(o);
        return false;
      }
      held := held + [LoopDevice];
      UpdateMountState(LoopSet, o);
      ok := OpenAndMount(o);
    }

    method OpenAndMount(o: Outcomes) returns (ok: bool)
      modifies this, cam
      ensures (View(), ok) == MountFromLoop(old(View()), o)
    {
      if !(o.luksOpens && encryptionKey in slots) {
        var _ := UnmountFileSystem(o);
        return false;
      }
      held := held + [LuksMapping];
      UpdateMountState(LoopLuksOpened, o);
      ok := FinishMount(o);
    }

    method SetupFileSystem(o: Outcomes) returns (ok: bool)
      modifies this, cam
      ensures (View(), ok) == SetupFs(old(View()), o)
    {
      if mountState == Mounted { return false; }
      if encryptionKey == "" { return false; }
      if !o.dmLoaded { return false; }
      if !o.loopFound { return false; }
      if !o.partitionMade {
        var _ := UnmountFileSystem(o);
        return false;
      }
      fileExists := true;
      fileSystemIsSetup := fileExists;
      if !o.loopAttached {
        var _ := UnmountFileSystem(o);
        return false;
      }
      held := held + [LoopDevice];
      UpdateMountState(LoopSet, o);
      ok := FormatAndMount(o);
    }

    method FormatAndMount(o: Outcomes) returns (ok: bool)
      requires fileExists
      modifies this, cam
      ensures (View(), ok) == SetupFromLoop(old(View()), o)
    {
      if !o.formatted {
        var _ := UnmountFileSystem(o);
        return false;
      }
      slots := {encryptionKey};
      keychain := map[];
      UpdateMountState(LoopLuksFormatted, o);
      if !o.luksOpens {
        var _ := UnmountFileSystem(o);
        return false;
      }
      held := held + [LuksMapping];
      UpdateMountState(LoopLuksOpened, o);
      if !o.mkfs {
        var _ := UnmountFileSystem(o);
        return false;
      }
      ok := FinishMount(o);
    }

    method AddEncryptionKey(key: Key, existingKey: Key, o: Outcomes) returns (ok: bool)
      modifies this
      ensures (View(), ok) == AddKey(old(View()), key, existingKey, o)
    {
      if mountState.AtLeast(LoopLuksOpened) {
        if o.slotChanged && existingKey in slots {
          slots := slots + {key};
          AddKeyToKeychain(key);
          return true;
        }
      }
      return false;
    }

    method RemoveEncryptionKey(key: Key, o: Outcomes) returns (ok: bool)
      modifies `slots, `keychain
      ensures ok == mountState.AtLeast(LoopLuksOpened)
      ensures slots == if ok && o.slotChanged then old(slots) - {key} else old(slots)
      ensures if ok && o.slotChanged && key in old(keychain).Values then RemovesOne(old(keychain), keychain, key)
              else keychain == old(keychain)
      ensures old(Distinct(keychain)) ==> (View(), ok) == RemoveKey(old(View()), key, o)
    {
      if mountState.AtLeast(LoopLuksOpened) {
        if o.slotChanged {
          slots := slots - {key};
          RemoveKeyFromKeychain(key);
        }
        return true;
      }
      return false;
    }

    method EncryptionKeyInUse(key: Key, o: Outcomes) returns (used: bool)
      modifies this, cam
      ensures (View(), used) == KeyInUse(old(View()), key, o)
    {
      if fileSystemIsMounted && encryptionKey == key { return true; }
      if !fileSystemIsMounted {
        SetEncryptionKey(key);
        used := MountFileSystem(o);
      } else {
        used := KeychainContainsKey(key);
      }
    }
  }

  /** The key handler, with the access manager's slots for its signals. */
  class KeyHandler {
    const crypto: CryptoManager
    const cam: CredentialsAccessManager
    var insertedKeys: set<Key>
    var authorizedKeys: set<Key>
    ghost var revoked: set<Key>

    ghost function View(): System
      reads this, crypto, cam, crypto.cam
    {
      System(crypto.View(), insertedKeys, authorizedKeys, revoked)
    }

    ghost predicate Valid()
      reads this, crypto, cam, crypto.cam
    {
      crypto.cam == cam && Inv(View())
    }

    constructor (disk: Disk)
      requires GoodDisk(disk)
      ensures Valid() && View() == Start(disk)
      ensures fresh(crypto) && fresh(cam)
    {
      var manager := new CredentialsAccessManager();
      cam := manager;
      crypto := new CryptoManager(manager, disk);
      insertedKeys, authorizedKeys, revoked := {}, {}, {};
    }

    /** Mounts the storage with an authorised key, if it is not mounted. */
    method EnsureMounted(authorizedKey: Key, o: Outcomes) returns (mounted: bool)
      requires Valid()
      modifies `revoked, crypto, cam
      ensures Valid() && (View(), mounted) == Reach(old(View()), authorizedKey, o)
    {
      if crypto.fileSystemIsMounted { return true; }
      ghost var y := View();
      MountKeepsKeys(y, authorizedKey, o);
      crypto.SetEncryptionKey(authorizedKey);
      mounted := crypto.MountFileSystem(o);
      revoked := Remount(y.s, crypto.View(), y.revoked);
    }

    method Format(key: Key, o: Outcomes) returns (ok: bool)
      requires Valid() && key !in authorizedKeys
      modifies this, crypto, cam
      ensures Valid()
      ensures (View(), ok) == AuthorizeKey(old(View()), key, true, "", o)
    {
      ghost var y := View();
      SetupKeepsKeys(y, key, o);
      authorizedKeys := {};
      crypto.SetEncryptionKey(key);
      ok := crypto.SetupFileSystem(o);
      revoked := Remount(y.s, crypto.View(), y.revoked);
      if ok {
        authorizedKeys := authorizedKeys + {key};
      }
    }

    method Authorize(key: Key, format: bool, o: Outcomes) returns (ok: bool, ghost any: Key)
      requires Valid()
      modifies this, crypto, cam
      ensures Valid()
      ensures old(authorizedKeys) != {} ==> any in old(authorizedKeys)
      ensures (View(), ok) == AuthorizeKey(old(View()), key, format, any, o)
    {
      any := "";
      if authorizedKeys != {} { any :| any in authorizedKeys; }
      if key in authorizedKeys { return true, any; }
      if !crypto.fileSystemIsSetup || format {
        ok := Format(key, o);
        return;
      }
      if authorizedKeys == {} { return false, any; }
      ghost var y := View();
      var authorizedKey :| authorizedKey in authorizedKeys;
      any := authorizedKey;
      AuthorizeKeepsKeys(y, key, format, any, o);
      var mounted := EnsureMounted(authorizedKey, o);
      if !mounted { return false, any; }
      ok := crypto.AddEncryptionKey(key, authorizedKey, o);
      if ok {
        authorizedKeys := authorizedKeys + {key};
      }
    }

    method Revoke(key: Key, o: Outcomes) returns (ok: bool, ghost any: Key)
      requires Valid()
      modifies this, crypto, cam
      ensures Valid()
      ensures old(authorizedKeys) != {} ==> any in old(authorizedKeys)
      ensures (View(), ok) == RevokeKey(old(View()), key, any, o)
    {
      any := "";
      if authorizedKeys != {} { any :| any in authorizedKeys; }
      if !crypto.fileSystemIsSetup { return false, any; }
      if authorizedKeys == {} { return false, any; }
      ghost var y := View();
      var authorizedKey :| authorizedKey in authorizedKeys;
      any := authorizedKey;
      RevokeKeepsKeys(y, key, any, o);
      var mounted := EnsureMounted(authorizedKey, o);
      if !mounted { return false, any; }
      ok := TakeSlot(key, o);
    }

    /** With the storage mounted: frees the slot and drops the authorisation. */
    method TakeSlot(key: Key, o: Outcomes) returns (ok: bool)
      requires crypto.cam == cam && Distinct(crypto.keychain)
      modifies `authorizedKeys, `revoked, crypto
      ensures crypto.cam == cam
      ensures crypto.View() == RemoveKey(old(crypto.View()), key, o).0
      ensures ok == RemoveKey(old(crypto.View()), key, o).1
      ensures authorizedKeys == if ok then old(authorizedKeys) - {key} else old(authorizedKeys)
      ensures revoked == if ok then old(revoked) + {key} else old(revoked)
    {
      ok := crypto.RemoveEncryptionKey(key, o);
      if ok {
        authorizedKeys := authorizedKeys - {key};
        revoked := revoked + {key};
      }
    }

    method OnKeyInserted(key: Key, o: Outcomes)
      requires Valid()
      modifies this, crypto, cam
      ensures crypto.cam == cam && View() == InsertKey(old(View()), key, o)
      ensures Valid() <==> !old(Slotless(View(), KeyInserted(key)))
    {
      ghost var y := View();
      if key == "" { return; }
      insertedKeys := insertedKeys + {key};
      if crypto.fileSystemIsSetup {
        InsertKeepsKeysExactly(y, key, o);
        var used := crypto.EncryptionKeyInUse(key, o);
        revoked := Remount(y.s, crypto.View(), y.revoked);
        if used {
          authorizedKeys := authorizedKeys + {key};
        }
      }
    }

    method OnKeyDisabled(key: Key, o: Outcomes)
      requires Valid() && (LastAuthorized(View(), key) ==> cam.hasMeta)
      modifies this, crypto, cam
      ensures Valid() && View() == DisableKey(old(View()), key, o)
    {
      DisableKeepsKeys(View(), key, o);
      insertedKeys := insertedKeys - {key};
      if insertedKeys * authorizedKeys == {} && key in authorizedKeys {
        cam.OnLastAuthorizedKeyRemoved(crypto, o);
      }
    }

    method OnKeyRemoved(key: Key, o: Outcomes) returns (ghost any: Key)
      requires Valid() && (LastAuthorized(View(), key) ==> cam.hasMeta)
      modifies this, crypto, cam
      ensures Valid() && View() == RemoveKeyEvent(old(View()), key, any, o)
    {
      any := "";
      OnKeyDisabled(key, o);
      if key in authorizedKeys {
        var ok;
        ok, any := Revoke(key, o);
      }
    }
  }
}
