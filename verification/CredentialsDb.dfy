/**
 The credentials database as far as secrets go: a cache object, a storage object,
 the flag that routes between them, and the metadata database that numbers the
 methods.
 */
module CredentialsDb {
  import opened Common
  import opened SecretsStore
  import opened SecretsCache
  import MetaDataTables
  import MetaDataDb

  class MemoryCache {
    var cache: Cache

    constructor ()
      ensures cache == map[]
    {
      cache := map[];
    }

    method LookupCredentials(id: nat) returns (found: bool, username: string, password: string)
      ensures found == (id in cache)
      ensures if found then username == cache[id].username && password == cache[id].password
              else username == "" && password == ""
    {
      if id !in cache { return false, "", ""; }
      return true, cache[id].username, cache[id].password;
    }

    method UpdateCredentials(id: nat, username: string, password: string, storePassword: bool)
      modifies this
      ensures cache == CacheLogin(old(cache), id, username, password, storePassword)
    {
      if id == 0 { return; }
      var entry := EntryOf(cache, id);
      cache := cache[id := entry.(username := username, password := password, storePassword := storePassword)];
    }

    method UpdateData(id: nat, m: nat, data: Blob)
      modifies this
      ensures cache == CacheBlob(old(cache), id, m, data)
    {
      if id == 0 { return; }
      var entry := EntryOf(cache, id);
      cache := cache[id := entry.(blobs := entry.blobs[m := data])];
    }

    /** Walks the cache and each entry's blobs in an arbitrary order, and goes on
        after a statement that fails. */
    method StoreToDB(storage: SecretsDB, badLogins: set<nat>, badBlobs: set<(nat, nat)>)
      requires 0 !in cache
      modifies storage
      ensures Flushed(Surviving(cache, badLogins, badBlobs), old(storage.View()), storage.View())
    {
      var todo := cache.Keys;
      ghost var left := Surviving(cache, badLogins, badBlobs);
      ghost var done: Cache := map[];
      while todo != {}
        invariant todo <= cache.Keys
        invariant done == map id | id in left && id !in todo :: left[id]
        invariant Flushed(done, old(storage.View()), storage.View())
        decreases todo
      {
        var id :| id in todo;
        todo := todo - {id};
        StoreLogin(storage, id, id !in badLogins, done, old(storage.View()));
        done := done[id := SurvivingEntry(cache[id], id, badLogins, badBlobs).(blobs := map[])];
        StoreBlobs(storage, id, badLogins, badBlobs, done, old(storage.View()));
        done := done[id := left[id]];
      }
      assert done == left;
    }

    method StoreLogin(storage: SecretsDB, id: nat, sqlOk: bool, ghost done: Cache, ghost s: Store)
      requires id in cache && id != 0 && id !in done && Flushed(done, s, storage.View())
      modifies storage
      ensures Flushed(done[id := (if sqlOk then cache[id] else NOTHING).(blobs := map[])], s, storage.View())
    {
      var entry := cache[id];
      var password := if entry.storePassword then entry.password else "";
      ghost var t := storage.View();
      if entry.username != "" || password != "" {
        var _ := storage.UpdateCredentials(id, entry.username, password, sqlOk);
        FlushLogin(done, s, t, id, entry.username, entry.password, entry.storePassword);
        assert done[id := entry.(blobs := map[])]
            == CacheLogin(done, id, entry.username, entry.password, entry.storePassword);
        if !sqlOk {
          EmptyEntryFlushes(done, s, t, id, NOTHING);
        }
      } else {
        EmptyEntryFlushes(done, s, t, id, (if sqlOk then entry else NOTHING).(blobs := map[]));
      }
    }

    method StoreOneBlob(storage: SecretsDB, id: nat, m: nat, data: Blob, ghost done: Cache, ghost s: Store,
                        ghost entry: Cached, ghost stored: map<nat, Blob>)
      requires id != 0 && m !in stored
      requires Flushed(done[id := entry.(blobs := stored)], s, storage.View())
      modifies storage
      ensures Flushed(done[id := entry.(blobs := stored[m := data])], s, storage.View())
    {
      ghost var t := storage.View();
      var ok := storage.StoreBlob(id, m, data, true);
      FlushNextBlob(done, s, t, id, entry, stored, m, data);
    }

    method StoreBlobs(storage: SecretsDB, id: nat, badLogins: set<nat>, badBlobs: set<(nat, nat)>,
                      ghost done: Cache, ghost s: Store)
      requires id in cache && id != 0 && id in done
      requires done[id] == SurvivingEntry(cache[id], id, badLogins, badBlobs).(blobs := map[])
      requires Flushed(done, s, storage.View())
      modifies storage
      ensures Flushed(done[id := SurvivingEntry(cache[id], id, badLogins, badBlobs)], s, storage.View())
    {
      var blobs := cache[id].blobs;
      var todo := blobs.Keys;
      ghost var entry := SurvivingEntry(cache[id], id, badLogins, badBlobs);
      ghost var stored: map<nat, Blob> := map[];
      assert done == done[id := entry.(blobs := stored)];
      while todo != {}
        invariant todo <= blobs.Keys
        invariant stored == map m | m in blobs && m !in todo && (id, m) !in badBlobs :: blobs[m]
        invariant Flushed(done[id := entry.(blobs := stored)], s, storage.View())
        decreases todo
      {
        var m :| m in todo;
        todo := todo - {m};
        if (id, m) in badBlobs {
          var _ := storage.StoreBlob(id, m, blobs[m], false);
        } else {
          StoreOneBlob(storage, id, m, blobs[m], done, s, entry, stored);
          stored := stored[m := blobs[m]];
        }
      }
      assert stored == entry.blobs;
      assert entry.(blobs := stored) == entry;
    }
  }

  lemma FlushNextBlob(done: Cache, s: Store, t: Store, id: nat, entry: Cached, stored: map<nat, Blob>,
                      m: nat, data: Blob)
    requires id != 0 && m !in stored && Flushed(done[id := entry.(blobs := stored)], s, t)
    ensures Flushed(done[id := entry.(blobs := stored[m := data])], s, StoreData(t, id, m, data, true))
  {
    var now := done[id := entry.(blobs := stored)];
    assert CachedBlob(now, id, m) == None;
    assert CacheBlob(now, id, m, data) == done[id := entry.(blobs := stored[m := data])] by {
      assert EntryOf(now, id) == entry.(blobs := stored);
    }
    FlushNewBlob(now, s, t, id, m, data);
  }

  lemma EmptyEntryFlushes(cache: Cache, s: Store, t: Store, id: nat, c: Cached)
    requires Flushed(cache, s, t) && id !in cache && c.blobs == map[] && !WritesLogin(c)
    ensures Flushed(cache[id := c], s, t)
  {
    var cache' := cache[id := c];
    forall i: nat ensures RowFlushed(cache', s, t, i) { assert RowFlushed(cache, s, t, i); }
    forall i: nat, m: nat ensures DataFlushed(cache', s, t, i, m) {
      assert DataFlushed(cache, s, t, i, m);
      assert CachedBlob(cache', i, m) == CachedBlob(cache, i, m);
    }
  }

  /** What the client hands in of an identity's secrets; a missing value was not given. */
  datatype Secrets = Secrets(username: Option<string>, password: Option<string>, usernameIsSecret: bool,
                             storePassword: bool) {
    predicate HasSecrets() { password.Some? || (usernameIsSecret && username.Some?) }

    function Written(id: nat): Write {
      SetLogin(id, if usernameIsSecret && username.Some? then username.value else "",
               if password.Some? then password.value else "", storePassword)
    }
  }

  /** A user name goes into the secrets only if it is secret and was given, and a password
      as it was given; there is nothing to write if neither is. */
  lemma OnlySecretsAreWritten(info: Secrets, id: nat)
    ensures var w := info.Written(id);
            && w.SetLogin? && w.id == id && w.storePassword == info.storePassword
            && (w.username != "" ==> info.usernameIsSecret && info.username == Some(w.username))
            && (w.password != "" ==> info.password == Some(w.password))
            && (info.usernameIsSecret && info.username.Some? ==> w.username == info.username.value)
            && (info.password.Some? ==> w.password == info.password.value)
            && (!info.HasSecrets() ==> w.username == "" && w.password == "")
  {
  }

  /** A method's number, or 0. */
  function MethodId(t: MetaDataTables.Tables, name: string): nat {
    if name in t.methods.ids then t.methods.ids[name] else 0
  }

  class CredentialsDB {
    const secretsCache: MemoryCache
    const secretsStorage: SecretsDB
    const metaDataDB: MetaDataDb.MetaDataDB
    var isOpen: bool

    ghost function View(): Vault
      reads this, secretsCache, secretsStorage
    {
      Vault(isOpen, secretsStorage.View(), secretsCache.cache)
    }

    ghost predicate Valid()
      reads this, secretsCache, secretsStorage, metaDataDB
    {
      0 !in secretsCache.cache && Bounded(secretsStorage.View()) && metaDataDB.Valid()
    }

    constructor ()
      ensures Valid() && View() == Vault(false, Store(map[], map[]), map[])
      ensures fresh(secretsCache) && fresh(secretsStorage) && fresh(metaDataDB)
    {
      secretsCache := new MemoryCache();
      secretsStorage := new SecretsDB();
      metaDataDB := new MetaDataDb.MetaDataDB();
      isOpen := false;
      EmptyIsBounded();
    }

    /** The secrets part of updateCredentials, once the metadata has given an id. */
    method UpdateSecrets(id: nat, info: Secrets, sqlOk: bool)
      requires Valid()
      modifies secretsCache, secretsStorage
      ensures Valid()
      ensures if info.HasSecrets() then Steps(old(View()), Put(info.Written(id), sqlOk), View())
              else View() == old(View())
    {
      if id == 0 { return; }
      if info.HasSecrets() {
        var password := if info.password.Some? then info.password.value else "";
        var userName := "";
        if info.usernameIsSecret && info.username.Some? {
          userName := info.username.value;
        }
        if info.storePassword && isOpen {
          var _ := secretsStorage.UpdateCredentials(id, userName, password, sqlOk);
          DeletionKeepsBound(old(secretsStorage.View()), secretsStorage.View());
        } else {
          secretsCache.UpdateCredentials(id, userName, password, info.storePassword);
        }
      }
    }

    /** The secrets part of credentials(): the user name and password of an identity
        whose metadata has this flag, blank where nothing is found. */
    method Credentials(id: nat, storePassword: bool) returns (username: string, password: string)
      requires Valid()
      ensures match Query(View(), id, storePassword)
              case Some(login) => login == Login(username, password)
              case None => username == "" && password == ""
    {
      var found;
      if storePassword && isOpen {
        found, username, password := secretsStorage.LoadCredentials(id);
      } else {
        found, username, password := secretsCache.LookupCredentials(id);
      }
    }

    /** A method without a number is given one first. */
    method StoreData(id: nat, authMethod: string, data: Blob, insertOk: bool, sqlOk: bool) returns (ok: bool)
      requires Valid()
      modifies secretsCache, secretsStorage, metaDataDB
      ensures Valid()
      ensures metaDataDB.tables == if id != 0 && insertOk then MetaDataTables.InsertMethod(old(metaDataDB.tables), authMethod)
                                   else old(metaDataDB.tables)
      ensures var m := MethodId(metaDataDB.tables, authMethod);
              && (ok <==> id != 0 && m != 0 && (isOpen ==> Fits(data) && sqlOk))
              && if id != 0 && m != 0 then Steps(old(View()), Put(SetBlob(id, m, data), sqlOk), View())
                 else View() == old(View())
    {
      if id == 0 { return false; }
      var m := metaDataDB.NumberOf(authMethod);
      if m == 0 {
        m := metaDataDB.NewMethodNumber(authMethod, insertOk);
        if m == 0 { return false; }
      }
      if isOpen {
        ok := KeepBlob(id, m, data, sqlOk);
      } else {
        secretsCache.UpdateData(id, m, data);
        ok := true;
      }
    }

    method KeepBlob(id: nat, m: nat, data: Blob, sqlOk: bool) returns (ok: bool)
      requires Valid()
      modifies secretsStorage
      ensures Valid() && (ok <==> Fits(data) && sqlOk)
      ensures secretsStorage.View() == SecretsStore.StoreData(old(secretsStorage.View()), id, m, data, sqlOk)
    {
      StoreKeepsBound(secretsStorage.View(), id, m, data, sqlOk);
      ok := secretsStorage.StoreBlob(id, m, data, sqlOk);
    }

    /** A method without a number has no data. */
    method LoadData(id: nat, authMethod: string) returns (data: Blob)
      requires Valid()
      ensures var m := MethodId(metaDataDB.tables, authMethod);
              data == if id == 0 || m == 0 then map[]
                      else if isOpen then DataOf(secretsStorage.View(), id, m)
                      else match CachedBlob(secretsCache.cache, id, m)
                           case Some(blob) => blob
                           case None => map[]
    {
      if id == 0 { return map[]; }
      var m := metaDataDB.NumberOf(authMethod);
      if m == 0 { return map[]; }
      if isOpen {
        data := secretsStorage.LoadData(id, m);
      } else {
        var entry := EntryOf(secretsCache.cache, id);
        data := if m in entry.blobs then entry.blobs[m] else map[];
      }
    }

    /** Opening flushes the cache and empties it, whatever statements fail. */
    method OpenSecretsDB(initOk: bool, badLogins: set<nat>, badBlobs: set<(nat, nat)>) returns (ok: bool)
      requires Valid()
      modifies this, secretsCache, secretsStorage
      ensures Valid() && ok == initOk && isOpen == initOk
      ensures ok ==> Steps(old(View()), Open(badLogins, badBlobs, secretsStorage.View()), View())
      ensures !ok ==> View() == old(View()).(isOpen := false)
    {
      if !initOk {
        isOpen := false;
        return false;
      }
      isOpen := true;
      secretsCache.StoreToDB(secretsStorage, badLogins, badBlobs);
      FlushKeepsBound(Surviving(secretsCache.cache, badLogins, badBlobs), old(secretsStorage.View()),
                      secretsStorage.View());
      secretsCache.cache := map[];
      return true;
    }

    method CloseSecretsDB()
      requires Valid()
      modifies `isOpen
      ensures Valid() && Steps(old(View()), Close, View())
    {
      isOpen := false;
    }

    /** The secrets go first; the metadata only if they went. */
    method RemoveCredentials(id: nat, sqlOk: bool, metaOk: bool) returns (ok: bool)
      requires Valid()
      modifies secretsStorage, metaDataDB
      ensures Valid() && ok == (isOpen && sqlOk && metaOk) && Steps(old(View()), Drop(id, sqlOk), View())
      ensures metaDataDB.tables
           == MetaDataTables.RemoveIdentity(old(metaDataDB.tables), id, isOpen && sqlOk && metaOk)
    {
      if !isOpen { return false; }
      ok := secretsStorage.RemoveCredentials(id, sqlOk);
      DeletionKeepsBound(old(secretsStorage.View()), secretsStorage.View());
      if ok {
        ok := metaDataDB.Remove(id, metaOk);
      }
    }

    method Clear(sqlOk: bool, metaOk: bool) returns (ok: bool)
      requires Valid()
      modifies secretsStorage, metaDataDB
      ensures Valid() && ok == (isOpen && sqlOk && metaOk) && Steps(old(View()), Wipe(sqlOk), View())
      ensures metaDataDB.tables == MetaDataTables.Clear(old(metaDataDB.tables), isOpen && sqlOk && metaOk)
    {
      if !isOpen { return false; }
      ok := secretsStorage.Clear(sqlOk);
      DeletionKeepsBound(old(secretsStorage.View()), secretsStorage.View());
      if ok {
        ok := metaDataDB.ClearAllTables(metaOk);
      }
    }

    /** An empty method name stands for all of them; an unknown one is an error. */
    method RemoveData(id: nat, authMethod: string, sqlOk: bool) returns (ok: bool)
      requires Valid()
      modifies secretsStorage
      ensures var m := if authMethod == "" then 0 else MethodId(metaDataDB.tables, authMethod);
              var found := id != 0 && (authMethod == "" || m != 0);
              && Valid() && ok == (isOpen && found && sqlOk)
              && if found then Steps(old(View()), DropBlob(id, m, sqlOk), View()) else View() == old(View())
    {
      if !isOpen || id == 0 { return false; }
      var m := 0;
      if authMethod != "" {
        m := metaDataDB.NumberOf(authMethod);
        if m == 0 { return false; }
      }
      ok := secretsStorage.RemoveStoredData(id, m, sqlOk);
      DeletionKeepsBound(old(secretsStorage.View()), secretsStorage.View());
    }
  }
}
