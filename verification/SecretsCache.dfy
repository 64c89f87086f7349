/**
 The memory cache in front of the secrets storage: writes go to it while the
 storage is closed, and opening the storage flushes it. Running closed and then
 opening is compared with having had the storage open all along.
 */
module SecretsCache {
  import opened Common
  import opened SecretsStore

  /** What is cached for one identity. An entry made by a blob alone has no login
      yet; its storePassword is then never looked at. */
  datatype Cached = Cached(username: string, password: string, storePassword: bool, blobs: map<nat, Blob>)

  type Cache = map<nat, Cached>

  const NOTHING := Cached("", "", false, map[])

  function EntryOf(cache: Cache, id: nat): Cached {
    if id in cache then cache[id] else NOTHING
  }

  function CacheLogin(cache: Cache, id: nat, username: string, password: string, storePassword: bool): Cache {
    if id == 0 then cache
    else cache[id := EntryOf(cache, id).(username := username, password := password, storePassword := storePassword)]
  }

  function CacheBlob(cache: Cache, id: nat, m: nat, data: Blob): Cache {
    if id == 0 then cache
    else cache[id := EntryOf(cache, id).(blobs := EntryOf(cache, id).blobs[m := data])]
  }

  // ----------------------------------------------------------------- flushing

  /** The password that may be stored. */
  function KeptPassword(c: Cached): string {
    if c.storePassword then c.password else ""
  }

  /** Whether the entry's login is written at all. */
  predicate WritesLogin(c: Cached) {
    c.username != "" || KeptPassword(c) != ""
  }

  function Row(s: Store, id: nat): Option<Login> {
    if id in s.logins then Some(s.logins[id]) else None
  }

  /** The login row a flush leaves. */
  function FlushedRow(cache: Cache, s: Store, id: nat): Option<Login> {
    if id in cache && WritesLogin(cache[id]) then Some(Login(cache[id].username, KeptPassword(cache[id])))
    else Row(s, id)
  }

  function CachedBlob(cache: Cache, id: nat, m: nat): Option<Blob> {
    if id in cache && m in cache[id].blobs then Some(cache[id].blobs[m]) else None
  }

  /** What storing a blob, if there is one, leaves: it replaces the data if it fits. */
  ghost function Over(blob: Option<Blob>, stored: Blob): Blob {
    if blob.Some? && Fits(blob.value) then NonNull(blob.value) else stored
  }

  /** The data a flush leaves for one identity and method. */
  ghost function FlushedData(cache: Cache, s: Store, id: nat, m: nat): Blob {
    Over(CachedBlob(cache, id, m), DataOf(s, id, m))
  }

  /** t is what flushing the cache makes of s. Said entry by entry, so it does not
      depend on the order in which the cache is walked. */
  ghost predicate Flushed(cache: Cache, s: Store, t: Store) {
    && (forall id: nat :: RowFlushed(cache, s, t, id))
    && (forall id: nat, m: nat :: DataFlushed(cache, s, t, id, m))
  }

  ghost predicate RowFlushed(cache: Cache, s: Store, t: Store, id: nat) {
    Row(t, id) == FlushedRow(cache, s, id)
  }

  ghost predicate DataFlushed(cache: Cache, s: Store, t: Store, id: nat, m: nat) {
    DataOf(t, id, m) == FlushedData(cache, s, id, m)
  }

  lemma FlushIsUnique(cache: Cache, s: Store, t1: Store, t2: Store)
    requires Flushed(cache, s, t1) && Flushed(cache, s, t2)
    ensures t1 == t2
  {
    forall id: nat ensures Row(t1, id) == Row(t2, id) {
      assert RowFlushed(cache, s, t1, id) && RowFlushed(cache, s, t2, id);
    }
    assert forall id :: id in t1.logins <==> Row(t1, id).Some?;
    assert forall id :: id in t2.logins <==> Row(t2, id).Some?;
    assert t1.logins == t2.logins;
    forall c: Cell
      ensures c in t1.cells <==> c in t2.cells
      ensures c in t1.cells ==> t1.cells[c] == t2.cells[c]
    {
      assert DataFlushed(cache, s, t1, c.identity, c.authMethod) && DataFlushed(cache, s, t2, c.identity, c.authMethod);
      assert c == Cell(c.identity, c.authMethod, c.key);
    }
    assert t1.cells == t2.cells;
  }

  /** A blob stored directly replaces the data of its identity and method if it
      fits, and no other. */
  lemma StoreDataOf(t: Store, id: nat, m: nat, data: Blob, id': nat, m': nat)
    ensures DataOf(StoreData(t, id, m, data, true), id', m')
         == if id' == id && m' == m then Over(Some(data), DataOf(t, id', m')) else DataOf(t, id', m')
  {
    if Fits(data) {
      if id' == id && m' == m {
        StoreThenLoad(t, id, m, data);
      } else {
        StoreFrame(t, id, m, data, id', m');
      }
    }
  }

  /** The earlier blob that a new one takes the place of in the cache is not missed. */
  ghost predicate HidesNothing(earlier: Option<Blob>, data: Blob, stored: Blob) {
    Fits(data) || Over(earlier, stored) == stored
  }

  lemma CacheBlobAt(cache: Cache, id: nat, m: nat, data: Blob, i: nat, n: nat)
    requires id != 0
    ensures CachedBlob(CacheBlob(cache, id, m, data), i, n)
         == if i == id && n == m then Some(data) else CachedBlob(cache, i, n)
  {
  }

  lemma FlushBlobData(cache: Cache, s: Store, t: Store, id: nat, m: nat, data: Blob, i: nat, n: nat)
    requires DataFlushed(cache, s, t, i, n) && id != 0
    ensures DataFlushed(CacheBlob(cache, id, m, data), s, StoreData(t, id, m, data, true), i, n)
       <==> i != id || n != m || HidesNothing(CachedBlob(cache, id, m), data, DataOf(s, id, m))
  {
    StoreDataOf(t, id, m, data, i, n);
    CacheBlobAt(cache, id, m, data, i, n);
  }

  /** Caching a blob and flushing is flushing and storing the blob, exactly when the
      blob does not hide an earlier one: it fits, or there was none that fits, or
      the store had the same data already. */
  lemma FlushBlob(cache: Cache, s: Store, t: Store, id: nat, m: nat, data: Blob)
    requires Flushed(cache, s, t) && id != 0
    ensures Flushed(CacheBlob(cache, id, m, data), s, StoreData(t, id, m, data, true))
       <==> HidesNothing(CachedBlob(cache, id, m), data, DataOf(s, id, m))
  {
    var cache', t' := CacheBlob(cache, id, m, data), StoreData(t, id, m, data, true);
    forall i: nat ensures RowFlushed(cache', s, t', i) {
      assert RowFlushed(cache, s, t, i);
    }
    forall i: nat, n: nat
      ensures DataFlushed(cache', s, t', i, n) <==> i != id || n != m || HidesNothing(CachedBlob(cache, id, m), data, DataOf(s, id, m))
    {
      assert DataFlushed(cache, s, t, i, n);
      FlushBlobData(cache, s, t, id, m, data, i, n);
    }
    AllButOne(cache', s, t', id, m, HidesNothing(CachedBlob(cache, id, m), data, DataOf(s, id, m)));
  }

  /** The first blob cached for its identity and method hides nothing. */
  lemma FlushNewBlob(cache: Cache, s: Store, t: Store, id: nat, m: nat, data: Blob)
    requires Flushed(cache, s, t) && id != 0 && CachedBlob(cache, id, m).None?
    ensures Flushed(CacheBlob(cache, id, m, data), s, StoreData(t, id, m, data, true))
  {
    FlushBlob(cache, s, t, id, m, data);
  }

  lemma AllButOne(cache: Cache, s: Store, t: Store, id: nat, m: nat, ok: bool)
    requires forall i: nat :: RowFlushed(cache, s, t, i)
    requires forall i: nat, n: nat :: DataFlushed(cache, s, t, i, n) <==> i != id || n != m || ok
    ensures Flushed(cache, s, t) <==> ok
  {
    if Flushed(cache, s, t) {
      assert DataFlushed(cache, s, t, id, m);
    }
  }

  lemma LoginKeepsData(t: Store, id: nat, username: string, password: string, i: nat, m: nat)
    ensures DataOf(UpdateLogin(t, id, username, password), i, m) == DataOf(t, i, m)
  {
  }

  /** The same for a login that is written. */
  lemma FlushLogin(cache: Cache, s: Store, t: Store, id: nat, username: string, password: string,
                   storePassword: bool)
    requires Flushed(cache, s, t) && id != 0
    ensures var c := Cached(username, password, storePassword, map[]);
            WritesLogin(c) ==>
              Flushed(CacheLogin(cache, id, username, password, storePassword), s,
                      UpdateLogin(t, id, username, KeptPassword(c)))
  {
    var c := Cached(username, password, storePassword, map[]);
    if WritesLogin(c) {
      var cache' := CacheLogin(cache, id, username, password, storePassword);
      var t' := UpdateLogin(t, id, username, KeptPassword(c));
      forall i: nat ensures RowFlushed(cache', s, t', i) {
        assert RowFlushed(cache, s, t, i);
      }
      forall i: nat, m: nat ensures DataFlushed(cache', s, t', i, m) {
        assert DataFlushed(cache, s, t, i, m);
        LoginKeepsData(t, id, username, KeptPassword(c), i, m);
        assert CachedBlob(cache', i, m) == CachedBlob(cache, i, m);
      }
    }
  }

  // ------------------------------------------------- statements that fail

  /** What is left of the cache when the statements for some logins and blobs fail. */
  function Surviving(cache: Cache, badLogins: set<nat>, badBlobs: set<(nat, nat)>): Cache {
    map id | id in cache :: SurvivingEntry(cache[id], id, badLogins, badBlobs)
  }

  function SurvivingEntry(c: Cached, id: nat, badLogins: set<nat>, badBlobs: set<(nat, nat)>): Cached {
    var blobs := map m | m in c.blobs && (id, m) !in badBlobs :: c.blobs[m];
    if id in badLogins then Cached("", "", false, blobs) else c.(blobs := blobs)
  }

  /** A flush in which statements fail still empties the cache. It leaves what a
      flush without failures leaves exactly when every failed statement would
      have written what the store has already, or nothing at all. */
  lemma FailedFlushExactly(cache: Cache, s: Store, t: Store, badLogins: set<nat>, badBlobs: set<(nat, nat)>)
    requires Flushed(Surviving(cache, badLogins, badBlobs), s, t)
    ensures Flushed(cache, s, t) <==>
            && (forall id :: id in badLogins ==> FlushedRow(cache, s, id) == Row(s, id))
            && (forall id, m :: (id, m) in badBlobs ==> FlushedData(cache, s, id, m) == DataOf(s, id, m))
  {
    forall id: nat
      ensures RowFlushed(cache, s, t, id) <==> id !in badLogins || FlushedRow(cache, s, id) == Row(s, id)
    {
      assert RowFlushed(Surviving(cache, badLogins, badBlobs), s, t, id);
    }
    forall id: nat, m: nat
      ensures DataFlushed(cache, s, t, id, m)
         <==> (id, m) !in badBlobs || FlushedData(cache, s, id, m) == DataOf(s, id, m)
    {
      FailedBlob(cache, s, t, badLogins, badBlobs, id, m);
    }
  }

  lemma FailedBlob(cache: Cache, s: Store, t: Store, badLogins: set<nat>, badBlobs: set<(nat, nat)>, id: nat, m: nat)
    requires Flushed(Surviving(cache, badLogins, badBlobs), s, t)
    ensures DataFlushed(cache, s, t, id, m)
       <==> (id, m) !in badBlobs || FlushedData(cache, s, id, m) == DataOf(s, id, m)
  {
    var left := Surviving(cache, badLogins, badBlobs);
    assert DataFlushed(left, s, t, id, m);
    if (id, m) in badBlobs {
      assert CachedBlob(left, id, m) == None;
    } else {
      assert CachedBlob(left, id, m) == CachedBlob(cache, id, m);
    }
  }

  /** An entry whose last cached write did not ask for the password to be stored
      never puts a non-empty one in the store. */
  lemma UnaskedPasswordStaysOut(cache: Cache, s: Store, t: Store, id: nat)
    requires Flushed(cache, s, t) && id in cache && !cache[id].storePassword && id in t.logins
    ensures t.logins[id].password == "" || (id in s.logins && t.logins[id] == s.logins[id])
  {
    assert RowFlushed(cache, s, t, id);
  }

  // ----------------------------------------------------- closed versus open

  datatype Write =
    | SetLogin(id: nat, username: string, password: string, storePassword: bool)
    | SetBlob(id: nat, m: nat, data: Blob)

  ghost function WriteClosed(cache: Cache, w: Write): Cache {
    match w
    case SetLogin(id, username, password, storePassword) => CacheLogin(cache, id, username, password, storePassword)
    case SetBlob(id, m, data) => CacheBlob(cache, id, m, data)
  }

  /** With the storage open a login that is not to be stored goes to the cache. */
  ghost function WriteOpen(s: Store, w: Write): Store {
    match w
    case SetLogin(id, username, password, storePassword) =>
      if id == 0 || !storePassword then s else UpdateLogin(s, id, username, password)
    case SetBlob(id, m, data) => if id == 0 then s else StoreData(s, id, m, data, true)
  }

  ghost function AllClosed(cache: Cache, ws: seq<Write>): Cache {
    if ws == [] then cache else WriteClosed(AllClosed(cache, ws[..|ws| - 1]), ws[|ws| - 1])
  }

  ghost function AllOpen(s: Store, ws: seq<Write>): Store {
    if ws == [] then s else WriteOpen(AllOpen(s, ws[..|ws| - 1]), ws[|ws| - 1])
  }

  /** A login stored with something in it, or a blob under the limit. */
  ghost predicate Regular(w: Write) {
    match w
    case SetLogin(id, username, password, storePassword) => storePassword && (username != "" || password != "")
    case SetBlob(id, m, data) => Fits(data)
  }

  /** The last login written for an identity; the last one that was to be stored;
      the last blob for an identity and method; the last one that fits. */
  function LastLogin(ws: seq<Write>, id: nat): Option<Write> {
    if ws == [] then None
    else
      var w := ws[|ws| - 1];
      if w.SetLogin? && w.id == id then Some(w) else LastLogin(ws[..|ws| - 1], id)
  }

  function LastStored(ws: seq<Write>, id: nat): Option<Write> {
    if ws == [] then None
    else
      var w := ws[|ws| - 1];
      if w.SetLogin? && w.id == id && w.storePassword then Some(w) else LastStored(ws[..|ws| - 1], id)
  }

  function LastBlob(ws: seq<Write>, id: nat, m: nat): Option<Blob> {
    if ws == [] then None
    else
      var w := ws[|ws| - 1];
      if w.SetBlob? && w.id == id && w.m == m then Some(w.data) else LastBlob(ws[..|ws| - 1], id, m)
  }

  ghost function LastFitting(ws: seq<Write>, id: nat, m: nat): Option<Blob> {
    if ws == [] then None
    else
      var w := ws[|ws| - 1];
      if w.SetBlob? && w.id == id && w.m == m && Fits(w.data) then Some(w.data)
      else LastFitting(ws[..|ws| - 1], id, m)
  }

  lemma {:induction false} LastFits(ws: seq<Write>, id: nat, m: nat)
    ensures LastFitting(ws, id, m).Some? ==> Fits(LastFitting(ws, id, m).value)
    ensures LastBlob(ws, id, m).Some? && Fits(LastBlob(ws, id, m).value)
        ==> LastFitting(ws, id, m) == LastBlob(ws, id, m)
  {
    if ws != [] {
      LastFits(ws[..|ws| - 1], id, m);
    }
  }

  lemma {:induction false} LastStoredIs(ws: seq<Write>, id: nat)
    ensures LastLogin(ws, id).Some? ==> LastLogin(ws, id).value.SetLogin?
    ensures LastStored(ws, id).Some? ==> LastStored(ws, id).value.SetLogin? && LastLogin(ws, id).Some?
    ensures LastLogin(ws, id).Some? && LastLogin(ws, id).value.storePassword
        ==> LastStored(ws, id) == LastLogin(ws, id)
  {
    if ws != [] {
      LastStoredIs(ws[..|ws| - 1], id);
    }
  }

  /** The login cached for an identity, if one was ever cached. */
  function ClosedRow(w: Option<Write>, row: Option<Login>): Option<Login> {
    if w.Some? && w.value.SetLogin? && (w.value.username != "" || (w.value.storePassword && w.value.password != ""))
    then Some(Login(w.value.username, if w.value.storePassword then w.value.password else ""))
    else row
  }

  function OpenRow(w: Option<Write>, row: Option<Login>): Option<Login> {
    if w.Some? && w.value.SetLogin? then Some(Login(w.value.username, w.value.password)) else row
  }

  /** The cache holds the last login and the last blobs of every identity. */
  lemma {:induction false} CacheHoldsLogin(s: Store, ws: seq<Write>, id: nat)
    requires id != 0
    ensures FlushedRow(AllClosed(map[], ws), s, id) == ClosedRow(LastLogin(ws, id), Row(s, id))
  {
    if ws != [] {
      CacheHoldsLogin(s, ws[..|ws| - 1], id);
    }
  }

  lemma {:induction false} CacheHoldsBlob(ws: seq<Write>, id: nat, m: nat)
    requires id != 0
    ensures CachedBlob(AllClosed(map[], ws), id, m) == LastBlob(ws, id, m)
  {
    if ws != [] {
      CacheHoldsBlob(ws[..|ws| - 1], id, m);
    }
  }

  /** The store holds the last stored login and the last fitting blobs. */
  lemma {:induction false} StoreHoldsLogin(s: Store, ws: seq<Write>, id: nat)
    requires id != 0
    ensures Row(AllOpen(s, ws), id) == OpenRow(LastStored(ws, id), Row(s, id))
  {
    if ws != [] {
      StoreHoldsLogin(s, ws[..|ws| - 1], id);
    }
  }

  lemma {:induction false} StoreHoldsBlob(s: Store, ws: seq<Write>, id: nat, m: nat)
    requires id != 0
    ensures DataOf(AllOpen(s, ws), id, m) == Over(LastFitting(ws, id, m), DataOf(s, id, m))
  {
    if ws != [] {
      var before := AllOpen(s, ws[..|ws| - 1]);
      StoreHoldsBlob(s, ws[..|ws| - 1], id, m);
      match ws[|ws| - 1]
      case SetLogin(i, username, password, storePassword) => LoginKeepsData(before, i, username, password, id, m);
      case SetBlob(i, n, data) => StoreDataOf(before, i, n, data, id, m);
    }
  }

  /** Identity 0 is never written. */
  lemma {:induction false} ZeroIsIgnored(s: Store, ws: seq<Write>, m: nat)
    ensures 0 !in AllClosed(map[], ws)
    ensures Row(AllOpen(s, ws), 0) == Row(s, 0) && DataOf(AllOpen(s, ws), 0, m) == DataOf(s, 0, m)
  {
    if ws != [] {
      var before := AllOpen(s, ws[..|ws| - 1]);
      ZeroIsIgnored(s, ws[..|ws| - 1], m);
      match ws[|ws| - 1]
      case SetLogin(i, username, password, storePassword) =>
        LoginKeepsData(before, i, username, password, 0, m);
      case SetBlob(i, n, data) => StoreDataOf(before, i, n, data, 0, m);
    }
  }

  /** What the last login written is to the last one that was to be stored: there is
      none; or it was to be stored, and it or the row that was there is not blank;
      or it was not, and the store has just its user name, or it has none and
      hides nothing that was stored. */
  predicate LoginAgrees(s: Store, ws: seq<Write>, id: nat) {
    var last, stored, row := LastLogin(ws, id), LastStored(ws, id), Row(s, id);
    if last.None? || !last.value.SetLogin? then true
    else if last.value.storePassword then
      last.value.username != "" || last.value.password != "" || row == Some(Login("", ""))
    else if last.value.username != "" then OpenRow(stored, row) == Some(Login(last.value.username, ""))
    else stored.None? || OpenRow(stored, row) == row
  }

  /** No fitting blob is hidden by a later one over the limit, unless the store had
      the same data before. */
  ghost predicate BlobAgrees(s: Store, ws: seq<Write>, id: nat, m: nat) {
    var fitting := LastFitting(ws, id, m);
    || fitting.None?
    || LastBlob(ws, id, m) == fitting
    || NonNull(fitting.value) == DataOf(s, id, m)
  }

  /** For every sequence of writes, whatever they are: writing to the cache and
      flushing leaves what writing directly leaves, if and only if for every
      identity the last login agrees with the last stored one, and for every method
      the last blob is the last that fits. */
  lemma ClosedAgreesExactly(s: Store, ws: seq<Write>)
    ensures Flushed(AllClosed(map[], ws), s, AllOpen(s, ws)) <==>
            && (forall id: nat :: id != 0 ==> LoginAgrees(s, ws, id))
            && (forall id: nat, m: nat :: id != 0 ==> BlobAgrees(s, ws, id, m))
  {
    var cache, t := AllClosed(map[], ws), AllOpen(s, ws);
    forall id: nat
      ensures RowFlushed(cache, s, t, id)
         <==> id == 0 || LoginAgrees(s, ws, id)
    {
      RowAgrees(s, ws, id);
    }
    forall id: nat, m: nat
      ensures DataFlushed(cache, s, t, id, m) <==> id == 0 || BlobAgrees(s, ws, id, m)
    {
      DataAgrees(s, ws, id, m);
    }
  }

  lemma RowAgrees(s: Store, ws: seq<Write>, id: nat)
    ensures RowFlushed(AllClosed(map[], ws), s, AllOpen(s, ws), id)
       <==> id == 0 || LoginAgrees(s, ws, id)
  {
    if id == 0 {
      ZeroIsIgnored(s, ws, 0);
    } else {
      CacheHoldsLogin(s, ws, id);
      StoreHoldsLogin(s, ws, id);
      LastStoredIs(ws, id);
    }
  }

  lemma DataAgrees(s: Store, ws: seq<Write>, id: nat, m: nat)
    ensures DataFlushed(AllClosed(map[], ws), s, AllOpen(s, ws), id, m) <==> id == 0 || BlobAgrees(s, ws, id, m)
  {
    if id == 0 {
      ZeroIsIgnored(s, ws, m);
    } else {
      CacheHoldsBlob(ws, id, m);
      StoreHoldsBlob(s, ws, id, m);
      LastFits(ws, id, m);
    }
  }

  lemma {:induction false} RegularAreLast(ws: seq<Write>, id: nat, m: nat)
    requires forall w :: w in ws ==> Regular(w)
    ensures LastFitting(ws, id, m) == LastBlob(ws, id, m) && LastStored(ws, id) == LastLogin(ws, id)
    ensures LastLogin(ws, id).Some? ==> LastLogin(ws, id).value in ws
  {
    if ws != [] {
      assert ws[|ws| - 1] in ws;
      RegularAreLast(ws[..|ws| - 1], id, m);
    }
  }

  /** Flushing refines writing directly: for every sequence of regular writes, the
      store after writing to the cache and flushing is the store after writing
      to it directly. */
  lemma FlushRefinesDirectWriting(s: Store, ws: seq<Write>)
    requires forall w :: w in ws ==> Regular(w)
    ensures Flushed(AllClosed(map[], ws), s, AllOpen(s, ws))
  {
    forall id: nat ensures LoginAgrees(s, ws, id) {
      RegularAreLast(ws, id, 0);
      assert LastLogin(ws, id).Some? ==> Regular(LastLogin(ws, id).value);
    }
    forall id: nat, m: nat ensures BlobAgrees(s, ws, id, m) {
      RegularAreLast(ws, id, m);
    }
    ClosedAgreesExactly(s, ws);
  }

  /** For one login write on its own the two ways agree exactly when it is regular
      or would leave the row as it is. */
  lemma SingleLoginAgrees(s: Store, id: nat, username: string, password: string, storePassword: bool)
    requires id != 0
    ensures var w := SetLogin(id, username, password, storePassword);
            Flushed(WriteClosed(map[], w), s, WriteOpen(s, w)) <==>
              || (storePassword && (username != "" || password != ""))
              || (storePassword && id in s.logins && s.logins[id] == Login("", ""))
              || (!storePassword && username == "")
              || (!storePassword && id in s.logins && s.logins[id] == Login(username, ""))
  {
    var w := SetLogin(id, username, password, storePassword);
    var ws := [w];
    assert ws[..|ws| - 1] == [] && ws[|ws| - 1] == w;
    assert LastLogin(ws, id) == Some(w);
    assert LastStored([], id) == None && LastStored(ws, id) == if storePassword then Some(w) else None;
    assert AllClosed(map[], ws) == WriteClosed(map[], w) && AllOpen(s, ws) == WriteOpen(s, w);
    ClosedAgreesExactly(s, ws);
    assert LoginAgrees(s, ws, id) <==>
      || (storePassword && (username != "" || password != ""))
      || (storePassword && Row(s, id) == Some(Login("", "")))
      || (!storePassword && username == "")
      || (!storePassword && Row(s, id) == Some(Login(username, "")));
    forall i: nat ensures i != id ==> LoginAgrees(s, ws, i) {
      assert LastLogin([], i) == None && LastLogin(ws, i) == if i == id then Some(w) else None;
    }
    forall i: nat, m: nat ensures BlobAgrees(s, ws, i, m) {
      assert LastFitting([], i, m) == None;
    }
  }

  /** A blob over the limit, cached after one under it, takes both away: written
      directly, the first one would have stayed. */
  lemma OversizeBlobHidesEarlierOne(s: Store, small: Blob, large: Blob, m: nat)
    requires Fits(small) && !Fits(large) && NonNull(small) != DataOf(s, 1, m)
    ensures var ws := [SetBlob(1, m, small), SetBlob(1, m, large)];
            !Flushed(AllClosed(map[], ws), s, AllOpen(s, ws))
  {
    var ws := [SetBlob(1, m, small), SetBlob(1, m, large)];
    assert ws[..1] == [SetBlob(1, m, small)];
    assert LastFitting(ws, 1, m) == Some(small);
    assert !BlobAgrees(s, ws, 1, m);
    ClosedAgreesExactly(s, ws);
  }

  // ------------------------------------------------------------- whole runs

  /** The credentials database as far as secrets go. */
  datatype Vault = Vault(isOpen: bool, store: Store, cache: Cache)

  /** Each with the outcome of its statements. */
  datatype Op =
    | Put(write: Write, sqlOk: bool)
    | Open(badLogins: set<nat>, badBlobs: set<(nat, nat)>, next: Store)   // next: what the flush leaves
    | Close
    | Drop(id: nat, sqlOk: bool)
    | DropBlob(id: nat, m: nat, sqlOk: bool)
    | Wipe(sqlOk: bool)

  /** One operation; removals are refused while the storage is closed. Opening is
      a relation: next must be what the flush makes of the store. It empties the
      cache even if statements fail. */
  ghost predicate Steps(v: Vault, op: Op, v': Vault) {
    match op
    case Put(w, sqlOk) =>
      if v.isOpen && (w.SetLogin? ==> w.storePassword) then
        v' == if sqlOk then v.(store := WriteOpen(v.store, w)) else v
      else v' == v.(cache := WriteClosed(v.cache, w))
    case Open(badLogins, badBlobs, next) =>
      Flushed(Surviving(v.cache, badLogins, badBlobs), v.store, next) && v' == Vault(true, next, map[])
    case Close => v' == v.(isOpen := false)
    case Drop(id, sqlOk) => v' == if v.isOpen && sqlOk then v.(store := RemoveLogin(v.store, id)) else v
    case DropBlob(id, m, sqlOk) => v' == if v.isOpen && sqlOk then v.(store := RemoveData(v.store, id, m)) else v
    case Wipe(sqlOk) => v' == if v.isOpen && sqlOk then v.(store := Store(map[], map[])) else v
  }

  const EMPTY_VAULT := Vault(false, Store(map[], map[]), map[])

  ghost predicate Behaviour(vs: seq<Vault>, ops: seq<Op>) {
    && |vs| == |ops| + 1
    && vs[0] == EMPTY_VAULT
    && forall i :: 0 <= i < |ops| ==> Steps(vs[i], ops[i], vs[i + 1])
  }

  /** Some write of the run asked for this password to be stored for this identity. */
  predicate Asked(ops: seq<Op>, id: nat, password: string) {
    exists i :: 0 <= i < |ops| && ops[i].Put? && ops[i].write.SetLogin? && ops[i].write.storePassword
                && ops[i].write.id == id && ops[i].write.password == password
  }

  ghost predicate OnlyAsked(v: Vault, ops: seq<Op>) {
    && (forall id :: id in v.store.logins && v.store.logins[id].password != ""
          ==> Asked(ops, id, v.store.logins[id].password))
    && (forall id :: id in v.cache && v.cache[id].storePassword && v.cache[id].password != ""
          ==> Asked(ops, id, v.cache[id].password))
  }

  lemma AskedGrows(ops: seq<Op>, op: Op, id: nat, password: string)
    requires Asked(ops, id, password)
    ensures Asked(ops + [op], id, password)
  {
    var i :| 0 <= i < |ops| && ops[i].Put? && ops[i].write.SetLogin? && ops[i].write.storePassword
             && ops[i].write.id == id && ops[i].write.password == password;
    assert (ops + [op])[i] == ops[i];
  }

  lemma StepOnlyAsked(v: Vault, ops: seq<Op>, op: Op, v': Vault)
    requires OnlyAsked(v, ops) && Steps(v, op, v')
    ensures OnlyAsked(v', ops + [op])
  {
    assert (ops + [op])[|ops|] == op;
    forall id | id in v'.store.logins && v'.store.logins[id].password != ""
      ensures Asked(ops + [op], id, v'.store.logins[id].password)
    {
      if op.Open? {
        assert RowFlushed(Surviving(v.cache, op.badLogins, op.badBlobs), v.store, v'.store, id);
      }
      if Asked(ops, id, v'.store.logins[id].password) {
        AskedGrows(ops, op, id, v'.store.logins[id].password);
      }
    }
    forall id | id in v'.cache && v'.cache[id].storePassword && v'.cache[id].password != ""
      ensures Asked(ops + [op], id, v'.cache[id].password)
    {
      if Asked(ops, id, v'.cache[id].password) {
        AskedGrows(ops, op, id, v'.cache[id].password);
      }
    }
  }

  /** Over every run of writes, flushes, removals, openings and closings, whichever of
      their statements fail, a
      password is in the store for an identity only if some write asked for it
      to be stored there, and every identity's data keeps to the size limit. */
  lemma {:induction false} RunsStoreOnlyWhatWasAsked(vs: seq<Vault>, ops: seq<Op>)
    requires Behaviour(vs, ops)
    ensures OnlyAsked(vs[|ops|], ops) && Bounded(vs[|ops|].store)
  {
    if ops == [] {
      EmptyIsBounded();
    } else {
      var n := |ops| - 1;
      RunsStoreOnlyWhatWasAsked(vs[..|vs| - 1], ops[..n]);
      assert ops == ops[..n] + [ops[n]];
      StepOnlyAsked(vs[n], ops[..n], ops[n], vs[n + 1]);
      StepBounded(vs[n], ops[n], vs[n + 1]);
    }
  }

  lemma StepBounded(v: Vault, op: Op, v': Vault)
    requires Bounded(v.store) && Steps(v, op, v')
    ensures Bounded(v'.store)
  {
    match op
    case Put(w, sqlOk) =>
      if w.SetBlob? {
        StoreKeepsBound(v.store, w.id, w.m, w.data, true);
      } else {
        DeletionKeepsBound(v.store, v'.store);
      }
    case Open(badLogins, badBlobs, next) => FlushKeepsBound(Surviving(v.cache, badLogins, badBlobs), v.store, next);
    case Close =>
    case _ => DeletionKeepsBound(v.store, v'.store);
  }

  lemma FlushKeepsBound(cache: Cache, s: Store, t: Store)
    requires Bounded(s) && Flushed(cache, s, t)
    ensures Bounded(t)
  {
    forall id: nat, m: nat ensures Fits(DataOf(t, id, m)) {
      assert DataFlushed(cache, s, t, id, m);
      if id in cache && m in cache[id].blobs && Fits(cache[id].blobs[m]) {
        NonNullFits(cache[id].blobs[m]);
      } else {
        assert Fits(DataOf(s, id, m));
      }
    }
  }

  // ------------------------------------------------- what removals do, exactly

  /** Removing an identity from an open store takes its login and all of its data, and
      nothing of any other identity. */
  lemma DropExactly(v: Vault, id: nat, sqlOk: bool, v': Vault)
    requires Steps(v, Drop(id, sqlOk), v')
    ensures v'.cache == v.cache && v'.isOpen == v.isOpen
    ensures forall i: nat :: Row(v'.store, i) == if v.isOpen && sqlOk && i == id then None else Row(v.store, i)
    ensures forall i: nat, m: nat ::
              DataOf(v'.store, i, m) == if v.isOpen && sqlOk && i == id then map[] else DataOf(v.store, i, m)
  {
    forall i: nat, m: nat
      ensures DataOf(v'.store, i, m) == if v.isOpen && sqlOk && i == id then map[] else DataOf(v.store, i, m)
    {
      RemovedData(v.store, id, 0, i, m);
    }
  }

  lemma RemovedData(s: Store, id: nat, m: nat, i: nat, n: nat)
    ensures DataOf(RemoveData(s, id, m), i, n) == if i == id && (m == 0 || n == m) then map[] else DataOf(s, i, n)
    ensures DataOf(RemoveLogin(s, id), i, n) == if i == id then map[] else DataOf(s, i, n)
  {
  }

  /** Removing the data of one method, or of all of them for method 0, takes just that. */
  lemma DropBlobExactly(v: Vault, id: nat, m: nat, sqlOk: bool, v': Vault)
    requires Steps(v, DropBlob(id, m, sqlOk), v')
    ensures v'.cache == v.cache && v'.isOpen == v.isOpen && v'.store.logins == v.store.logins
    ensures forall i: nat, n: nat ::
              DataOf(v'.store, i, n)
              == if v.isOpen && sqlOk && i == id && (m == 0 || n == m) then map[] else DataOf(v.store, i, n)
  {
    forall i: nat, n: nat
      ensures DataOf(v'.store, i, n)
           == if v.isOpen && sqlOk && i == id && (m == 0 || n == m) then map[] else DataOf(v.store, i, n)
    {
      RemovedData(v.store, id, m, i, n);
    }
  }

  /** Clearing takes everything stored, and nothing cached. */
  lemma WipeExactly(v: Vault, sqlOk: bool, v': Vault)
    requires Steps(v, Wipe(sqlOk), v')
    ensures v'.cache == v.cache && v'.isOpen == v.isOpen
    ensures if v.isOpen && sqlOk then v'.store.logins == map[] && v'.store.cells == map[] else v'.store == v.store
  {
  }

  // ------------------------------------------------------- removals and the cache

  /** The writes that went to the cache since it was last emptied. */
  function Pending(vs: seq<Vault>, ops: seq<Op>, n: nat): seq<Write>
    requires n <= |ops| < |vs|
  {
    if n == 0 then []
    else
      var before, op := Pending(vs, ops, n - 1), ops[n - 1];
      if op.Open? then []
      else if op.Put? && !(vs[n - 1].isOpen && (op.write.SetLogin? ==> op.write.storePassword)) then before + [op.write]
      else before
  }

  lemma {:induction false} CacheIsPending(vs: seq<Vault>, ops: seq<Op>, n: nat)
    requires Behaviour(vs, ops) && n <= |ops|
    ensures vs[n].cache == AllClosed(map[], Pending(vs, ops, n))
  {
    if n > 0 {
      CacheIsPending(vs, ops, n - 1);
      var before, op := Pending(vs, ops, n - 1), ops[n - 1];
      assert Steps(vs[n - 1], op, vs[n]);
      if op.Put? {
        assert (before + [op.write])[..|before|] == before;
      }
    }
  }

  /** Nothing puts a login of this identity into the store. */
  predicate NotStored(vs: seq<Vault>, ops: seq<Op>, id: nat, k: nat)
    requires k < |ops| < |vs|
  {
    && !ops[k].Open?
    && !(ops[k].Put? && vs[k].isOpen && ops[k].write.SetLogin? && ops[k].write.storePassword && ops[k].write.id == id)
  }

  lemma {:induction false} StaysRemoved(vs: seq<Vault>, ops: seq<Op>, id: nat, i: nat, j: nat)
    requires Behaviour(vs, ops) && i <= j <= |ops| && id !in vs[i].store.logins
    requires forall k :: i <= k < j ==> NotStored(vs, ops, id, k)
    ensures id !in vs[j].store.logins
  {
    if i < j {
      StaysRemoved(vs, ops, id, i, j - 1);
      assert Steps(vs[j - 1], ops[j - 1], vs[j]) && NotStored(vs, ops, id, j - 1);
    }
  }

  /** The last login waiting in the cache would write something. */
  predicate LoginWaits(ws: seq<Write>, id: nat) {
    ClosedRow(LastLogin(ws, id), None).Some?
  }

  /** A removed identity is in the store again after the next opening, if and only if
      a login of it waits in the cache, whose statement does not fail. This goes for
      an identity removed by itself and for all of them after a clear. */
  lemma RemovedComesBackExactly(vs: seq<Vault>, ops: seq<Op>, id: nat, i: nat, j: nat)
    requires Behaviour(vs, ops) && i < j < |ops| && id != 0
    requires vs[i].isOpen && (ops[i] == Drop(id, true) || ops[i] == Wipe(true))
    requires (forall k :: i < k < j ==> NotStored(vs, ops, id, k)) && ops[j].Open?
    ensures id in vs[j + 1].store.logins <==> id !in ops[j].badLogins && LoginWaits(Pending(vs, ops, j), id)
  {
    assert Steps(vs[i], ops[i], vs[i + 1]);
    StaysRemoved(vs, ops, id, i + 1, j);
    assert Steps(vs[j], ops[j], vs[j + 1]);
    var cache, left := vs[j].cache, Surviving(vs[j].cache, ops[j].badLogins, ops[j].badBlobs);
    assert RowFlushed(left, vs[j].store, vs[j + 1].store, id);
    CacheIsPending(vs, ops, j);
    CacheHoldsLogin(vs[j].store, Pending(vs, ops, j), id);
  }

  /** A login that is not to be stored is written while the storage is open; the
      identity is removed; the storage is closed and opened again, and has it. */
  lemma RemovedComesBack(username: string, password: string) returns (vs: seq<Vault>, ops: seq<Op>)
    requires username != ""
    ensures Behaviour(vs, ops) && |ops| == 5
    ensures ops[1] == Put(SetLogin(1, username, password, false), true) && ops[2] == Drop(1, true)
    ensures vs[2].isOpen && vs[5].store.logins == map[1 := Login(username, "")]
  {
    var none, cache := Store(map[], map[]), CacheLogin(map[], 1, username, password, false);
    var after := Store(map[1 := Login(username, "")], map[]);
    NothingToFlush(none);
    assert EMPTY_VAULT == Vault(false, none, map[]);
    vs := [EMPTY_VAULT, Vault(true, none, map[]), Vault(true, none, cache), Vault(true, none, cache),
           Vault(false, none, cache), Vault(true, after, map[])];
    ops := [Open({}, {}, none), Put(SetLogin(1, username, password, false), true), Drop(1, true), Close,
            Open({}, {}, after)];
    assert RemoveLogin(none, 1) == none;
    FlushLogin(map[], none, none, 1, username, password, false);
    assert Surviving(cache, {}, {}) == cache;
    assert UpdateLogin(none, 1, username, "") == after;
  }

  lemma NothingToFlush(s: Store)
    ensures Flushed(map[], s, s) && Surviving(map[], {}, {}) == map[]
  {
    forall id: nat ensures RowFlushed(map[], s, s, id) {}
    forall id: nat, m: nat ensures DataFlushed(map[], s, s, id, m) {}
  }

  // --------------------------------------------------------- reading logins

  /** What a query for the credentials of an identity finds, by the storePassword
      flag the metadata has for it. */
  function Query(v: Vault, id: nat, storePassword: bool): Option<Login> {
    if storePassword && v.isOpen then Row(v.store, id)
    else if id in v.cache then Some(Login(v.cache[id].username, v.cache[id].password))
    else None
  }

  /** What was written is read back, open or closed. */
  lemma ReadsBack(v: Vault, id: nat, username: string, password: string, storePassword: bool, v': Vault)
    requires id != 0 && Steps(v, Put(SetLogin(id, username, password, storePassword), true), v')
    ensures Query(v', id, storePassword) == Some(Login(username, password))
  {
  }

  /** A login written while the storage was closed is still read back after the
      opening, if and only if it was to be stored, and it is not blank or finds a
      blank one stored. */
  lemma ReadsBackAfterOpeningExactly(v: Vault, id: nat, username: string, password: string, storePassword: bool,
                                     cached: Vault, next: Store, after: Vault)
    requires id != 0 && !v.isOpen && Steps(v, Put(SetLogin(id, username, password, storePassword), true), cached)
    requires Steps(cached, Open({}, {}, next), after)
    ensures Query(after, id, storePassword) == Some(Login(username, password)) <==>
            storePassword && (username != "" || password != "" || Row(v.store, id) == Some(Login("", "")))
  {
    assert RowFlushed(Surviving(cached.cache, {}, {}), cached.store, next, id);
  }
}
