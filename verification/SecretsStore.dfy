/**
 The tables of the secrets storage: logins by identity, and key/value cells by
 identity and method. A store of one method's data replaces what was there, is
 bounded in size, and happens completely or not at all.
 */
module SecretsStore {
  /** SSO_MAX_TOKEN_STORAGE. */
  const MAX_TOKEN_STORAGE := 4096

  /** A value with its serialised bytes; a null or invalid value serialises too,
      but is not stored. */
  datatype Variant = Variant(isNull: bool, bytes: seq<bv8>)

  type Blob = map<string, Variant>

  datatype Login = Login(username: string, password: string)

  /** The primary key of the STORE table. */
  datatype Cell = Cell(identity: nat, authMethod: nat, key: string)

  datatype Store = Store(logins: map<nat, Login>, cells: map<Cell, Variant>)

  // ------------------------------------------------------------------- sizes

  function EntrySize(key: string, value: Variant): nat {
    |key| + |value.bytes|
  }

  /** The sizes of some of the entries, added up in any order. */
  ghost function SizeOver(data: Blob, keys: set<string>): nat
    requires keys <= data.Keys
  {
    if keys == {} then 0
    else
      var k :| k in keys;
      EntrySize(k, data[k]) + SizeOver(data, keys - {k})
  }

  ghost function Size(data: Blob): nat {
    SizeOver(data, data.Keys)
  }

  lemma {:induction false} SizeOverRemove(data: Blob, keys: set<string>, k: string)
    requires keys <= data.Keys && k in keys
    ensures SizeOver(data, keys) == EntrySize(k, data[k]) + SizeOver(data, keys - {k})
    decreases keys
  {
    var first :| first in keys
      && SizeOver(data, keys) == EntrySize(first, data[first]) + SizeOver(data, keys - {first});
    if first != k {
      SizeOverRemove(data, keys - {first}, k);
      SizeOverRemove(data, keys - {k}, first);
      assert keys - {first} - {k} == keys - {k} - {first};
    }
  }

  lemma {:induction false} SizeOverSubset(small: Blob, large: Blob, keys: set<string>)
    requires keys <= small.Keys && small.Keys <= large.Keys
    requires forall k :: k in keys ==> small[k] == large[k]
    ensures SizeOver(small, keys) == SizeOver(large, keys)
    decreases keys
  {
    if keys != {} {
      var k :| k in keys;
      SizeOverSubset(small, large, keys - {k});
      SizeOverRemove(small, keys, k);
      SizeOverRemove(large, keys, k);
    }
  }

  lemma {:induction false} SizeOverGrows(data: Blob, few: set<string>, many: set<string>)
    requires few <= many <= data.Keys
    ensures SizeOver(data, few) <= SizeOver(data, many)
    decreases many
  {
    if few != many {
      var k :| k in many && k !in few;
      SizeOverRemove(data, many, k);
      SizeOverGrows(data, few, many - {k});
    }
  }

  // ------------------------------------------------------------- operations

  /** The entries that are stored. */
  function NonNull(data: Blob): Blob {
    map k | k in data && !data[k].isNull :: data[k]
  }

  /** loadData. */
  function DataOf(s: Store, id: nat, m: nat): (data: Blob)
    ensures forall k :: k in data <==> Cell(id, m, k) in s.cells
    ensures forall k :: k in data ==> data[k] == s.cells[Cell(id, m, k)]
  {
    map c | c in s.cells && c.identity == id && c.authMethod == m :: c.key := s.cells[c]
  }

  ghost predicate Fits(data: Blob) {
    Size(data) < MAX_TOKEN_STORAGE
  }

  function Cleared(cells: map<Cell, Variant>, id: nat, m: nat): map<Cell, Variant> {
    map c | c in cells && !(c.identity == id && c.authMethod == m) :: cells[c]
  }

  function CellsOf(id: nat, m: nat, data: Blob): (cells: map<Cell, Variant>)
    ensures forall c :: c in cells <==>
              c.identity == id && c.authMethod == m && c.key in data && !data[c.key].isNull
    ensures forall c :: c in cells ==> cells[c] == data[c.key]
  {
    map k | k in data && !data[k].isNull :: Cell(id, m, k) := data[k]
  }

  function Written(s: Store, id: nat, m: nat, data: Blob): Store {
    s.(cells := Cleared(s.cells, id, m) + CellsOf(id, m, data))
  }

  /** sqlOk stands for the statements and the commit. */
  ghost function StoreData(s: Store, id: nat, m: nat, data: Blob, sqlOk: bool): Store {
    if Fits(data) && sqlOk then Written(s, id, m, data) else s
  }

  /** A store followed by a load gives exactly the non-null entries. */
  lemma StoreThenLoad(s: Store, id: nat, m: nat, data: Blob)
    ensures DataOf(Written(s, id, m, data), id, m) == NonNull(data)
  {
    var w := Written(s, id, m, data);
    forall k ensures k in DataOf(w, id, m) <==> k in NonNull(data) {
      assert k in DataOf(w, id, m) <==> Cell(id, m, k) in w.cells;
    }
  }

  /** What other identities and methods stored is untouched. */
  lemma StoreFrame(s: Store, id: nat, m: nat, data: Blob, id': nat, m': nat)
    requires id' != id || m' != m
    ensures DataOf(Written(s, id, m, data), id', m') == DataOf(s, id', m')
  {
    var w := Written(s, id, m, data);
    var now, before := DataOf(w, id', m'), DataOf(s, id', m');
    forall k ensures k in now <==> k in before
             ensures k in now ==> now[k] == before[k]
    {
      var c := Cell(id', m', k);
      assert c !in CellsOf(id, m, data);
      assert c in w.cells <==> c in s.cells;
    }
  }

  /** The bound on what is stored for one identity and method. */
  ghost predicate Bounded(s: Store) {
    forall id: nat, m: nat :: Fits(DataOf(s, id, m))
  }

  lemma EmptyIsBounded()
    ensures Bounded(Store(map[], map[]))
  {
    forall id: nat, m: nat ensures Fits(DataOf(Store(map[], map[]), id, m)) {
      assert DataOf(Store(map[], map[]), id, m) == map[];
    }
  }

  lemma NonNullFits(data: Blob)
    requires Fits(data)
    ensures Fits(NonNull(data))
  {
    SizeOverSubset(NonNull(data), data, NonNull(data).Keys);
    SizeOverGrows(data, NonNull(data).Keys, data.Keys);
  }

  /** The limit, for data of one entry: key and serialised value together take at most
      4095 characters. */
  lemma OneEntryFits(key: string, value: Variant)
    ensures Fits(map[key := value]) <==> |key| + |value.bytes| <= 4095
  {
    var data := map[key := value];
    SizeOverRemove(data, {key}, key);
    assert data.Keys == {key} && {key} - {key} == {};
  }

  lemma StoreKeepsBound(s: Store, id: nat, m: nat, data: Blob, sqlOk: bool)
    requires Bounded(s)
    ensures Bounded(StoreData(s, id, m, data, sqlOk))
  {
    if Fits(data) && sqlOk {
      StoreThenLoad(s, id, m, data);
      NonNullFits(data);
      forall id': nat, m': nat ensures Fits(DataOf(Written(s, id, m, data), id', m')) {
        if id' != id || m' != m {
          StoreFrame(s, id, m, data, id', m');
          assert Fits(DataOf(s, id', m'));
        }
      }
    }
  }

  /** Deleting cells, wherever they are. */
  lemma DeletionKeepsBound(s: Store, s': Store)
    requires Bounded(s)
    requires forall c :: c in s'.cells ==> c in s.cells && s'.cells[c] == s.cells[c]
    ensures Bounded(s')
  {
    forall id: nat, m: nat ensures Fits(DataOf(s', id, m)) {
      var few, many := DataOf(s', id, m), DataOf(s, id, m);
      assert few.Keys <= many.Keys;
      SizeOverSubset(few, many, few.Keys);
      SizeOverGrows(many, few.Keys, many.Keys);
      assert Fits(many);
    }
  }

  /** The identity's cells, or those of one method when it is not 0. */
  function RemoveData(s: Store, id: nat, m: nat): Store {
    s.(cells := map c | c in s.cells && !(c.identity == id && (m == 0 || c.authMethod == m)) :: s.cells[c])
  }

  /** INSERT OR REPLACE; recursive triggers are off, so replacing a row does not
      fire the delete trigger and the cells stay. */
  function UpdateLogin(s: Store, id: nat, username: string, password: string): Store {
    s.(logins := s.logins[id := Login(username, password)])
  }

  function RemoveLogin(s: Store, id: nat): Store {
    RemoveData(s, id, 0).(logins := s.logins - {id})
  }

  /** The cells after writing some of the entries over the cleared ones. */
  ghost predicate Partial(now: map<Cell, Variant>, before: map<Cell, Variant>, id: nat, m: nat,
                          data: Blob, keys: set<string>)
    requires keys <= data.Keys
  {
    forall c: Cell ::
      if c.identity == id && c.authMethod == m then
        (c in now <==> c.key in keys && !data[c.key].isNull) && (c in now ==> now[c] == data[c.key])
      else
        (c in now <==> c in before) && (c in now ==> now[c] == before[c])
  }

  lemma PartialEnds(now: map<Cell, Variant>, before: map<Cell, Variant>, id: nat, m: nat, data: Blob)
    requires Partial(now, before, id, m, data, data.Keys)
    ensures now == Cleared(before, id, m) + CellsOf(id, m, data)
  {
    var w := Cleared(before, id, m) + CellsOf(id, m, data);
    forall c ensures c in now <==> c in w {}
  }

  class SecretsDB {
    var logins: map<nat, Login>
    var cells: map<Cell, Variant>

    ghost function View(): Store
      reads this
    {
      Store(logins, cells)
    }

    constructor ()
      ensures View() == Store(map[], map[])
    {
      logins, cells := map[], map[];
    }

    method UpdateCredentials(id: nat, username: string, password: string, sqlOk: bool) returns (ok: bool)
      modifies `logins
      ensures ok == sqlOk
      ensures View() == if sqlOk then UpdateLogin(old(View()), id, username, password) else old(View())
    {
      ok := sqlOk;
      if sqlOk {
        logins := logins[id := Login(username, password)];
      }
    }

    method Clear(sqlOk: bool) returns (ok: bool)
      modifies this
      ensures ok == sqlOk && View() == if sqlOk then Store(map[], map[]) else old(View())
    {
      ok := sqlOk;
      if sqlOk {
        logins, cells := map[], map[];
      }
    }

    method RemoveCredentials(id: nat, sqlOk: bool) returns (ok: bool)
      modifies this
      ensures ok == sqlOk
      ensures View() == if sqlOk then RemoveLogin(old(View()), id) else old(View())
    {
      ok := sqlOk;
      if sqlOk {
        logins := logins - {id};
        cells := map c | c in cells && c.identity != id :: cells[c];
        assert cells == RemoveLogin(old(View()), id).cells;
      }
    }

    method LoadCredentials(id: nat) returns (found: bool, username: string, password: string)
      ensures found == (id in logins)
      ensures if found then logins[id] == Login(username, password) else username == "" && password == ""
    {
      if id !in logins { return false, "", ""; }
      return true, logins[id].username, logins[id].password;
    }

    method LoadData(id: nat, m: nat) returns (data: Blob)
      ensures data == DataOf(View(), id, m)
    {
      data := map c | c in cells && c.identity == id && c.authMethod == m :: c.key := cells[c];
    }

    method RemoveStoredData(id: nat, m: nat, sqlOk: bool) returns (ok: bool)
      modifies `cells
      ensures ok == sqlOk
      ensures View() == if sqlOk then RemoveData(old(View()), id, m) else old(View())
    {
      ok := sqlOk;
      if sqlOk {
        cells := map c | c in cells && !(c.identity == id && (m == 0 || c.authMethod == m)) :: cells[c];
      }
    }

    /** The entries come in an arbitrary order; the counter runs over null ones
        too, and the first entry that takes it to the limit stops the loop. */
    method WriteEntries(id: nat, m: nat, data: Blob) returns (allOk: bool)
      modifies `cells
      ensures allOk <==> Fits(data)
      ensures allOk ==> cells == Cleared(old(cells), id, m) + CellsOf(id, m, data)
    {
      cells := Cleared(cells, id, m);
      var dataCounter := 0;
      var todo := data.Keys;
      assert data.Keys - todo == {};
      while todo != {}
        invariant todo <= data.Keys
        invariant dataCounter == SizeOver(data, data.Keys - todo) && dataCounter < MAX_TOKEN_STORAGE
        invariant Partial(cells, old(cells), id, m, data, data.Keys - todo)
        decreases todo
      {
        var key :| key in todo;
        ghost var done := data.Keys - todo;
        todo := todo - {key};
        dataCounter := dataCounter + |key| + |data[key].bytes|;
        assert data.Keys - todo == done + {key} && done + {key} - {key} == done;
        SizeOverRemove(data, done + {key}, key);
        if dataCounter >= MAX_TOKEN_STORAGE {
          SizeOverGrows(data, done + {key}, data.Keys);
          return false;
        }
        if !data[key].isNull {
          cells := cells[Cell(id, m, key) := data[key]];
        }
      }
      assert data.Keys - todo == data.Keys;
      PartialEnds(cells, old(cells), id, m, data);
      return true;
    }

    method StoreBlob(id: nat, m: nat, data: Blob, sqlOk: bool) returns (ok: bool)
      modifies `cells
      ensures ok <==> Fits(data) && sqlOk
      ensures View() == StoreData(old(View()), id, m, data, sqlOk)
      ensures ok ==> DataOf(View(), id, m) == NonNull(data)
      ensures !ok ==> View() == old(View())
    {
      var before := cells;
      var allOk := WriteEntries(id, m, data);
      if allOk && sqlOk {
        StoreThenLoad(old(View()), id, m, data);
        return true;
      }
      cells := before;
      return false;
    }
  }
}
