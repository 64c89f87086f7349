/**
 The metadata database as the object it is: tables changed in place statement by
 statement, with a transaction to go back to. Every method is proved to compute
 the corresponding function on the tables.
 */
module MetaDataDb {
  import opened Common
  import opened MetaDataTables
  import opened MetaDataProofs

  /** A column of the access control table; the mechanisms are those of one method. */
  datatype AclColumn = TokenColumn | MethodColumn | MechanismColumn(authMethod: nat) {
    function Of(row: AclRow): Option<nat> {
      match this
      case TokenColumn => row.token
      case MethodColumn => row.authMethod
      case MechanismColumn(m) => if row.authMethod == Some(m) then row.mechanism else None
    }
  }

  predicate InColumn(rows: seq<AclRow>, id: nat, column: AclColumn, x: nat) {
    exists r :: r in rows && r.identity == id && column.Of(r) == Some(x)
  }

  lemma ColumnGrows(rows: seq<AclRow>, row: AclRow, id: nat, column: AclColumn, x: nat)
    ensures InColumn(rows + [row], id, column, x)
       <==> InColumn(rows, id, column, x) || (row.identity == id && column.Of(row) == Some(x))
  {
    if row.identity == id && column.Of(row) == Some(x) {
      assert row in rows + [row];
    }
    if InColumn(rows, id, column, x) {
      var r :| r in rows && r.identity == id && column.Of(r) == Some(x);
      assert r in rows + [row];
    }
  }

  lemma TokensAreInColumn(t: Tables, id: nat)
    ensures TokensOf(t, id) == set k | k in t.tokens.ids && InColumn(t.acl, id, TokenColumn, t.tokens.ids[k])
  {
    forall k | k in t.tokens.ids ensures HasToken(t, id, k) <==> InColumn(t.acl, id, TokenColumn, t.tokens.ids[k]) {}
  }

  lemma MethodsAreInColumn(t: Tables, id: nat)
    ensures forall n :: n in t.methods.ids ==>
              (HasMethod(t, id, n) <==> InColumn(t.acl, id, MethodColumn, t.methods.ids[n]))
  {
  }

  lemma MechanismsAreInColumn(t: Tables, id: nat, name: string)
    requires name in t.methods.ids
    ensures MechanismsOf(t, id, name)
         == set h | h in t.mechanisms.ids
                    && InColumn(t.acl, id, MechanismColumn(t.methods.ids[name]), t.mechanisms.ids[h])
  {
    forall h | h in t.mechanisms.ids
      ensures HasMechanism(t, id, name, h)
         <==> InColumn(t.acl, id, MechanismColumn(t.methods.ids[name]), t.mechanisms.ids[h])
    {
    }
  }

  class MetaDataDB {
    var tables: Tables
    var saved: Option<Tables>

    ghost function View(): Db
      reads this
    {
      Db(tables, saved)
    }

    ghost predicate Valid()
      reads this
    {
      Integrity(tables) && saved == None
    }

    constructor ()
      ensures Valid() && tables == EMPTY
    {
      tables := EMPTY;
      saved := None;
    }

    method StartTransaction(beginOk: bool) returns (ok: bool)
      modifies this
      ensures ok == beginOk
      ensures View() == if beginOk then Begin(old(View())) else old(View())
    {
      if beginOk {
        saved := Some(tables);
      }
      ok := beginOk;
    }

    method Commit(commitOk: bool) returns (ok: bool)
      modifies this
      ensures ok == (old(saved).Some? && commitOk)
      ensures tables == old(tables) && saved == if ok then None else old(saved)
    {
      ok := saved.Some? && commitOk;
      if ok {
        saved := None;
      }
    }

    method RollbackTransaction()
      modifies this
      ensures View() == Rollback(old(View()))
    {
      if saved.Some? {
        tables := saved.value;
        saved := None;
      }
    }

    method ExecUpdateCredentials(info: Info) returns (id: nat)
      modifies `tables
      ensures id == TargetId(old(tables), info)
      ensures tables == UpdateCredentials(old(tables), info)
    {
      var row := RowFor(info);
      if !info.IsNew() {
        if info.id in tables.credentials {
          tables := tables.(credentials := tables.credentials[info.id := row]);
        }
        id := info.id;
      } else {
        id := tables.nextIdentity;
        tables := tables.(credentials := tables.credentials[id := row], nextIdentity := id + 1);
      }
    }

    method ExecInsertMethods(methods: seq<MethodEntry>)
      modifies `tables
      ensures tables == InsertMethods(old(tables), methods)
    {
      for i := 0 to |methods|
        invariant tables == InsertMethods(old(tables), methods[..i])
      {
        var entry := methods[i];
        ghost var before := tables;
        tables := tables.(methods := Intern(tables.methods, entry.name));
        for j := 0 to |entry.mechanisms|
          invariant tables == before.(methods := Intern(before.methods, entry.name),
                                      mechanisms := InternAll(before.mechanisms, entry.mechanisms[..j]))
        {
          tables := tables.(mechanisms := Intern(tables.mechanisms, entry.mechanisms[j]));
          assert entry.mechanisms[..j + 1][..j] == entry.mechanisms[..j];
        }
        assert entry.mechanisms[..|entry.mechanisms|] == entry.mechanisms;
        assert methods[..i + 1][..i] == methods[..i];
      }
      assert methods[..|methods|] == methods;
    }

    method ExecUpdateRealms(id: nat, realms: seq<string>, isNew: bool) returns (ok: bool)
      modifies this
      ensures (View(), ok) == UpdateRealms(old(View()), id, realms, isNew)
    {
      if !isNew {
        tables := tables.(realms := WithoutRealms(tables.realms, id));
      }
      ghost var cleared := View();
      for i := 0 to |realms|
        invariant View() == cleared.(cur := cleared.cur.(realms := cleared.cur.realms + RealmRows(id, realms[..i])))
        invariant i > 0 ==> id in cleared.cur.credentials
      {
        if id !in tables.credentials {
          assert RealmRows(id, realms[..0]) == [];
          assert cleared.cur.realms + [] == cleared.cur.realms;
          RollbackTransaction();
          return false;
        }
        tables := tables.(realms := tables.realms + [RealmRow(id, realms[i])]);
        assert RealmRows(id, realms[..i + 1]) == RealmRows(id, realms[..i]) + [RealmRow(id, realms[i])];
      }
      assert realms[..|realms|] == realms;
      assert cleared.cur.realms + RealmRows(id, []) == cleared.cur.realms;
      return true;
    }

    method ExecInternTokens(names: seq<string>)
      modifies `tables
      ensures tables == old(tables).(tokens := InternAll(old(tables).tokens, names))
    {
      for i := 0 to |names|
        invariant tables == old(tables).(tokens := InternAll(old(tables).tokens, names[..i]))
      {
        tables := tables.(tokens := Intern(tables.tokens, names[i]));
        assert names[..i + 1][..i] == names[..i];
      }
      assert names[..|names|] == names;
    }

    method ExecInternOwners(names: seq<string>)
      modifies `tables
      ensures tables == old(tables).(tokens := InternAll(old(tables).tokens, NonEmpty(names)))
    {
      for i := 0 to |names|
        invariant tables == old(tables).(tokens := InternAll(old(tables).tokens, NonEmpty(names[..i])))
      {
        NonEmptySnoc(names, i);
        if names[i] != "" {
          tables := tables.(tokens := Intern(tables.tokens, names[i]));
          InternAllSnoc(old(tables).tokens, NonEmpty(names[..i]), names[i]);
        }
      }
      assert names[..|names|] == names;
    }

    method ExecInsertAcl(id: nat, spec: AclSpec)
      modifies this
      ensures View() == InsertSpec(old(View()), id, spec)
    {
      var row := Resolve(tables, id, spec);
      if AclAllowed(tables, row) {
        tables := tables.(acl := tables.acl + [row]);
      } else {
        RollbackTransaction();
      }
    }

    /** The rows of one method under one token, which may be NULL. */
    method ExecInsertMechanisms(id: nat, entry: MethodEntry, token: Option<string>)
      modifies this
      ensures View() == InsertSpecs(old(View()), id, MechanismSpecs(entry.name, OrNull(entry.mechanisms), token))
    {
      for i := 0 to |entry.mechanisms|
        invariant View() == InsertSpecs(old(View()), id,
                              MechanismSpecs(entry.name, SomeAll(entry.mechanisms[..i]), token))
      {
        var spec := AclSpec(Some(entry.name), Some(entry.mechanisms[i]), token);
        ExecInsertAcl(id, spec);
        var specs := MechanismSpecs(entry.name, SomeAll(entry.mechanisms[..i + 1]), token);
        assert specs[..i] == MechanismSpecs(entry.name, SomeAll(entry.mechanisms[..i]), token);
      }
      assert entry.mechanisms[..|entry.mechanisms|] == entry.mechanisms;
      if entry.mechanisms == [] {
        var spec := AclSpec(Some(entry.name), None, token);
        ExecInsertAcl(id, spec);
        assert MechanismSpecs(entry.name, [None], token) == [spec];
        assert [spec][..0] == [];
      }
    }

    method ExecInsertMethodAcl(id: nat, entry: MethodEntry, tokens: seq<string>)
      modifies this
      ensures View() == InsertSpecs(old(View()), id, TokenSpecs(entry, OrNull(tokens)))
    {
      if tokens != [] {
        for i := 0 to |tokens|
          invariant View() == InsertSpecs(old(View()), id, TokenSpecs(entry, SomeAll(tokens[..i])))
        {
          ghost var before := TokenSpecs(entry, SomeAll(tokens[..i]));
          ghost var more := MechanismSpecs(entry.name, OrNull(entry.mechanisms), Some(tokens[i]));
          ExecInsertMechanisms(id, entry, Some(tokens[i]));
          InsertSpecsAppend(old(View()), id, before, more);
          assert SomeAll(tokens[..i + 1])[..i] == SomeAll(tokens[..i]);
        }
        assert tokens[..|tokens|] == tokens;
      } else {
        ExecInsertMechanisms(id, entry, None);
        OneToken(entry, None);
      }
    }

    method ExecInsertAclRows(id: nat, info: Info)
      modifies this
      ensures View() == InsertSpecs(old(View()), id, AclSpecs(info))
    {
      for i := 0 to |info.methods|
        invariant View() == InsertSpecs(old(View()), id, MethodSpecs(info.methods[..i], OrNull(info.acl)))
      {
        ghost var before := MethodSpecs(info.methods[..i], OrNull(info.acl));
        ExecInsertMethodAcl(id, info.methods[i], info.acl);
        InsertSpecsAppend(old(View()), id, before, TokenSpecs(info.methods[i], OrNull(info.acl)));
        assert info.methods[..i + 1][..i] == info.methods[..i];
      }
      assert info.methods[..|info.methods|] == info.methods;
      if info.methods == [] {
        for i := 0 to |info.acl|
          invariant View() == InsertSpecs(old(View()), id, BareSpecs(info.acl[..i]))
        {
          ExecInsertAcl(id, AclSpec(None, None, Some(info.acl[i])));
          assert BareSpecs(info.acl[..i + 1])[..i] == BareSpecs(info.acl[..i]);
        }
        assert info.acl[..|info.acl|] == info.acl;
        assert AclSpecs(info) == BareSpecs(info.acl);
      } else {
        assert AclSpecs(info) == MethodSpecs(info.methods, OrNull(info.acl));
      }
    }

    method ExecInsertOwners(id: nat, owners: seq<string>)
      modifies this
      ensures View() == InsertOwners(old(View()), id, NonEmpty(owners))
    {
      for i := 0 to |owners|
        invariant View() == InsertOwners(old(View()), id, NonEmpty(owners[..i]))
      {
        NonEmptySnoc(owners, i);
        if owners[i] != "" {

          var row := OwnerRow(id, Lookup(tables.tokens, owners[i]));
          if Resolves(tables.tokens, row.token) {
            tables := tables.(owner := tables.owner + [row]);
          } else {
            RollbackTransaction();
          }
          InsertOwnersSnoc(old(View()), id, NonEmpty(owners[..i]), owners[i]);
        }
      }
      assert owners[..|owners|] == owners;
    }

    /** beginOk and commitOk stand for the driver. */
    method UpdateIdentityInfo(info: Info, beginOk: bool, commitOk: bool) returns (id: nat)
      requires Valid()
      modifies this
      ensures Valid()
      ensures !beginOk ==> id == 0 && tables == old(tables)
      ensures beginOk ==> (Db(tables, saved), id) == UpdateIdentity(old(tables), info, commitOk)
    {
      ghost var t := tables;
      var started := StartTransaction(beginOk);
      if !started { return 0; }
      assert t == old(tables) && View() == Begin(Db(t, None));

      id := ExecUpdateCredentials(info);
      ExecInsertMethods(info.methods);
      var realmsOk := ExecUpdateRealms(id, info.realms, info.IsNew());
      if !realmsOk {
        RollbackTransaction();
        id := 0;
      } else {
        ExecInternTokens(info.acl);
        ExecInternOwners(info.owners);
        if !info.IsNew() {
          tables := tables.(acl := WithoutAcl(tables.acl, id), owner := WithoutOwner(tables.owner, id));
        }
        ExecInsertAclRows(id, info);
        ExecInsertOwners(id, info.owners);
        assert (View(), true) == UpdateStatements(Begin(Db(t, None)), info);
        var committed := Commit(commitOk);
        if !committed {
          RollbackTransaction();
          id := 0;
        }
      }
      assert (View(), id) == UpdateIdentity(t, info, commitOk);
      UpdateKeepsIntegrity(t, info, commitOk);
      UpdateEndsTransaction(t, info, commitOk);
    }

    method NumberOf(authMethod: string) returns (number: nat)
      ensures number == if authMethod in tables.methods.ids then tables.methods.ids[authMethod] else 0
    {
      number := if authMethod in tables.methods.ids then tables.methods.ids[authMethod] else 0;
    }

    /** A plain INSERT, outside any transaction. */
    method NewMethodNumber(authMethod: string, insertOk: bool) returns (number: nat)
      requires Valid() && authMethod !in tables.methods.ids
      modifies `tables
      ensures Valid()
      ensures tables == if insertOk then InsertMethod(old(tables), authMethod) else old(tables)
      ensures if insertOk then authMethod in tables.methods.ids && number == tables.methods.ids[authMethod] != 0
              else number == 0
    {
      if !insertOk { return 0; }
      NewMethodKeepsIntegrity(tables, authMethod);
      number := tables.methods.next;
      tables := tables.(methods := Interned(tables.methods.ids[authMethod := number], number + 1));
    }

    // The queries of identity(id): row by row, with the joins spelled out.

    method ListRealms(id: nat) returns (realms: set<string>)
      ensures realms == RealmsOf(tables, id)
    {
      realms := {};
      for i := 0 to |tables.realms|
        invariant realms == set r | r in tables.realms[..i] && r.identity == id :: r.realm
      {
        var row := tables.realms[i];
        assert tables.realms[..i + 1] == tables.realms[..i] + [row];
        if row.identity == id {
          realms := realms + {row.realm};
        }
      }
      assert tables.realms[..|tables.realms|] == tables.realms;
    }

    /** SELECT name FROM names WHERE id IN ids. */
    method ListNames(names: Interned, ids: set<nat>) returns (found: set<string>)
      ensures found == set k | k in names.ids && names.ids[k] in ids
    {
      found := {};
      var todo := names.ids.Keys;
      while todo != {}
        invariant todo <= names.ids.Keys
        invariant found == set k | k in names.ids && k !in todo && names.ids[k] in ids
        decreases todo
      {
        var name :| name in todo;
        todo := todo - {name};
        if names.ids[name] in ids {
          found := found + {name};
        }
      }
    }

    method OwnerTokenIds(id: nat) returns (ids: set<nat>)
      ensures forall x :: x in ids <==> OwnerRow(id, Some(x)) in tables.owner
    {
      ids := {};
      for i := 0 to |tables.owner|
        invariant forall x :: x in ids <==> OwnerRow(id, Some(x)) in tables.owner[..i]
      {
        var row := tables.owner[i];
        assert tables.owner[..i + 1] == tables.owner[..i] + [row];
        if row.identity == id && row.token.Some? {
          ids := ids + {row.token.value};
        }
      }
      assert tables.owner[..|tables.owner|] == tables.owner;
    }

    /** The ids of tokens, of methods, or of one method's mechanisms in the rows of
        one identity. */
    method AclIds(id: nat, column: AclColumn) returns (ids: set<nat>)
      ensures forall x :: x in ids <==> InColumn(tables.acl, id, column, x)
    {
      ids := {};
      for i := 0 to |tables.acl|
        invariant forall x :: x in ids <==> InColumn(tables.acl[..i], id, column, x)
      {
        var row := tables.acl[i];
        ghost var before := tables.acl[..i];
        assert tables.acl[..i + 1] == before + [row];
        var value := column.Of(row);
        forall x: nat ensures InColumn(before + [row], id, column, x)
                    <==> InColumn(before, id, column, x) || (row.identity == id && value == Some(x))
        {
          ColumnGrows(before, row, id, column, x);
        }
        if row.identity == id && value.Some? {
          ids := ids + {value.value};
        }
      }
      assert tables.acl[..|tables.acl|] == tables.acl;
    }

    /** One query for the methods and, for each of them, one for its mechanisms. */
    method ListMethods(id: nat) returns (methods: map<string, set<string>>)
      ensures methods == MethodsOf(tables, id)
    {
      methods := map[];
      var methodIds := AclIds(id, MethodColumn);
      var names := ListNames(tables.methods, methodIds);
      var todo := names;
      while todo != {}
        invariant todo <= names
        invariant methods == map n | n in names && n !in todo :: MechanismsOf(tables, id, n)
        decreases todo
      {
        var name :| name in todo;
        todo := todo - {name};
        var mechanismIds := AclIds(id, MechanismColumn(tables.methods.ids[name]));
        var mechanisms := ListNames(tables.mechanisms, mechanismIds);
        MechanismsAreInColumn(tables, id, name);
        assert mechanisms == MechanismsOf(tables, id, name);
        methods := methods[name := mechanisms];
      }
      MethodsAreInColumn(tables, id);
      assert names == set n | n in tables.methods.ids && HasMethod(tables, id, n);
    }

    method Identity(id: nat) returns (identity: Identity)
      ensures identity == ReadIdentity(tables, id)
    {
      if id !in tables.credentials { return NoIdentity; }
      var row := tables.credentials[id];
      var isUserNameSecret := HasFlag(row.flags, USERNAME_IS_SECRET);
      var username := row.username;
      if isUserNameSecret {
        username := "";
      }
      var realms := ListRealms(id);
      var ownerIds := OwnerTokenIds(id);
      var ownerTokens := ListNames(tables.tokens, ownerIds);
      var tokenIds := AclIds(id, TokenColumn);
      var securityTokens := ListNames(tables.tokens, tokenIds);
      TokensAreInColumn(tables, id);
      var methods := ListMethods(id);
      identity := MetaDataTables.Identity.Identity(
        row.caption, username, isUserNameSecret, HasFlag(row.flags, REMEMBER_PASSWORD),
        HasFlag(row.flags, VALIDATED), row.kind, methods, realms, securityTokens, ownerTokens);
    }

    method Remove(id: nat, ok: bool) returns (removed: bool)
      requires Valid()
      modifies this
      ensures Valid() && removed == ok
      ensures tables == RemoveIdentity(old(tables), id, ok)
      ensures ok ==> ReadIdentity(tables, id) == NoIdentity
    {
      var started := StartTransaction(true);
      if id in tables.credentials {
        // the cascading triggers
        tables := tables.(realms := WithoutRealms(tables.realms, id), acl := WithoutAcl(tables.acl, id),
                          refs := set r | r in tables.refs && r.identity != id);
        tables := tables.(credentials := tables.credentials - {id});
      }
      tables := tables.(acl := WithoutAcl(tables.acl, id));
      tables := tables.(realms := WithoutRealms(tables.realms, id));
      tables := tables.(owner := WithoutOwner(tables.owner, id));
      removed := Commit(ok);
      if !removed {
        RollbackTransaction();
      }
      ApplyKeepsIntegrity(old(tables), MetaDataTables.Remove(id, ok));
    }

    /** The seven deletes. The identities go first, and the triggers take their
        references along; the tokens' references go with the tokens. */
    method ExecClear()
      modifies `tables
      ensures tables == ClearStatements(old(tables))
    {
      tables := tables.(refs := (set r | r in tables.refs && r.identity !in tables.credentials));
      tables := tables.(credentials := map[]);
      tables := tables.(methods := tables.methods.(ids := map[]));
      tables := tables.(mechanisms := tables.mechanisms.(ids := map[]));
      tables := tables.(acl := []);
      tables := tables.(realms := []);
      tables := tables.(refs := (set r | r in tables.refs && !(r.token.Some? && Resolves(tables.tokens, r.token))));
      tables := tables.(tokens := tables.tokens.(ids := map[]));
      tables := tables.(owner := []);
    }

    method ClearAllTables(ok: bool) returns (cleared: bool)
      requires Valid()
      modifies this
      ensures Valid() && cleared == ok
      ensures tables == Clear(old(tables), ok)
      ensures ok ==> tables.credentials == map[] && tables.refs == {} && tables.acl == []
    {
      ClearEmptiesEverything(tables);
      ClearKeepsIntegrity(tables, ok);
      var started := StartTransaction(true);
      ExecClear();
      cleared := Commit(ok);
      if !cleared {
        RollbackTransaction();
      }
    }

    method AddRef(id: nat, token: string, reference: string, commitOk: bool) returns (ok: bool)
      requires Valid()
      modifies this
      ensures Valid()
      ensures (tables, ok) == AddReference(old(tables), id, token, reference, commitOk)
    {
      ReferenceKeepsIntegrity(tables, id, token, reference, commitOk);
      var started := StartTransaction(true);
      var allOk := true;
      tables := tables.(tokens := Intern(tables.tokens, token));
      if id in tables.credentials {
        tables := tables.(refs := tables.refs + {RefRow(id, Lookup(tables.tokens, token), reference)});
      } else {
        RollbackTransaction();
        allOk := false;
      }
      if allOk {
        ok := Commit(commitOk);
      } else {
        ok := false;
      }
      if !ok {
        RollbackTransaction();
      }
    }

    method RemoveRef(id: nat, token: string, reference: Option<string>, commitOk: bool) returns (ok: bool)
      requires Valid()
      modifies this
      ensures Valid()
      ensures (tables, ok) == RemoveReference(old(tables), id, token, reference, commitOk)
    {
      UnreferenceKeepsIntegrity(tables, id, token, reference, commitOk);
      var refs := References(tables, id, token);
      if refs == {} { return false; }
      if reference.Some? && reference.value !in refs { return false; }
      var started := StartTransaction(true);
      var target := Lookup(tables.tokens, token);
      if reference.None? || reference.value == "" {
        tables := tables.(refs := (set r | r in tables.refs
          && !(r.identity == id && r.token.Some? && r.token == target)));
      } else {
        tables := tables.(refs := (set r | r in tables.refs
          && !(r.identity == id && r.token.Some? && r.token == target && r.reference == reference.value)));
      }
      ok := Commit(commitOk);
      if !ok {
        RollbackTransaction();
      } else {
        assert tables.refs == RemoveReference(old(tables), id, token, reference, commitOk).0.refs;
      }
    }
  }

  lemma NonEmptySnoc(names: seq<string>, i: nat)
    requires i < |names|
    ensures names[i] == "" ==> NonEmpty(names[..i + 1]) == NonEmpty(names[..i])
    ensures names[i] != "" ==> NonEmpty(names[..i + 1]) == NonEmpty(names[..i]) + [names[i]]
  {
    assert names[..i + 1][..i] == names[..i];
  }

  lemma InternAllSnoc(t: Interned, names: seq<string>, name: string)
    ensures InternAll(t, names + [name]) == Intern(InternAll(t, names), name)
  {
    assert (names + [name])[..|names|] == names;
  }

  lemma InsertOwnersSnoc(db: Db, id: nat, owners: seq<string>, owner: string)
    ensures InsertOwners(db, id, owners + [owner])
         == InsertOwnerRow(InsertOwners(db, id, owners),
                           OwnerRow(id, Lookup(InsertOwners(db, id, owners).cur.tokens, owner)))
  {
    assert (owners + [owner])[..|owners|] == owners;
  }

  lemma OneToken(entry: MethodEntry, token: Option<string>)
    ensures TokenSpecs(entry, [token]) == MechanismSpecs(entry.name, OrNull(entry.mechanisms), token)
  {
    assert [token][..0] == [];
    assert TokenSpecs(entry, []) == [];
  }

  lemma {:induction false} InsertSpecsAppend(db: Db, id: nat, a: seq<AclSpec>, b: seq<AclSpec>)
    ensures InsertSpecs(db, id, a + b) == InsertSpecs(InsertSpecs(db, id, a), id, b)
  {
    if b == [] {
      assert a + b == a;
    } else {
      var n := |b| - 1;
      assert (a + b)[..|a + b| - 1] == a + b[..n];
      InsertSpecsAppend(db, id, a, b[..n]);
    }
  }

  lemma UpdateEndsTransaction(t: Tables, info: Info, commitOk: bool)
    ensures UpdateIdentity(t, info, commitOk).0.saved == None
  {
  }
}
