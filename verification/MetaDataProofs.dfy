/**
 What updateIdentity and its companions achieve on the tables: an update that
 commits can be read back, leaves every other identity as it was, and keeps the
 references between the tables whole.
 */
module MetaDataProofs {
  import opened Common
  import opened MetaDataTables

  /** Referential integrity. Nothing is said of OWNER.identity, which no trigger guards. */
  ghost predicate Integrity(t: Tables) {
    && ValidNames(t.methods) && ValidNames(t.mechanisms) && ValidNames(t.tokens)
    && (forall id :: id in t.credentials ==> 1 <= id < t.nextIdentity)
    && 1 <= t.nextIdentity
    && (forall r :: r in t.acl ==> AclAllowed(t, r))
    && (forall r :: r in t.realms ==> r.identity in t.credentials)
    && (forall r :: r in t.owner ==> Resolves(t.tokens, r.token))
    && (forall r :: r in t.refs ==> r.identity in t.credentials && Resolves(t.tokens, r.token))
  }

  /** The update names a new identity or one that is there. */
  predicate Known(t: Tables, info: Info) {
    info.IsNew() || info.id in t.credentials
  }

  // ------------------------------------------------- the update, in one piece

  function Rows(t: Tables, id: nat, specs: seq<AclSpec>): seq<AclRow> {
    seq(|specs|, i requires 0 <= i < |specs| => Resolve(t, id, specs[i]))
  }

  function OwnerRows(tokens: Interned, id: nat, owners: seq<string>): seq<OwnerRow> {
    seq(|owners|, i requires 0 <= i < |owners| => OwnerRow(id, Lookup(tokens, owners[i])))
  }

  /** The tables with the credentials row written and all names interned. */
  function Named(t: Tables, info: Info): Tables {
    var m := InsertMethods(UpdateCredentials(t, info), info.methods);
    m.(tokens := InternAll(InternAll(t.tokens, info.acl), NonEmpty(info.owners)))
  }

  /** What a committed update of a known identity leaves. */
  function Updated(t: Tables, info: Info): Tables {
    var id := TargetId(t, info);
    var n := Named(t, info);
    n.(realms := (if info.IsNew() then t.realms else WithoutRealms(t.realms, id)) + RealmRows(id, info.realms),
       acl := (if info.IsNew() then t.acl else WithoutAcl(t.acl, id)) + Rows(n, id, AclSpecs(info)),
       owner := (if info.IsNew() then t.owner else WithoutOwner(t.owner, id))
                + OwnerRows(n.tokens, id, NonEmpty(info.owners)))
  }

  predicate Names(t: Tables, s: AclSpec) {
    && (s.authMethod.Some? ==> s.authMethod.value in t.methods.ids)
    && (s.mechanism.Some? ==> s.mechanism.value in t.mechanisms.ids)
    && (s.token.Some? ==> s.token.value in t.tokens.ids)
  }

  lemma {:induction false} InsertMethodsEffect(t: Tables, entries: seq<MethodEntry>)
    requires ValidNames(t.methods) && ValidNames(t.mechanisms)
    ensures var t' := InsertMethods(t, entries);
            && t' == t.(methods := t'.methods, mechanisms := t'.mechanisms)
            && Extends(t.methods, t'.methods) && Extends(t.mechanisms, t'.mechanisms)
            && (forall e :: e in entries ==> e.name in t'.methods.ids)
            && (forall e, m :: e in entries && m in e.mechanisms ==> m in t'.mechanisms.ids)
  {
    if entries != [] {
      var entry := entries[|entries| - 1];
      var before := InsertMethods(t, entries[..|entries| - 1]);
      InsertMethodsEffect(t, entries[..|entries| - 1]);
      InternAllExtends(before.mechanisms, entry.mechanisms);
      assert entries == entries[..|entries| - 1] + [entry];
      var t' := InsertMethods(t, entries);
      forall e, m | e in entries && m in e.mechanisms ensures m in t'.mechanisms.ids {
        if e == entry {
          var i :| 0 <= i < |e.mechanisms| && e.mechanisms[i] == m;
        }
      }
    }
  }

  /** After interning, every name of the update resolves, and every id is kept. */
  lemma NamedEffect(t: Tables, info: Info)
    requires Integrity(t)
    ensures var n := Named(t, info);
            && Extends(t.methods, n.methods) && Extends(t.mechanisms, n.mechanisms)
            && Extends(t.tokens, n.tokens)
            && (forall s :: s in AclSpecs(info) ==> Names(n, s))
            && (forall k :: k in NonEmpty(info.owners) ==> k in n.tokens.ids)
            && n.realms == t.realms && n.acl == t.acl && n.owner == t.owner && n.refs == t.refs
            && n.credentials == UpdateCredentials(t, info).credentials
            && n.nextIdentity == UpdateCredentials(t, info).nextIdentity
  {
    var n := Named(t, info);
    InsertMethodsEffect(UpdateCredentials(t, info), info.methods);
    InternAllExtends(t.tokens, info.acl);
    var mid := InternAll(t.tokens, info.acl);
    InternAllExtends(mid, NonEmpty(info.owners));
    forall s | s in AclSpecs(info) ensures Names(n, s) {
      AclSpecsMembers(info, s);
      if s.token.Some? {
        assert s.token.value in info.acl;
        var i :| 0 <= i < |info.acl| && info.acl[i] == s.token.value;
        assert info.acl[i] in mid.ids;
      }
    }
    forall k | k in NonEmpty(info.owners) ensures k in n.tokens.ids {
      var i :| 0 <= i < |NonEmpty(info.owners)| && NonEmpty(info.owners)[i] == k;
    }
  }

  lemma {:induction false} InsertSpecsEffect(db: Db, id: nat, specs: seq<AclSpec>)
    requires id in db.cur.credentials
    requires forall s :: s in specs ==> Names(db.cur, s)
    ensures InsertSpecs(db, id, specs) == db.(cur := db.cur.(acl := db.cur.acl + Rows(db.cur, id, specs)))
  {
    if specs == [] {
      assert db.cur.acl + Rows(db.cur, id, specs) == db.cur.acl;
    } else {
      var n := |specs| - 1;
      assert specs == specs[..n] + [specs[n]];
      InsertSpecsEffect(db, id, specs[..n]);
      var before := InsertSpecs(db, id, specs[..n]);
      assert Names(db.cur, specs[n]);
      assert Resolve(before.cur, id, specs[n]) == Resolve(db.cur, id, specs[n]);
      assert Rows(db.cur, id, specs) == Rows(db.cur, id, specs[..n]) + [Resolve(db.cur, id, specs[n])];
      assert AclAllowed(before.cur, Resolve(before.cur, id, specs[n]));
    }
  }

  lemma {:induction false} InsertOwnersEffect(db: Db, id: nat, owners: seq<string>)
    ensures InsertOwners(db, id, owners)
         == db.(cur := db.cur.(owner := db.cur.owner + OwnerRows(db.cur.tokens, id, owners)))
  {
    if owners == [] {
      assert db.cur.owner + OwnerRows(db.cur.tokens, id, owners) == db.cur.owner;
    } else {
      var n := |owners| - 1;
      assert owners == owners[..n] + [owners[n]];
      InsertOwnersEffect(db, id, owners[..n]);
      assert OwnerRows(db.cur.tokens, id, owners)
          == OwnerRows(db.cur.tokens, id, owners[..n]) + [OwnerRow(id, Lookup(db.cur.tokens, owners[n]))];
    }
  }

  /** For a known identity no trigger fires, and the statements add up to Updated. */
  lemma StatementsSucceed(t: Tables, info: Info)
    requires Integrity(t) && Known(t, info)
    ensures UpdateStatements(Begin(Db(t, None)), info) == (Db(Updated(t, info), Some(t)), true)
  {
    var id := TargetId(t, info);
    var n := Named(t, info);
    NamedEffect(t, info);
    InsertMethodsEffect(UpdateCredentials(t, info), info.methods);
    var kept := if info.IsNew() then t.realms else WithoutRealms(t.realms, id);
    assert kept + RealmRows(id, []) == kept;
    var cleared := n.(realms := kept + RealmRows(id, info.realms),
                      acl := if info.IsNew() then t.acl else WithoutAcl(t.acl, id),
                      owner := if info.IsNew() then t.owner else WithoutOwner(t.owner, id));
    RowsGoIn(Db(cleared, Some(t)), n, id, info);
  }

  lemma RowsGoIn(db: Db, n: Tables, id: nat, info: Info)
    requires id in db.cur.credentials
    requires db.cur == n.(realms := db.cur.realms, acl := db.cur.acl, owner := db.cur.owner)
    requires forall s :: s in AclSpecs(info) ==> Names(n, s)
    ensures InsertOwners(InsertSpecs(db, id, AclSpecs(info)), id, NonEmpty(info.owners))
         == db.(cur := db.cur.(acl := db.cur.acl + Rows(n, id, AclSpecs(info)),
                               owner := db.cur.owner + OwnerRows(n.tokens, id, NonEmpty(info.owners))))
  {
    forall s | s in AclSpecs(info) ensures Names(db.cur, s) { assert Names(n, s); }
    InsertSpecsEffect(db, id, AclSpecs(info));
    assert Rows(db.cur, id, AclSpecs(info)) == Rows(n, id, AclSpecs(info));
    InsertOwnersEffect(InsertSpecs(db, id, AclSpecs(info)), id, NonEmpty(info.owners));
  }

  // --------------------------------------------------------------- round trip

  /** The access control rows of the updated identity are the resolved specs. */
  lemma OwnRows(t: Tables, info: Info, r: AclRow)
    requires Integrity(t) && Known(t, info) && r.identity == TargetId(t, info)
    ensures r in Updated(t, info).acl
       <==> exists s :: s in AclSpecs(info) && r == Resolve(Updated(t, info), TargetId(t, info), s)
  {
    var id, n, u := TargetId(t, info), Named(t, info), Updated(t, info);
    NamedEffect(t, info);
    WithoutAclMembers(t.acl, id, r);
    assert info.IsNew() ==> r !in t.acl;
    var rows := Rows(n, id, AclSpecs(info));
    assert r in u.acl <==> r in rows;
    if r in rows {
      var i :| 0 <= i < |rows| && rows[i] == r;
      assert AclSpecs(info)[i] in AclSpecs(info);
      assert r == Resolve(u, id, AclSpecs(info)[i]);
    }
    if s :| s in AclSpecs(info) && r == Resolve(u, id, s) {
      var i :| 0 <= i < |AclSpecs(info)| && AclSpecs(info)[i] == s;
      assert rows[i] == r;
    }
  }

  /** Names that resolve to the same id are the same name. */
  lemma SameName(t: Interned, a: Option<string>, b: string)
    requires ValidNames(t) && b in t.ids
    requires a.Some? ==> a.value in t.ids
    ensures LookupOption(t, a) == Some(t.ids[b]) <==> a == Some(b)
  {
  }

  function First(names: seq<string>): Option<string> {
    if names == [] then None else Some(names[0])
  }

  lemma SpecRow(t: Tables, info: Info, s: AclSpec) returns (r: AclRow)
    requires Integrity(t) && Known(t, info) && s in AclSpecs(info)
    ensures r == Resolve(Updated(t, info), TargetId(t, info), s)
    ensures r in Updated(t, info).acl && Names(Updated(t, info), s)
  {
    NamedEffect(t, info);
    r := Resolve(Updated(t, info), TargetId(t, info), s);
    OwnRows(t, info, r);
    assert Names(Named(t, info), s);
  }

  lemma RowSpec(t: Tables, info: Info, r: AclRow) returns (s: AclSpec)
    requires Integrity(t) && Known(t, info) && r in Updated(t, info).acl && r.identity == TargetId(t, info)
    ensures s in AclSpecs(info) && r == Resolve(Updated(t, info), TargetId(t, info), s)
    ensures Names(Updated(t, info), s)
  {
    NamedEffect(t, info);
    OwnRows(t, info, r);
    s :| s in AclSpecs(info) && r == Resolve(Updated(t, info), TargetId(t, info), s);
    assert Names(Named(t, info), s);
  }

  lemma MethodsReadBack(t: Tables, info: Info, name: string)
    requires Integrity(t) && Known(t, info)
    ensures HasMethod(Updated(t, info), TargetId(t, info), name) <==> exists e :: e in info.methods && e.name == name
  {
    if HasMethod(Updated(t, info), TargetId(t, info), name) {
      MethodWasGiven(t, info, name);
    }
    if e :| e in info.methods && e.name == name {
      MethodIsThere(t, info, e);
    }
  }

  lemma MethodWasGiven(t: Tables, info: Info, name: string)
    requires Integrity(t) && Known(t, info) && HasMethod(Updated(t, info), TargetId(t, info), name)
    ensures exists e :: e in info.methods && e.name == name
  {
    var u := Updated(t, info);
    NamedEffect(t, info);
    var r :| r in u.acl && r.identity == TargetId(t, info) && r.authMethod == Some(u.methods.ids[name]);
    var s := RowSpec(t, info, r);
    SameName(u.methods, s.authMethod, name);
    AclSpecsMembers(info, s);
  }

  lemma MethodIsThere(t: Tables, info: Info, e: MethodEntry)
    requires Integrity(t) && Known(t, info) && e in info.methods
    ensures HasMethod(Updated(t, info), TargetId(t, info), e.name)
  {
    var u := Updated(t, info);
    NamedEffect(t, info);
    var s := AclSpec(Some(e.name), First(e.mechanisms), First(info.acl));
    AclSpecsMembers(info, s);
    var r := SpecRow(t, info, s);
    assert r.authMethod == Some(u.methods.ids[e.name]);
  }

  lemma MechanismIsListed(t: Tables, info: Info, e: MethodEntry, mechanism: string)
    requires Integrity(t) && Known(t, info) && info.IsMap() && e in info.methods
    requires e.name in Updated(t, info).methods.ids
    requires HasMechanism(Updated(t, info), TargetId(t, info), e.name, mechanism)
    ensures mechanism in e.mechanisms
  {
    var id, u := TargetId(t, info), Updated(t, info);
    var r :| r in u.acl && r.identity == id && r.authMethod == Some(u.methods.ids[e.name])
             && r.mechanism == Some(u.mechanisms.ids[mechanism]);
    var s := RowSpec(t, info, r);
    NamedEffect(t, info);
    SameName(u.methods, s.authMethod, e.name);
    SameName(u.mechanisms, s.mechanism, mechanism);
    SpecMechanism(info, s, e, mechanism);
  }

  lemma SpecMechanism(info: Info, s: AclSpec, e: MethodEntry, mechanism: string)
    requires info.IsMap() && e in info.methods && s in AclSpecs(info)
    requires s.authMethod == Some(e.name) && s.mechanism == Some(mechanism)
    ensures mechanism in e.mechanisms
  {
    AclSpecsMembers(info, s);
    var e' :| e' in info.methods && e'.name == e.name && Within(s.mechanism, e'.mechanisms);
    assert e' == e;
  }

  lemma MechanismsReadBack(t: Tables, info: Info, e: MethodEntry, mechanism: string)
    requires Integrity(t) && Known(t, info) && info.IsMap() && e in info.methods
    ensures e.name in Updated(t, info).methods.ids
    ensures HasMechanism(Updated(t, info), TargetId(t, info), e.name, mechanism) <==> mechanism in e.mechanisms
  {
    var id, u := TargetId(t, info), Updated(t, info);
    MethodsReadBack(t, info, e.name);
    if HasMechanism(u, id, e.name, mechanism) {
      MechanismIsListed(t, info, e, mechanism);
    }
    if mechanism in e.mechanisms {
      var s := AclSpec(Some(e.name), Some(mechanism), First(info.acl));
      AclSpecsMembers(info, s);
      var r := SpecRow(t, info, s);
      assert r.mechanism == Some(u.mechanisms.ids[mechanism]);
    }
  }

  lemma TokensReadBack(t: Tables, info: Info, token: string)
    requires Integrity(t) && Known(t, info)
    ensures HasToken(Updated(t, info), TargetId(t, info), token) <==> token in info.acl
  {
    var id, u := TargetId(t, info), Updated(t, info);
    NamedEffect(t, info);
    if HasToken(u, id, token) {
      var r :| r in u.acl && r.identity == id && r.token == Some(u.tokens.ids[token]);
      var s := RowSpec(t, info, r);
      SameName(u.tokens, s.token, token);
      AclSpecsMembers(info, s);
    }
    if token in info.acl {
      var s := if info.methods == [] then AclSpec(None, None, Some(token))
               else AclSpec(Some(info.methods[0].name), First(info.methods[0].mechanisms), Some(token));
      assert info.methods != [] ==> info.methods[0] in info.methods;
      AclSpecsMembers(info, s);
      var r := SpecRow(t, info, s);
      assert r.token == Some(u.tokens.ids[token]);
    }
  }

  lemma {:induction false} NonEmptyMembers(names: seq<string>, name: string)
    ensures name in NonEmpty(names) <==> name in names && name != ""
  {
    if names != [] {
      NonEmptyMembers(names[..|names| - 1], name);
      assert names == names[..|names| - 1] + [names[|names| - 1]];
    }
  }

  /** Owner rows wait under an id no identity has yet. */
  ghost predicate Orphaned(t: Tables, info: Info, token: string) {
    info.IsNew() && HasOwner(t, t.nextIdentity, token)
  }

  lemma OwnersReadBack(t: Tables, info: Info, token: string)
    requires Integrity(t) && Known(t, info)
    ensures HasOwner(Updated(t, info), TargetId(t, info), token)
       <==> (token in info.owners && token != "") || Orphaned(t, info, token)
  {
    var id, n, u := TargetId(t, info), Named(t, info), Updated(t, info);
    NamedEffect(t, info);
    NonEmptyMembers(info.owners, token);
    var owners := NonEmpty(info.owners);
    var rows := OwnerRows(n.tokens, id, owners);
    if token in n.tokens.ids {
      var r := OwnerRow(id, Some(n.tokens.ids[token]));
      WithoutOwnerMembers(t.owner, id, r);
      if r in rows {
        var i :| 0 <= i < |rows| && rows[i] == r;
        assert owners[i] in n.tokens.ids;
        SameName(n.tokens, Some(owners[i]), token);
      }
      if token in owners {
        var i :| 0 <= i < |owners| && owners[i] == token;
        assert rows[i] == r;
      }
      if info.IsNew() && r in t.owner {
        assert Resolves(t.tokens, r.token);
        var name :| name in t.tokens.ids && t.tokens.ids[name] == r.token.value;
        assert n.tokens.ids[name] == n.tokens.ids[token];
      }
    }
  }

  lemma RealmsReadBack(t: Tables, info: Info, realm: string)
    requires Integrity(t) && Known(t, info)
    ensures RealmRow(TargetId(t, info), realm) in Updated(t, info).realms <==> realm in info.realms
  {
    var id := TargetId(t, info);
    NamedEffect(t, info);
    var r := RealmRow(id, realm);
    WithoutRealmsMembers(t.realms, id, r);
    if realm in info.realms {
      var i :| 0 <= i < |info.realms| && info.realms[i] == realm;
      assert RealmRows(id, info.realms)[i] == r;
    }
  }

  lemma FlagsReadBack(info: Info)
    ensures HasFlag(Flags(info), VALIDATED) == info.validated
    ensures HasFlag(Flags(info), REMEMBER_PASSWORD) == info.storePassword
    ensures HasFlag(Flags(info), USERNAME_IS_SECRET) == info.usernameIsSecret
  {
  }

  /** No owner row waits under the id a new identity is about to get, except for
      owners it is given anyway. A caller can look this up before the update. */
  ghost predicate NoStrayOwner(t: Tables, info: Info) {
    forall k :: k in t.tokens.ids && Orphaned(t, info, k) ==> k in info.owners && k != ""
  }

  lemma MethodMapReadBack(t: Tables, info: Info)
    requires Integrity(t) && Known(t, info) && info.IsMap()
    requires TargetId(t, info) in Updated(t, info).credentials
    ensures var got := ReadIdentity(Updated(t, info), TargetId(t, info));
            && got.methods.Keys == (set e | e in info.methods :: e.name)
            && (forall e :: e in info.methods ==>
                  e.name in got.methods && got.methods[e.name] == set m | m in e.mechanisms)
  {
    var got := ReadIdentity(Updated(t, info), TargetId(t, info));
    forall name ensures name in got.methods <==> exists e :: e in info.methods && e.name == name {
      MethodsReadBack(t, info, name);
    }
    forall e | e in info.methods
      ensures e.name in got.methods && got.methods[e.name] == set m | m in e.mechanisms
    {
      MethodsReadBack(t, info, e.name);
      forall m ensures m in got.methods[e.name] <==> m in e.mechanisms {
        MechanismsReadBack(t, info, e, m);
      }
    }
  }

  lemma SetsReadBack(t: Tables, info: Info)
    requires Integrity(t) && Known(t, info)
    requires TargetId(t, info) in Updated(t, info).credentials
    ensures var got := ReadIdentity(Updated(t, info), TargetId(t, info));
            && got.acl == (set k | k in info.acl)
            && got.realms == (set r | r in info.realms)
            && (forall k :: k in got.owners <==> (k in info.owners && k != "") || Orphaned(t, info, k))
  {
    var got := ReadIdentity(Updated(t, info), TargetId(t, info));
    forall k ensures k in got.acl <==> k in info.acl { TokensReadBack(t, info, k); }
    forall r ensures r in got.realms <==> r in info.realms { RealmsReadBack(t, info, r); }
    forall k ensures k in got.owners <==> (k in info.owners && k != "") || Orphaned(t, info, k) {
      OwnersReadBack(t, info, k);
    }
  }

  lemma RowReadBack(t: Tables, info: Info)
    requires Integrity(t) && Known(t, info)
    ensures TargetId(t, info) in Updated(t, info).credentials
    ensures Updated(t, info).credentials[TargetId(t, info)] == RowFor(info)
  {
    NamedEffect(t, info);
  }

  lemma OwnersAsGiven(t: Tables, info: Info, got: set<string>)
    requires forall k :: k in got <==> (k in info.owners && k != "") || Orphaned(t, info, k)
    ensures got == (set k | k in info.owners && k != "") <==> NoStrayOwner(t, info)
  {
    if !NoStrayOwner(t, info) {
      var k :| k in t.tokens.ids && Orphaned(t, info, k) && !(k in info.owners && k != "");
      assert k in got;
    }
  }

  lemma CommittedUpdate(t: Tables, info: Info)
    requires Integrity(t) && Known(t, info)
    ensures UpdateIdentity(t, info, true) == (Db(Updated(t, info), None), TargetId(t, info))
    ensures UpdateIdentity(t, info, false) == (Db(t, None), 0)
  {
    StatementsSucceed(t, info);
  }

  /** The round trip, exactly: an update of a known identity that commits reads
      back as handed in, if and only if no stray owner row lies in wait. */
  lemma RoundTrip(t: Tables, info: Info)
    requires Integrity(t) && Known(t, info) && info.IsMap()
    ensures var (db, id) := UpdateIdentity(t, info, true);
            && id == TargetId(t, info) != 0 && db.saved == None
            && (Shows(ReadIdentity(db.cur, id), info) <==> NoStrayOwner(t, info))
  {
    CommittedUpdate(t, info);
    RowReadBack(t, info);
    FlagsReadBack(info);
    MethodMapReadBack(t, info);
    SetsReadBack(t, info);
    OwnersAsGiven(t, info, ReadIdentity(Updated(t, info), TargetId(t, info)).owners);
  }

  // -------------------------------------------------------------------- frame

  /** Two databases read the same for an identity when its rows are the same and
      the name tables have only grown. */
  ghost predicate SameRows(t: Tables, t': Tables, id: nat) {
    && Extends(t.methods, t'.methods) && Extends(t.mechanisms, t'.mechanisms) && Extends(t.tokens, t'.tokens)
    && (id in t.credentials <==> id in t'.credentials)
    && (id in t.credentials ==> t.credentials[id] == t'.credentials[id])
    && (forall r: AclRow :: r.identity == id ==> (r in t.acl <==> r in t'.acl))
    && (forall r: RealmRow :: r.identity == id ==> (r in t.realms <==> r in t'.realms))
    && (forall r: OwnerRow :: r.identity == id ==> (r in t.owner <==> r in t'.owner))
  }

  lemma OldIdsOnly(t: Interned, t': Interned, id: Option<nat>, name: string)
    requires ValidNames(t) && Extends(t, t') && Resolves(t, id) && name in t'.ids && id == Some(t'.ids[name])
    ensures name in t.ids && t.ids[name] == t'.ids[name]
  {
  }

  lemma SameReadMethods(t: Tables, t': Tables, id: nat, name: string)
    requires Integrity(t) && SameRows(t, t', id)
    ensures HasMethod(t, id, name) <==> HasMethod(t', id, name)
    ensures HasToken(t, id, name) <==> HasToken(t', id, name)
    ensures HasOwner(t, id, name) <==> HasOwner(t', id, name)
  {
    if HasMethod(t', id, name) {
      var r :| r in t'.acl && r.identity == id && r.authMethod == Some(t'.methods.ids[name]);
      assert AclAllowed(t, r);
      OldIdsOnly(t.methods, t'.methods, r.authMethod, name);
    }
    if HasToken(t', id, name) {
      var r :| r in t'.acl && r.identity == id && r.token == Some(t'.tokens.ids[name]);
      assert AclAllowed(t, r);
      OldIdsOnly(t.tokens, t'.tokens, r.token, name);
    }
    if HasOwner(t', id, name) {
      var r := OwnerRow(id, Some(t'.tokens.ids[name]));
      OldIdsOnly(t.tokens, t'.tokens, r.token, name);
    }
  }

  lemma SameReadMechanisms(t: Tables, t': Tables, id: nat, name: string, mechanism: string)
    requires Integrity(t) && SameRows(t, t', id) && name in t.methods.ids && name in t'.methods.ids
    ensures HasMechanism(t, id, name, mechanism) <==> HasMechanism(t', id, name, mechanism)
  {
    if HasMechanism(t', id, name, mechanism) {
      var r :| r in t'.acl && r.identity == id && r.authMethod == Some(t'.methods.ids[name])
               && r.mechanism == Some(t'.mechanisms.ids[mechanism]);
      assert AclAllowed(t, r);
      OldIdsOnly(t.mechanisms, t'.mechanisms, r.mechanism, mechanism);
    }
  }

  lemma SameReadMap(t: Tables, t': Tables, id: nat)
    requires Integrity(t) && SameRows(t, t', id)
    ensures MethodsOf(t', id) == MethodsOf(t, id)
  {
    forall name ensures name in MethodsOf(t, id) <==> name in MethodsOf(t', id) {
      SameReadMethods(t, t', id, name);
    }
    forall name | name in MethodsOf(t, id)
      ensures name in MethodsOf(t', id) && MechanismsOf(t, id, name) == MechanismsOf(t', id, name)
    {
      assert name in MethodsOf(t', id);
      forall m ensures m in MechanismsOf(t, id, name) <==> m in MechanismsOf(t', id, name) {
        SameReadMechanisms(t, t', id, name, m);
      }
    }
  }

  lemma SameReadSets(t: Tables, t': Tables, id: nat)
    requires Integrity(t) && SameRows(t, t', id)
    ensures RealmsOf(t', id) == RealmsOf(t, id)
    ensures TokensOf(t', id) == TokensOf(t, id)
    ensures OwnersOf(t', id) == OwnersOf(t, id)
  {
    forall name
      ensures name in TokensOf(t, id) <==> name in TokensOf(t', id)
      ensures name in OwnersOf(t, id) <==> name in OwnersOf(t', id)
    {
      SameReadMethods(t, t', id, name);
    }
    forall realm ensures realm in RealmsOf(t, id) <==> realm in RealmsOf(t', id) {
      assert RealmRow(id, realm) in t.realms <==> RealmRow(id, realm) in t'.realms;
    }
  }

  lemma SameRead(t: Tables, t': Tables, id: nat)
    requires Integrity(t) && SameRows(t, t', id)
    ensures ReadIdentity(t', id) == ReadIdentity(t, id)
  {
    SameReadMap(t, t', id);
    SameReadSets(t, t', id);
  }

  // ------------------------------------------- updates of missing identities

  /** What an update of an identity that is not there leaves. A realm or an access
      control row makes the trigger undo the transaction; the owner rows that follow
      then go in outside of any. Without such rows names and owner rows are
      committed. */
  function UnknownUpdated(t: Tables, info: Info, commitOk: bool): Tables {
    var n, owners := Named(t, info), NonEmpty(info.owners);
    if info.realms != [] then t
    else if AclSpecs(info) != [] then t.(owner := t.owner + OwnerRows(t.tokens, info.id, owners))
    else if commitOk then n.(owner := WithoutOwner(t.owner, info.id) + OwnerRows(n.tokens, info.id, owners))
    else t
  }

  /** The first access control row of an unknown identity undoes the transaction. */
  lemma {:induction false} UnknownSpecs(db: Db, id: nat, specs: seq<AclSpec>)
    requires specs != [] && id !in db.cur.credentials
    requires db.saved.Some? && id !in db.saved.value.credentials
    ensures InsertSpecs(db, id, specs) == Db(db.saved.value, None)
  {
    var n := |specs| - 1;
    if n == 0 {
      assert InsertSpecs(db, id, specs[..n]) == db;
    } else {
      UnknownSpecs(db, id, specs[..n]);
    }
  }

  lemma {:induction false} NoAclToDelete(rows: seq<AclRow>, id: nat)
    requires forall r :: r in rows ==> r.identity != id
    ensures WithoutAcl(rows, id) == rows
  {
    if rows != [] {
      var n := |rows| - 1;
      assert rows == rows[..n] + [rows[n]] && rows[n] in rows;
      forall r | r in rows[..n] ensures r.identity != id { assert r in rows; }
      NoAclToDelete(rows[..n], id);
    }
  }

  lemma {:induction false} NoRealmsToDelete(rows: seq<RealmRow>, id: nat)
    requires forall r :: r in rows ==> r.identity != id
    ensures WithoutRealms(rows, id) == rows
  {
    if rows != [] {
      var n := |rows| - 1;
      assert rows == rows[..n] + [rows[n]] && rows[n] in rows;
      forall r | r in rows[..n] ensures r.identity != id { assert r in rows; }
      NoRealmsToDelete(rows[..n], id);
    }
  }

  /** Updating an identity that is not there: either nothing remains, or only
      owner rows and names do. It is reported done exactly if there is no realm and
      no access control row to give it away, and the commit works. */
  lemma UnknownUpdate(t: Tables, info: Info, commitOk: bool)
    requires Integrity(t) && !Known(t, info)
    ensures UpdateIdentity(t, info, commitOk).0 == Db(UnknownUpdated(t, info, commitOk), None)
    ensures UpdateIdentity(t, info, commitOk).1
         == if info.realms == [] && AclSpecs(info) == [] && commitOk then info.id else 0
  {
    var id, n := info.id, Named(t, info);
    NoRealmsToDelete(t.realms, id);
    NoAclToDelete(t.acl, id);
    InsertMethodsEffect(t, info.methods);
    if info.realms == [] {
      var db := Db(n.(owner := WithoutOwner(t.owner, id)), Some(t));
      NamedEffect(t, info);
      if AclSpecs(info) == [] {
        InsertOwnersEffect(db, id, NonEmpty(info.owners));
      } else {
        UnknownSpecs(db, id, AclSpecs(info));
        InsertOwnersEffect(Db(t, None), id, NonEmpty(info.owners));
      }
    }
  }

  lemma KnownUpdateFrame(t: Tables, info: Info, other: nat)
    requires Integrity(t) && Known(t, info) && other != TargetId(t, info)
    ensures SameRows(t, Updated(t, info), other)
  {
    NamedEffect(t, info);
    var id, u := TargetId(t, info), Updated(t, info);
    forall r: AclRow | r.identity == other ensures r in t.acl <==> r in u.acl {
      WithoutAclMembers(t.acl, id, r);
    }
    forall r: RealmRow | r.identity == other ensures r in t.realms <==> r in u.realms {
      WithoutRealmsMembers(t.realms, id, r);
    }
    forall r: OwnerRow | r.identity == other ensures r in t.owner <==> r in u.owner {
      WithoutOwnerMembers(t.owner, id, r);
    }
  }

  /** Larger name tables and other identities' owner rows do not show. */
  lemma GrownFrame(t: Tables, u: Tables, id: nat)
    requires Extends(t.methods, u.methods) && Extends(t.mechanisms, u.mechanisms) && Extends(t.tokens, u.tokens)
    requires u.credentials == t.credentials && u.acl == t.acl && u.realms == t.realms
    requires forall r: OwnerRow :: r.identity == id ==> (r in t.owner <==> r in u.owner)
    ensures SameRows(t, u, id)
  {
  }

  lemma OwnersFrame(rows: seq<OwnerRow>, kept: seq<OwnerRow>, tokens: Interned, id: nat, owners: seq<string>, other: nat)
    requires (kept == rows || kept == WithoutOwner(rows, id)) && other != id
    ensures forall r: OwnerRow :: r.identity == other ==> (r in rows <==> r in kept + OwnerRows(tokens, id, owners))
  {
    forall r: OwnerRow | r.identity == other ensures r in rows <==> r in kept + OwnerRows(tokens, id, owners) {
      WithoutOwnerMembers(rows, id, r);
      assert r !in OwnerRows(tokens, id, owners);
    }
  }

  lemma UnknownUpdateFrame(t: Tables, info: Info, commitOk: bool, other: nat)
    requires Integrity(t) && !Known(t, info) && other != info.id
    ensures SameRows(t, UnknownUpdated(t, info, commitOk), other)
  {
    var id, n, owners := info.id, Named(t, info), NonEmpty(info.owners);
    NamedEffect(t, info);
    OwnersFrame(t.owner, t.owner, t.tokens, id, owners, other);
    OwnersFrame(t.owner, WithoutOwner(t.owner, id), n.tokens, id, owners, other);
    GrownFrame(t, UnknownUpdated(t, info, commitOk), other);
  }

  /** The frame: whatever comes of the update, and whether or not its identity is
      there, every other identity still reads as before, although all identities
      share the name tables. */
  lemma UpdateFrame(t: Tables, info: Info, commitOk: bool, other: nat)
    requires Integrity(t) && other != TargetId(t, info)
    ensures ReadIdentity(UpdateIdentity(t, info, commitOk).0.cur, other) == ReadIdentity(t, other)
  {
    if Known(t, info) {
      CommittedUpdate(t, info);
      KnownUpdateFrame(t, info, other);
      SameRead(t, Updated(t, info), other);
    } else {
      UnknownUpdate(t, info, commitOk);
      UnknownUpdateFrame(t, info, commitOk, other);
      SameRead(t, UnknownUpdated(t, info, commitOk), other);
    }
  }

  // ---------------------------------------------------- integrity over runs

  lemma ExtendsResolves(t: Interned, t': Interned, id: Option<nat>)
    requires Extends(t, t') && Resolves(t, id)
    ensures Resolves(t', id)
  {
    if id.Some? {
      var name :| name in t.ids && t.ids[name] == id.value;
      assert name in t'.ids && t'.ids[name] == id.value;
    }
  }

  lemma LookupResolves(t: Interned, name: Option<string>)
    ensures Resolves(t, LookupOption(t, name))
  {
  }

  lemma KnownUpdateKeepsIntegrity(t: Tables, info: Info)
    requires Integrity(t) && Known(t, info)
    ensures Integrity(Updated(t, info))
  {
    var id, n, u := TargetId(t, info), Named(t, info), Updated(t, info);
    NamedEffect(t, info);
    forall r | r in u.acl ensures AclAllowed(u, r) {
      if r.identity == id {
        var s := RowSpec(t, info, r);
        LookupResolves(u.methods, s.authMethod);
        LookupResolves(u.mechanisms, s.mechanism);
        LookupResolves(u.tokens, s.token);
      } else {
        WithoutAclMembers(t.acl, id, r);
        assert AclAllowed(t, r);
        ExtendsResolves(t.methods, u.methods, r.authMethod);
        ExtendsResolves(t.mechanisms, u.mechanisms, r.mechanism);
        ExtendsResolves(t.tokens, u.tokens, r.token);
      }
    }
    forall r | r in u.realms ensures r.identity in u.credentials {
      WithoutRealmsMembers(t.realms, id, r);
    }
    OwnersResolve(t, info, if info.IsNew() then t.owner else WithoutOwner(t.owner, id), n.tokens);
    forall r | r in u.refs ensures Resolves(u.tokens, r.token) {
      ExtendsResolves(t.tokens, u.tokens, r.token);
    }
  }

  lemma OwnersResolve(t: Tables, info: Info, kept: seq<OwnerRow>, tokens: Interned)
    requires Integrity(t) && Extends(t.tokens, tokens)
    requires kept == t.owner || kept == WithoutOwner(t.owner, TargetId(t, info))
    ensures forall r :: r in kept + OwnerRows(tokens, TargetId(t, info), NonEmpty(info.owners))
                ==> Resolves(tokens, r.token)
  {
    forall r | r in kept ensures Resolves(tokens, r.token) {
      WithoutOwnerMembers(t.owner, TargetId(t, info), r);
      ExtendsResolves(t.tokens, tokens, r.token);
    }
  }

  lemma UnknownUpdateKeepsIntegrity(t: Tables, info: Info, commitOk: bool)
    requires Integrity(t) && !Known(t, info)
    ensures Integrity(UpdateIdentity(t, info, commitOk).0.cur)
  {
    UnknownUpdate(t, info, commitOk);
    NamedEffect(t, info);
    var n := Named(t, info);
    OwnersResolve(t, info, WithoutOwner(t.owner, info.id), n.tokens);
    OwnersResolve(t, info, t.owner, t.tokens);
    GrownKeepsIntegrity(t, UnknownUpdated(t, info, commitOk));
  }

  /** Larger name tables and resolving owners keep integrity. */
  lemma GrownKeepsIntegrity(t: Tables, u: Tables)
    requires Integrity(t)
    requires Extends(t.methods, u.methods) && Extends(t.mechanisms, u.mechanisms) && Extends(t.tokens, u.tokens)
    requires u.credentials == t.credentials && u.nextIdentity == t.nextIdentity
    requires u.acl == t.acl && u.realms == t.realms && u.refs == t.refs
    requires forall r :: r in u.owner ==> Resolves(u.tokens, r.token)
    ensures Integrity(u)
  {
    forall r | r in u.acl ensures AclAllowed(u, r) {
      assert AclAllowed(t, r);
      ExtendsResolves(t.methods, u.methods, r.authMethod);
      ExtendsResolves(t.mechanisms, u.mechanisms, r.mechanism);
      ExtendsResolves(t.tokens, u.tokens, r.token);
    }
    forall r | r in u.refs ensures Resolves(u.tokens, r.token) {
      ExtendsResolves(t.tokens, u.tokens, r.token);
    }
  }

  /** Removing an identity leaves none of its rows anywhere, and every other
      identity reads as before. */
  lemma RemovalIsClean(t: Tables, id: nat)
    requires Integrity(t)
    ensures var u := RemoveIdentity(t, id, true);
            && id !in u.credentials
            && (forall r :: r in u.acl ==> r.identity != id)
            && (forall r :: r in u.realms ==> r.identity != id)
            && (forall r :: r in u.owner ==> r.identity != id)
            && (forall r :: r in u.refs ==> r.identity != id)
            && (forall other :: other != id ==> SameRows(t, u, other))
            && RemoveIdentity(t, id, false) == t
  {
    var u := RemoveIdentity(t, id, true);
    forall r ensures r in u.acl <==> r in t.acl && r.identity != id {
      WithoutAclMembers(t.acl, id, r);
      WithoutAclMembers(WithoutAcl(t.acl, id), id, r);
    }
    forall r ensures r in u.realms <==> r in t.realms && r.identity != id {
      WithoutRealmsMembers(t.realms, id, r);
      WithoutRealmsMembers(WithoutRealms(t.realms, id), id, r);
    }
    forall r ensures r in u.owner <==> r in t.owner && r.identity != id {
      WithoutOwnerMembers(t.owner, id, r);
    }
  }

  lemma RemovalFrame(t: Tables, id: nat, other: nat)
    requires Integrity(t) && other != id
    ensures ReadIdentity(RemoveIdentity(t, id, true), other) == ReadIdentity(t, other)
    ensures ReadIdentity(RemoveIdentity(t, id, true), id) == NoIdentity
  {
    RemovalIsClean(t, id);
    SameRead(t, RemoveIdentity(t, id, true), other);
  }

  lemma RemovalKeepsIntegrity(t: Tables, id: nat)
    requires Integrity(t)
    ensures Integrity(RemoveIdentity(t, id, true))
  {
    var u := RemoveIdentity(t, id, true);
    forall r | r in u.acl ensures r in t.acl && r.identity != id {
      WithoutAclMembers(t.acl, id, r);
      WithoutAclMembers(WithoutAcl(t.acl, id), id, r);
    }
    forall r | r in u.acl ensures AclAllowed(u, r) { assert AclAllowed(t, r); }
    forall r | r in u.realms ensures r.identity in u.credentials {
      WithoutRealmsMembers(t.realms, id, r);
      WithoutRealmsMembers(WithoutRealms(t.realms, id), id, r);
    }
    forall r | r in u.owner ensures Resolves(u.tokens, r.token) { WithoutOwnerMembers(t.owner, id, r); }
  }

  /** clear() never names REFS, yet leaves it empty, like every other table. */
  lemma ClearEmptiesEverything(t: Tables)
    requires Integrity(t)
    ensures Clear(t, true) == EMPTY.(nextIdentity := t.nextIdentity,
                                     methods := Interned(map[], t.methods.next),
                                     mechanisms := Interned(map[], t.mechanisms.next),
                                     tokens := Interned(map[], t.tokens.next))
    ensures Clear(t, false) == t
  {
    assert Clear(t, true).refs == {};
  }

  // ------------------------------------------------------ references, by name

  predicate HasReference(t: Tables, id: nat, token: string, reference: string) {
    token in t.tokens.ids && RefRow(id, Some(t.tokens.ids[token]), reference) in t.refs
  }

  /** Larger token tables do not change which references there are. */
  lemma SameReferences(t: Tables, u: Tables)
    requires Integrity(t) && Extends(t.tokens, u.tokens) && u.refs == t.refs
    ensures forall i, k, r :: HasReference(u, i, k, r) <==> HasReference(t, i, k, r)
  {
    forall i, k, r | HasReference(u, i, k, r) ensures HasReference(t, i, k, r) {
      var row := RefRow(i, Some(u.tokens.ids[k]), r);
      assert Resolves(t.tokens, row.token);
      var name :| name in t.tokens.ids && t.tokens.ids[name] == u.tokens.ids[k];
      assert u.tokens.ids[name] == u.tokens.ids[k];
    }
  }

  /** Adding a reference works exactly for an identity that is there, if the commit does.
      That reference is there then, every other one as before, and no identity reads
      differently. */
  lemma AddReferenceExactly(t: Tables, id: nat, token: string, reference: string, commitOk: bool)
    requires Integrity(t)
    ensures var (u, ok) := AddReference(t, id, token, reference, commitOk);
            && (ok <==> id in t.credentials && commitOk) && (!ok ==> u == t)
            && (ok ==> forall i, k, r :: HasReference(u, i, k, r) <==>
                         HasReference(t, i, k, r) || (i == id && k == token && r == reference))
            && (forall i :: ReadIdentity(u, i) == ReadIdentity(t, i))
  {
    var u := AddReference(t, id, token, reference, commitOk).0;
    var named := t.(tokens := Intern(t.tokens, token));
    SameReferences(t, named);
    if u != t {
      assert u == named.(refs := t.refs + {RefRow(id, Some(named.tokens.ids[token]), reference)});
      forall i, k, r
        ensures HasReference(u, i, k, r) <==> HasReference(named, i, k, r) || (i == id && k == token && r == reference)
      {
      }
    }
    forall i ensures ReadIdentity(u, i) == ReadIdentity(t, i) {
      if u != t {
        SameRead(t, u, i);
      }
    }
  }

  /** Removing references works exactly if the identity has some under the token (any
      token, when that is empty), the one asked for among them, and the commit does.
      Those of the token go, or the one asked for; every other one stays, and
      nothing else changes. */
  lemma RemoveReferenceExactly(t: Tables, id: nat, token: string, which: Option<string>, commitOk: bool)
    requires Integrity(t)
    ensures var (u, ok) := RemoveReference(t, id, token, which, commitOk);
            && u == t.(refs := u.refs) && (!ok ==> u == t)
            && (ok <==> commitOk && exists r :: r in t.refs && Listed(t, id, token, r)
                                          && (which.None? || r.reference == which.value))
            && (ok ==> forall i, k, r :: HasReference(u, i, k, r) <==>
                         && HasReference(t, i, k, r)
                         && !(i == id && k == token && (which.None? || which.value == "" || r == which.value)))
  {
    var listed := References(t, id, token);
    forall r | r in t.refs && Listed(t, id, token, r) ensures r.reference in listed {}
    if listed != {} {
      var reference :| reference in listed;
      var r :| r in t.refs && Listed(t, id, token, r) && r.reference == reference;
    }
  }

  /** The row counts as one of the identity's under the token. */
  predicate Listed(t: Tables, id: nat, token: string, r: RefRow) {
    r.identity == id && (token == "" || (token in t.tokens.ids && r.token == Some(t.tokens.ids[token])))
  }

  /** Removing an identity takes its references, updating one takes none. */
  lemma ReferencesSurvive(t: Tables, id: nat, info: Info, commitOk: bool)
    requires Integrity(t)
    ensures forall i, k, r :: HasReference(RemoveIdentity(t, id, true), i, k, r) <==> HasReference(t, i, k, r) && i != id
    ensures forall i, k, r :: HasReference(UpdateIdentity(t, info, commitOk).0.cur, i, k, r) <==> HasReference(t, i, k, r)
  {
    var u := UpdateIdentity(t, info, commitOk).0.cur;
    NamedEffect(t, info);
    if Known(t, info) {
      CommittedUpdate(t, info);
    } else {
      UnknownUpdate(t, info, commitOk);
    }
    SameReferences(t, u);
    var left := RemoveIdentity(t, id, true);
    forall i, k, r ensures HasReference(left, i, k, r) <==> HasReference(t, i, k, r) && i != id {
      if k in t.tokens.ids {
        assert RefRow(i, Some(t.tokens.ids[k]), r) in t.refs ==> i in t.credentials;
      }
    }
  }

  /** A method's name is added once, with a free number; every other one keeps its
      own. */
  lemma NewMethodExactly(t: Tables, name: string)
    requires Integrity(t)
    ensures var u := InsertMethod(t, name);
            && u == t.(methods := u.methods) && Extends(t.methods, u.methods)
            && u.methods.ids.Keys == t.methods.ids.Keys + {name}
  {
  }

  lemma ReferenceKeepsIntegrity(t: Tables, id: nat, token: string, reference: string, commitOk: bool)
    requires Integrity(t)
    ensures Integrity(AddReference(t, id, token, reference, commitOk).0)
  {
    var u := AddReference(t, id, token, reference, commitOk).0;
    if u != t {
      var tokens := Intern(t.tokens, token);
      forall r | r in t.owner ensures Resolves(tokens, r.token) { ExtendsResolves(t.tokens, tokens, r.token); }
      GrownKeepsIntegrity(t, t.(tokens := tokens));
      LookupResolves(tokens, Some(token));
    }
  }

  lemma NewMethodKeepsIntegrity(t: Tables, name: string)
    requires Integrity(t)
    ensures Integrity(InsertMethod(t, name))
  {
    GrownKeepsIntegrity(t, InsertMethod(t, name));
  }

  lemma UpdateKeepsIntegrity(t: Tables, info: Info, commitOk: bool)
    requires Integrity(t)
    ensures Integrity(UpdateIdentity(t, info, commitOk).0.cur)
  {
    if Known(t, info) {
      CommittedUpdate(t, info);
      KnownUpdateKeepsIntegrity(t, info);
    } else {
      UnknownUpdateKeepsIntegrity(t, info, commitOk);
    }
  }

  lemma UnreferenceKeepsIntegrity(t: Tables, id: nat, token: string, which: Option<string>, commitOk: bool)
    requires Integrity(t)
    ensures Integrity(RemoveReference(t, id, token, which, commitOk).0)
  {
    var u := RemoveReference(t, id, token, which, commitOk).0;
    assert u.refs <= t.refs;
    assert u == t.(refs := u.refs);
  }

  lemma ClearKeepsIntegrity(t: Tables, ok: bool)
    requires Integrity(t)
    ensures Integrity(Clear(t, ok))
  {
    if ok {
      ClearEmptiesEverything(t);
    }
  }

  lemma ApplyKeepsIntegrity(t: Tables, op: Op)
    requires Integrity(t)
    ensures Integrity(Apply(t, op))
  {
    match op
    case Update(info, commitOk) => UpdateKeepsIntegrity(t, info, commitOk);
    case Remove(id, ok) => RemovalKeepsIntegrity(t, id);
    case Reference(id, token, reference, commitOk) => ReferenceKeepsIntegrity(t, id, token, reference, commitOk);
    case Unreference(id, token, which, commitOk) => UnreferenceKeepsIntegrity(t, id, token, which, commitOk);
    case NewMethod(name) => NewMethodKeepsIntegrity(t, name);
    case ClearAll(ok) => ClearKeepsIntegrity(t, ok);
  }

  /** Every run of updates, removals, references and clears, whatever commits
      and whatever ids it names, keeps the references between tables whole. */
  lemma {:induction false} RunsKeepIntegrity(ops: seq<Op>)
    ensures Integrity(Run(ops))
  {
    if ops != [] {
      RunsKeepIntegrity(ops[..|ops| - 1]);
      ApplyKeepsIntegrity(Run(ops[..|ops| - 1]), ops[|ops| - 1]);
    }
  }

  // -------------------------------------------------------------- stray owners

  /** A user name that is secret is in no row of the credentials. */
  ghost predicate SecretNamesHidden(t: Tables) {
    forall id :: id in t.credentials && HasFlag(t.credentials[id].flags, USERNAME_IS_SECRET)
                 ==> t.credentials[id].username == ""
  }

  lemma UpdateHidesSecretNames(t: Tables, info: Info, commitOk: bool)
    requires Integrity(t) && SecretNamesHidden(t)
    ensures SecretNamesHidden(UpdateIdentity(t, info, commitOk).0.cur)
  {
    FlagsReadBack(info);
    if Known(t, info) {
      CommittedUpdate(t, info);
      NamedEffect(t, info);
    } else {
      UnknownUpdate(t, info, commitOk);
      NamedEffect(t, info);
    }
  }

  /** Over every run of operations, none of them ever is. */
  lemma {:induction false} RunsHideSecretNames(ops: seq<Op>)
    ensures SecretNamesHidden(Run(ops))
  {
    if ops != [] {
      var t := Run(ops[..|ops| - 1]);
      RunsHideSecretNames(ops[..|ops| - 1]);
      RunsKeepIntegrity(ops[..|ops| - 1]);
      match ops[|ops| - 1]
      case Update(info, commitOk) => UpdateHidesSecretNames(t, info, commitOk);
      case _ =>
    }
  }

  ghost predicate OwnersKnown(t: Tables) {
    forall r :: r in t.owner ==> r.identity in t.credentials
  }

  ghost predicate KnownRun(ops: seq<Op>) {
    ops == [] ||
    (KnownRun(ops[..|ops| - 1]) &&
     (ops[|ops| - 1].Update? ==> Known(Run(ops[..|ops| - 1]), ops[|ops| - 1].info)))
  }

  lemma OwnersStayKnown(t: Tables, op: Op)
    requires Integrity(t) && OwnersKnown(t) && (op.Update? ==> Known(t, op.info))
    ensures OwnersKnown(Apply(t, op))
  {
    var u := Apply(t, op);
    forall r | r in u.owner ensures r.identity in u.credentials {
      if op.Update? {
        CommittedUpdate(t, op.info);
        NamedEffect(t, op.info);
        WithoutOwnerMembers(t.owner, TargetId(t, op.info), r);
      } else if op.Remove? {
        WithoutOwnerMembers(t.owner, op.id, r);
      }
    }
  }

  /** As long as no update names an identity that is not there, no owner row is
      stray, and every update that commits reads back as handed in. */
  lemma {:induction false} KnownRunsReadBack(ops: seq<Op>, info: Info)
    requires KnownRun(ops) && Known(Run(ops), info) && info.IsMap()
    ensures OwnersKnown(Run(ops))
    ensures var (db, id) := UpdateIdentity(Run(ops), info, true); Shows(ReadIdentity(db.cur, id), info)
  {
    KnownRunOwners(ops);
    RunsKeepIntegrity(ops);
    RoundTrip(Run(ops), info);
  }

  lemma {:induction false} KnownRunOwners(ops: seq<Op>)
    requires KnownRun(ops)
    ensures OwnersKnown(Run(ops))
  {
    if ops != [] {
      KnownRunOwners(ops[..|ops| - 1]);
      RunsKeepIntegrity(ops[..|ops| - 1]);
      OwnersStayKnown(Run(ops[..|ops| - 1]), ops[|ops| - 1]);
    }
  }

  /** The tables an update of the identity 1 leaves, when there is none yet and it
      brings nothing but an owner. */
  lemma EarlyUpdate(owner: string)
    requires owner != ""
    ensures var early := Info(1, "", "", false, false, false, 0, [], [], [], [owner]);
            var t := UpdateIdentity(EMPTY, early, true).0.cur;
            Integrity(t) && t.nextIdentity == 1 && HasOwner(t, 1, owner)
  {
    var early := Info(1, "", "", false, false, false, 0, [], [], [], [owner]);
    ApplyKeepsIntegrity(EMPTY, Update(early, true));
    assert Named(EMPTY, early) == EMPTY.(tokens := InternAll(EMPTY_NAMES, [owner])) by {
      OneOwner(owner);
    }
    EarlyTables(owner, early);
  }

  lemma OneOwner(owner: string)
    requires owner != ""
    ensures NonEmpty([owner]) == [owner]
    ensures InternAll(EMPTY_NAMES, [owner]) == Intern(EMPTY_NAMES, owner)
  {
    assert [owner][..0] == [];
  }

  lemma EarlyTables(owner: string, early: Info)
    requires owner != "" && early == Info(1, "", "", false, false, false, 0, [], [], [], [owner])
    requires Named(EMPTY, early) == EMPTY.(tokens := InternAll(EMPTY_NAMES, [owner]))
    ensures var t := UpdateIdentity(EMPTY, early, true).0.cur;
            t.nextIdentity == 1 && HasOwner(t, 1, owner)
  {
    OneOwner(owner);
    var n := Named(EMPTY, early);
    InsertOwnersEffect(Db(n, Some(EMPTY)), 1, [owner]);
    assert AclSpecs(early) == [];
    assert OwnerRows(n.tokens, 1, [owner]) == [OwnerRow(1, Some(1))];
    assert UpdateIdentity(EMPTY, early, true).0.cur == n.(owner := [] + [OwnerRow(1, Some(1))]);
  }

  /** An update of the identity 1, before there is one, leaves an owner row that
      the first real identity then inherits. */
  lemma StrayOwner(owner: string)
    requires owner != ""
    ensures var early := Info(1, "", "", false, false, false, 0, [], [], [], [owner]);
            var later := Info(0, "", "", false, false, false, 0, [], [], [], []);
            var t := UpdateIdentity(EMPTY, early, true).0.cur;
            var (db, id) := UpdateIdentity(t, later, true);
            id == 1 && !Shows(ReadIdentity(db.cur, id), later)
  {
    var early := Info(1, "", "", false, false, false, 0, [], [], [], [owner]);
    var later := Info(0, "", "", false, false, false, 0, [], [], [], []);
    EarlyUpdate(owner);
    var t := UpdateIdentity(EMPTY, early, true).0.cur;
    assert Orphaned(t, later, owner);
    RoundTrip(t, later);
  }
}
