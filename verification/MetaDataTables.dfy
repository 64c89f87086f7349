/**
 The tables of the metadata database and the statements run on them: interned
 names, the rows that refer to them by id, and the triggers that stand in for
 foreign keys. An identity's method map and access control list are stored as
 rows of one table with nullable columns, and read back with joins.
 */
module MetaDataTables {
  import opened Common

  const VALIDATED := 1
  const REMEMBER_PASSWORD := 2
  const USERNAME_IS_SECRET := 4

  /** A table (id INTEGER PRIMARY KEY AUTOINCREMENT, name TEXT UNIQUE). */
  datatype Interned = Interned(ids: map<string, nat>, next: nat)

  datatype CredentialsRow = CredentialsRow(caption: string, username: string, flags: nat, kind: int)

  datatype AclRow = AclRow(identity: nat, authMethod: Option<nat>, mechanism: Option<nat>, token: Option<nat>)

  datatype RealmRow = RealmRow(identity: nat, realm: string)

  datatype OwnerRow = OwnerRow(identity: nat, token: Option<nat>)

  datatype RefRow = RefRow(identity: nat, token: Option<nat>, reference: string)

  datatype Tables = Tables(
    credentials: map<nat, CredentialsRow>,
    nextIdentity: nat,
    methods: Interned,
    mechanisms: Interned,
    tokens: Interned,
    realms: seq<RealmRow>,
    acl: seq<AclRow>,
    owner: seq<OwnerRow>,
    refs: set<RefRow>
  )

  /** The database: its current tables and, inside a transaction, the tables to
      go back to. */
  datatype Db = Db(cur: Tables, saved: Option<Tables>)

  const EMPTY_NAMES := Interned(map[], 1)
  const EMPTY := Tables(map[], 1, EMPTY_NAMES, EMPTY_NAMES, EMPTY_NAMES, [], [], [], {})

  /** One entry of the method map: the method and its mechanisms. */
  datatype MethodEntry = MethodEntry(name: string, mechanisms: seq<string>)

  /** What the client hands in. Id 0 means a new identity. */
  datatype Info = Info(
    id: nat,
    caption: string,
    username: string,
    usernameIsSecret: bool,
    storePassword: bool,
    validated: bool,
    kind: int,
    methods: seq<MethodEntry>,
    realms: seq<string>,
    acl: seq<string>,
    owners: seq<string>
  ) {
    predicate IsNew() { id == 0 }

    /** The entries come from a map: no method occurs twice. */
    ghost predicate IsMap() {
      forall i, j :: 0 <= i < j < |methods| ==> methods[i].name != methods[j].name
    }
  }

  // --------------------------------------------------------- interned names

  function Lookup(t: Interned, name: string): Option<nat> {
    if name in t.ids then Some(t.ids[name]) else None
  }

  /** INSERT OR IGNORE INTO t (name). */
  function Intern(t: Interned, name: string): Interned {
    if name in t.ids then t else Interned(t.ids[name := t.next], t.next + 1)
  }

  function InternAll(t: Interned, names: seq<string>): Interned {
    if names == [] then t else Intern(InternAll(t, names[..|names| - 1]), names[|names| - 1])
  }

  /** Ids are unique and below the counter. */
  ghost predicate ValidNames(t: Interned) {
    && 1 <= t.next
    && (forall a :: a in t.ids ==> 1 <= t.ids[a] < t.next)
    && (forall a, b :: a in t.ids && b in t.ids && t.ids[a] == t.ids[b] ==> a == b)
  }

  predicate Resolves(t: Interned, id: Option<nat>) {
    id.Some? ==> exists name :: name in t.ids && t.ids[name] == id.value
  }

  /** The larger table keeps every id, and its new ids were free. */
  ghost predicate Extends(t: Interned, t': Interned) {
    && ValidNames(t')
    && (forall a :: a in t.ids ==> a in t'.ids && t'.ids[a] == t.ids[a])
    && (forall a :: a in t'.ids && a !in t.ids ==> t'.ids[a] >= t.next)
    && t.next <= t'.next
  }

  lemma {:induction false} InternAllExtends(t: Interned, names: seq<string>)
    requires ValidNames(t)
    ensures Extends(t, InternAll(t, names))
    ensures forall i :: 0 <= i < |names| ==> names[i] in InternAll(t, names).ids
    ensures forall a :: a in InternAll(t, names).ids ==> a in t.ids || a in names
  {
    if names != [] {
      InternAllExtends(t, names[..|names| - 1]);
      assert names == names[..|names| - 1] + [names[|names| - 1]];
    }
  }

  // -------------------------------------------------------------- statements

  function Begin(db: Db): Db { db.(saved := Some(db.cur)) }

  /** Rolling back; without a transaction there is nothing to go back to. */
  function Rollback(db: Db): Db {
    if db.saved.Some? then Db(db.saved.value, None) else db
  }

  predicate AclAllowed(t: Tables, row: AclRow) {
    && row.identity in t.credentials
    && Resolves(t.methods, row.authMethod)
    && Resolves(t.mechanisms, row.mechanism)
    && Resolves(t.tokens, row.token)
  }

  /** A trigger that raises ROLLBACK undoes the whole transaction. */
  function InsertAclRow(db: Db, row: AclRow): Db {
    if AclAllowed(db.cur, row) then db.(cur := db.cur.(acl := db.cur.acl + [row])) else Rollback(db)
  }

  function InsertOwnerRow(db: Db, row: OwnerRow): Db {
    if Resolves(db.cur.tokens, row.token) then db.(cur := db.cur.(owner := db.cur.owner + [row]))
    else Rollback(db)
  }

  /** An access control row by name, before its subselects are evaluated. */
  datatype AclSpec = AclSpec(authMethod: Option<string>, mechanism: Option<string>, token: Option<string>)

  function LookupOption(t: Interned, name: Option<string>): Option<nat> {
    if name.Some? then Lookup(t, name.value) else None
  }

  function Resolve(t: Tables, id: nat, spec: AclSpec): AclRow {
    AclRow(id, LookupOption(t.methods, spec.authMethod), LookupOption(t.mechanisms, spec.mechanism),
           LookupOption(t.tokens, spec.token))
  }

  function InsertSpec(db: Db, id: nat, spec: AclSpec): Db {
    InsertAclRow(db, Resolve(db.cur, id, spec))
  }

  function InsertSpecs(db: Db, id: nat, specs: seq<AclSpec>): Db {
    if specs == [] then db
    else InsertSpec(InsertSpecs(db, id, specs[..|specs| - 1]), id, specs[|specs| - 1])
  }

  // ------------------------------------------------- rows for an identity

  function SomeAll(names: seq<string>): seq<Option<string>> {
    seq(|names|, i requires 0 <= i < |names| => Some(names[i]))
  }

  /** The list, or a single NULL in place of an empty one. */
  function OrNull(names: seq<string>): seq<Option<string>> {
    if names == [] then [None] else SomeAll(names)
  }

  function MechanismSpecs(authMethod: string, mechanisms: seq<Option<string>>, token: Option<string>)
    : seq<AclSpec>
  {
    seq(|mechanisms|, i requires 0 <= i < |mechanisms| => AclSpec(Some(authMethod), mechanisms[i], token))
  }

  function TokenSpecs(entry: MethodEntry, tokens: seq<Option<string>>): seq<AclSpec> {
    if tokens == [] then []
    else
      TokenSpecs(entry, tokens[..|tokens| - 1]) +
      MechanismSpecs(entry.name, OrNull(entry.mechanisms), tokens[|tokens| - 1])
  }

  function MethodSpecs(entries: seq<MethodEntry>, tokens: seq<Option<string>>): seq<AclSpec> {
    if entries == [] then []
    else MethodSpecs(entries[..|entries| - 1], tokens) + TokenSpecs(entries[|entries| - 1], tokens)
  }

  function BareSpecs(tokens: seq<string>): seq<AclSpec> {
    seq(|tokens|, i requires 0 <= i < |tokens| => AclSpec(None, None, Some(tokens[i])))
  }

  /** Every row updateIdentity inserts into ACL, in order. */
  function AclSpecs(info: Info): seq<AclSpec> {
    MethodSpecs(info.methods, OrNull(info.acl)) + if info.methods == [] then BareSpecs(info.acl) else []
  }

  predicate Within(name: Option<string>, names: seq<string>) {
    if names == [] then name.None? else name.Some? && name.value in names
  }

  lemma OrNullMembers(names: seq<string>, name: Option<string>)
    ensures name in OrNull(names) <==> Within(name, names)
  {
    if names != [] && name.Some? && name.value in names {
      var i :| 0 <= i < |names| && names[i] == name.value;
      assert OrNull(names)[i] == name;
    }
  }

  lemma MechanismSpecsMembers(authMethod: string, mechanisms: seq<Option<string>>, token: Option<string>, s: AclSpec)
    ensures s in MechanismSpecs(authMethod, mechanisms, token)
       <==> s.authMethod == Some(authMethod) && s.token == token && s.mechanism in mechanisms
  {
    if s.authMethod == Some(authMethod) && s.token == token && s.mechanism in mechanisms {
      var i :| 0 <= i < |mechanisms| && mechanisms[i] == s.mechanism;
      assert MechanismSpecs(authMethod, mechanisms, token)[i] == s;
    }
  }

  lemma {:induction false} TokenSpecsMembers(entry: MethodEntry, tokens: seq<Option<string>>, s: AclSpec)
    ensures s in TokenSpecs(entry, tokens)
       <==> s.authMethod == Some(entry.name) && s.token in tokens && s.mechanism in OrNull(entry.mechanisms)
  {
    if tokens != [] {
      var n := |tokens| - 1;
      TokenSpecsMembers(entry, tokens[..n], s);
      MechanismSpecsMembers(entry.name, OrNull(entry.mechanisms), tokens[n], s);
      assert tokens == tokens[..n] + [tokens[n]];
    }
  }

  /** The row is one of this entry's. */
  predicate RowOf(e: MethodEntry, tokens: seq<Option<string>>, s: AclSpec) {
    s.authMethod == Some(e.name) && s.token in tokens && s.mechanism in OrNull(e.mechanisms)
  }

  lemma {:induction false} MethodSpecsMembers(entries: seq<MethodEntry>, tokens: seq<Option<string>>, s: AclSpec)
    ensures s in MethodSpecs(entries, tokens) <==> exists e :: e in entries && RowOf(e, tokens, s)
  {
    if entries != [] {
      var n := |entries| - 1;
      MethodSpecsMembers(entries[..n], tokens, s);
      TokenSpecsMembers(entries[n], tokens, s);
      assert entries == entries[..n] + [entries[n]];
      assert s in TokenSpecs(entries[n], tokens) <==> RowOf(entries[n], tokens, s);
    }
  }

  lemma AclSpecsMembers(info: Info, s: AclSpec)
    ensures s in AclSpecs(info) <==>
            || (exists e :: e in info.methods && s.authMethod == Some(e.name) && Within(s.token, info.acl)
                            && Within(s.mechanism, e.mechanisms))
            || (info.methods == [] && s.authMethod.None? && s.mechanism.None? && s.token.Some?
                && s.token.value in info.acl)
  {
    MethodSpecsMembers(info.methods, OrNull(info.acl), s);
    OrNullMembers(info.acl, s.token);
    forall e | e in info.methods
      ensures RowOf(e, OrNull(info.acl), s) <==>
              s.authMethod == Some(e.name) && Within(s.token, info.acl) && Within(s.mechanism, e.mechanisms)
    {
      OrNullMembers(e.mechanisms, s.mechanism);
    }
    if s.authMethod.None? && s.mechanism.None? && s.token.Some? && s.token.value in info.acl {
      var i :| 0 <= i < |info.acl| && info.acl[i] == s.token.value;
      assert BareSpecs(info.acl)[i] == s;
    }
  }

  // --------------------------------------------------------- updateIdentity

  function Flags(info: Info): nat {
    (if info.validated then VALIDATED else 0) +
    (if info.storePassword then REMEMBER_PASSWORD else 0) +
    (if info.usernameIsSecret then USERNAME_IS_SECRET else 0)
  }

  /** flags & bit, for a bit that is a power of two. */
  predicate HasFlag(flags: nat, bit: nat)
    requires bit > 0
  {
    flags / bit % 2 == 1
  }

  function RowFor(info: Info): CredentialsRow {
    CredentialsRow(info.caption, if info.usernameIsSecret then "" else info.username, Flags(info), info.kind)
  }

  /** The identity the update is about: the next free id, or the given one. */
  function TargetId(t: Tables, info: Info): nat {
    if info.IsNew() then t.nextIdentity else info.id
  }

  /** INSERT for a new identity, UPDATE otherwise; an UPDATE of an id that is not
      there changes nothing and reports no error. */
  function UpdateCredentials(t: Tables, info: Info): Tables {
    if info.IsNew() then
      t.(credentials := t.credentials[t.nextIdentity := RowFor(info)], nextIdentity := t.nextIdentity + 1)
    else if info.id in t.credentials then t.(credentials := t.credentials[info.id := RowFor(info)])
    else t
  }

  function InsertMethods(t: Tables, entries: seq<MethodEntry>): Tables {
    if entries == [] then t
    else
      var before := InsertMethods(t, entries[..|entries| - 1]);
      var entry := entries[|entries| - 1];
      before.(methods := Intern(before.methods, entry.name),
              mechanisms := InternAll(before.mechanisms, entry.mechanisms))
  }

  function WithoutRealms(rows: seq<RealmRow>, id: nat): seq<RealmRow> {
    if rows == [] then []
    else WithoutRealms(rows[..|rows| - 1], id) + if rows[|rows| - 1].identity == id then [] else [rows[|rows| - 1]]
  }

  function WithoutAcl(rows: seq<AclRow>, id: nat): seq<AclRow> {
    if rows == [] then []
    else WithoutAcl(rows[..|rows| - 1], id) + if rows[|rows| - 1].identity == id then [] else [rows[|rows| - 1]]
  }

  function WithoutOwner(rows: seq<OwnerRow>, id: nat): seq<OwnerRow> {
    if rows == [] then []
    else WithoutOwner(rows[..|rows| - 1], id) + if rows[|rows| - 1].identity == id then [] else [rows[|rows| - 1]]
  }

  lemma {:induction false} WithoutRealmsMembers(rows: seq<RealmRow>, id: nat, r: RealmRow)
    ensures r in WithoutRealms(rows, id) <==> r in rows && r.identity != id
  {
    if rows != [] {
      WithoutRealmsMembers(rows[..|rows| - 1], id, r);
      assert rows == rows[..|rows| - 1] + [rows[|rows| - 1]];
    }
  }

  lemma {:induction false} WithoutAclMembers(rows: seq<AclRow>, id: nat, r: AclRow)
    ensures r in WithoutAcl(rows, id) <==> r in rows && r.identity != id
  {
    if rows != [] {
      WithoutAclMembers(rows[..|rows| - 1], id, r);
      assert rows == rows[..|rows| - 1] + [rows[|rows| - 1]];
    }
  }

  lemma {:induction false} WithoutOwnerMembers(rows: seq<OwnerRow>, id: nat, r: OwnerRow)
    ensures r in WithoutOwner(rows, id) <==> r in rows && r.identity != id
  {
    if rows != [] {
      WithoutOwnerMembers(rows[..|rows| - 1], id, r);
      assert rows == rows[..|rows| - 1] + [rows[|rows| - 1]];
    }
  }

  function RealmRows(id: nat, realms: seq<string>): seq<RealmRow> {
    seq(|realms|, i requires 0 <= i < |realms| => RealmRow(id, realms[i]))
  }

  /** The realm rows of the identity, replaced. None of them goes in when the
      identity is not there: the first insert raises ROLLBACK. */
  function UpdateRealms(db: Db, id: nat, realms: seq<string>, isNew: bool): (Db, bool) {
    var kept := if isNew then db.cur.realms else WithoutRealms(db.cur.realms, id);
    var cleared := db.(cur := db.cur.(realms := kept));
    if realms == [] then (cleared, true)
    else if id !in db.cur.credentials then (Rollback(cleared), false)
    else (cleared.(cur := cleared.cur.(realms := kept + RealmRows(id, realms))), true)
  }

  function NonEmpty(names: seq<string>): seq<string> {
    if names == [] then []
    else NonEmpty(names[..|names| - 1]) + if names[|names| - 1] == "" then [] else [names[|names| - 1]]
  }

  function InsertOwners(db: Db, id: nat, owners: seq<string>): Db {
    if owners == [] then db
    else
      var before := InsertOwners(db, id, owners[..|owners| - 1]);
      InsertOwnerRow(before, OwnerRow(id, Lookup(before.cur.tokens, owners[|owners| - 1])))
  }

  /** The statements of one update between BEGIN and COMMIT; false when they
      stopped early. */
  function UpdateStatements(db: Db, info: Info): (Db, bool) {
    var id := TargetId(db.cur, info);
    var named := InsertMethods(UpdateCredentials(db.cur, info), info.methods);
    var (withRealms, ok) := UpdateRealms(db.(cur := named), id, info.realms, info.IsNew());
    if !ok then (withRealms, false)
    else
      var t := withRealms.cur;
      var tokens := InternAll(InternAll(t.tokens, info.acl), NonEmpty(info.owners));
      var cleared := if info.IsNew() then t.(tokens := tokens)
                     else t.(tokens := tokens, acl := WithoutAcl(t.acl, id), owner := WithoutOwner(t.owner, id));
      var listed := InsertSpecs(withRealms.(cur := cleared), id, AclSpecs(info));
      (InsertOwners(listed, id, NonEmpty(info.owners)), true)
  }

  /** COMMIT fails outside a transaction; commitOk stands for the driver. */
  function Finish(db: Db, result: nat, commitOk: bool): (Db, nat) {
    if db.saved.Some? && commitOk then (db.(saved := None), result) else (Rollback(db), 0)
  }

  function UpdateIdentity(t: Tables, info: Info, commitOk: bool): (Db, nat) {
    var (db, ok) := UpdateStatements(Begin(Db(t, None)), info);
    if ok then Finish(db, TargetId(t, info), commitOk) else (Rollback(db), 0)
  }

  // ------------------------------------------------------- reading identities

  datatype Identity =
    | NoIdentity
    | Identity(caption: string, username: string, usernameIsSecret: bool, storePassword: bool,
               validated: bool, kind: int, methods: map<string, set<string>>,
               realms: set<string>, acl: set<string>, owners: set<string>)

  predicate HasMethod(t: Tables, id: nat, name: string) {
    name in t.methods.ids && exists r :: r in t.acl && r.identity == id && r.authMethod == Some(t.methods.ids[name])
  }

  predicate HasMechanism(t: Tables, id: nat, name: string, mechanism: string)
    requires name in t.methods.ids
  {
    && mechanism in t.mechanisms.ids
    && exists r :: r in t.acl && r.identity == id && r.authMethod == Some(t.methods.ids[name])
                   && r.mechanism == Some(t.mechanisms.ids[mechanism])
  }

  predicate HasToken(t: Tables, id: nat, token: string) {
    token in t.tokens.ids && exists r :: r in t.acl && r.identity == id && r.token == Some(t.tokens.ids[token])
  }

  predicate HasOwner(t: Tables, id: nat, token: string) {
    token in t.tokens.ids && OwnerRow(id, Some(t.tokens.ids[token])) in t.owner
  }

  function MechanismsOf(t: Tables, id: nat, name: string): set<string>
    requires name in t.methods.ids
  {
    set h | h in t.mechanisms.ids && HasMechanism(t, id, name, h)
  }

  function MethodsOf(t: Tables, id: nat): map<string, set<string>> {
    map m | m in t.methods.ids && HasMethod(t, id, m) :: MechanismsOf(t, id, m)
  }

  function RealmsOf(t: Tables, id: nat): set<string> {
    set r | r in t.realms && r.identity == id :: r.realm
  }

  function TokensOf(t: Tables, id: nat): set<string> {
    set k | k in t.tokens.ids && HasToken(t, id, k)
  }

  function OwnersOf(t: Tables, id: nat): set<string> {
    set k | k in t.tokens.ids && HasOwner(t, id, k)
  }

  /** The joins of identity(id). */
  function ReadIdentity(t: Tables, id: nat): Identity {
    if id !in t.credentials then NoIdentity
    else
      var row := t.credentials[id];
      var secret := HasFlag(row.flags, USERNAME_IS_SECRET);
      Identity(row.caption, if secret then "" else row.username, secret,
               HasFlag(row.flags, REMEMBER_PASSWORD), HasFlag(row.flags, VALIDATED), row.kind,
               MethodsOf(t, id), RealmsOf(t, id), TokensOf(t, id), OwnersOf(t, id))
  }

  /** The identity read back is the one handed in: mechanisms as sets, empty owner
      tokens left out, the username blank when it is secret. */
  ghost predicate Shows(identity: Identity, info: Info) {
    && identity.Identity?
    && identity.caption == info.caption
    && identity.username == (if info.usernameIsSecret then "" else info.username)
    && identity.usernameIsSecret == info.usernameIsSecret
    && identity.storePassword == info.storePassword
    && identity.validated == info.validated
    && identity.kind == info.kind
    && identity.methods.Keys == (set e | e in info.methods :: e.name)
    && (forall e :: e in info.methods ==>
          e.name in identity.methods && identity.methods[e.name] == set m | m in e.mechanisms)
    && identity.realms == (set r | r in info.realms)
    && identity.acl == (set k | k in info.acl)
    && identity.owners == (set k | k in info.owners && k != "")
  }

  // ---------------------------------------------------------- other operations

  /** DELETE FROM CREDENTIALS WHERE id, with the cascading triggers, then the
      explicit deletes; REFS is only reached by the trigger. */
  function RemoveStatements(t: Tables, id: nat): Tables {
    var cascaded :=
      if id in t.credentials then
        t.(credentials := t.credentials - {id}, realms := WithoutRealms(t.realms, id),
           acl := WithoutAcl(t.acl, id), refs := set r | r in t.refs && r.identity != id)
      else t;
    cascaded.(acl := WithoutAcl(cascaded.acl, id), realms := WithoutRealms(cascaded.realms, id),
              owner := WithoutOwner(cascaded.owner, id))
  }

  function RemoveIdentity(t: Tables, id: nat, ok: bool): Tables {
    if ok then RemoveStatements(t, id) else t
  }

  /** The seven deletes of clear(). REFS rows go with the identities and tokens
      they belong to; the name counters stay. */
  function ClearStatements(t: Tables): Tables {
    var orphans := set r | r in t.refs && r.identity !in t.credentials;
    var left := set r | r in orphans && !(r.token.Some? && Resolves(t.tokens, r.token));
    t.(credentials := map[], methods := t.methods.(ids := map[]), mechanisms := t.mechanisms.(ids := map[]),
       tokens := t.tokens.(ids := map[]), acl := [], realms := [], owner := [], refs := left)
  }

  function Clear(t: Tables, ok: bool): Tables {
    if ok then ClearStatements(t) else t
  }

  function AddReference(t: Tables, id: nat, token: string, reference: string, commitOk: bool): (Tables, bool) {
    var tokens := Intern(t.tokens, token);
    if id !in t.credentials || !commitOk then (t, false)
    else (t.(tokens := tokens, refs := t.refs + {RefRow(id, Lookup(tokens, token), reference)}), true)
  }

  /** The references listed for a token, or for all of them when it is empty. */
  function References(t: Tables, id: nat, token: string): set<string> {
    set r | r in t.refs && r.identity == id
            && (token == "" || (r.token.Some? && r.token == Lookup(t.tokens, token))) :: r.reference
  }

  /** A null reference stands for all of them; so does an empty one, in the delete. */
  function RemoveReference(t: Tables, id: nat, token: string, reference: Option<string>, commitOk: bool)
    : (Tables, bool)
  {
    var listed := References(t, id, token);
    if listed == {} || (reference.Some? && reference.value !in listed) || !commitOk then (t, false)
    else
      (t.(refs := set r | r in t.refs
          && !(r.identity == id && r.token.Some? && r.token == Lookup(t.tokens, token)
               && (reference.None? || reference.value == "" || r.reference == reference.value))), true)
  }

  /** INSERT INTO METHODS fails on a name that is there. */
  function InsertMethod(t: Tables, name: string): Tables {
    if name in t.methods.ids then t else t.(methods := Intern(t.methods, name))
  }

  datatype Op =
    | Update(info: Info, commitOk: bool)
    | Remove(id: nat, ok: bool)
    | Reference(id: nat, token: string, reference: string, commitOk: bool)
    | Unreference(id: nat, token: string, which: Option<string>, commitOk: bool)
    | NewMethod(name: string)
    | ClearAll(ok: bool)

  function Apply(t: Tables, op: Op): Tables {
    match op
    case Update(info, commitOk) => UpdateIdentity(t, info, commitOk).0.cur
    case Remove(id, ok) => RemoveIdentity(t, id, ok)
    case Reference(id, token, reference, commitOk) => AddReference(t, id, token, reference, commitOk).0
    case Unreference(id, token, which, commitOk) => RemoveReference(t, id, token, which, commitOk).0
    case NewMethod(name) => InsertMethod(t, name)
    case ClearAll(ok) => Clear(t, ok)
  }

  function Run(ops: seq<Op>): Tables {
    if ops == [] then EMPTY else Apply(Run(ops[..|ops| - 1]), ops[|ops| - 1])
  }
}
