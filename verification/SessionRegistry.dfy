/**
 The two global registries of session cores: stored identities by the name made
 of their id and method, and the rest in a list.
 */
module SessionRegistry {
  import opened Common
  import opened Lists

  // -------------------------------------------------------------- names

  function Digit(d: nat): char
    requires d < 10
  {
    "0123456789"[d]
  }

  /** QString::number. */
  function Number(n: nat): (s: string)
    ensures |s| >= 1 && (|s| == 1 <==> n < 10)
  {
    if n < 10 then [Digit(n)] else Number(n / 10) + [Digit(n % 10)]
  }

  function SessionName(id: nat, authMethod: string): string {
    Number(id) + "+" + authMethod
  }

  lemma {:induction false} NumberHasNoPlus(n: nat)
    ensures '+' !in Number(n)
  {
    if n >= 10 {
      NumberHasNoPlus(n / 10);
    }
  }

  lemma DigitInjective(a: nat, b: nat)
    requires a < 10 && b < 10 && Digit(a) == Digit(b)
    ensures a == b
  {
  }

  lemma {:induction false} NumberInjective(a: nat, b: nat)
    requires Number(a) == Number(b)
    ensures a == b
  {
    var n := |Number(a)| - 1;
    assert Number(a)[n] == Digit(a % 10) && Number(b)[n] == Digit(b % 10);
    DigitInjective(a % 10, b % 10);
    if a >= 10 {
      assert Number(a / 10) == Number(a)[..n] && Number(b / 10) == Number(b)[..n];
      NumberInjective(a / 10, b / 10);
    }
  }

  /** Different pairs of id and method have different names, whatever the method
      contains. */
  lemma SessionNameInjective(a: nat, m: string, b: nat, n: string)
    requires SessionName(a, m) == SessionName(b, n)
    ensures a == b && m == n
  {
    NumberHasNoPlus(a);
    NumberHasNoPlus(b);
    var s := SessionName(a, m);
    var i, j := |Number(a)|, |Number(b)|;
    assert s[i] == '+' && s[j] == '+';
    assert forall k :: 0 <= k < i ==> s[k] == Number(a)[k];
    assert forall k :: 0 <= k < j ==> s[k] == Number(b)[k];
    assert i == j;
    assert Number(a) == s[..i] && Number(b) == s[..j];
    assert m == s[i + 1..] && n == s[j + 1..];
    NumberInjective(a, b);
  }

  // --------------------------------------------------------- the registries

  /** What of a session core the registries depend on. Cores are known by number. */
  datatype Core = Core(id: nat, authMethod: string) {
    function Name(): string { SessionName(id, authMethod) }
  }

  /** A missing core in the list stands for the null pointer take() may yield. */
  datatype Registry = Registry(
    stored: map<string, nat>,
    nonStored: seq<Option<nat>>,
    cores: map<nat, Core>)            // the live cores

  const EMPTY := Registry(map[], [], map[])

  /** Every live core is registered exactly once, under its current id and method. */
  ghost predicate Valid(r: Registry) {
    && (forall c :: c in r.cores && r.cores[c].id != 0 ==>
          r.cores[c].Name() in r.stored && r.stored[r.cores[c].Name()] == c)
    && (forall name :: name in r.stored ==>
          r.stored[name] in r.cores && r.cores[r.stored[name]].id != 0 && r.cores[r.stored[name]].Name() == name)
    && NoDuplicates(r.nonStored)
    && (forall x :: x in r.nonStored <==> x.Some? && x.value in r.cores && r.cores[x.value].id == 0)
  }

  /** sessionCore(); fresh is the core a successful creation makes. */
  function FindOrCreate(r: Registry, id: nat, authMethod: string, fresh_: nat, pluginOk: bool)
    : (Registry, Option<nat>)
  {
    var key := SessionName(id, authMethod);
    if id != 0 && key in r.stored then (r, Some(r.stored[key]))
    else if !pluginOk then (r, None)
    else
      var created := r.(cores := r.cores[fresh_ := Core(id, authMethod)]);
      (if id != 0 then created.(stored := r.stored[key := fresh_])
       else created.(nonStored := r.nonStored + [Some(fresh_)]), Some(fresh_))
  }

  function SetId(r: Registry, c: nat, id: nat): Registry
    requires c in r.cores
  {
    var core := r.cores[c];
    var renamed := r.cores[c := core.(id := id)];
    if core.id == id then r
    else if id == 0 then
      Registry(r.stored - {core.Name()},
               r.nonStored + [if core.Name() in r.stored then Some(r.stored[core.Name()]) else None], renamed)
    else if SessionName(id, core.authMethod) in r.stored then r
    else Registry(r.stored[SessionName(id, core.authMethod) := c], RemoveOne(r.nonStored, Some(c)), renamed)
  }

  function Destroy(r: Registry, c: nat): Registry
    requires c in r.cores
  {
    var core := r.cores[c];
    if core.id != 0 then r.(stored := r.stored - {core.Name()}, cores := r.cores - {c})
    else r.(nonStored := RemoveOne(r.nonStored, Some(c)), cores := r.cores - {c})
  }

  /** The id moves between zero and non-zero, stays, or is refused as taken. */
  predicate Tame(r: Registry, c: nat, id: nat)
    requires c in r.cores
  {
    r.cores[c].id == id || r.cores[c].id == 0 || id == 0 || SessionName(id, r.cores[c].authMethod) in r.stored
  }

  lemma NamesDiffer(a: Core, b: Core)
    requires a != b
    ensures a.Name() != b.Name()
  {
    if a.Name() == b.Name() {
      SessionNameInjective(a.id, a.authMethod, b.id, b.authMethod);
    }
  }

  /** There are never two live cores of a stored identity and method. */
  lemma OneCoreEach(r: Registry, c: nat, d: nat)
    requires Valid(r) && c in r.cores && d in r.cores && r.cores[c] == r.cores[d] && r.cores[c].id != 0
    ensures c == d
  {
    assert r.stored[r.cores[c].Name()] == c;
  }

  /** Asking for a stored identity and method yields the live core that has them,
      and makes a new one only if there is none. Without a stored identity a new one
      is always made. */
  lemma FindsTheLiveCore(r: Registry, id: nat, authMethod: string, fresh_: nat, pluginOk: bool)
    requires Valid(r)
    ensures var (r', found) := FindOrCreate(r, id, authMethod, fresh_, pluginOk);
            if id != 0 && exists c :: c in r.cores && r.cores[c] == Core(id, authMethod)
            then r' == r && found.Some? && found.value in r.cores && r.cores[found.value] == Core(id, authMethod)
            else if !pluginOk then r' == r && found == None
            else
              && found == Some(fresh_) && r'.cores == r.cores[fresh_ := Core(id, authMethod)]
              && r'.stored == (if id == 0 then r.stored else r.stored[SessionName(id, authMethod) := fresh_])
              && r'.nonStored == (if id == 0 then r.nonStored + [Some(fresh_)] else r.nonStored)
  {
    var key := SessionName(id, authMethod);
    if id != 0 && key in r.stored {
      var core := r.cores[r.stored[key]];
      SessionNameInjective(id, authMethod, core.id, core.authMethod);
    }
  }

  lemma CreateKeepsValid(r: Registry, id: nat, authMethod: string, fresh_: nat, pluginOk: bool)
    requires Valid(r) && fresh_ !in r.cores
    ensures Valid(FindOrCreate(r, id, authMethod, fresh_, pluginOk).0)
  {
    var (r', found) := FindOrCreate(r, id, authMethod, fresh_, pluginOk);
    if r' != r {
      var core := Core(id, authMethod);
      forall c | c in r.cores && r.cores[c].id != 0 ensures id != 0 ==> r.cores[c].Name() != core.Name() {}
      if id == 0 {
        assert Some(fresh_) !in r.nonStored;
        assert forall x :: x in r'.nonStored <==> x in r.nonStored || x == Some(fresh_);
      }
    }
  }

  lemma LeaveStored(r: Registry, c: nat)
    requires Valid(r) && c in r.cores && r.cores[c].id != 0
    ensures Valid(SetId(r, c, 0))
  {
    var core, r' := r.cores[c], SetId(r, c, 0);
    assert core.Name() in r.stored && r.stored[core.Name()] == c;
    assert Some(c) !in r.nonStored;
    assert forall x :: x in r'.nonStored <==> x in r.nonStored || x == Some(c);
    forall d | d in r.cores && d != c && r.cores[d].id != 0 ensures r.cores[d].Name() != core.Name() {}
  }

  lemma EnterStored(r: Registry, c: nat, id: nat)
    requires Valid(r) && c in r.cores && r.cores[c].id == 0 && id != 0
    requires SessionName(id, r.cores[c].authMethod) !in r.stored
    ensures Valid(SetId(r, c, id))
  {
    RemoveOneMembers(r.nonStored, Some(c));
    var r' := SetId(r, c, id);
    forall x ensures x in r'.nonStored <==> x.Some? && x.value in r'.cores && r'.cores[x.value].id == 0 {}
    forall d | d in r'.cores && r'.cores[d].id != 0
      ensures r'.cores[d].Name() in r'.stored && r'.stored[r'.cores[d].Name()] == d
    {
      assert d != c ==> r.cores[d].Name() in r.stored;
    }
  }

  /** A name is taken exactly if there is a live core of that id and method. */
  lemma TakenExactly(r: Registry, id: nat, authMethod: string)
    requires Valid(r) && id != 0
    ensures SessionName(id, authMethod) in r.stored
       <==> exists d :: d in r.cores && r.cores[d] == Core(id, authMethod)
  {
    var key := SessionName(id, authMethod);
    if key in r.stored {
      var core := r.cores[r.stored[key]];
      SessionNameInjective(id, authMethod, core.id, core.authMethod);
    }
    if d :| d in r.cores && r.cores[d] == Core(id, authMethod) {
      assert r.cores[d].Name() == key;
    }
  }

  /** setId keeps the registries right, exactly when it is tame: moving a core
      from one stored identity straight to another leaves it registered twice. It
      takes effect exactly when the id is new to the core, and no other core has
      it. */
  lemma SetIdExactly(r: Registry, c: nat, id: nat)
    requires Valid(r) && c in r.cores
    ensures Valid(SetId(r, c, id)) <==> Tame(r, c, id)
    ensures SetId(r, c, id) != r ==> SetId(r, c, id).cores == r.cores[c := Core(id, r.cores[c].authMethod)]
    ensures SetId(r, c, id) != r <==>
            && r.cores[c].id != id
            && (id != 0 ==> !exists d :: d in r.cores && r.cores[d] == Core(id, r.cores[c].authMethod))
  {
    var core := r.cores[c];
    if id != 0 {
      TakenExactly(r, id, core.authMethod);
    }
    assert core.id != id ==> r.cores[c := core.(id := id)][c] != core;
    if Tame(r, c, id) {
      if core.id != id && id == 0 {
        LeaveStored(r, c);
      } else if core.id != id && SessionName(id, core.authMethod) !in r.stored {
        EnterStored(r, c, id);
      }
    } else {
      var r' := SetId(r, c, id);
      NamesDiffer(core, core.(id := id));
      assert core.Name() in r'.stored && r'.stored[core.Name()] == c;
    }
  }

  /** A core made for one id and moved to another: it stays registered under the old
      name too, and whoever asks for the old id gets it. */
  lemma MovedCoreAnswersToBoth(authMethod: string, a: nat, b: nat, core: nat, other: nat)
    requires a != 0 && b != 0 && a != b
    ensures var made := FindOrCreate(EMPTY, a, authMethod, core, true).0;
            var moved := SetId(made, core, b);
            && Valid(made) && !Tame(made, core, b) && !Valid(moved)
            && moved.cores[core].id == b
            && FindOrCreate(moved, a, authMethod, other, true) == (moved, Some(core))
  {
    CreateKeepsValid(EMPTY, a, authMethod, core, true);
    NamesDiffer(Core(a, authMethod), Core(b, authMethod));
    var made := FindOrCreate(EMPTY, a, authMethod, core, true).0;
    SetIdExactly(made, core, b);
  }

  /** A destroyed core is gone from the live ones and from its registry; every other
      core stays where it was. */
  lemma DestroyKeepsValid(r: Registry, c: nat)
    requires Valid(r) && c in r.cores
    ensures Valid(Destroy(r, c))
    ensures var r' := Destroy(r, c);
            && r'.cores == r.cores - {c}
            && r'.stored == (map name | name in r.stored && r.stored[name] != c :: r.stored[name])
            && (forall d :: Some(d) in r'.nonStored <==> Some(d) in r.nonStored && d != c)
  {
    var core := r.cores[c];
    RemoveOneMembers(r.nonStored, Some(c));
    if core.id != 0 {
      assert r.stored[core.Name()] == c;
      forall d | d in r.cores && d != c && r.cores[d].id != 0 ensures r.cores[d].Name() != core.Name() {}
      assert Some(c) !in r.nonStored;
    }
  }

  datatype Event =
    | Ask(id: nat, authMethod: string, fresh_: nat, pluginOk: bool)
    | ChangeId(core: nat, id: nat)
    | Collect(core: nat)
    | StopAll

  predicate Enabled(r: Registry, e: Event) {
    && (e.Ask? ==> e.fresh_ !in r.cores)
    && (e.ChangeId? ==> e.core in r.cores)
    && (e.Collect? ==> e.core in r.cores)
  }

  function Step(r: Registry, e: Event): Registry
    requires Enabled(r, e)
  {
    match e
    case Ask(id, authMethod, fresh_, pluginOk) => FindOrCreate(r, id, authMethod, fresh_, pluginOk).0
    case ChangeId(core, id) => SetId(r, core, id)
    case Collect(core) => Destroy(r, core)
    case StopAll => EMPTY
  }

  /** Stopping all sessions leaves no core and no registration. */
  lemma StopAllExactly(r: Registry)
    ensures var r' := Step(r, StopAll);
            r'.cores == map[] && r'.stored == map[] && r'.nonStored == []
  {
  }

  ghost predicate Behaviour(rs: seq<Registry>, es: seq<Event>) {
    && |rs| == |es| + 1 && rs[0] == EMPTY
    && forall i :: 0 <= i < |es| ==>
         Enabled(rs[i], es[i]) && (es[i].ChangeId? ==> Tame(rs[i], es[i].core, es[i].id))
         && rs[i + 1] == Step(rs[i], es[i])
  }

  /** In every run in which ids only move to and from zero, the registries agree
      with the live cores at every point. */
  lemma {:induction false} RunsKeepValid(rs: seq<Registry>, es: seq<Event>, i: nat)
    requires Behaviour(rs, es) && i <= |es|
    ensures Valid(rs[i])
  {
    if i > 0 {
      RunsKeepValid(rs, es, i - 1);
      var r, e := rs[i - 1], es[i - 1];
      match e
      case Ask(id, authMethod, fresh_, pluginOk) => CreateKeepsValid(r, id, authMethod, fresh_, pluginOk);
      case ChangeId(core, id) => SetIdExactly(r, core, id);
      case Collect(core) => DestroyKeepsValid(r, core);
      case StopAll =>
    }
  }

  class Registries {
    var stored: map<string, nat>
    var nonStored: seq<Option<nat>>
    var cores: map<nat, Core>

    ghost function View(): Registry
      reads this
    {
      Registry(stored, nonStored, cores)
    }

    constructor ()
      ensures View() == EMPTY && Valid(View())
    {
      stored, nonStored, cores := map[], [], map[];
    }

    method SessionCore(id: nat, authMethod: string, fresh_: nat, pluginOk: bool) returns (core: Option<nat>)
      requires Valid(View()) && fresh_ !in cores
      modifies this
      ensures Valid(View())
      ensures (View(), core) == FindOrCreate(old(View()), id, authMethod, fresh_, pluginOk)
    {
      CreateKeepsValid(View(), id, authMethod, fresh_, pluginOk);
      var key := SessionName(id, authMethod);
      if id != 0 {
        if key in stored {
          return Some(stored[key]);
        }
      }
      if !pluginOk { return None; }
      cores := cores[fresh_ := Core(id, authMethod)];
      if id != 0 {
        stored := stored[key := fresh_];
      } else {
        nonStored := nonStored + [Some(fresh_)];
      }
      return Some(fresh_);
    }

    method ChangeId(c: nat, id: nat)
      requires c in cores
      modifies this
      ensures View() == SetId(old(View()), c, id)
      ensures old(Valid(View())) ==> (Valid(View()) <==> old(Tame(View(), c, id)))
    {
      ghost var r := View();
      if Valid(r) { SetIdExactly(r, c, id); }
      var core := cores[c];
      if core.id == id { return; }
      if id == 0 {
        var key := core.Name();
        var taken := if key in stored then Some(stored[key]) else None;
        stored := stored - {key};
        nonStored := nonStored + [taken];
      } else {
        var key := SessionName(id, core.authMethod);
        if key in stored { return; }
        nonStored := RemoveOne(nonStored, Some(c));
        stored := stored[key := c];
      }
      cores := cores[c := core.(id := id)];
    }

    method DestroyCore(c: nat)
      requires Valid(View()) && c in cores
      modifies this
      ensures Valid(View()) && View() == Destroy(old(View()), c)
    {
      DestroyKeepsValid(View(), c);
      var core := cores[c];
      if core.id != 0 {
        stored := stored - {core.Name()};
      } else {
        nonStored := RemoveOne(nonStored, Some(c));
      }
      cores := cores - {c};
    }
  }
}
