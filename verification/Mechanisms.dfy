/**
 Which mechanism an authentication request may use: the identity's method map
 restricts it, and a request may list several mechanisms separated by spaces.
 */
module Mechanisms {

  type MethodMap = map<string, seq<string>>

  const SPACE := ' '

  /** QString::split with empty parts skipped; part is the part being read. */
  function SplitFrom(s: string, part: string): seq<string> {
    if s == "" then (if part == "" then [] else [part])
    else if s[0] == SPACE then (if part == "" then [] else [part]) + SplitFrom(s[1..], "")
    else SplitFrom(s[1..], part + [s[0]])
  }

  function Split(s: string): seq<string> { SplitFrom(s, "") }

  /** QStringList::join. */
  function Join(parts: seq<string>): string {
    if parts == [] then ""
    else if |parts| == 1 then parts[0]
    else parts[0] + [SPACE] + Join(parts[1..])
  }

  /** The parts that are allowed, in their order. */
  function Allowed(parts: seq<string>, mechs: seq<string>): seq<string> {
    if parts == [] then []
    else Allowed(parts[..|parts| - 1], mechs) + if parts[|parts| - 1] in mechs then [parts[|parts| - 1]] else []
  }

  ghost predicate Parts(parts: seq<string>) {
    forall i :: 0 <= i < |parts| ==> parts[i] != "" && SPACE !in parts[i]
  }

  lemma {:induction false} SplitFromParts(s: string, part: string)
    requires SPACE !in part
    ensures Parts(SplitFrom(s, part))
  {
    if s != "" {
      if s[0] == SPACE {
        SplitFromParts(s[1..], "");
      } else {
        SplitFromParts(s[1..], part + [s[0]]);
      }
    }
  }

  lemma {:induction false} SplitFromWord(word: string, rest: string, part: string)
    requires SPACE !in word
    ensures SplitFrom(word + rest, part) == SplitFrom(rest, part + word)
  {
    if word == "" {
      assert word + rest == rest && part + word == part;
    } else {
      assert (word + rest)[0] == word[0] && (word + rest)[1..] == word[1..] + rest;
      assert word[0] in word && forall c :: c in word[1..] ==> c in word;
      SplitFromWord(word[1..], rest, part + [word[0]]);
      assert part + [word[0]] + word[1..] == part + word;
    }
  }

  /** Splitting undoes joining, on parts that are non-empty and free of spaces. */
  lemma {:induction false} SplitJoin(parts: seq<string>)
    requires Parts(parts)
    ensures Split(Join(parts)) == parts
  {
    if parts == [] {
    } else if |parts| == 1 {
      SplitFromWord(parts[0], "", "");
      assert parts[0] + "" == parts[0] && "" + parts[0] == parts[0];
    } else {
      var rest := [SPACE] + Join(parts[1..]);
      assert Join(parts) == parts[0] + rest;
      SplitFromWord(parts[0], rest, "");
      assert "" + parts[0] == parts[0] && rest[1..] == Join(parts[1..]);
      SplitJoin(parts[1..]);
      assert parts == [parts[0]] + parts[1..];
    }
  }

  lemma {:induction false} AllowedMembers(parts: seq<string>, mechs: seq<string>)
    ensures forall m :: m in Allowed(parts, mechs) <==> m in parts && m in mechs
    ensures Parts(parts) ==> Parts(Allowed(parts, mechs))
  {
    if parts != [] {
      var n := |parts| - 1;
      AllowedMembers(parts[..n], mechs);
      assert parts == parts[..n] + [parts[n]];
    }
  }

  lemma {:induction false} AllowedAll(parts: seq<string>, mechs: seq<string>)
    requires forall m :: m in parts ==> m in mechs
    ensures Allowed(parts, mechs) == parts
  {
    if parts != [] {
      var n := |parts| - 1;
      assert parts == parts[..n] + [parts[n]];
      AllowedAll(parts[..n], mechs);
    }
  }

  /** checkMethodAndMechanism: whether the request passes, and what becomes of the
      out parameter, which comes in as given. */
  function Check(methods: MethodMap, authMethod: string, mechanism: string, given: string): (bool, string) {
    if methods == map[] then (true, given)
    else if authMethod !in methods then (false, given)
    else
      var mechs := methods[authMethod];
      if mechs == [] then (true, given)
      else if mechanism in mechs then (true, mechanism)
      else
        var parts := Split(mechanism);
        var kept := Allowed(parts, mechs);
        if |parts| <= 1 || kept == [] then (false, given) else (true, Join(kept))
  }

  /** The identity restricts the mechanisms of this method. */
  predicate Restricted(methods: MethodMap, authMethod: string) {
    authMethod in methods && methods[authMethod] != []
  }

  /** With restrictions in force a request passes exactly when its mechanism is
      allowed as a whole, or is a list of two or more of which one is allowed. */
  lemma PassesExactly(methods: MethodMap, authMethod: string, mechanism: string)
    requires Restricted(methods, authMethod)
    ensures Check(methods, authMethod, mechanism, mechanism).0 <==>
            || mechanism in methods[authMethod]
            || (|Split(mechanism)| >= 2 && exists m :: m in Split(mechanism) && m in methods[authMethod])
  {
    AllowedMembers(Split(mechanism), methods[authMethod]);
    var kept := Allowed(Split(mechanism), methods[authMethod]);
    if m :| m in Split(mechanism) && m in methods[authMethod] {
      assert m in kept;
    }
    if kept != [] {
      assert kept[0] in kept;
    }
  }

  /** For every method map: a request passes exactly when the identity has no methods at
      all, or it has this one, and the mechanism is not restricted or passes as above.
      It comes back as it was unless part of a list was taken out. */
  lemma CheckExactly(methods: MethodMap, authMethod: string, mechanism: string)
    ensures var (passes, out) := Check(methods, authMethod, mechanism, mechanism);
            && (passes <==>
                  || methods == map[]
                  || (authMethod in methods
                      && (|| methods[authMethod] == []
                          || mechanism in methods[authMethod]
                          || (|Split(mechanism)| >= 2 && exists m :: m in Split(mechanism) && m in methods[authMethod]))))
            && (!passes || !Restricted(methods, authMethod) || mechanism in methods[authMethod] ==> out == mechanism)
  {
    if methods != map[] && Restricted(methods, authMethod) {
      PassesExactly(methods, authMethod, mechanism);
    }
  }

  /** What passes is the mechanism itself, allowed as a whole, or the allowed ones
      of the listed mechanisms, joined again: nothing that is not allowed. */
  lemma PassesOnlyAllowed(methods: MethodMap, authMethod: string, mechanism: string)
    requires Restricted(methods, authMethod) && Check(methods, authMethod, mechanism, mechanism).0
    ensures var out := Check(methods, authMethod, mechanism, mechanism).1;
            || (out == mechanism && out in methods[authMethod])
            || (Split(out) == Allowed(Split(mechanism), methods[authMethod]) != []
                && forall m :: m in Split(out) ==> m in methods[authMethod] && m in Split(mechanism))
  {
    SplitFromParts(mechanism, "");
    AllowedMembers(Split(mechanism), methods[authMethod]);
    SplitJoin(Allowed(Split(mechanism), methods[authMethod]));
  }

  /** Checking what passed lets it pass unchanged. */
  lemma CheckIsIdempotent(methods: MethodMap, authMethod: string, mechanism: string)
    requires Restricted(methods, authMethod) && Check(methods, authMethod, mechanism, mechanism).0
    ensures var out := Check(methods, authMethod, mechanism, mechanism).1;
            Check(methods, authMethod, out, out) == (true, out)
  {
    var mechs := methods[authMethod];
    var kept := Allowed(Split(mechanism), mechs);
    if mechanism !in mechs {
      SplitFromParts(mechanism, "");
      AllowedMembers(Split(mechanism), mechs);
      SplitJoin(kept);
      AllowedAll(kept, mechs);
      if |kept| == 1 {
        assert kept[0] in kept;
      }
    }
  }

  /** A single mechanism with a space around it is turned away although it is
      allowed: one part is taken to have been checked already. */
  lemma PaddedMechanismIsRejected(authMethod: string)
    ensures var methods: MethodMap := map[authMethod := ["PLAIN"]];
            Split(" PLAIN") == ["PLAIN"] && !Check(methods, authMethod, " PLAIN", " PLAIN").0
  {
    SplitFromWord("PLAIN", "", "");
    assert "PLAIN" + "" == "PLAIN" && "" + "PLAIN" == "PLAIN";
    assert " PLAIN"[1..] == "PLAIN";
    assert Split(" PLAIN") == [] + SplitFrom("PLAIN", "");
    assert |" PLAIN"| != |"PLAIN"|;
    var methods: MethodMap := map[authMethod := ["PLAIN"]];
    assert authMethod in methods && methods[authMethod] == ["PLAIN"];
  }

  class IdentityInfo {
    var methods: MethodMap

    constructor (methods: MethodMap)
      ensures this.methods == methods
    {
      this.methods := methods;
    }

    method CheckMethodAndMechanism(authMethod: string, mechanism: string, given: string)
      returns (ok: bool, allowedMechanism: string)
      ensures (ok, allowedMechanism) == Check(methods, authMethod, mechanism, given)
    {
      allowedMechanism := given;
      if methods == map[] { return true, given; }
      if authMethod !in methods { return false, given; }
      var mechs := methods[authMethod];
      if mechs == [] { return true, given; }
      if mechanism in mechs { return true, mechanism; }
      var mechanisms := Split(mechanism);
      if |mechanisms| <= 1 { return false, given; }
      var allowedMechanisms: seq<string> := [];
      for i := 0 to |mechanisms|
        invariant allowedMechanisms == Allowed(mechanisms[..i], mechs)
      {
        assert mechanisms[..i + 1][..i] == mechanisms[..i];
        if mechanisms[i] in mechs {
          allowedMechanisms := allowedMechanisms + [mechanisms[i]];
        }
      }
      assert mechanisms[..|mechanisms|] == mechanisms;
      if allowedMechanisms == [] { return false, given; }
      return true, Join(allowedMechanisms);
    }
  }
}
