/** Construction of JSON patches (server/apiclient/model.py) and their meaning (section 2 of RFC 7396). */
module Patch {
  import opened Wrappers

  datatype Json =
    | Null
    | Bool(bit: bool)
    | Num(number: real)
    | Str(text: string)
    | Arr(items: seq<Json>)
    | Obj(members: map<string, Json>)

  /** Python's == on deserialised JSON: True equals 1 and False equals 0. */
  predicate PyEq(a: Json, b: Json)
    decreases a
  {
    match a
    case Null => b.Null?
    case Bool(_) | Num(_) => (b.Bool? || b.Num?) && AsNumber(a) == AsNumber(b)
    case Str(text) => b.Str? && b.text == text
    case Arr(items) => b.Arr? && |b.items| == |items| && forall i :: 0 <= i < |items| ==> PyEq(items[i], b.items[i])
    case Obj(members) =>
      b.Obj? && b.members.Keys == members.Keys && forall k :: k in members && k in b.members ==> PyEq(members[k], b.members[k])
  }

  function AsNumber(a: Json): real
    requires a.Bool? || a.Num?
  {
    if a.Num? then a.number else if a.bit then 1.0 else 0.0
  }

  lemma {:induction false} PyEqReflexive(a: Json)
    ensures PyEq(a, a)
  {
    if a.Arr? {
      forall i | 0 <= i < |a.items| ensures PyEq(a.items[i], a.items[i]) { PyEqReflexive(a.items[i]); }
    } else if a.Obj? {
      forall k | k in a.members ensures PyEq(a.members[k], a.members[k]) { PyEqReflexive(a.members[k]); }
    }
  }

  /** The tree with every boolean replaced by the number that Python takes it for. */
  function Norm(a: Json): Json {
    match a
    case Bool(bit) => Num(if bit then 1.0 else 0.0)
    case Arr(items) => Arr(seq(|items|, i requires 0 <= i < |items| => Norm(items[i])))
    case Obj(members) => Obj(map k | k in members :: Norm(members[k]))
    case _ => a
  }

  /** Two trees are equal to Python exactly if they differ in nothing but booleans standing for 1 and 0. */
  lemma {:induction false} PyEqExactly(a: Json, b: Json)
    ensures PyEq(a, b) <==> Norm(a) == Norm(b)
    decreases a
  {
    match a
    case Arr(items) =>
      if b.Arr? && |b.items| == |items| {
        forall i | 0 <= i < |items| ensures PyEq(items[i], b.items[i]) <==> Norm(items[i]) == Norm(b.items[i]) {
          PyEqExactly(items[i], b.items[i]);
        }
        SameItems(items, b.items);
      } else if b.Arr? {
        assert |Norm(a).items| == |items| && |Norm(b).items| == |b.items|;
      }
    case Obj(members) =>
      if b.Obj? {
        forall k | k in members && k in b.members ensures PyEq(members[k], b.members[k]) <==> Norm(members[k]) == Norm(b.members[k]) {
          PyEqExactly(members[k], b.members[k]);
        }
        SameMembers(members, b.members);
      }
    case _ =>
  }

  lemma SameItems(x: seq<Json>, y: seq<Json>)
    requires |x| == |y|
    ensures Norm(Arr(x)) == Norm(Arr(y)) <==> forall i :: 0 <= i < |x| ==> Norm(x[i]) == Norm(y[i])
  {
    assert forall i :: 0 <= i < |x| ==> Norm(Arr(x)).items[i] == Norm(x[i]) && Norm(Arr(y)).items[i] == Norm(y[i]);
    if forall i :: 0 <= i < |x| ==> Norm(x[i]) == Norm(y[i]) {
      assert Norm(Arr(x)).items == Norm(Arr(y)).items;
    }
  }

  lemma SameMembers(x: map<string, Json>, y: map<string, Json>)
    ensures Norm(Obj(x)) == Norm(Obj(y)) <==> x.Keys == y.Keys && forall k :: k in x && k in y ==> Norm(x[k]) == Norm(y[k])
  {
    var u, v := Norm(Obj(x)).members, Norm(Obj(y)).members;
    assert u.Keys == x.Keys && v.Keys == y.Keys;
    assert (forall k :: k in x ==> u[k] == Norm(x[k])) && (forall k :: k in y ==> v[k] == Norm(y[k]));
    if x.Keys == y.Keys && forall k :: k in x && k in y ==> Norm(x[k]) == Norm(y[k]) {
      assert u == v;
    }
  }

  lemma BooleansAreNumbers(a: bool, b: bool, x: real)
    ensures (PyEq(Bool(a), Bool(b)) <==> a == b) && (PyEq(Bool(a), Num(x)) <==> x == if a then 1.0 else 0.0)
    ensures PyEq(Num(x), Bool(a)) <==> x == if a then 1.0 else 0.0
  {}

  /** A tree without booleans. */
  predicate NoBooleans(a: Json) {
    match a
    case Bool(_) => false
    case Arr(items) => forall i :: 0 <= i < |items| ==> NoBooleans(items[i])
    case Obj(members) => forall k :: k in members ==> NoBooleans(members[k])
    case _ => true
  }

  lemma {:induction false} NormIsIdentity(a: Json)
    requires NoBooleans(a)
    ensures Norm(a) == a
  {
    match a
    case Arr(items) =>
      forall i | 0 <= i < |items| ensures Norm(items[i]) == items[i] { NormIsIdentity(items[i]); }
      assert Norm(a).items == items;
    case Obj(members) =>
      forall k | k in members ensures Norm(members[k]) == members[k] { NormIsIdentity(members[k]); }
      assert Norm(a).members == members;
    case _ =>
  }

  /** For trees without booleans Python's == is equality. */
  lemma PyEqIsEquality(a: Json, b: Json)
    requires NoBooleans(a) && NoBooleans(b)
    ensures PyEq(a, b) <==> a == b
  {
    PyEqExactly(a, b);
    NormIsIdentity(a);
    NormIsIdentity(b);
  }

  // ----- MergePatch -----

  /** MergePatch(Target, Patch); a missing target counts as Null. */
  function MergePatch(target: Json, patch: Json): Json
    decreases patch
  {
    if !patch.Obj? then patch
    else
      var before := if target.Obj? then target.members else map[];
      Obj(map k | k in before.Keys + patch.members.Keys && !(k in patch.members && patch.members[k].Null?) ::
            if k in patch.members then MergePatch(if k in before then before[k] else Null, patch.members[k]) else before[k])
  }

  // ----- makepatch -----

  predicate Touched(o: map<string, Json>, m: map<string, Json>, k: string) {
    if k in o then k !in m || m[k].Null? || !PyEq(o[k], m[k]) else k in m
  }

  // A differing value that makepatch descends into.
  predicate Descends(o: map<string, Json>, m: map<string, Json>, k: string) {
    k in o && k in m && !m[k].Null? && !PyEq(o[k], m[k]) && o[k].Obj?
  }

  /** Descending into an object that is no object in modified: only an empty string or list goes unnoticed. */
  ghost predicate Raises(original: Json, modified: Json)
    requires original.Obj?
    decreases original
  {
    if modified.Obj? then
      exists k :: k in original.members && Descends(original.members, modified.members, k)
                  && Raises(original.members[k], modified.members[k])
    else
      !(original.members == map[] && (modified == Arr([]) || modified == Str("")))
  }

  ghost function PatchMembers(original: Json, modified: Json): map<string, Json>
    requires original.Obj? && !Raises(original, modified)
    decreases original
  {
    if !modified.Obj? then map[] else
      map k | k in original.members.Keys + modified.members.Keys && Touched(original.members, modified.members, k) ::
        if k !in modified.members then Null
        else if k in original.members && Descends(original.members, modified.members, k) then
          Obj(PatchMembers(original.members[k], modified.members[k]))
        else modified.members[k]
  }

  method MakePatch(original: Json, modified: Json) returns (r: Result<Json>)
    ensures r.Success? <==> original.Obj? && !Raises(original, modified)
    ensures r.Success? ==> r.value == Obj(PatchMembers(original, modified))
    ensures r.Failure? ==> r.error == AttributeError || r.error == TypeError
    decreases original
  {
    if !original.Obj? {
      return Failure(AttributeError);
    }
    var o := original.members;
    var patch: map<string, Json> := map[];
    var keys := o.Keys;
    while keys != {}
      invariant keys <= o.Keys && patch.Keys <= o.Keys - keys
      invariant keys != o.Keys ==> modified.Obj?
      invariant modified.Obj? ==> forall k :: k in o.Keys - keys ==> OriginalKeyDone(original, modified, patch, k)
    {
      var key :| key in keys;
      ghost var before := patch;
      if !modified.Obj? {
        return Failure(AttributeError);
      }
      var m := modified.members;
      if key !in m || m[key].Null? {
        patch := patch[key := Null];
      } else if !PyEq(o[key], m[key]) {
        if o[key].Obj? {
          var inner := MakePatch(o[key], m[key]);
          if inner.Failure? {
            return Failure(inner.error);
          }
          patch := patch[key := inner.value];
        } else {
          patch := patch[key := m[key]];
        }
      }
      assert OriginalKeyDone(original, modified, patch, key);
      forall k | k in o.Keys - keys
        ensures OriginalKeyDone(original, modified, patch, k)
      {
        assert OriginalKeyDone(original, modified, before, k);
      }
      keys := keys - {key};
      assert forall k :: k in o.Keys - keys ==> k == key || k in o.Keys - (keys + {key});
    }
    if !modified.Obj? {
      return if modified == Arr([]) || modified == Str("") then Success(Obj(map[])) else Failure(TypeError);
    }
    keys := modified.members.Keys;
    forall k | k in o.Keys
      ensures OriginalKeyDone(original, modified, patch, k)
    {
      assert k in o.Keys - {};
    }
    assert !Raises(original, modified);
    while keys != {}
      invariant keys <= modified.members.Keys && patch.Keys <= o.Keys + (modified.members.Keys - keys)
      invariant forall k :: k in o.Keys ==> OriginalKeyDone(original, modified, patch, k)
      invariant forall k :: k in modified.members.Keys - keys && k !in o ==> k in patch && patch[k] == modified.members[k]
    {
      var key :| key in keys;
      if key !in o {
        patch := patch[key := modified.members[key]];
      }
      keys := keys - {key};
    }
    assert patch == PatchMembers(original, modified);
    return Success(Obj(patch));
  }

  ghost predicate OriginalKeyDone(original: Json, modified: Json, patch: map<string, Json>, k: string)
    requires original.Obj? && modified.Obj? && k in original.members
  {
    var o, m := original.members, modified.members;
    && (k in patch <==> Touched(o, m, k))
    && (k in patch ==>
          if k !in m || m[k].Null? then patch[k] == Null
          else if o[k].Obj? then !Raises(o[k], m[k]) && patch[k] == Obj(PatchMembers(o[k], m[k]))
          else patch[k] == m[k])
    && (Descends(o, m, k) ==> !Raises(o[k], m[k]))
  }

  // ----- when the patch means modified -----

  /** No member of an object is null, except inside lists. */
  predicate NoNullMembers(j: Json) {
    j.Obj? ==> forall k :: k in j.members ==> !j.members[k].Null? && NoNullMembers(j.members[k])
  }

  /**
   No member that makepatch looks at is null in modified, none is an object in original and something else in
   modified, and no value it copies has null members.
   */
  predicate Good(original: Json, modified: Json)
    requires original.Obj?
    decreases original
  {
    modified.Obj? && forall k :: k in modified.members ==> GoodAt(original, modified, k)
  }

  predicate GoodAt(original: Json, modified: Json, k: string)
    requires original.Obj? && modified.Obj? && k in modified.members
    decreases original, 0
  {
    var o, m := original.members, modified.members;
    && !m[k].Null?
    && if k in o && PyEq(o[k], m[k]) then true
       else if k in o && o[k].Obj? then Good(o[k], m[k])
       else NoNullMembers(m[k])
  }

  lemma {:induction false} MergeIntoNothing(target: Json, patch: Json)
    requires !target.Obj?
    ensures PyEq(MergePatch(target, patch), patch) <==> NoNullMembers(patch)
    decreases patch
  {
    if !patch.Obj? {
      PyEqReflexive(patch);
    } else {
      var p, r := patch.members, MergePatch(target, patch).members;
      forall k | k in p && !p[k].Null?
        ensures k in r && (PyEq(r[k], p[k]) <==> NoNullMembers(p[k]))
      {
        MergeIntoNothing(Null, p[k]);
      }
    }
  }

  lemma {:induction false} GoodDoesNotRaise(original: Json, modified: Json)
    requires original.Obj? && Good(original, modified)
    ensures !Raises(original, modified)
    decreases original
  {
    forall k | k in original.members && Descends(original.members, modified.members, k)
      ensures !Raises(original.members[k], modified.members[k])
    {
      assert GoodAt(original, modified, k);
      GoodDoesNotRaise(original.members[k], modified.members[k]);
    }
  }

  ghost predicate AgreeAt(r: map<string, Json>, m: map<string, Json>, k: string) {
    (k in r <==> k in m) && (k in r && k in m ==> PyEq(r[k], m[k]))
  }

  lemma {:induction false} KeyIsRight(original: Json, modified: Json, k: string)
    requires original.Obj? && modified.Obj? && !Raises(original, modified)
    ensures AgreeAt(MergePatch(original, Obj(PatchMembers(original, modified))).members, modified.members, k)
            <==> (k in modified.members ==> GoodAt(original, modified, k))
    decreases original, 0
  {
    var o, m := original.members, modified.members;
    if k in m && !m[k].Null? && Touched(o, m, k) {
      if k in o && o[k].Obj? {
        assert Descends(o, m, k);
        PatchIsRight(o[k], m[k]);
      } else {
        MergeIntoNothing(if k in o then o[k] else Null, m[k]);
      }
    }
  }

  /** Applying the patch to original gives modified exactly when they are good for it. */
  lemma {:induction false} PatchIsRight(original: Json, modified: Json)
    requires original.Obj? && !Raises(original, modified)
    ensures PyEq(MergePatch(original, Obj(PatchMembers(original, modified))), modified) <==> Good(original, modified)
    decreases original, 1
  {
    if modified.Obj? {
      var r, m := MergePatch(original, Obj(PatchMembers(original, modified))).members, modified.members;
      forall k
        ensures AgreeAt(r, m, k) <==> (k in m ==> GoodAt(original, modified, k))
      {
        KeyIsRight(original, modified, k);
      }
      AgreeEverywhere(r, m);
    }
  }

  lemma AgreeEverywhere(r: map<string, Json>, m: map<string, Json>)
    ensures PyEq(Obj(r), Obj(m)) <==> forall k :: AgreeAt(r, m, k)
  {
    if forall k :: AgreeAt(r, m, k) {
      forall k ensures k in r.Keys <==> k in m.Keys { assert AgreeAt(r, m, k); }
      assert r.Keys == m.Keys;
      forall k | k in r ensures PyEq(r[k], m[k]) { assert AgreeAt(r, m, k); }
    }
  }

  /** makepatch succeeds with a patch that turns original into modified, for exactly these pairs. */
  lemma PatchCorrectExactly(original: Json, modified: Json)
    requires original.Obj?
    ensures !Raises(original, modified) && PyEq(MergePatch(original, Obj(PatchMembers(original, modified))), modified)
            <==> Good(original, modified)
  {
    if Good(original, modified) {
      GoodDoesNotRaise(original, modified);
    }
    if !Raises(original, modified) {
      PatchIsRight(original, modified);
    }
  }

  /** Without nulls as members and without objects replaced by something else, every pair is good. */
  predicate KeepsObjects(original: Json, modified: Json)
    requires original.Obj?
    decreases original
  {
    modified.Obj? && forall k :: k in original.members && k in modified.members && original.members[k].Obj? ==>
      KeepsObjects(original.members[k], modified.members[k])
  }

  lemma {:induction false} PlainTreesAreGood(original: Json, modified: Json)
    requires original.Obj? && KeepsObjects(original, modified) && NoNullMembers(modified)
    ensures Good(original, modified)
    decreases original
  {
    forall k | k in modified.members
      ensures GoodAt(original, modified, k)
    {
      if k in original.members && original.members[k].Obj? {
        PlainTreesAreGood(original.members[k], modified.members[k]);
      }
    }
  }

  /** The patch is empty exactly when the two are equal and no member of them is null. */
  lemma EmptyPatchExactly(original: Json, modified: Json)
    requires original.Obj? && modified.Obj? && !Raises(original, modified)
    ensures PatchMembers(original, modified) == map[] <==>
              PyEq(original, modified) && forall k :: k in modified.members ==> !modified.members[k].Null?
  {
    var o, m, p := original.members, modified.members, PatchMembers(original, modified);
    assert forall k :: k in p <==> k in o.Keys + m.Keys && Touched(o, m, k);
    if p == map[] {
      assert forall k :: k in o.Keys + m.Keys ==> !Touched(o, m, k);
      assert o.Keys == m.Keys;
    } else {
      var k :| k in p;
      assert Touched(o, m, k);
    }
  }

  // ----- trees without booleans -----

  lemma {:induction false} MergeHasNoBooleans(target: Json, patch: Json)
    requires NoBooleans(target) && NoBooleans(patch)
    ensures NoBooleans(MergePatch(target, patch))
    decreases patch
  {
    if patch.Obj? {
      var before := if target.Obj? then target.members else map[];
      var r := MergePatch(target, patch).members;
      forall k | k in r ensures NoBooleans(r[k]) {
        if k in patch.members {
          MergeHasNoBooleans(if k in before then before[k] else Null, patch.members[k]);
        }
      }
    }
  }

  lemma {:induction false} PatchHasNoBooleans(original: Json, modified: Json)
    requires original.Obj? && !Raises(original, modified) && NoBooleans(modified)
    ensures NoBooleans(Obj(PatchMembers(original, modified)))
    decreases original
  {
    if modified.Obj? {
      var o, m, p := original.members, modified.members, PatchMembers(original, modified);
      forall k | k in p ensures NoBooleans(p[k]) {
        if k in m && k in o && Descends(o, m, k) {
          PatchHasNoBooleans(o[k], m[k]);
        }
      }
    }
  }

  /** Without booleans the patch gives back modified itself, for exactly the good pairs, and is empty exactly for equal ones. */
  lemma PlainPatchCorrectExactly(original: Json, modified: Json)
    requires original.Obj? && NoBooleans(original) && NoBooleans(modified)
    ensures !Raises(original, modified) && MergePatch(original, Obj(PatchMembers(original, modified))) == modified
            <==> Good(original, modified)
    ensures modified.Obj? && !Raises(original, modified) ==>
              (PatchMembers(original, modified) == map[] <==>
                 original == modified && forall k :: k in modified.members ==> modified.members[k] != Null)
  {
    PatchCorrectExactly(original, modified);
    if !Raises(original, modified) {
      PatchHasNoBooleans(original, modified);
      MergeHasNoBooleans(original, Obj(PatchMembers(original, modified)));
      PyEqIsEquality(MergePatch(original, Obj(PatchMembers(original, modified))), modified);
      if modified.Obj? {
        EmptyPatchExactly(original, modified);
        PyEqIsEquality(original, modified);
      }
    }
  }

  /** Objects that stay objects, or vanish, are always descended into without failure. */
  predicate KeepsOrDropsObjects(original: Json, modified: Json)
    requires original.Obj?
    decreases original
  {
    modified.Obj? && forall k :: k in original.members && k in modified.members && original.members[k].Obj? ==>
      modified.members[k].Null? || KeepsOrDropsObjects(original.members[k], modified.members[k])
  }

  lemma {:induction false} KeptObjectsDoNotRaise(original: Json, modified: Json)
    requires original.Obj? && KeepsOrDropsObjects(original, modified)
    ensures !Raises(original, modified)
    decreases original
  {
    forall k | k in original.members && Descends(original.members, modified.members, k)
      ensures !Raises(original.members[k], modified.members[k])
    {
      KeptObjectsDoNotRaise(original.members[k], modified.members[k]);
    }
  }

  /** An object with members that turns into a text, a number or a list makes makepatch fail. */
  lemma ReplacedObjectRaises(original: Json, modified: Json, k: string)
    requires original.Obj? && modified.Obj? && k in original.members && k in modified.members
    requires original.members[k].Obj? && original.members[k].members != map[]
    requires !modified.members[k].Obj? && !modified.members[k].Null?
    ensures Raises(original, modified)
  {
    assert Descends(original.members, modified.members, k);
  }
}
