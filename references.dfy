/** Reference discovery (`checkFileReference` in resize.js): when a
    non-file entity is created or updated, every file it names is marked as
    no longer standalone. An entity with a truthy `edge` names only
    `edge.dst`; any other entity names every non-object value anywhere in
    its body. The metadata store's `getObjectType` is the parameter
    `typeOf`: `None` is a lookup whose promise rejects, `Some(t)` one that
    resolves to the type name `t`. */
module References {
  import opened Wrappers
  import opened JsValues

  /** The values the body walk hands to `getObjectType`, in walk order:
      every leaf that is not `typeof "object"`. Arrays are walked by index
      and objects by key. `null` is `typeof "object"`, so the walk descends
      into it and `Object.keys(null)` throws; the parent's per-key `try`
      swallows that, so `null` contributes nothing. */
  function Leaves(v: Json): (leaves: seq<Json>)
    ensures forall i :: 0 <= i < |leaves| ==> !IsObjectTyped(leaves[i])
    decreases v
  {
    match v
    case JNull => []
    case JArr(items) => LeavesOfItems(items)
    case JObj(members) => LeavesOfMembers(members)
    case _ => [v]
  }

  function LeavesOfItems(items: seq<Json>): (leaves: seq<Json>)
    ensures forall i :: 0 <= i < |leaves| ==> !IsObjectTyped(leaves[i])
    decreases items
  {
    if |items| == 0 then []
    else LeavesOfItems(items[..|items| - 1]) + Leaves(items[|items| - 1])
  }

  function LeavesOfMembers(members: seq<Member>): (leaves: seq<Json>)
    ensures forall i :: 0 <= i < |leaves| ==> !IsObjectTyped(leaves[i])
    decreases members
  {
    if |members| == 0 then []
    else LeavesOfMembers(members[..|members| - 1]) + Leaves(members[|members| - 1].value)
  }

  /** `extractFromObject(obj)`, pushing onto `found` every value it hands
      to `getObjectType`. It is only ever called on `typeof "object"`
      values. */
  method ExtractFromObject(obj: Json, found: seq<Json>) returns (result: seq<Json>)
    requires IsObjectTyped(obj)
    ensures result == found + Leaves(obj)
    decreases obj
  {
    match obj
    case JNull =>
      // Object.keys(null) throws before anything is pushed.
      result := found;
    case JArr(items) =>
      result := found;
      var i := 0;
      while i < |items|
        invariant 0 <= i <= |items|
        invariant result == found + LeavesOfItems(items[..i])
      {
        var val := items[i];
        assert items[..i + 1][..i] == items[..i];
        assert LeavesOfItems(items[..i + 1]) == LeavesOfItems(items[..i]) + Leaves(val);
        if IsObjectTyped(val) {
          result := ExtractFromObject(val, result);
        } else {
          assert Leaves(val) == [val];
          result := result + [val];
        }
        i := i + 1;
      }
      assert items[..|items|] == items;
    case JObj(members) =>
      result := found;
      var i := 0;
      while i < |members|
        invariant 0 <= i <= |members|
        invariant result == found + LeavesOfMembers(members[..i])
      {
        var val := members[i].value;
        assert members[..i + 1][..i] == members[..i];
        assert LeavesOfMembers(members[..i + 1]) == LeavesOfMembers(members[..i]) + Leaves(val);
        if IsObjectTyped(val) {
          result := ExtractFromObject(val, result);
        } else {
          assert Leaves(val) == [val];
          result := result + [val];
        }
        i := i + 1;
      }
      assert members[..|members|] == members;
  }

  /** `event.current.edge.dst`; a missing `dst` (JavaScript `undefined`) is
      looked up as `null`. */
  function EdgeDst(edge: Json): Json
  {
    if edge.JObj? then
      match Get(edge.members, "dst")
      case Some(dst) => dst
      case None => JNull
    else JNull
  }

  /** `if (event.current.edge)`. */
  predicate HasEdge(current: Entity)
  {
    Get(current, "edge").Some? && Truthy(Get(current, "edge").value)
  }

  /** The value reached from `v` by following `path`: an index into an
      array, or a property position (`Object.keys` order) into an object. */
  function At(v: Json, path: seq<nat>): Option<Json>
    decreases |path|
  {
    if |path| == 0 then Some(v)
    else
      match v
      case JArr(items) => if path[0] < |items| then At(items[path[0]], path[1..]) else None
      case JObj(members) => if path[0] < |members| then At(members[path[0]].value, path[1..]) else None
      case _ => None
  }

  lemma {:induction false} ItemLeavesIncluded(items: seq<Json>, k: nat, x: Json)
    requires k < |items| && x in Leaves(items[k])
    ensures x in LeavesOfItems(items)
    decreases |items|
  {
    if k < |items| - 1 {
      var init := items[..|items| - 1];
      assert init[k] == items[k];
      ItemLeavesIncluded(init, k, x);
    }
  }

  lemma {:induction false} MemberLeavesIncluded(members: seq<Member>, k: nat, x: Json)
    requires k < |members| && x in Leaves(members[k].value)
    ensures x in LeavesOfMembers(members)
    decreases |members|
  {
    if k < |members| - 1 {
      var init := members[..|members| - 1];
      assert init[k] == members[k];
      MemberLeavesIncluded(init, k, x);
    }
  }

  /** Every non-object value at any depth of an entity is looked up. */
  lemma {:induction false} LeafAtAnyDepth(v: Json, path: seq<nat>, x: Json)
    requires At(v, path) == Some(x) && !IsObjectTyped(x)
    ensures x in Leaves(v)
    decreases |path|
  {
    if |path| == 0 {
      assert v == x;
    } else {
      match v
      case JArr(items) =>
        LeafAtAnyDepth(items[path[0]], path[1..], x);
        ItemLeavesIncluded(items, path[0], x);
      case JObj(members) =>
        LeafAtAnyDepth(members[path[0]].value, path[1..], x);
        MemberLeavesIncluded(members, path[0], x);
    }
  }

  lemma {:induction false} ItemOfLeaf(items: seq<Json>, x: Json) returns (k: nat)
    requires x in LeavesOfItems(items)
    ensures k < |items| && x in Leaves(items[k])
    decreases |items|
  {
    var init := items[..|items| - 1];
    if x in Leaves(items[|items| - 1]) {
      k := |items| - 1;
    } else {
      k := ItemOfLeaf(init, x);
      assert init[k] == items[k];
    }
  }

  lemma {:induction false} MemberOfLeaf(members: seq<Member>, x: Json) returns (k: nat)
    requires x in LeavesOfMembers(members)
    ensures k < |members| && x in Leaves(members[k].value)
    decreases |members|
  {
    var init := members[..|members| - 1];
    if x in Leaves(members[|members| - 1].value) {
      k := |members| - 1;
    } else {
      k := MemberOfLeaf(init, x);
      assert init[k] == members[k];
    }
  }

  /** Conversely, everything looked up is a non-object value found at some
      path of the entity. */
  lemma {:induction false} LeafHasPath(v: Json, x: Json) returns (path: seq<nat>)
    requires x in Leaves(v)
    ensures At(v, path) == Some(x) && !IsObjectTyped(x)
    decreases v
  {
    match v
    case JArr(items) =>
      var k := ItemOfLeaf(items, x);
      var rest := LeafHasPath(items[k], x);
      path := [k] + rest;
      assert path[1..] == rest;
    case JObj(members) =>
      var k := MemberOfLeaf(members, x);
      var rest := LeafHasPath(members[k].value, x);
      path := [k] + rest;
      assert path[1..] == rest;
    case _ =>
      path := [];
  }

  /** `x` is found at some path of `v`. */
  ghost predicate Reachable(v: Json, x: Json)
  {
    exists p :: At(v, p) == Some(x)
  }

  /** The body walk looks up exactly the non-object values found at some
      path of the value walked. */
  lemma LeavesAreReachable(v: Json)
    ensures forall x :: x in Leaves(v) <==> !IsObjectTyped(x) && Reachable(v, x)
  {
    forall x | x in Leaves(v)
      ensures Reachable(v, x)
    {
      var p := LeafHasPath(v, x);
    }
    forall x, p | At(v, p) == Some(x) && !IsObjectTyped(x)
      ensures x in Leaves(v)
    {
      LeafAtAnyDepth(v, p, x);
    }
  }

  /** The ids handed to `getObjectType`: for an edge event, the edge's
      `dst` alone, whatever else the entity holds; otherwise every
      non-object value at any depth of the entity, its own fields
      included, and nothing else. */
  function Candidates(current: Entity): (ids: seq<Json>)
    ensures HasEdge(current) ==> ids == [EdgeDst(Get(current, "edge").value)]
    ensures !HasEdge(current) ==>
      forall x :: x in ids <==> !IsObjectTyped(x) && Reachable(JObj(current), x)
  {
    if HasEdge(current) then [EdgeDst(Get(current, "edge").value)]
    else
      LeavesAreReachable(JObj(current));
      Leaves(JObj(current))
  }

  /** `filesIds` once `Promise.all(promises)` settles: `None` when some
      lookup rejected (the `then` never runs), otherwise the candidates whose
      type is `"file"`, in candidate order. */
  function FileIds(candidates: seq<Json>, typeOf: Json -> Option<string>): (r: Option<seq<Json>>)
    ensures r.Some? <==> forall i :: 0 <= i < |candidates| ==> typeOf(candidates[i]).Some?
    ensures r.Some? ==> forall x :: x in r.value <==> x in candidates && typeOf(x) == Some("file")
    decreases |candidates|
  {
    if |candidates| == 0 then Some([])
    else
      var init := candidates[..|candidates| - 1];
      var last := candidates[|candidates| - 1];
      assert forall i :: 0 <= i < |init| ==> init[i] == candidates[i];
      assert candidates == init + [last];
      match FileIds(init, typeOf)
      case None => None
      case Some(ids) =>
        match typeOf(last)
        case None => None
        case Some(t) => if t == "file" then Some(ids + [last]) else Some(ids)
  }

  /** `clientData.updateObject(file.id, {standalone: false})`: the only
      patch reference discovery ever writes. */
  datatype StandaloneUpdate = MarkReferenced(id: Json)

  /** The updates one `checkFileReference` call issues. */
  function ReferenceUpdates(current: Entity, typeOf: Json -> Option<string>): (updates: seq<StandaloneUpdate>)
    ensures forall k :: 0 <= k < |updates| ==>
      updates[k].id in Candidates(current) && typeOf(updates[k].id) == Some("file")
    ensures (exists i :: 0 <= i < |Candidates(current)| && typeOf(Candidates(current)[i]).None?) ==> updates == []
  {
    match FileIds(Candidates(current), typeOf)
    case None => []
    case Some(ids) => seq(|ids|, k requires 0 <= k < |ids| => MarkReferenced(ids[k]))
  }

  /** `Promise.all(promises).then(…)`, with the lookups settled one
      after another: the ids whose type is `"file"`, or `None` once a
      lookup rejects. */
  method SettleLookups(promises: seq<Json>, typeOf: Json -> Option<string>)
    returns (filesIds: Option<seq<Json>>)
    ensures filesIds == FileIds(promises, typeOf)
  {
    var found: seq<Json> := [];
    var rejected := false;
    var i := 0;
    while i < |promises|
      invariant 0 <= i <= |promises|
      invariant rejected <==> FileIds(promises[..i], typeOf).None?
      invariant !rejected ==> FileIds(promises[..i], typeOf) == Some(found)
    {
      assert promises[..i + 1][..i] == promises[..i];
      match typeOf(promises[i]) {
        case None =>
          rejected := true;
        case Some(t) =>
          if t == "file" {
            found := found + [promises[i]];
          }
      }
      i := i + 1;
    }
    assert promises[..|promises|] == promises;
    filesIds := if rejected then None else Some(found);
  }

  /** `checkFileReference(clientData, event)` for `event.current == current`. */
  method CheckFileReference(current: Entity, typeOf: Json -> Option<string>)
    returns (updates: seq<StandaloneUpdate>)
    ensures updates == ReferenceUpdates(current, typeOf)
  {
    var promises: seq<Json>;
    var edge := Get(current, "edge");
    if edge.Some? && Truthy(edge.value) {
      promises := [EdgeDst(edge.value)];
    } else {
      promises := ExtractFromObject(JObj(current), []);
      assert [] + Leaves(JObj(current)) == Leaves(JObj(current));
    }
    assert promises == Candidates(current);
    var filesIds := SettleLookups(promises, typeOf);
    match filesIds {
      case None =>
        updates := [];
      case Some(ids) =>
        updates := seq(|ids|, k requires 0 <= k < |ids| => MarkReferenced(ids[k]));
    }
  }
}

/** Properties of reference discovery. */
module ReferenceProperties {
  import opened Wrappers
  import opened JsValues
  import opened References

  lemma {:induction false} MemberLeavesAppend(a: seq<Member>, b: seq<Member>)
    ensures LeavesOfMembers(a + b) == LeavesOfMembers(a) + LeavesOfMembers(b)
    decreases |b|
  {
    if |b| > 0 {
      var b' := b[..|b| - 1];
      assert (a + b)[..|a + b| - 1] == a + b';
      MemberLeavesAppend(a, b');
    } else {
      assert a + b == a;
    }
  }

  /** A `null` property contributes no lookup, and the properties after it
      are still walked. */
  lemma NullPropertySkipped(before: seq<Member>, key: string, after: seq<Member>)
    ensures Leaves(JObj(before + [Member(key, JNull)] + after))
         == Leaves(JObj(before + after))
  {
    MemberLeavesAppend(before + [Member(key, JNull)], after);
    MemberLeavesAppend(before, [Member(key, JNull)]);
    MemberLeavesAppend(before, after);
  }

  /** With an `edge`, only `edge.dst` is looked up: the file it names is
      marked if it is one, and the rest of the body plays no part. */
  lemma EdgeChecksDstOnly(current: Entity, typeOf: Json -> Option<string>)
    requires HasEdge(current)
    ensures var dst := EdgeDst(Get(current, "edge").value);
      ReferenceUpdates(current, typeOf)
        == if typeOf(dst) == Some("file") then [MarkReferenced(dst)] else []
  {
    var dst := EdgeDst(Get(current, "edge").value);
    var c := [dst];
    assert Candidates(current) == c;
    assert c[..|c| - 1] == [] && c[|c| - 1] == dst;
    assert FileIds([], typeOf) == Some([]);
    var u := ReferenceUpdates(current, typeOf);
    if typeOf(dst) == Some("file") {
      assert FileIds(c, typeOf) == Some([] + [dst]);
      assert |u| == 1 && u[0] == MarkReferenced(dst);
    }
  }

  /** Without an `edge`, once every lookup resolves, exactly the body's
      leaves whose type is `"file"` are marked non-standalone. */
  lemma {:induction false} BodyScanMarksExactlyFiles(current: Entity, typeOf: Json -> Option<string>)
    requires !HasEdge(current)
    requires forall x :: x in Leaves(JObj(current)) ==> typeOf(x).Some?
    ensures forall x ::
      (MarkReferenced(x) in ReferenceUpdates(current, typeOf) <==>
       x in Leaves(JObj(current)) && typeOf(x) == Some("file"))
  {
    var leaves := Leaves(JObj(current));
    assert forall i :: 0 <= i < |leaves| ==> leaves[i] in leaves;
    var ids := FileIds(leaves, typeOf).value;
    var updates := ReferenceUpdates(current, typeOf);
    forall x
      ensures MarkReferenced(x) in updates <==> x in leaves && typeOf(x) == Some("file")
    {
      if MarkReferenced(x) in updates {
        var k :| 0 <= k < |updates| && updates[k] == MarkReferenced(x);
        assert ids[k] == x;
      }
      if x in ids {
        var k :| 0 <= k < |ids| && ids[k] == x;
        assert updates[k] == MarkReferenced(x);
      }
    }
  }

  /** A single rejected lookup cancels every update of the call. */
  lemma RejectedLookupMarksNothing(current: Entity, typeOf: Json -> Option<string>, x: Json)
    requires x in Candidates(current) && typeOf(x).None?
    ensures ReferenceUpdates(current, typeOf) == []
  {
  }

  lemma {:induction false} NoFileAmong(candidates: seq<Json>, typeOf: Json -> Option<string>)
    requires forall x :: x in candidates ==> typeOf(x) != Some("file")
    ensures FileIds(candidates, typeOf).Some? ==> FileIds(candidates, typeOf).value == []
    decreases |candidates|
  {
    if |candidates| > 0 {
      var init := candidates[..|candidates| - 1];
      assert forall x :: x in init ==> x in candidates;
      NoFileAmong(init, typeOf);
      assert candidates[|candidates| - 1] in candidates;
    }
  }

  /** An entity naming no file changes no file. */
  lemma {:induction false} NoFileNoUpdate(current: Entity, typeOf: Json -> Option<string>)
    requires forall x :: x in Candidates(current) ==> typeOf(x) != Some("file")
    ensures ReferenceUpdates(current, typeOf) == []
  {
    NoFileAmong(Candidates(current), typeOf);
  }

  lemma ScalarLeaf(v: Json)
    requires !IsObjectTyped(v)
    ensures Leaves(v) == [v]
  {
    match v { case _ => }
  }

  /** The walk of `{k1: v, k2: {k3: id}}` looks up `v`, then `id`. */
  lemma {:induction false} NestedLeaves(k1: string, v: Json, k2: string, k3: string, id: Json)
    requires !IsObjectTyped(v) && !IsObjectTyped(id)
    ensures Leaves(JObj([Member(k1, v), Member(k2, JObj([Member(k3, id)]))])) == [v, id]
  {
    var inner := [Member(k3, id)];
    var entity := [Member(k1, v), Member(k2, JObj(inner))];
    ScalarLeaf(v);
    ScalarLeaf(id);
    assert inner[..0] == [];
    assert LeavesOfMembers(inner) == LeavesOfMembers(inner[..0]) + Leaves(inner[0].value);
    assert entity[..1][..0] == [];
    assert LeavesOfMembers(entity[..1]) == LeavesOfMembers(entity[..1][..0]) + Leaves(v);
    assert LeavesOfMembers(entity) == LeavesOfMembers(entity[..1]) + Leaves(JObj(inner));
  }

  /** Looking up `[v, id]`, where only `id` is a file, yields `[id]`. */
  lemma {:induction false} OneFileAmongTwo(v: Json, id: Json, typeOf: Json -> Option<string>)
    requires typeOf(id) == Some("file")
    requires typeOf(v).Some? && typeOf(v) != Some("file")
    ensures FileIds([v, id], typeOf) == Some([id])
  {
    var c := [v, id];
    assert c[..1] == [v] && [v][..0] == [];
    assert FileIds([v], typeOf) == Some([]);
    assert FileIds(c, typeOf) == Some([] + [id]);
    assert [] + [id] == [id];
  }

  /** An entity `{k1: v, k2: {k3: id}}` without an edge, where `id` is a
      file and `v` resolves to another type, marks `id` and nothing else. */
  lemma NestedFileMarked(
    k1: string, v: Json, k2: string, k3: string, id: Json, typeOf: Json -> Option<string>)
    requires k1 != "edge" && k2 != "edge"
    requires !IsObjectTyped(v) && !IsObjectTyped(id)
    requires typeOf(id) == Some("file")
    requires typeOf(v).Some? && typeOf(v) != Some("file")
    ensures ReferenceUpdates([Member(k1, v), Member(k2, JObj([Member(k3, id)]))], typeOf)
         == [MarkReferenced(id)]
  {
    var entity := [Member(k1, v), Member(k2, JObj([Member(k3, id)]))];
    assert Get(entity, "edge") == None by {
      assert entity[1..][1..] == [];
    }
    NestedLeaves(k1, v, k2, k3, id);
    OneFileAmongTwo(v, id, typeOf);
    var u := ReferenceUpdates(entity, typeOf);
    assert |u| == 1 && u[0] == MarkReferenced(id);
  }

  /** The discovery scenario: creating `{name: "avatar", profile:
      {picture: "a1"}}`, where `a1` is a file, marks `a1` and nothing
      else. */
  lemma AvatarScenario(typeOf: Json -> Option<string>)
    requires typeOf(JStr("a1")) == Some("file")
    requires typeOf(JStr("avatar")) == Some("name")
    ensures ReferenceUpdates(
        [Member("name", JStr("avatar")),
         Member("profile", JObj([Member("picture", JStr("a1"))]))], typeOf)
      == [MarkReferenced(JStr("a1"))]
  {
    NestedFileMarked("name", JStr("avatar"), "profile", "picture", JStr("a1"), typeOf);
  }
}
